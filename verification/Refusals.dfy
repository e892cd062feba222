/** Exactly which routes are translated, said of the spec alone. */
module Refusals {
  import opened Common
  import opened Text
  import opened Spec
  import opened Routes

  // ---- matchers ----

  /** The first criterion that is set has to be usable: a regular expression needs the engine re2 and some text. */
  predicate ValidMetadata(m: MetadataMatcher) {
    || m.exact.Some?
    || (m.exact.None? && m.regex.Some? && m.regex.value.engine == "re2" && m.regex.value.regex != "")
    || (m.exact.None? && m.regex.None? && (m.range.Some? || m.present.Some? || m.prefix.Some? || m.suffix.Some?))
  }

  lemma MetadataTranslatesExactly(m: MetadataMatcher)
    ensures MakeMetadataMatcher(m).Ok? <==> ValidMetadata(m)
  {}

  /** Denominators are read in any case. */
  predicate ValidFraction(f: Fraction) {
    SameText(f.denominator, "HUNDRED") || SameText(f.denominator, "TEN_THOUSAND") || SameText(f.denominator, "MILLION")
  }

  lemma UpperCaseIs(s: string, word: string)
    requires forall i :: 0 <= i < |word| ==> !('a' <= word[i] <= 'z')
    ensures UpperCase(s) == word <==> SameText(s, word)
  {
    assert |UpperCase(s)| == |s|;
    if UpperCase(s) == word {
      forall i | 0 <= i < |s| ensures SameButCase(s[i], word[i]) {
        assert UpperCase(s)[i] == word[i];
      }
    }
    if SameText(s, word) {
      forall i | 0 <= i < |s| ensures UpperCase(s)[i] == word[i] {}
      assert UpperCase(s) == word;
    }
  }

  lemma FractionIs(f: Fraction)
    ensures MakeFractionalPercent(f) ==
            if SameText(f.denominator, "HUNDRED") then Ok(FractionalPercent(f.numerator, HUNDRED))
            else if SameText(f.denominator, "TEN_THOUSAND") then Ok(FractionalPercent(f.numerator, TEN_THOUSAND))
            else if SameText(f.denominator, "MILLION") then Ok(FractionalPercent(f.numerator, MILLION))
            else Err
  {
    UpperCaseIs(f.denominator, "HUNDRED");
    UpperCaseIs(f.denominator, "TEN_THOUSAND");
    UpperCaseIs(f.denominator, "MILLION");
    hide UpperCase;
    hide SameText;
  }

  predicate ValidMatcher(m: RouteMatcher) {
    && (m.fraction.Some? ==> ValidFraction(m.fraction.value))
    && forall i :: 0 <= i < |m.metadata| ==> ValidMetadata(m.metadata[i])
  }

  // ---- routes ----

  /** A hash policy takes a metadata entry or the channel. */
  predicate ValidHashPolicy(p: HashPolicy) {
    p.metadata != "" || p.channel == Some(true)
  }

  predicate AllFaults(chain: seq<Interceptor>) {
    forall i :: 0 <= i < |chain| ==> chain[i].Fault?
  }

  predicate ValidRoute(spec: Route) {
    && (spec.matcher.Some? ==> ValidMatcher(spec.matcher.value))
    && AllFaults(spec.interceptors)
    && (forall i :: 0 <= i < |spec.backends| ==> AllFaults(spec.backends[i].interceptors))
    && (forall i :: 0 <= i < |spec.hashPolicy| ==> ValidHashPolicy(spec.hashPolicy[i]))
  }

  lemma MatchTranslatesExactly(spec: Route)
    ensures TranslatableMatch(spec) <==> (spec.matcher.Some? ==> ValidMatcher(spec.matcher.value))
  {
    if spec.matcher.Some? {
      var m := spec.matcher.value;
      if m.fraction.Some? {
        FractionIs(m.fraction.value);
      }
      forall i | 0 <= i < |m.metadata|
        ensures MakeMetadataMatcher(m.metadata[i]).Ok? <==> ValidMetadata(m.metadata[i])
      {
        MetadataTranslatesExactly(m.metadata[i]);
      }
      hide MakeMetadataMatcher;
      hide MakeFractionalPercent;
      hide ValidMetadata;
      hide SameText;
    }
  }

  /** A listener is translated exactly if all its routes are valid. */
  lemma ListenerTranslatesExactly(listenerName: string, listener: Listener)
    ensures RouteConfigOf(listenerName, listener).Ok? <==> forall i :: 0 <= i < |listener.routes| ==> ValidRoute(listener.routes[i])
  {
    forall i | 0 <= i < |listener.routes|
      ensures Translatable(listener.routes[i]) <==> ValidRoute(listener.routes[i])
    {
      RouteTranslatesExactly(listener.routes[i]);
    }
    hide Translatable;
    hide ValidRoute;
  }

  lemma RouteTranslatesExactly(spec: Route)
    ensures Translatable(spec) <==> ValidRoute(spec)
  {
    MatchTranslatesExactly(spec);
    hide TranslatableMatch;
    hide ValidMatcher;
  }
}
