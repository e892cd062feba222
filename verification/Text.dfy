/** The parts of Go's `strings` and `strconv` packages that resource names go through. */
module Text {
  import opened Common

  const MAX_INT: int := 0x7fff_ffff_ffff_ffff
  const MIN_INT: int := -0x8000_0000_0000_0000

  predicate IsInt(n: int) { MIN_INT <= n <= MAX_INT }

  // ---- text that differs in case only ----

  /** Equal but for the case of ASCII letters. */
  predicate SameButCase(x: char, y: char) {
    x == y || ('A' <= x <= 'Z' && y as int == x as int + 32) || ('A' <= y <= 'Z' && x as int == y as int + 32)
  }

  predicate SameText(a: string, b: string) {
    |a| == |b| && forall i :: 0 <= i < |a| ==> SameButCase(a[i], b[i])
  }

  // ---- strings.Split and strings.Join with a one-character separator ----

  function Split(s: string, sep: char): (parts: seq<string>)
    ensures |parts| >= 1
  {
    if s == "" then [""]
    else
      var rest := Split(s[1..], sep);
      if s[0] == sep then [""] + rest
      else [[s[0]] + rest[0]] + rest[1..]
  }

  function Join(parts: seq<string>, sep: char): string {
    if |parts| == 0 then ""
    else if |parts| == 1 then parts[0]
    else parts[0] + [sep] + Join(parts[1..], sep)
  }

  lemma {:induction false} JoinOfSplit(s: string, sep: char)
    ensures Join(Split(s, sep), sep) == s
    ensures forall i :: 0 <= i < |Split(s, sep)| ==> sep !in Split(s, sep)[i]
  {
    if s != "" {
      var rest := Split(s[1..], sep);
      JoinOfSplit(s[1..], sep);
      if s[0] == sep {
        assert ([""] + rest)[1..] == rest;
      } else {
        var parts := [[s[0]] + rest[0]] + rest[1..];
        assert parts[1..] == rest[1..];
        assert Join(parts, sep) == [s[0]] + Join(rest, sep);
      }
    }
  }

  lemma {:induction false} SplitPrefix(a: string, rest: string, sep: char)
    requires sep !in a
    ensures Split(a, sep) == [a]
    ensures Split(a + [sep] + rest, sep) == [a] + Split(rest, sep)
  {
    if a == "" {
      assert (a + [sep] + rest)[1..] == rest;
    } else {
      SplitPrefix(a[1..], rest, sep);
      assert (a + [sep] + rest)[1..] == a[1..] + [sep] + rest;
      assert a == [a[0]] + a[1..];
    }
  }

  lemma {:induction false} SplitOfJoin(parts: seq<string>, sep: char)
    requires |parts| >= 1
    requires forall i :: 0 <= i < |parts| ==> sep !in parts[i]
    ensures Split(Join(parts, sep), sep) == parts
  {
    if |parts| == 1 {
      SplitPrefix(parts[0], "", sep);
      assert parts == [parts[0]];
    } else {
      SplitOfJoin(parts[1..], sep);
      SplitPrefix(parts[0], Join(parts[1..], sep), sep);
      assert parts == [parts[0]] + parts[1..];
    }
  }

  /** strings.SplitN(s, sep, 2): everything before the first separator, and everything after it. */
  function Cut(s: string, sep: char): (r: Option<(string, string)>)
    ensures r.None? <==> sep !in s
    ensures r.Some? ==> sep !in r.value.0 && s == r.value.0 + [sep] + r.value.1
  {
    if s == "" then None
    else if s[0] == sep then Some(("", s[1..]))
    else
      match Cut(s[1..], sep)
      case None => None
      case Some((a, b)) => Some(([s[0]] + a, b))
  }

  lemma {:induction false} CutAt(a: string, b: string, sep: char)
    requires sep !in a
    ensures Cut(a + [sep] + b, sep) == Some((a, b))
  {
    if a == "" {
      assert (a + [sep] + b)[1..] == b;
    } else {
      CutAt(a[1..], b, sep);
      assert (a + [sep] + b)[1..] == a[1..] + [sep] + b;
      assert a == [a[0]] + a[1..];
    }
  }

  // ---- strconv.Itoa and strconv.Atoi on a 64-bit int ----

  predicate IsDigit(c: char) { '0' <= c <= '9' }

  predicate AllDigits(s: string) { forall i :: 0 <= i < |s| ==> IsDigit(s[i]) }

  function DigitChar(d: nat): (c: char)
    requires d < 10
    ensures IsDigit(c)
  {
    '0' + d as char
  }

  function DigitValue(c: char): (d: nat)
    requires IsDigit(c)
    ensures d < 10 && DigitChar(d) == c
  {
    (c - '0') as nat
  }

  function Digits(n: nat): string {
    if n < 10 then [DigitChar(n)] else Digits(n / 10) + [DigitChar(n % 10)]
  }

  function Value(s: string): nat
    requires AllDigits(s)
  {
    if s == "" then 0 else 10 * Value(s[..|s| - 1]) + DigitValue(s[|s| - 1])
  }

  function Itoa(n: int): string {
    if n < 0 then "-" + Digits(-n) else Digits(n)
  }

  function Atoi(s: string): Option<int> {
    var signed := s != "" && (s[0] == '-' || s[0] == '+');
    var body := if signed then s[1..] else s;
    if body == "" || !AllDigits(body) then None
    else
      var v: int := Value(body);
      var n := if signed && s[0] == '-' then -v else v;
      if IsInt(n) then Some(n) else None
  }

  /** Decimal digits with no superfluous leading zero. */
  predicate PlainDigits(s: string) {
    s != "" && AllDigits(s) && (|s| == 1 || s[0] != '0')
  }

  /** No plus sign, no leading zero, no minus zero. */
  predicate CanonicalDecimal(s: string) {
    if s != "" && s[0] == '-' then PlainDigits(s[1..]) && s[1] != '0' else PlainDigits(s)
  }

  lemma {:induction false} ValueOfDigits(n: nat)
    ensures PlainDigits(Digits(n)) && Value(Digits(n)) == n
    ensures n > 0 ==> Digits(n)[0] != '0'
  {
    if n < 10 {
      assert Digits(n)[..0] == "";
    } else {
      ValueOfDigits(n / 10);
      assert Digits(n)[..|Digits(n)| - 1] == Digits(n / 10);
    }
  }

  lemma {:induction false} DigitsOfValue(s: string)
    requires PlainDigits(s)
    ensures Digits(Value(s)) == s
    ensures s[0] != '0' ==> Value(s) > 0
  {
    var init := s[..|s| - 1];
    assert s == init + [s[|s| - 1]];
    if init == "" {
      assert Value(init) == 0;
    } else {
      DigitsOfValue(init);
    }
  }

  lemma {:induction false} AtoiOfItoa(n: int)
    requires IsInt(n)
    ensures Atoi(Itoa(n)) == Some(n)
    ensures CanonicalDecimal(Itoa(n))
    ensures Itoa(n) != "" && '/' !in Itoa(n) && '.' !in Itoa(n)
  {
    var m: nat := if n < 0 then -n else n;
    var body := Digits(m);
    ValueOfDigits(m);
    hide Digits;
    hide Value;
    if n < 0 {
      var s := Itoa(n);
      assert s == "-" + body && s[0] == '-' && s[1..] == body;
      NoSlashInDigits(body);
      assert '/' !in s && '.' !in s;
    } else {
      assert body[0] != '-' && body[0] != '+' by { assert IsDigit(body[0]); }
      NoSlashInDigits(body);
    }
  }

  lemma NoSlashInDigits(s: string)
    requires AllDigits(s)
    ensures '/' !in s && '.' !in s
  {
    forall i | 0 <= i < |s| ensures s[i] != '/' && s[i] != '.' {
      assert IsDigit(s[i]);
    }
  }

  /** Printing an accepted number gives back the same text exactly when the text was canonical. */
  lemma {:induction false} ItoaOfAtoi(s: string)
    requires Atoi(s).Some?
    ensures Itoa(Atoi(s).value) == s <==> CanonicalDecimal(s)
  {
    if CanonicalDecimal(s) {
      var body := if s[0] == '-' then s[1..] else s;
      DigitsOfValue(body);
      if s[0] == '-' {
        assert s == "-" + s[1..];
      }
    } else {
      AtoiOfItoa(Atoi(s).value);
    }
  }
}
