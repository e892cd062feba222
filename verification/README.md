# Verification of the gRPC traffic controller's core

The gRPC traffic controller is an xDS control plane: it turns `GRPCListener` objects and Kubernetes
EndpointSlices into LDS, CDS and EDS resources and pushes updates to the gRPC streams that watch them. This
Dafny project models its hard parts and proves what they promise.

* **Watch and notify** (`Registry`, `Protocol`, `RegistryInvariant`, `Responses`, `Freshness`,
  `FreshnessSteps`, `NoLostChange`, `Lifecycle`, `Starting`, `Progress`, `Settling`, `Building`, `Silence`, `Withheld`,
  `Spelling`, `LostUpdate`, `Relabel`). The subscription registry is given twice: as classes with the fields the Go code
  updates, and as a value whose operations are the lock sections. On top of the value stands a transition system in
  which every lock section, channel operation and lister call is one step, and the steps of watches, event
  handlers, delivery goroutines and the environment interleave freely. The main results hold for every run: no
  change is lost, the registry agrees with the watchers' own records, deliveries are conserved, responses are well
  formed, a cancelled watch can always finish and let the senders that wait for it go, and once the environment
  stops every schedule ends in a settled state where every live watch is current.
* **Endpoint grouping** (`Endpoints`, `Grouping`, `SliceOrder`, `Assignments`, `Places`, `Served`). The loops that
  split ready endpoints by topology hints into at most two priority groups, and the flat form beside them: stable
  partition, contiguous priorities, refinement, what the order of slices means, and what losing one slice changes.
  `Served` describes the assignment that a name resolves to from the stored slices, the node and the spec alone.
* **Names and translation** (`Text`, `Paths`, `Names`, `Backends`, `Routes`, `Refusals`, `Routing`, `Hashing`,
  `Resolver`, `Outputs`, `Notify`, `Handlers`). Printing and parsing of names through `path.Join`, `Itoa` and `Atoi`;
  the translation of routes, whose meaning is compared with the reading of gRFC A28 and, for hash policies, of gRFC
  A42; resolution, with every resource and its versions described from the stored objects (`Outputs`); and the change
  test that has to cover everything resolution reads.

`dafny verify dfyconfig.toml` checks the whole project.

Some results say where the code does less than one would expect, each with the exact condition and the failing side
exhibited.

* Updates follow only the canonical spelling of a backend name. The parser accepts other spellings (any words
  in place of `route` and `backend`, leading zeros, a plus sign), and such a name resolves, but no event
  ever notifies it. `LostUpdate.UpdatesFollowExactlyCanonicalNames` proves that a change is never lost exactly
  for canonical names (and for names that no stored backend can have), and builds a run that loses an update
  for every other one.
* Handlers look at the new object only. An update that takes a slice away from a service by changing its
  service-name label is missed by the backends that read the old slice. `Relabel.UpdatesAreFollowedExactly` proves
  that an update of a slice is followed in every state exactly when it is not missed in this way or the name does
  not resolve afterwards, and builds a losing run for every other update; `NoLostChange.NoChangeIsLost` is about
  the runs without such updates of the name in question. This counts content with an outdated list of versions as
  stale. What the client sees of it is said separately: by `Relabel.AssignmentIsStaleExactly` a settled watch is left
  with a stale assignment, on every schedule until the environment moves, exactly if the old slice had a ready
  endpoint, and by `Relabel.MissedChangesResponse` the bytes that the version is hashed from change exactly if the
  old slice had a non-empty version.
* The initial response is sent for all requested names or for none. By `Withheld.AnsweredWhollyOrNotAtAll` a watch
  started while nothing is in flight settles, on every schedule, with all names if all resolve and otherwise with
  none; and by `Withheld.StaysWithheld` and `Withheld.WithheldForGood` a withheld name may stay unsent for good, even
  after the failing name's object has appeared and all names resolve.
* An assignment carries the name it was asked for exactly if that name is spelled canonically
  (`Responses.EdsNameIsCanonical`), while the cluster always asks for the name as spelled in the request.
* The order in which slices are listed decides the zone label of a group (`SliceOrder.OrderDecidesZone`), and nothing
  else of a group but the order of its endpoints (`SliceOrder.OrderKeepsGroups`).
* `findBackendSpec` bounds ids from above only. `Backends.LookupIsExact` says exactly when it indexes out of range, and
  `Freshness.DomainIsExact` that negative ids are exactly what a request must avoid; the protocol starts only
  watches that do.
* Method matchers go through `path.Join`, so a matcher whose text is not a clean path (for instance a method
  name with `..` in it, or an empty one) is read as another path. `Routing.RoutingIsPreserved` says for each call
  exactly when the routes picked still agree.
* A printed backend name parses back to its parts exactly when namespace and name are non-empty, slash-free and
  not `.`, and the name is not `..` unless the namespace is too. A leading `..` does survive `path.Clean`.

Assumptions of the protocol model: an object is stored before its event is queued; each event is handled once, in
any order; stored listeners have names that print, and slices have distinct keys; the listers return a fixed sequence
per stored state, and updating one slice leaves the order of the others alone; a delete event carries the object;
requests have no negative ids. That an uncancelled watch comes to rest presumes a client that takes the responses
sent to it. Freshness is stated per watch and name: for every name with content sent, and from the start for a
request with one name that the stream does not know yet.

## Model

| member | source | states |
|---|---|---|
| NoLostChange.NoChangeIsLost | gtc/cache.go:51-125 | In every state of every interleaving without an update that the name misses while it resolves afterwards, for a live watch and a canonical name that it has sent content for, or that is the only one it was asked for and new to the stream, and that currently resolves: the name was sent, last as it resolves now, or a resolve or send holding only current data is under way, or an event for the current objects, a notification or a delivery is pending. |
| NoLostChange.StepKeepsInv | gtc/cache.go:51-125 | Every enabled step of any component keeps registry agreement, the shape of responses and a well-formed store. |
| NoLostChange.StepKeepsFresh | gtc/cache.go:51-125 | Every enabled step, but a missed update after which the reference resolves, keeps the reference fresh for every watch. |
| NoLostChange.RunKeepsInv | gtc/cache.go:51-125 | Every run keeps registry agreement, the shape of responses and a well-formed store. |
| NoLostChange.RunKeepsFresh | gtc/cache.go:51-125 | Every run without such updates of a reference keeps the reference fresh for every watch. |
| NoLostChange.ResolvedIsPresent | gtc/notify.go:54-83 | A canonical name that resolves belongs to the stored listener it targets, so that listener's events notify it. |
| Settling.SettledIsCurrent | gtc/cache.go:86-124 | In every settled state each live watch has sent each canonical resolving name it answers for, last exactly as it resolves now. |
| Settling.EveryScheduleEnds | gtc/cache.go:86-124 | Once the environment stops, every infinite schedule of handler, notification, delivery and watch steps reaches a step that cannot be taken. |
| Settling.Settles | gtc/cache.go:86-124 | From every state of every run the control plane can settle by its own steps. |
| Settling.InternalKeepsCurrent | gtc/cache.go:106-122 | While the store stands still, what a watch read, is sending or last sent for a name stays what the store gives, and what it holds for a name that does not resolve stays as it is. |
| Progress.StuckIsSettled | gtc/cache.go:86-124 | The control plane has no step left exactly when nothing is in flight and every watch sleeps, or was cancelled and is released. |
| Progress.InternalStepDescends | gtc/watcher.go:28-56 | Every step of the control plane decreases a lexicographic measure of events, look-ups, fan-outs, deliveries and steps left in watches. |
| Progress.ActShrinks | gtc/cache.go:51-125 | Every step of a watch decreases a measure of names to subscribe to and to resolve, lister calls and references to release. |
| Lifecycle.RegistryAgrees | gtc/watcher.go:38-84 | In every reachable state a subscribed watcher has the reference on its own record or is joining or leaving it; past subscribing it is subscribed to exactly what it asked for; nobody else can join in the gap between check and write; after release it is in no set. |
| Lifecycle.EntriesAreForEver | gtc/watcher.go:110-138 | Under any race of look-ups and creations an entry is never replaced or removed, no two references share an object, and no object is ever made that is not an entry. |
| Lifecycle.DeliveriesAreConserved | gtc/watcher.go:28-36 | In every reachable state, deliveries started are those pending plus those received, dropped on `done` and dropped on the context, delivery by delivery. |
| Lifecycle.ReleasedIsFinal | gtc/watcher.go:96-108 | On every continuation a released watch stays released, sends nothing, and the senders waiting for it never get more, for any reference or in total. |
| Progress.CancelledWatchDrains | gtc/watcher.go:96-108 | From every state of every run a cancelled watch can, by its own steps and without its client, finish and release, after which every sender that waits for it leaves on `done`. |
| Lifecycle.EveryResponseIsWellFormed | gtc/cache.go:57-124 | Every response of every run has the request's type and holds all requested names in request order, or exactly one of them, each slot filled by a resource of that type that carries the name, an assignment in its printed form. |
| Lifecycle.InitialResponseCoversRequest | gtc/cache.go:68-84 | After a response with all requested names, each of them has content on record. |
| Lifecycle.NeverStuck | gtc/cache.go:51-137 | In every state of every run a watch can take its next step unless it sleeps uncancelled or is released; a cancelled one need not wait for its client. |
| Lifecycle.NoResolvePanics | gtc/cluster.go:95-114 | No resolve of any run gets to an index expression that panics, whatever is stored. |
| Withheld.AnsweredWhollyOrNotAtAll | gtc/cache.go:68-84 | A watch some of whose names is not known to the stream, started while nothing is in flight, settles on every schedule holding all requested names, if all resolve, and otherwise none. |
| Starting.StartDecision | gtc/cache.go:64-84 | Having subscribed, a watch resolves all requested names if some name is not among the known ones, and otherwise goes to sleep. |
| Starting.KnownNamesAreNotResent | gtc/cache.go:68-95 | On every run a watch whose names are all known has sent nothing as long as it has received nothing. |
| Starting.KnownNamesWait | gtc/cache.go:68-95 | The same from any state in which it has not spoken yet. |
| Withheld.WatchCanStart | gtc/cache.go:37-62 | On every well-formed store such a watch can be started for every request. |
| Withheld.StaysWithheld | gtc/cache.go:106-110 | A name not yet sent stays unsent, on every schedule, when a listener that does not own it is stored. |
| Withheld.WithheldForGood | gtc/cache.go:81-83 | For any two listeners that translate there is a state with nothing left to do in which both resolve and a live watch for both was never sent the first. |
| RegistryInvariant.StepKeepsRegistry | gtc/watcher.go:28-158 | Registry agreement, fan-outs reading the entry's object, and delivery conservation are kept by every step. |
| Responses.StepKeepsResponses | gtc/cache.go:57-124 | The shape of responses, of partial resolves and of what a client holds is kept by every step. |
| Responses.FinishIsNamed | gtc/resolver.go:49-56 | Whatever a name resolves to is a resource of the requested type; listeners and clusters carry the name as asked for, assignments as printed from its parts. |
| Responses.EdsNameIsCanonical | gtc/endpoint.go:125-128 | The assignment that a name resolves to carries that very name if and only if it is spelled canonically. |
| Freshness.HandlerCoversEvent | gtc/notify.go:33-86 | A handler notifies every reference that a pending event for the current objects is about. |
| Freshness.ListenerChangeFrame | gtc/notify.go:46-83 | A reference that a changed listener does not own keeps what it resolves from and the events that reach it. |
| Freshness.SliceChangeFrame | gtc/notify.go:108-153 | A reference that a slice event does not reach resolves from the same data before and after exactly when the update is not missed. |
| Freshness.DomainIsExact | gtc/cluster.go:95-114 | A backend reference that a stored listener can have panics in no well-formed store exactly when neither id is negative. |
| Backends.LookupIsExact | gtc/cluster.go:95-114 | The look-up finds exactly the listed backends and indexes out of range exactly when the route id is negative, or in range with a negative backend id. |
| Freshness.OwnerIsTarget | gtc/cluster.go:22-36 | A reference that a listener's events notify resolves from that very listener, and an assignment from its own backend. |
| LostUpdate.UpdatesFollowExactlyCanonicalNames | gtc/resource.go:41-64 | No interleaving loses a change of a cluster or endpoint name if and only if the name is spelled canonically or no stored backend can have it. |
| LostUpdate.OtherSpellingLosesUpdates | gtc/notify.go:54-83 | For every other spelling there is a reachable state with a live watch, stale content and nothing pending for it. |
| Relabel.UpdatesAreFollowedExactly | gtc/notify.go:99-102 | An update of a slice is followed in every state of every run that the name has followed so far, if and only if it is not missed or the name does not resolve afterwards; content with an outdated list of versions counts as stale. |
| Relabel.AssignmentIsStaleExactly | gtc/notify.go:99-102 | After a missed update between two resolving states a settled watch that answers for the name holds a stale assignment, on every schedule, if and only if its backend read a ready endpoint from the old slice. |
| Relabel.MissedChangesResponse | gtc/endpoint.go:49-63 | A missed update leaves the assignment as it was exactly if the old slice had no ready endpoint, and the hashed bytes exactly if it had no version. |
| Relabel.SomeWatchIsSettled | gtc/cache.go:57-84 | On every well-formed store there is a settled watch that answers for the name. |
| Assignments.AssignmentChangesExactly | gtc/endpoint.go:69-163 | For any backend, with one slice replaced by one its change test refuses and an assignment made before and after, the assignment changes if and only if the backend read a ready endpoint from the old slice. |
| Assignments.BytesChangeExactly | gtc/endpoint.go:117-119 | The concatenated versions then change if and only if the backend read a non-empty version from the old slice. |
| Relabel.MissedUpdateIsLost | gtc/notify.go:99-102 | For every store and missed update after which the name resolves there is a run with a live watch whose content, resource and versions, the update leaves stale, with nothing pending for it. |
| Relabel.MovingAwayIsMissed | gtc/notify.go:172-180 | Moving a slice that a service backend reads to any other service is a missed update, after which the name still resolves when that was the only slice. |
| Relabel.MissedChangesContent | gtc/endpoint.go:90-120 | A missed update never leaves the resource and its list of versions as they were: fewer versions are fed to the hash. |
| Building.ReachStore | gtc/notify.go:20-31 | Every well-formed store is reached, by a run that every reference follows. |
| Spelling.OtherSpellingsAreNeverNotified | gtc/notify.go:54-83 | On no run is a notification or delivery for another spelling ever started. |
| Spelling.OtherSpellingIsNeverDirty | gtc/notify.go:33-153 | In no reachable state is anything pending for another spelling. |
| Protocol.HasResourceDiff | gtc/cache.go:165-175 | The search loop returns true if and only if some requested name is not among the known ones. |
| Registry.Registry.GetOrCreateEffect | gtc/watcher.go:118-138 | Creation keeps every existing entry and every subscription, adds at most the asked entry and keeps objects distinct. |
| Registry.Registry.AddEffect | gtc/watcher.go:58-70 | Joining adds exactly one subscription. |
| Registry.Registry.RemoveEffect | gtc/watcher.go:72-84 | Leaving removes exactly one subscription. |
| Registry.Registry.NoStrayObjectIsKept | gtc/watcher.go:118-138 | No lock section makes an object that is not the entry of a reference. |
| Registry.ResourceWatchers.NotifyChanged | gtc/watcher.go:49-56 | The loop starts one delivery per member of the set. |
| Registry.ResourceWatchers.Watch | gtc/watcher.go:58-70 | The set gains exactly this watcher. |
| Registry.ResourceWatchers.StopWatch | gtc/watcher.go:72-84 | The set loses exactly this watcher. |
| Registry.Watches.GetOrCreateResourceWatchers | gtc/watcher.go:118-138 | Double-checked creation carries out the registry's get-or-create, and an existing entry is left alone. |
| Registry.Watches.Watch | gtc/watcher.go:38-41 | Carries out the registry's get-or-create and add: only this watcher's membership of this reference changes, and its own record stays equal to its memberships. |
| Registry.Watches.StopAllWatches | gtc/watcher.go:140-149 | Carries out the registry's remove for each recorded reference: the watcher leaves every set and every other subscription stays. |
| Registry.Registry.RemoveAllStep | gtc/watcher.go:140-149 | Leaving several objects is leaving them one by one. |
| Registry.Watches.NotifyChanged | gtc/watcher.go:151-158 | One delivery per watcher subscribed to the reference, none when there is no entry. |
| Registry.Watches.Release | gtc/watcher.go:104-107 | After release the watcher is in no set, other subscriptions are unchanged, and `done` is closed. |
| Endpoints.MakeServiceEndpoints | gtc/endpoint.go:176-271 | The nested loops over the two-slot array compute the hinted group and the rest, or fail when a slice lacks the port. |
| Endpoints.AddEndpoint | gtc/endpoint.go:196-221 | One pass appends the endpoint to the slot its hints call for and leaves the other slot alone. |
| Endpoints.EmitGroups | gtc/endpoint.go:225-268 | The closing loop emits the non-empty slots in order, with priority 0 for the only or first one. |
| Endpoints.MakeFlatLocalityLbEndpoints | gtc/endpoint.go:273-301 | The flat loop emits all ready endpoints in slice order under the given weight and priority, without a zone and with the service as sub-zone. |
| Endpoints.MakeLbEndpoints | gtc/endpoint.go:303-314 | One endpoint per address, in order, each with that address and the slice's port. |
| Endpoints.LookupPortIsFirstMatch | gtc/endpoint.go:336-355 | The port look-up returns the first match by name (or by number without a name) and fails exactly when there is none. |
| Grouping.EndpointsAreConserved | gtc/endpoint.go:176-271 | Grouping succeeds exactly when every slice has the port; the groups are then a stable partition of all (address, port) pairs of ready endpoints, a pair being in group 1 exactly when its endpoint is not hinted for the caller's zone and some ready one is. `Served.ServiceAssignment` says which pairs these are. |
| Served.ServiceAssignment | gtc/endpoint.go:125-271 | A service backend resolves if and only if its name is a label value and every slice of the service, by label and namespace, offers the port; it then has the group of ready endpoints whose hints name the node's zone in any case, if there are any, and the group of the others, with priorities 0 and 1 or just 0, weight 1 and the service with the priority as sub-zone, each listing exactly the addresses of its endpoints in slice, endpoint and address order, each once, with the slice's first matching port. |
| Served.LocalitiesAssignment | gtc/endpoint.go:80-123 | A backend with localities resolves if and only if there are some and all of them can serve; entry i then has the weight, priority and service name of locality i, no zone, and exactly the ready addresses of its service in order. |
| Places.ListedExactly | gtc/endpoint.go:303-334 | An address and port are listed if and only if some picked slice has a ready endpoint of the group's kind with that address, and the port is the slice's first matching one. |
| Places.ListedIsReady | gtc/endpoint.go:185-223 | What the loops list are exactly the ready places of the picked slices, in order and each once. |
| Places.PortByName | gtc/endpoint.go:337-346 | A named port reference finds the number of the first port with that name and a number, as 32-bit unsigned, and fails exactly without one. |
| Places.PortByNumber | gtc/endpoint.go:348-354 | A reference without a name finds its number if and only if some named port has it. |
| Grouping.PrioritiesAreContiguous | gtc/endpoint.go:225-268 | Group k has priority k, sub-zones differ pairwise, and there are two groups exactly when ready endpoints of both kinds exist. |
| Grouping.GroupZoneIsFirst | gtc/endpoint.go:207-211 | A group's zone is that of its first endpoint with a non-empty zone. |
| Grouping.ZoneAwareRefinesFlat | gtc/endpoint.go:176-301 | Zone-aware and flat form fail together, carry equal multisets of endpoints, and without a hint for the caller the single group is the flat sequence. |
| SliceOrder.OrderKeepsGroups | gtc/endpoint.go:176-271 | Listing the slices in another order keeps failure or success, the number of groups, their priorities, sub-zones, weights and endpoint multisets. |
| SliceOrder.OrderDecidesZone | gtc/endpoint.go:207-211 | With one ready endpoint, not hinted for the caller, in each of two slices, the group takes the zone of the slice listed first. |
| Resolver.MakeLoadAssignment | gtc/endpoint.go:69-78 | Service first, then localities, then failure; the assignment is a function of the slices that the listed queries select. |
| Resolver.MakeServiceLoadAssignment | gtc/endpoint.go:125-163 | One lister call in the service's or else the listener's namespace; groups and versions of exactly those slices. |
| Resolver.CollectLocalities | gtc/endpoint.go:90-120 | One flat locality per listed locality in order, versions concatenated in order, failing when any fails. |
| Resolver.ResolveOne | gtc/cluster.go:22-49 | One name's slot and versions, for all three resource types, equals its resolution in the store, wherever the code does not panic. `Outputs` and `Served` describe that resolution. |
| Outputs.ListenerResource | gtc/listener.go:40-77 | A listener name resolves if and only if its listener is stored with valid interceptors and routes; the resource carries the name, a virtual host whose domain is the name, the interceptors' filters in order with the router last, and the overrides of every route and backend. |
| Outputs.DialledNameIsRouted | gtc/route.go:77-88 | A client that dials the resolved name gets the route that the spec picks exactly when no misreading gets in the way, and no other authority gets a route. |
| Outputs.ConfigNames | gtc/resource.go:10-16 | The route configuration and the virtual host are named after the listener. |
| Outputs.ClusterResource | gtc/cluster.go:54-91 | A cluster carries the name asked for, also as EDS service name, and the limits, ring sizes and balancing policy, read in any case, of the backend the name targets. |
| Outputs.ListenerVersion | gtc/listener.go:32-34 | A listener or a cluster feeds exactly the stored listener's resource version to the hash. |
| Outputs.AssignmentVersionsAre | gtc/endpoint.go:40-63 | An assignment feeds the stored listener's version and then those of the slices each lister call finds, in order. |
| Outputs.HashInputIs | gtc/resolver.go:33-37 | The bytes hashed for a response are all versions of all its names, in order. |
| Outputs.ListenerHash | gtc/listener.go:24-35 | The bytes hashed for a listener response are the resource versions of the listeners asked for, one after the other, so they change exactly if that text does. |
| Resolver.ResolveResource | gtc/resolver.go:49-56 | Succeeds if and only if the type is known and every name resolves; every slot is then filled in request order and every version hashed in order. |
| Resolver.ResolveResponse.Fill | gtc/endpoint.go:54-63 | The next slot and the hash input are extended and earlier slots kept. |
| Notify.HandleListener | gtc/notify.go:33-86 | The handler's nested loops notify the listener and then cluster and assignment of each backend, in order. |
| Notify.ListenerChangeReachesOwned | gtc/notify.go:46-83 | The notified references are exactly those the object owns. |
| Notify.MatchBackend | gtc/notify.go:155-170 | The search loop finds out whether the service or some locality matches. |
| Notify.HandleSlice | gtc/notify.go:108-153 | The loops over listeners, routes and backends notify the assignment of each matching backend, in order. |
| Handlers.HandlersNotifyExactlyOnce | gtc/notify.go:33-153 | Whatever order the lister uses, the handler of an event notifies each reference of the protocol step exactly once and no other. |
| Notify.DependencyFrame | gtc/endpoint.go:69-163 | Two stores that agree on the slices the change test accepts for a backend give the same load assignment. |
| Notify.ReadsDependOnMatched | gtc/notify.go:155-180 | They even give the same result for each lister call. |
| Notify.MatchedIsReadOrSpurious | gtc/notify.go:172-180 | The change test accepts a slice exactly when resolution reads it, or a missing label passes for an empty name, or a same-named slice lies in the listener's namespace while the service names another. |
| Notify.RelabelIsMissedExactly | gtc/notify.go:99-102 | When the slice under a key is replaced, whatever its old label, by one the change test of a backend refuses, the backend's lister calls return the same exactly if it did not read the old slice. |
| Notify.ReferentialClosure | gtc/route.go:209-233 | The cluster names of a route configuration and the cluster and assignment references its listener's change notifies are the same names. |
| Notify.BackendRefTargets | gtc/cluster.go:95-114 | A notified backend name parses to its own listener and finds exactly its own backend. |
| Notify.EdsNameAgrees | gtc/cluster.go:54-67 | The EDS service name in the cluster, the cluster name in the assignment and the name in the route configuration are equal. |
| Names.BackendNameRoundTrip | gtc/resource.go:18-64 | Printing and parsing returns the same four parts if and only if namespace and name are segments that `path.Join` keeps. |
| Names.BackendNameInjective | gtc/resource.go:18-27 | Different parts print differently, for namespaces and names that round-trip. |
| Names.BackendNameNormalisation | gtc/resource.go:37-64 | For an accepted name: printing the parse returns the text if and only if it was canonical; parse-print-parse is the first parse if and only if the first two segments round-trip. |
| Names.ListenerNameInverse | gtc/listener.go:79-90 | Printing inverts every accepted parse; parsing inverts printing if and only if the namespace has no slash; exactly slash-free texts are refused. |
| Paths.CleanFixesExactlyCleanPaths | gtc/resource.go:18-27 | `path.Clean` is a projection whose fixed points are exactly the syntactically clean paths. |
| Paths.PathJoinOfReduced | gtc/resource.go:18-27 | `path.Join` of reduced segments only puts slashes between them, and splitting gives them back. |
| Text.AtoiOfItoa | gtc/resource.go:48-56 | `Atoi` inverts `Itoa` on every 64-bit int. |
| Text.ItoaOfAtoi | gtc/resource.go:48-56 | `Itoa` gives back an accepted text if and only if it is canonical. |
| Routes.MakeRouteConfig | gtc/route.go:17-89 | One route per spec route in order under the requested name as domain, refused as a whole when any part does not translate. |
| Refusals.ListenerTranslatesExactly | gtc/route.go:97-207 | A listener translates if and only if every route has usable metadata matchers, a denominator among the three in any case, well-formed interceptors and hash policies that name metadata or the channel. |
| Refusals.MetadataTranslatesExactly | gtc/route.go:146-207 | A metadata matcher translates if and only if its first criterion is usable; a regular expression needs the engine re2 and some text. |
| Refusals.FractionIs | gtc/route.go:121-130 | A fraction keeps its numerator and gets the denominator whose name it spells, in any case. |
| Hashing.HashingIsPreserved | gtc/route.go:262-296 | On every route every call is hashed from the values the spec's policies name, in order and up to a terminal one. |
| Routes.MakeRouteMatch | gtc/route.go:97-144 | The most specific path criterion, the fraction and every metadata matcher in order; fails exactly when one of these does. |
| Routes.MakeWeightedClusters | gtc/route.go:209-233 | One entry per backend in order; the total is the sum modulo 2^32, and the true sum exactly when that fits. |
| Routes.MakeHashPolicy | gtc/route.go:262-296 | One policy per spec policy in order; fails exactly when one names neither metadata nor the channel. |
| Routes.WeightsCutTheLine | gtc/route.go:215-227 | The prefix sums of the weights cut [0, sum) into disjoint intervals, one per backend, each as long as its weight. |
| Routing.RoutingIsPreserved | gtc/route.go:17-89 | For every translated listener and every call to the name it was asked for by, the first matching xDS route is the first matching spec route if and only if every misread method matcher is preceded by a route that takes the call and is read rightly; every cluster name leads back to the backend at its position. |
| Routing.CleanMethodsRouteAlike | gtc/route.go:97-144 | With clean method texts only, every call takes the route the spec says. |
| Routing.MatchPreserved | gtc/route.go:97-190 | On one route the two verdicts agree exactly unless its method matcher is misread for the call. |
| Routing.MethodPathExact | api/gtc/v1alpha1/types.go:130-135 | A method matcher means its own text if and only if that text is a clean path. |
| Routing.UncleanMethodIsLost | api/gtc/v1alpha1/types.go:130-135 | For every unclean method text, a listener with that one route no longer routes the call its spec describes. |
| Routing.ClusterNamesLeadBack | gtc/cluster.go:95-114 | Parsing and looking up any cluster name of a route returns the backend and weight the spec lists there. |
| Routing.EnclosingAcceptsMore | gtc/route.go:104-119 | A path accepted by a method matcher is accepted by its service's matcher, and that by its namespace's. |
| Routing.BroaderRouteShadows | gtc/route.go:104-119 | An earlier unconditional broader route keeps a later narrower one from ever being picked. |

## Left out

- gRPC server set-up, keepalive, informers and process wiring: plumbing; only "stored before queued" is kept.
- The client-go work queue and its wrapper: a bag of events, each handled once, in any order and never retried.
- The stream server of go-control-plane, nonces, ACK and NACK, delta watches: a watch starts from a request and a set of known names.
- The loop of `configWatcher.watch` is a state machine and not a class, because its steps interleave with those of other goroutines.
- A handler's notifications are started together and then interleave freely, which allows every order the code can produce and more.
- Protobuf encoding, SHA-256 and base64: the model ends at the bytes fed to the hash; different version lists may well give the same bytes.
- Contents of fault filters, retry policies and durations: field copying; an interceptor is either translatable or malformed.
- Regular expression evaluation is a parameter of the routing meaning.
- Case folding is that of ASCII.
- A listing with an empty namespace, which client-go reads as all namespaces: stored listeners have a non-empty namespace.
- Resolver.ResolveOne: asks that the look-up does not index out of range, which is where the code panics; `Backends.LookupIsExact` says when.
- Resolver.ResolveResource: the same condition on its names.
- A delete event that carries a stand-in instead of the object, as informers send after a missed deletion.
- A request without a node, and a locality without a service: the code dereferences both unconditionally.
- The syntax of label values is taken from Kubernetes as it stands.
- Logging and error texts.
