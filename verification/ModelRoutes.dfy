/**
 * The join of the model catalogue with observed provider offers (actuation_model_routes.rs), and
 * the readings of a route set it feeds (aikit-core's model_route.rs).
 */
module ModelRoutes {
  import opened Prelude

  type Provider = string

  datatype Kind = HarnessNative | OtherKind(name: string)

  datatype Credential =
    | NotRequired
    | Required(hint: string)
    | Satisfied(hint: string, binding: string)

  /** `Unproven` is the core's `Unavailable`, which joined routes never are; a route set from elsewhere
      may hold it. */
  datatype Availability =
    | Observed(detection: string)
    | Unobserved(provider: Provider, nativeIds: seq<string>)
    | Unproven(reason: string)

  datatype Offer = Offer(
    provider: Provider, kind: Kind, nativeId: string, aliases: seq<string>,
    endpoint: Option<string>, detection: string, inventory: Option<string>)

  datatype Declared = Declared(
    provider: Provider, kind: Kind, nativeIds: seq<string>, endpoint: Option<string>, credential: Credential)

  datatype Entry = Entry(model: string, source: string, routes: seq<Declared>)

  datatype Reach = Reach(
    provider: Provider, selector: string, through: string, credentialRequired: bool,
    hint: Option<string>, provenance: seq<string>)

  datatype Route = Route(
    model: string, provider: Provider, kind: Kind, nativeId: string, endpoint: Option<string>,
    availability: Availability, credential: Credential, provenance: seq<string>)

  datatype RouteSet = RouteSet(model: string, routes: seq<Route>)

  datatype Unmatched = Unmatched(provider: Provider, kind: Kind, nativeId: string, endpoint: Option<string>,
                                 provenance: seq<string>)

  type Key = (Provider, string)

  type Bindings = map<Provider, string>

  // ------------------------------------------------------------------ credentials

  /** A declared condition is never taken as proof of a binding: only a recorded one satisfies it. */
  function Resolve(bound: Bindings, provider: Provider, declared: Credential): (c: Credential)
    ensures c.Satisfied? <==> !declared.NotRequired? && provider in bound
    ensures c.Required? <==> !declared.NotRequired? && provider !in bound
    ensures c.Satisfied? ==> c.binding == bound[provider]
    ensures !c.NotRequired? ==> c.hint == declared.hint
  {
    match declared
    case NotRequired => NotRequired
    case Required(hint) => if provider in bound then Satisfied(hint, bound[provider]) else Required(hint)
    case Satisfied(hint, _) => if provider in bound then Satisfied(hint, bound[provider]) else Required(hint)
  }

  // ------------------------------------------------------------------ one declared route

  predicate Claims(d: Declared, nativeId: string) {
    nativeId in d.nativeIds
  }

  predicate Matches(d: Declared, o: Offer) {
    o.provider == d.provider && (Claims(d, o.nativeId) || exists a :: a in o.aliases && Claims(d, a))
  }

  function Matching(d: Declared, observed: seq<Offer>): (r: seq<Offer>)
    ensures forall o :: o in r <==> o in observed && Matches(d, o)
  {
    if observed == [] then [] else
      var n := |observed| - 1;
      assert forall o :: o in observed <==> o in observed[..n] || o == observed[n];
      Matching(d, observed[..n]) + if Matches(d, observed[n]) then [observed[n]] else []
  }

  function FirstReach(reachable: seq<Reach>, provider: Provider): (r: Option<Reach>)
    ensures r.Some? ==> r.value in reachable && r.value.provider == provider
    ensures r.None? ==> forall x :: x in reachable ==> x.provider != provider
  {
    if reachable == [] then None
    else if reachable[0].provider == provider then assert reachable[0] in reachable; Some(reachable[0])
    else
      assert forall x :: x in reachable <==> x == reachable[0] || x in reachable[1..];
      FirstReach(reachable[1..], provider)
  }

  function FirstOr(s: seq<string>, otherwise: string): string {
    if s == [] then otherwise else s[0]
  }

  function ReachCredential(reach: Reach): Credential {
    if !reach.credentialRequired then NotRequired
    else Required(match reach.hint case Some(hint) => hint case None => reach.provider + " credential")
  }

  function ReachedRoute(e: Entry, d: Declared, reach: Reach, bound: Bindings): Route {
    Route(e.model, d.provider, HarnessNative, FirstOr(d.nativeIds, ""),
          Some(reach.selector + " via " + reach.through),
          Observed(FirstOr(reach.provenance, reach.through)),
          Resolve(bound, d.provider, ReachCredential(reach)),
          [e.source] + reach.provenance)
  }

  function DescribedRoute(e: Entry, d: Declared, bound: Bindings): Route {
    Route(e.model, d.provider, d.kind, FirstOr(d.nativeIds, ""), d.endpoint,
          Unobserved(d.provider, d.nativeIds), Resolve(bound, d.provider, d.credential), [e.source])
  }

  function OfferedRoute(e: Entry, d: Declared, o: Offer, bound: Bindings): Route {
    Route(e.model, o.provider, d.kind, o.nativeId, if o.endpoint.Some? then o.endpoint else d.endpoint,
          Observed(o.detection), Resolve(bound, o.provider, d.credential),
          [e.source, o.detection] + if o.inventory.Some? then [o.inventory.value] else [])
  }

  function OfferedRoutes(e: Entry, d: Declared, offers: seq<Offer>, bound: Bindings): seq<Route> {
    seq(|offers|, i requires 0 <= i < |offers| => OfferedRoute(e, d, offers[i], bound))
  }

  function RoutesOf(e: Entry, d: Declared, observed: seq<Offer>, reachable: seq<Reach>, bound: Bindings): seq<Route> {
    var offers := Matching(d, observed);
    if offers != [] then OfferedRoutes(e, d, offers, bound)
    else match FirstReach(reachable, d.provider)
      case Some(reach) => [ReachedRoute(e, d, reach, bound)]
      case None => [DescribedRoute(e, d, bound)]
  }

  function EntryRoutes(e: Entry, declared: seq<Declared>, observed: seq<Offer>, reachable: seq<Reach>,
                       bound: Bindings): seq<Route> {
    if declared == [] then [] else
      var n := |declared| - 1;
      EntryRoutes(e, declared[..n], observed, reachable, bound) + RoutesOf(e, declared[n], observed, reachable, bound)
  }

  // ------------------------------------------------------------------ the readings of a route set

  predicate IsUsable(r: Route) {
    r.availability.Observed? && !r.credential.Required?
  }

  predicate SetIsAvailable(s: RouteSet) {
    exists i :: 0 <= i < |s.routes| && s.routes[i].availability.Observed?
  }

  predicate SetIsUsable(s: RouteSet) {
    exists i :: 0 <= i < |s.routes| && IsUsable(s.routes[i])
  }

  datatype ModelReading = Available | Unavailable(reasons: seq<Availability>)

  /** The availability model_resource derives; its last match has no arm for an observed route. */
  method ModelAvailability(s: RouteSet) returns (m: ModelReading)
    ensures m.Available? <==> SetIsAvailable(s)
    ensures m.Unavailable? ==> |m.reasons| == |s.routes|
    ensures m.Unavailable? ==> forall i :: 0 <= i < |s.routes| ==>
              !s.routes[i].availability.Observed? && m.reasons[i] == s.routes[i].availability
  {
    if SetIsAvailable(s) {
      return Available;
    }
    var reasons: seq<Availability> := [];
    for i := 0 to |s.routes|
      invariant |reasons| == i
      invariant forall j :: 0 <= j < i ==>
                  !s.routes[j].availability.Observed? && reasons[j] == s.routes[j].availability
    {
      match s.routes[i].availability {
        case Observed(_) => assert false;
        case Unobserved(provider, ids) => reasons := reasons + [Unobserved(provider, ids)];
        case Unproven(reason) => reasons := reasons + [Unproven(reason)];
      }
    }
    m := Unavailable(reasons);
  }

  // ------------------------------------------------------------------ the join

  function KeyOf(o: Offer): Key {
    (o.provider, o.nativeId)
  }

  function Keys(offers: seq<Offer>): set<Key> {
    set o | o in offers :: KeyOf(o)
  }

  function ClaimedBy(declared: seq<Declared>, observed: seq<Offer>): set<Key> {
    if declared == [] then {} else
      var n := |declared| - 1;
      ClaimedBy(declared[..n], observed) + Keys(Matching(declared[n], observed))
  }

  function ClaimedIn(catalogue: seq<Entry>, observed: seq<Offer>): set<Key> {
    if catalogue == [] then {} else
      var n := |catalogue| - 1;
      ClaimedIn(catalogue[..n], observed) + ClaimedBy(catalogue[n].routes, observed)
  }

  function AsUnmatched(o: Offer): Unmatched {
    Unmatched(o.provider, o.kind, o.nativeId, o.endpoint, [o.detection])
  }

  /** The offers no claimed key covers, in the order observed. */
  function Unclaimed(observed: seq<Offer>, claimed: set<Key>): (r: seq<Offer>)
    ensures forall o :: o in r <==> o in observed && KeyOf(o) !in claimed
  {
    if observed == [] then [] else
      var n := |observed| - 1;
      assert forall o :: o in observed <==> o in observed[..n] || o == observed[n];
      Unclaimed(observed[..n], claimed) + if KeyOf(observed[n]) in claimed then [] else [observed[n]]
  }

  function UnmatchedOf(offers: seq<Offer>): seq<Unmatched> {
    seq(|offers|, i requires 0 <= i < |offers| => AsUnmatched(offers[i]))
  }

  datatype Join = Join(routeSets: seq<RouteSet>, unmatched: seq<Unmatched>)

  function SetOf(e: Entry, observed: seq<Offer>, reachable: seq<Reach>, bound: Bindings): RouteSet {
    RouteSet(e.model, EntryRoutes(e, e.routes, observed, reachable, bound))
  }

  function SetsOf(catalogue: seq<Entry>, observed: seq<Offer>, reachable: seq<Reach>, bound: Bindings): seq<RouteSet> {
    seq(|catalogue|, i requires 0 <= i < |catalogue| => SetOf(catalogue[i], observed, reachable, bound))
  }

  function Joined(catalogue: seq<Entry>, observed: seq<Offer>, reachable: seq<Reach>, bound: Bindings): Join {
    Join(SetsOf(catalogue, observed, reachable, bound),
         UnmatchedOf(Unclaimed(observed, ClaimedIn(catalogue, observed))))
  }

  /** The innermost loop: the offers that match one declared route, each claimed and routed. */
  method RouteOffers(e: Entry, d: Declared, offers: seq<Offer>, bound: Bindings, before: set<Key>)
    returns (routes: seq<Route>, claimed: set<Key>)
    ensures routes == OfferedRoutes(e, d, offers, bound)
    ensures claimed == before + Keys(offers)
  {
    routes, claimed := [], before;
    for i := 0 to |offers|
      invariant routes == OfferedRoutes(e, d, offers[..i], bound)
      invariant claimed == before + Keys(offers[..i])
    {
      OffersPush(e, d, offers, i, bound);
      claimed := claimed + {KeyOf(offers[i])};
      routes := routes + [OfferedRoute(e, d, offers[i], bound)];
    }
    assert offers[..|offers|] == offers;
  }

  lemma OffersPush(e: Entry, d: Declared, offers: seq<Offer>, i: nat, bound: Bindings)
    requires i < |offers|
    ensures OfferedRoutes(e, d, offers[..i + 1], bound)
            == OfferedRoutes(e, d, offers[..i], bound) + [OfferedRoute(e, d, offers[i], bound)]
    ensures Keys(offers[..i + 1]) == Keys(offers[..i]) + {KeyOf(offers[i])}
  {
    assert offers[..i + 1] == offers[..i] + [offers[i]];
  }

  lemma {:induction false} DeclaredPush(e: Entry, declared: seq<Declared>, k: nat, observed: seq<Offer>,
                                        reachable: seq<Reach>, bound: Bindings)
    requires k < |declared|
    ensures EntryRoutes(e, declared[..k + 1], observed, reachable, bound)
            == EntryRoutes(e, declared[..k], observed, reachable, bound)
              + RoutesOf(e, declared[k], observed, reachable, bound)
    ensures ClaimedBy(declared[..k + 1], observed)
            == ClaimedBy(declared[..k], observed) + Keys(Matching(declared[k], observed))
  {
    assert declared[..k + 1][..k] == declared[..k];
  }

  /** One declared route: what is offered, else a harness that reaches the provider, else a description. */
  method JoinDeclared(e: Entry, d: Declared, observed: seq<Offer>, reachable: seq<Reach>, bound: Bindings,
                      before: set<Key>)
    returns (routes: seq<Route>, claimed: set<Key>)
    ensures routes == RoutesOf(e, d, observed, reachable, bound)
    ensures claimed == before + Keys(Matching(d, observed))
  {
    var offers := Matching(d, observed);
    if offers == [] {
      claimed := before;
      var reach := FirstReach(reachable, d.provider);
      if reach.Some? {
        return [ReachedRoute(e, d, reach.value, bound)], claimed;
      }
      return [DescribedRoute(e, d, bound)], claimed;
    }
    routes, claimed := RouteOffers(e, d, offers, bound, before);
  }

  /** The loop over an entry's declared routes. */
  method JoinEntry(e: Entry, observed: seq<Offer>, reachable: seq<Reach>, bound: Bindings, before: set<Key>)
    returns (routes: seq<Route>, claimed: set<Key>)
    ensures routes == EntryRoutes(e, e.routes, observed, reachable, bound)
    ensures claimed == before + ClaimedBy(e.routes, observed)
  {
    routes, claimed := [], before;
    for k := 0 to |e.routes|
      invariant routes == EntryRoutes(e, e.routes[..k], observed, reachable, bound)
      invariant claimed == before + ClaimedBy(e.routes[..k], observed)
    {
      DeclaredPush(e, e.routes, k, observed, reachable, bound);
      var more;
      more, claimed := JoinDeclared(e, e.routes[k], observed, reachable, bound, claimed);
      routes := routes + more;
    }
    assert e.routes[..|e.routes|] == e.routes;
  }

  lemma {:induction false} EntryPush(catalogue: seq<Entry>, k: nat, observed: seq<Offer>, reachable: seq<Reach>,
                                     bound: Bindings)
    requires k < |catalogue|
    ensures SetsOf(catalogue[..k + 1], observed, reachable, bound)
            == SetsOf(catalogue[..k], observed, reachable, bound) + [SetOf(catalogue[k], observed, reachable, bound)]
    ensures ClaimedIn(catalogue[..k + 1], observed)
            == ClaimedIn(catalogue[..k], observed) + ClaimedBy(catalogue[k].routes, observed)
  {
    assert catalogue[..k + 1][..k] == catalogue[..k];
  }

  /** The last loop: what no route claimed. */
  method LeftOver(observed: seq<Offer>, claimed: set<Key>) returns (unmatched: seq<Unmatched>)
    ensures unmatched == UnmatchedOf(Unclaimed(observed, claimed))
  {
    unmatched := [];
    for i := 0 to |observed|
      invariant unmatched == UnmatchedOf(Unclaimed(observed[..i], claimed))
    {
      assert observed[..i + 1][..i] == observed[..i];
      if KeyOf(observed[i]) in claimed {
        continue;
      }
      unmatched := unmatched + [AsUnmatched(observed[i])];
    }
    assert observed[..|observed|] == observed;
  }

  /** join_model_routes_with_reach. */
  method JoinModelRoutes(catalogue: seq<Entry>, observed: seq<Offer>, reachable: seq<Reach>, bound: Bindings)
    returns (join: Join)
    ensures join == Joined(catalogue, observed, reachable, bound)
  {
    var routeSets: seq<RouteSet> := [];
    var claimed: set<Key> := {};
    for k := 0 to |catalogue|
      invariant routeSets == SetsOf(catalogue[..k], observed, reachable, bound)
      invariant claimed == ClaimedIn(catalogue[..k], observed)
    {
      EntryPush(catalogue, k, observed, reachable, bound);
      var routes;
      routes, claimed := JoinEntry(catalogue[k], observed, reachable, bound, claimed);
      routeSets := routeSets + [RouteSet(catalogue[k].model, routes)];
    }
    assert catalogue[..|catalogue|] == catalogue;
    var unmatched := LeftOver(observed, claimed);
    join := Join(routeSets, unmatched);
  }

  // ------------------------------------------------------------------ partition

  predicate EntryClaims(e: Entry, o: Offer) {
    exists d :: d in e.routes && Matches(d, o)
  }

  predicate CatalogueClaims(catalogue: seq<Entry>, o: Offer) {
    exists e :: e in catalogue && EntryClaims(e, o)
  }

  predicate OfferedUnder(d: Declared, observed: seq<Offer>, key: Key) {
    exists o :: o in observed && Matches(d, o) && KeyOf(o) == key
  }

  lemma KeysMean(d: Declared, observed: seq<Offer>, key: Key)
    ensures key in Keys(Matching(d, observed)) <==> OfferedUnder(d, observed, key)
  {
    if o :| o in observed && Matches(d, o) && KeyOf(o) == key { assert o in Matching(d, observed); }
  }

  predicate RouteClaims(declared: seq<Declared>, observed: seq<Offer>, key: Key) {
    exists d :: d in declared && OfferedUnder(d, observed, key)
  }

  lemma RouteClaimsPush(declared: seq<Declared>, d: Declared, observed: seq<Offer>, key: Key)
    ensures RouteClaims(declared + [d], observed, key)
            <==> RouteClaims(declared, observed, key) || OfferedUnder(d, observed, key)
  {
    if x :| x in declared && OfferedUnder(x, observed, key) { assert x in declared + [d]; }
    if OfferedUnder(d, observed, key) { assert d in declared + [d]; }
  }

  lemma {:induction false} ClaimedByMeans(declared: seq<Declared>, observed: seq<Offer>, key: Key)
    ensures key in ClaimedBy(declared, observed) <==> RouteClaims(declared, observed, key)
  {
    if declared != [] {
      var n := |declared| - 1;
      ClaimedByMeans(declared[..n], observed, key);
      KeysMean(declared[n], observed, key);
      RouteClaimsPush(declared[..n], declared[n], observed, key);
      assert declared == declared[..n] + [declared[n]];
    }
  }

  lemma CatalogueClaimsPush(catalogue: seq<Entry>, e: Entry, o: Offer)
    ensures CatalogueClaims(catalogue + [e], o) <==> CatalogueClaims(catalogue, o) || EntryClaims(e, o)
  {
    if x :| x in catalogue && EntryClaims(x, o) { assert x in catalogue + [e]; }
    if EntryClaims(e, o) { assert e in catalogue + [e]; }
  }

  ghost predicate KeyClaimed(catalogue: seq<Entry>, observed: seq<Offer>, key: Key) {
    exists o :: o in observed && KeyOf(o) == key && CatalogueClaims(catalogue, o)
  }

  lemma KeyClaimedPush(catalogue: seq<Entry>, e: Entry, observed: seq<Offer>, key: Key)
    ensures KeyClaimed(catalogue + [e], observed, key)
            <==> KeyClaimed(catalogue, observed, key) || RouteClaims(e.routes, observed, key)
  {
    forall o ensures CatalogueClaims(catalogue + [e], o) <==> CatalogueClaims(catalogue, o) || EntryClaims(e, o) {
      CatalogueClaimsPush(catalogue, e, o);
    }
  }

  lemma {:induction false} ClaimedInMeans(catalogue: seq<Entry>, observed: seq<Offer>, key: Key)
    ensures key in ClaimedIn(catalogue, observed) <==> KeyClaimed(catalogue, observed, key)
  {
    if catalogue != [] {
      var n := |catalogue| - 1;
      ClaimedInMeans(catalogue[..n], observed, key);
      ClaimedByMeans(catalogue[n].routes, observed, key);
      KeyClaimedPush(catalogue[..n], catalogue[n], observed, key);
      assert catalogue == catalogue[..n] + [catalogue[n]];
    }
  }

  /** What becomes of an offer: it stays unmatched exactly when no offer of the same provider and
      native id, under that id or an alias, is claimed by a declared route. */
  lemma OffersArePartitioned(catalogue: seq<Entry>, observed: seq<Offer>, o: Offer)
    requires o in observed
    ensures o in Unclaimed(observed, ClaimedIn(catalogue, observed))
            <==> forall p :: p in observed && KeyOf(p) == KeyOf(o) ==> !CatalogueClaims(catalogue, p)
  {
    ClaimedInMeans(catalogue, observed, KeyOf(o));
  }

  lemma {:induction false} ClaimingMoreLeavesLess(observed: seq<Offer>, fewer: set<Key>, more: set<Key>)
    requires fewer <= more
    ensures Subsequence(Unclaimed(observed, more), Unclaimed(observed, fewer))
  {
    if observed != [] {
      var n := |observed| - 1;
      ClaimingMoreLeavesLess(observed[..n], fewer, more);
      var a, b := Unclaimed(observed[..n], more), Unclaimed(observed[..n], fewer);
      SubsequencePush(a, b, observed[n]);
      assert a + [] == a && b + [] == b;
    }
  }

  predicate Within<T(==)>(a: seq<T>, b: seq<T>) {
    forall x :: x in a ==> x in b
  }

  /** Adding catalogue entries, wherever in the key order they land, never leaves an offer unmatched
      that was matched before. */
  lemma {:induction false} EntriesOnlyMatchMore(catalogue: seq<Entry>, later: seq<Entry>, observed: seq<Offer>)
    requires Within(catalogue, later)
    ensures Subsequence(Unclaimed(observed, ClaimedIn(later, observed)),
                        Unclaimed(observed, ClaimedIn(catalogue, observed)))
  {
    forall key | key in ClaimedIn(catalogue, observed) ensures key in ClaimedIn(later, observed) {
      ClaimedInMeans(catalogue, observed, key);
      ClaimedInMeans(later, observed, key);
      var o :| o in observed && KeyOf(o) == key && CatalogueClaims(catalogue, o);
      var e :| e in catalogue && EntryClaims(e, o);
      assert e in later;
    }
    ClaimingMoreLeavesLess(observed, ClaimedIn(catalogue, observed), ClaimedIn(later, observed));
  }

  // ------------------------------------------------------------------ availability and use

  predicate Proven(d: Declared, observed: seq<Offer>, reachable: seq<Reach>) {
    (exists o :: o in observed && Matches(d, o)) || exists x :: x in reachable && x.provider == d.provider
  }

  predicate NeedMet(c: Credential, provider: Provider, bound: Bindings) {
    c.NotRequired? || provider in bound
  }

  /** Whether a declared route can be taken now: an offer's own declaration decides its credential, a
      harness that reaches the provider decides it only where nothing is offered. */
  predicate Takeable(d: Declared, observed: seq<Offer>, reachable: seq<Reach>, bound: Bindings) {
    if exists o :: o in observed && Matches(d, o) then NeedMet(d.credential, d.provider, bound)
    else
      var reach := FirstReach(reachable, d.provider);
      reach.Some? && NeedMet(ReachCredential(reach.value), d.provider, bound)
  }

  lemma RoutesMean(e: Entry, d: Declared, observed: seq<Offer>, reachable: seq<Reach>, bound: Bindings)
    ensures var routes := RoutesOf(e, d, observed, reachable, bound);
            && routes != []
            && (forall i :: 0 <= i < |routes| ==>
                  (routes[i].availability.Observed? <==> Proven(d, observed, reachable)))
            && (forall i :: 0 <= i < |routes| ==> (IsUsable(routes[i]) <==> Takeable(d, observed, reachable, bound)))
            && (forall i :: 0 <= i < |routes| ==> routes[i].model == e.model && routes[i].provider == d.provider)
  {
    var offers := Matching(d, observed);
    if offers != [] {
      assert offers[0] in offers;
      var routes := OfferedRoutes(e, d, offers, bound);
      forall i | 0 <= i < |offers| ensures routes[i].provider == d.provider {
        assert offers[i] in offers;
      }
    } else {
      forall o | o in observed ensures !Matches(d, o) { assert o !in offers; }
    }
  }

  lemma {:induction false} EntryRoutesMean(e: Entry, declared: seq<Declared>, observed: seq<Offer>,
                                           reachable: seq<Reach>, bound: Bindings)
    ensures var s := RouteSet(e.model, EntryRoutes(e, declared, observed, reachable, bound));
            && (SetIsAvailable(s) <==> exists d :: d in declared && Proven(d, observed, reachable))
            && (SetIsUsable(s) <==> exists d :: d in declared && Takeable(d, observed, reachable, bound))
  {
    if declared != [] {
      var n := |declared| - 1;
      var last := declared[n];
      EntryRoutesMean(e, declared[..n], observed, reachable, bound);
      RoutesMean(e, last, observed, reachable, bound);
      SetsJoin(e.model, EntryRoutes(e, declared[..n], observed, reachable, bound),
               RoutesOf(e, last, observed, reachable, bound));
      assert forall d :: d in declared <==> d in declared[..n] || d == last;
      var routes := RoutesOf(e, last, observed, reachable, bound);
      assert routes[0].availability.Observed? <==> Proven(last, observed, reachable);
      assert IsUsable(routes[0]) <==> Takeable(last, observed, reachable, bound);
    }
  }

  lemma SetsJoin(model: string, a: seq<Route>, b: seq<Route>)
    ensures SetIsAvailable(RouteSet(model, a + b))
            <==> SetIsAvailable(RouteSet(model, a)) || SetIsAvailable(RouteSet(model, b))
    ensures SetIsUsable(RouteSet(model, a + b)) <==> SetIsUsable(RouteSet(model, a)) || SetIsUsable(RouteSet(model, b))
  {
    var all := a + b;
    assert forall i :: 0 <= i < |a| ==> all[i] == a[i];
    assert forall i :: 0 <= i < |b| ==> all[|a| + i] == b[i];
    assert forall i :: |a| <= i < |all| ==> all[i] == b[i - |a|];
  }

  /** The availability and the use of every catalogued Model, decided by the evidence alone. */
  lemma EvidenceDecides(catalogue: seq<Entry>, observed: seq<Offer>, reachable: seq<Reach>, bound: Bindings, i: nat)
    requires i < |catalogue|
    ensures var join := Joined(catalogue, observed, reachable, bound);
            && |join.routeSets| == |catalogue| && join.routeSets[i].model == catalogue[i].model
            && (SetIsAvailable(join.routeSets[i])
               <==> exists d :: d in catalogue[i].routes && Proven(d, observed, reachable))
            && (SetIsUsable(join.routeSets[i])
               <==> exists d :: d in catalogue[i].routes && Takeable(d, observed, reachable, bound))
  {
    EntryRoutesMean(catalogue[i], catalogue[i].routes, observed, reachable, bound);
  }

  /** A route that reports this offer: its names, its detection, where it was declared. */
  predicate Reports(r: Route, e: Entry, d: Declared, o: Offer) {
    && r.model == e.model && r.provider == o.provider && r.kind == d.kind && r.nativeId == o.nativeId
    && r.availability == Observed(o.detection)
    && r.endpoint == (if o.endpoint.Some? then o.endpoint else d.endpoint)
    && e.source in r.provenance && o.detection in r.provenance
  }

  /** A route through a harness: only where nothing is offered, and to the provider it reaches. */
  predicate ReportsReach(r: Route, e: Entry, d: Declared, observed: seq<Offer>, x: Reach) {
    && r.model == e.model && r.provider == d.provider == x.provider && r.kind == HarnessNative
    && r.availability.Observed? && (forall o :: o in observed ==> !Matches(d, o))
    && e.source in r.provenance && forall p :: p in x.provenance ==> p in r.provenance
  }

  predicate Evidenced(r: Route, e: Entry, d: Declared, observed: seq<Offer>, reachable: seq<Reach>) {
    (exists o :: o in observed && Matches(d, o) && Reports(r, e, d, o))
    || exists x :: x in reachable && ReportsReach(r, e, d, observed, x)
  }

  lemma RoutesReport(e: Entry, d: Declared, observed: seq<Offer>, reachable: seq<Reach>, bound: Bindings)
    ensures var routes := RoutesOf(e, d, observed, reachable, bound);
            && (forall r :: r in routes && r.availability.Observed? ==> Evidenced(r, e, d, observed, reachable))
            && forall o :: o in observed && Matches(d, o) ==> exists r :: r in routes && Reports(r, e, d, o)
  {
    var offers, routes := Matching(d, observed), RoutesOf(e, d, observed, reachable, bound);
    if offers != [] {
      forall r | r in routes ensures Evidenced(r, e, d, observed, reachable) {
        var i :| 0 <= i < |routes| && routes[i] == r;
        assert offers[i] in offers && Reports(r, e, d, offers[i]);
      }
    } else {
      forall o | o in observed ensures !Matches(d, o) { assert o !in offers; }
    }
    forall o | o in observed && Matches(d, o) ensures exists r :: r in routes && Reports(r, e, d, o) {
      var i :| 0 <= i < |offers| && offers[i] == o;
      assert routes[i] in routes && Reports(routes[i], e, d, o);
    }
  }

  ghost predicate AllEvidenced(
      routes: seq<Route>, e: Entry, declared: seq<Declared>, observed: seq<Offer>, reachable: seq<Reach>)
  {
    forall r :: r in routes && r.availability.Observed? ==>
      exists x :: x in declared && Evidenced(r, e, x, observed, reachable)
  }

  predicate HasRoute(routes: seq<Route>, e: Entry, d: Declared, o: Offer) {
    exists r :: r in routes && Reports(r, e, d, o)
  }

  /** Each observed route stands for an offer or a reach that is there. */
  lemma {:induction false} RoutesAreEvidenced(
      e: Entry, declared: seq<Declared>, observed: seq<Offer>, reachable: seq<Reach>, bound: Bindings)
    ensures AllEvidenced(EntryRoutes(e, declared, observed, reachable, bound), e, declared, observed, reachable)
  {
    if declared != [] {
      var n := |declared| - 1;
      var front, back := EntryRoutes(e, declared[..n], observed, reachable, bound),
                         RoutesOf(e, declared[n], observed, reachable, bound);
      RoutesAreEvidenced(e, declared[..n], observed, reachable, bound);
      RoutesReport(e, declared[n], observed, reachable, bound);
      forall r: Route | r in front + back && r.availability.Observed?
        ensures exists x :: x in declared && Evidenced(r, e, x, observed, reachable)
      {
        if r in front {
          var x :| x in declared[..n] && Evidenced(r, e, x, observed, reachable);
          assert x in declared;
        }
      }
    }
  }

  /** Each offer a declared route matches has its own route. */
  lemma {:induction false} OffersHaveRoutes(
      e: Entry, declared: seq<Declared>, observed: seq<Offer>, reachable: seq<Reach>, bound: Bindings, d: Declared,
      o: Offer)
    requires d in declared && o in observed && Matches(d, o)
    ensures HasRoute(EntryRoutes(e, declared, observed, reachable, bound), e, d, o)
  {
    var n := |declared| - 1;
    var front, back := EntryRoutes(e, declared[..n], observed, reachable, bound),
                       RoutesOf(e, declared[n], observed, reachable, bound);
    var r: Route;
    if d == declared[n] {
      RoutesReport(e, d, observed, reachable, bound);
      r :| r in back && Reports(r, e, d, o);
    } else {
      assert d in declared[..n];
      OffersHaveRoutes(e, declared[..n], observed, reachable, bound, d, o);
      r :| r in front && Reports(r, e, d, o);
    }
    assert r in front + back;
  }

  /** More evidence never makes a Model unavailable. */
  lemma EvidenceOnlyHelpsAvailability(
      catalogue: seq<Entry>, observed: seq<Offer>, reachable: seq<Reach>,
      observedLater: seq<Offer>, reachableLater: seq<Reach>, bound: Bindings, boundLater: Bindings, i: nat)
    requires i < |catalogue| && Within(observed, observedLater) && Within(reachable, reachableLater)
    requires SetIsAvailable(Joined(catalogue, observed, reachable, bound).routeSets[i])
    ensures SetIsAvailable(Joined(catalogue, observedLater, reachableLater, boundLater).routeSets[i])
  {
    EvidenceDecides(catalogue, observed, reachable, bound, i);
    EvidenceDecides(catalogue, observedLater, reachableLater, boundLater, i);
    var d :| d in catalogue[i].routes && Proven(d, observed, reachable);
    assert Proven(d, observedLater, reachableLater);
  }

  /** More bindings never make a Model unusable. */
  lemma BindingsOnlyHelpUse(catalogue: seq<Entry>, observed: seq<Offer>, reachable: seq<Reach>, bound: Bindings,
                            boundLater: Bindings, i: nat)
    requires i < |catalogue| && bound.Keys <= boundLater.Keys
    requires SetIsUsable(Joined(catalogue, observed, reachable, bound).routeSets[i])
    ensures SetIsUsable(Joined(catalogue, observed, reachable, boundLater).routeSets[i])
  {
    EvidenceDecides(catalogue, observed, reachable, bound, i);
    EvidenceDecides(catalogue, observed, reachable, boundLater, i);
    var d :| d in catalogue[i].routes && Takeable(d, observed, reachable, bound);
    assert Takeable(d, observed, reachable, boundLater);
  }

  predicate Offered(d: Declared, observed: seq<Offer>) {
    exists o :: o in observed && Matches(d, o)
  }

  /** What more offers do to use, exactly: a declared route that is offered only now answers for the
      credential it declares itself; every other one is as it was. So a usable Model becomes unusable
      iff every route that could be taken was a reach that is offered now with a need nobody met. */
  lemma {:induction false} UseAfterMoreOffers(
      catalogue: seq<Entry>, observed: seq<Offer>, later: seq<Offer>, reachable: seq<Reach>, bound: Bindings, i: nat)
    requires i < |catalogue| && Within(observed, later)
    ensures SetIsUsable(Joined(catalogue, later, reachable, bound).routeSets[i]) <==>
              exists d :: d in catalogue[i].routes
                && if Offered(d, later) && !Offered(d, observed) then NeedMet(d.credential, d.provider, bound)
                   else Takeable(d, observed, reachable, bound)
  {
    EvidenceDecides(catalogue, later, reachable, bound, i);
    forall d: Declared ensures Takeable(d, later, reachable, bound) <==>
                       if Offered(d, later) && !Offered(d, observed) then NeedMet(d.credential, d.provider, bound)
                       else Takeable(d, observed, reachable, bound)
    {
      if o :| o in observed && Matches(d, o) {
        assert o in later;
      }
    }
  }

  /** The reach that would serve a declared route changed: another one is listed before it now. */
  predicate Displaced(d: Declared, reachable: seq<Reach>, later: seq<Reach>) {
    FirstReach(later, d.provider) != FirstReach(reachable, d.provider)
  }

  /** What more reach does to use, exactly: a declared route nobody offers answers for the credential of
      the reach listed first; one whose first reach changed answers for the new one's. */
  lemma {:induction false} UseAfterMoreReach(
      catalogue: seq<Entry>, observed: seq<Offer>, reachable: seq<Reach>, later: seq<Reach>, bound: Bindings, i: nat)
    requires i < |catalogue| && Within(reachable, later)
    ensures SetIsUsable(Joined(catalogue, observed, later, bound).routeSets[i]) <==>
              exists d :: d in catalogue[i].routes
                && if !Offered(d, observed) && Displaced(d, reachable, later)
                   then NeedMet(ReachCredential(FirstReach(later, d.provider).value), d.provider, bound)
                   else Takeable(d, observed, reachable, bound)
  {
    EvidenceDecides(catalogue, observed, later, bound, i);
    forall d: Declared ensures FirstReach(later, d.provider).None? ==> !Displaced(d, reachable, later) {
      var was := FirstReach(reachable, d.provider);
      if was.Some? { assert was.value in later; }
    }
  }

  /** More offers can make a Model unusable: an offer replaces a reach that needed no credential with a
      declaration that does. */
  lemma AnOfferCanMakeAModelUnusable(e: Entry, o: Offer, reach: Reach)
    requires e.routes == [Declared("p", OtherKind("k"), ["m"], None, Required("key"))]
    requires o.provider == "p" && o.nativeId == "m"
    requires reach.provider == "p" && !reach.credentialRequired
    ensures SetIsUsable(Joined([e], [], [reach], map[]).routeSets[0])
    ensures !SetIsUsable(Joined([e], [o], [reach], map[]).routeSets[0])
  {
    EvidenceDecides([e], [], [reach], map[], 0);
    UseAfterMoreOffers([e], [], [o], [reach], map[], 0);
    var d := e.routes[0];
    assert o in [o] && Matches(d, o);
    assert FirstReach([reach], "p") == Some(reach);
    assert Takeable(d, [], [reach], map[]);
  }

  /** So can more reach: one that needs a key, listed before one that does not, is the one taken. */
  lemma AReachCanMakeAModelUnusable(e: Entry, keyed: Reach, free: Reach)
    requires e.routes == [Declared("p", OtherKind("k"), ["m"], None, NotRequired)]
    requires keyed.provider == free.provider == "p" && keyed.credentialRequired && !free.credentialRequired
    ensures SetIsUsable(Joined([e], [], [free], map[]).routeSets[0])
    ensures Within([free], [keyed, free]) && !SetIsUsable(Joined([e], [], [keyed, free], map[]).routeSets[0])
  {
    EvidenceDecides([e], [], [free], map[], 0);
    UseAfterMoreReach([e], [], [free], [keyed, free], map[], 0);
    var d := e.routes[0];
    assert FirstReach([free], "p") == Some(free) && FirstReach([keyed, free], "p") == Some(keyed);
    assert Takeable(d, [], [free], map[]);
  }
}
