/** What the route join holds, route by route and field by field, said of the offers, reaches and
    declarations alone and in their order. */
module RouteContents {
  import opened Prelude
  import opened Selections
  import opened ModelRoutes

  /** A need is none, met by the provider's recorded binding, or still open; its hint is kept. */
  predicate CredentialMeans(c: Credential, declared: Credential, provider: Provider, bound: Bindings) {
    if declared.NotRequired? then c.NotRequired?
    else if provider in bound then c.Satisfied? && c.hint == declared.hint && c.binding == bound[provider]
    else c.Required? && c.hint == declared.hint
  }

  predicate FirstOf(id: string, ids: seq<string>, otherwise: string) {
    if ids == [] then id == otherwise else id == ids[0]
  }

  /** A route for an offer: its provider, id and detection, its endpoint or else the declared one, the
      declared need, and where all that comes from. */
  predicate TellsOffer(r: Route, e: Entry, d: Declared, o: Offer, bound: Bindings) {
    && r.model == e.model && r.provider == o.provider && r.kind == d.kind && r.nativeId == o.nativeId
    && r.endpoint == (if o.endpoint.Some? then o.endpoint else d.endpoint)
    && r.availability == Observed(o.detection) && CredentialMeans(r.credential, d.credential, o.provider, bound)
    && |r.provenance| == (if o.inventory.Some? then 3 else 2)
    && r.provenance[0] == e.source && r.provenance[1] == o.detection
    && (o.inventory.Some? ==> r.provenance[2] == o.inventory.value)
  }

  /** A route through a harness that reaches the provider, with the need the harness has. */
  predicate TellsReach(r: Route, e: Entry, d: Declared, x: Reach, bound: Bindings) {
    && r.model == e.model && r.provider == d.provider && r.kind == HarnessNative && FirstOf(r.nativeId, d.nativeIds, "")
    && r.endpoint == Some(x.selector + " via " + x.through)
    && r.availability.Observed? && FirstOf(r.availability.detection, x.provenance, x.through)
    && (if x.credentialRequired
        then CredentialMeans(r.credential, Required(if x.hint.Some? then x.hint.value else x.provider + " credential"),
                             d.provider, bound)
        else r.credential.NotRequired?)
    && |r.provenance| == 1 + |x.provenance| && r.provenance[0] == e.source && r.provenance[1..] == x.provenance
  }

  /** A route that is only declared. */
  predicate TellsDeclared(r: Route, e: Entry, d: Declared, bound: Bindings) {
    && r.model == e.model && r.provider == d.provider && r.kind == d.kind && FirstOf(r.nativeId, d.nativeIds, "")
    && r.endpoint == d.endpoint && r.availability == Unobserved(d.provider, d.nativeIds)
    && CredentialMeans(r.credential, d.credential, d.provider, bound) && r.provenance == [e.source]
  }

  ghost predicate TellsOffers(routes: seq<Route>, e: Entry, d: Declared, observed: seq<Offer>, bound: Bindings,
                              picks: seq<nat>) {
    && Places(picks, |observed|) && |picks| == |routes|
    && (forall i :: 0 <= i < |observed| ==> (Matches(d, observed[i]) <==> i in picks))
    && forall k :: 0 <= k < |picks| ==> TellsOffer(routes[k], e, d, observed[picks[k]], bound)
  }

  predicate FirstReaching(reachable: seq<Reach>, provider: Provider, j: nat) {
    j < |reachable| && reachable[j].provider == provider && forall i :: 0 <= i < j ==> reachable[i].provider != provider
  }

  /** The routes of one declared route: one for each offer it matches, in order; with none, one through
      the first harness that reaches the provider; with none of those either, the declaration itself. */
  ghost predicate TellsOne(routes: seq<Route>, e: Entry, d: Declared, observed: seq<Offer>, reachable: seq<Reach>,
                           bound: Bindings) {
    if exists i :: 0 <= i < |observed| && Matches(d, observed[i])
    then exists picks: seq<nat> :: TellsOffers(routes, e, d, observed, bound, picks)
    else
      && |routes| == 1
      && if forall x :: x in reachable ==> x.provider != d.provider then TellsDeclared(routes[0], e, d, bound)
         else exists j: nat ::
                FirstReaching(reachable, d.provider, j) && TellsReach(routes[0], e, d, reachable[j], bound)
  }

  /** The routes of an entry: those of its declared routes, one after the other. */
  ghost predicate TellsAll(routes: seq<Route>, e: Entry, declared: seq<Declared>, observed: seq<Offer>,
                           reachable: seq<Reach>, bound: Bindings)
    decreases |declared|
  {
    if declared == [] then routes == []
    else
      var n := |declared| - 1;
      exists k :: 0 <= k <= |routes| && TellsAll(routes[..k], e, declared[..n], observed, reachable, bound)
                  && TellsOne(routes[k..], e, declared[n], observed, reachable, bound)
  }

  // ---------------------------------------------------------------- the routes

  function MatchesEach(d: Declared, observed: seq<Offer>): seq<bool> {
    seq(|observed|, i requires 0 <= i < |observed| => Matches(d, observed[i]))
  }

  lemma MatchesNext(d: Declared, observed: seq<Offer>)
    requires observed != []
    ensures MatchesEach(d, observed)[..|observed| - 1] == MatchesEach(d, observed[..|observed| - 1])
  {
  }

  lemma {:induction false} MatchingIsPicked(d: Declared, observed: seq<Offer>)
    ensures Matching(d, observed) == Those(observed, Pick(MatchesEach(d, observed)))
  {
    if observed != [] {
      MatchingIsPicked(d, observed[..|observed| - 1]);
      MatchesNext(d, observed);
      PickNext(observed, MatchesEach(d, observed));
    }
  }

  lemma {:induction false} FirstReachIsFirst(reachable: seq<Reach>, provider: Provider) returns (j: nat)
    requires FirstReach(reachable, provider).Some?
    ensures FirstReaching(reachable, provider, j) && reachable[j] == FirstReach(reachable, provider).value
  {
    if reachable[0].provider == provider {
      j := 0;
    } else {
      j := FirstReachIsFirst(reachable[1..], provider);
      j := j + 1;
    }
  }

  lemma MatchesAre(d: Declared, observed: seq<Offer>)
    ensures var picks := Pick(MatchesEach(d, observed));
            && Places(picks, |observed|)
            && forall i :: 0 <= i < |observed| ==> (Matches(d, observed[i]) <==> i in picks)
  {
    PickMeans(MatchesEach(d, observed));
    forall i | 0 <= i < |observed| ensures Matches(d, observed[i]) <==> i in Pick(MatchesEach(d, observed)) {
      assert MatchesEach(d, observed)[i] == Matches(d, observed[i]);
    }
  }

  lemma OfferTells(e: Entry, d: Declared, o: Offer, bound: Bindings)
    ensures TellsOffer(OfferedRoute(e, d, o, bound), e, d, o, bound)
  {
  }

  lemma {:induction false} OffersTell(e: Entry, d: Declared, observed: seq<Offer>, bound: Bindings)
    returns (picks: seq<nat>)
    ensures TellsOffers(OfferedRoutes(e, d, Matching(d, observed), bound), e, d, observed, bound, picks)
  {
    picks := Pick(MatchesEach(d, observed));
    MatchingIsPicked(d, observed);
    MatchesAre(d, observed);
    OffersTellAt(e, d, observed, bound, picks, Matching(d, observed));
  }

  lemma OffersTellAt(e: Entry, d: Declared, observed: seq<Offer>, bound: Bindings, picks: seq<nat>, offers: seq<Offer>)
    requires Places(picks, |observed|) && offers == Those(observed, picks)
    ensures var routes := OfferedRoutes(e, d, offers, bound);
            && |routes| == |picks|
            && forall k :: 0 <= k < |picks| ==> TellsOffer(routes[k], e, d, observed[picks[k]], bound)
  {
    forall k | 0 <= k < |picks|
      ensures TellsOffer(OfferedRoutes(e, d, offers, bound)[k], e, d, observed[picks[k]], bound)
    {
      OfferTells(e, d, observed[picks[k]], bound);
    }
  }

  lemma MatchingIfAny(d: Declared, observed: seq<Offer>)
    ensures Matching(d, observed) != [] <==> exists i :: 0 <= i < |observed| && Matches(d, observed[i])
  {
    if Matching(d, observed) != [] {
      assert Matching(d, observed)[0] in Matching(d, observed);
    }
    if i :| 0 <= i < |observed| && Matches(d, observed[i]) {
      assert observed[i] in Matching(d, observed);
    }
  }

  lemma ReachTells(e: Entry, d: Declared, x: Reach, bound: Bindings)
    requires x.provider == d.provider
    ensures TellsReach(ReachedRoute(e, d, x, bound), e, d, x, bound)
  {
    assert ([e.source] + x.provenance)[1..] == x.provenance;
  }

  lemma {:induction false} RoutesOfTell(e: Entry, d: Declared, observed: seq<Offer>, reachable: seq<Reach>,
                                        bound: Bindings)
    ensures TellsOne(RoutesOf(e, d, observed, reachable, bound), e, d, observed, reachable, bound)
  {
    var picks := OffersTell(e, d, observed, bound);
    MatchingIfAny(d, observed);
    if Matching(d, observed) == [] {
      match FirstReach(reachable, d.provider)
      case Some(x) =>
        var j := FirstReachIsFirst(reachable, d.provider);
        ReachTells(e, d, x, bound);
      case None =>
    }
  }

  /** Every entry's routes are told by its declarations and the evidence. */
  lemma {:induction false} EntryRoutesTell(e: Entry, declared: seq<Declared>, observed: seq<Offer>,
                                           reachable: seq<Reach>, bound: Bindings)
    ensures TellsAll(EntryRoutes(e, declared, observed, reachable, bound), e, declared, observed, reachable, bound)
    decreases |declared|
  {
    if declared != [] {
      var n := |declared| - 1;
      var front, back := EntryRoutes(e, declared[..n], observed, reachable, bound),
                         RoutesOf(e, declared[n], observed, reachable, bound);
      EntryRoutesTell(e, declared[..n], observed, reachable, bound);
      RoutesOfTell(e, declared[n], observed, reachable, bound);
      var routes := front + back;
      assert routes[..|front|] == front && routes[|front|..] == back;
    }
  }

  // ------------------------------------------------------------- the left over

  predicate TellsLeftOver(u: Unmatched, o: Offer) {
    u.provider == o.provider && u.kind == o.kind && u.nativeId == o.nativeId && u.endpoint == o.endpoint
    && u.provenance == [o.detection]
  }

  /** No offer under this one's provider and native id is claimed by any declared route. */
  predicate Unwanted(catalogue: seq<Entry>, observed: seq<Offer>, o: Offer) {
    forall p :: p in observed && p.provider == o.provider && p.nativeId == o.nativeId ==> !CatalogueClaims(catalogue, p)
  }

  ghost predicate TellsUnmatched(unmatched: seq<Unmatched>, catalogue: seq<Entry>, observed: seq<Offer>,
                                 picks: seq<nat>) {
    && Places(picks, |observed|) && |picks| == |unmatched|
    && (forall i :: 0 <= i < |observed| ==> (Unwanted(catalogue, observed, observed[i]) <==> i in picks))
    && forall k :: 0 <= k < |picks| ==> TellsLeftOver(unmatched[k], observed[picks[k]])
  }

  function FreeEach(observed: seq<Offer>, claimed: set<Key>): seq<bool> {
    seq(|observed|, i requires 0 <= i < |observed| => KeyOf(observed[i]) !in claimed)
  }

  lemma FreeNext(observed: seq<Offer>, claimed: set<Key>)
    requires observed != []
    ensures FreeEach(observed, claimed)[..|observed| - 1] == FreeEach(observed[..|observed| - 1], claimed)
  {
  }

  lemma {:induction false} UnclaimedIsPicked(observed: seq<Offer>, claimed: set<Key>)
    ensures Unclaimed(observed, claimed) == Those(observed, Pick(FreeEach(observed, claimed)))
  {
    if observed != [] {
      UnclaimedIsPicked(observed[..|observed| - 1], claimed);
      FreeNext(observed, claimed);
      PickNext(observed, FreeEach(observed, claimed));
    }
  }

  /** The join: a route set for each entry in order, told by its declarations and the evidence, and each
      unwanted offer left over once, in order and as it was observed. */
  lemma {:induction false} JoinTells(catalogue: seq<Entry>, observed: seq<Offer>, reachable: seq<Reach>,
                                     bound: Bindings)
    returns (picks: seq<nat>)
    ensures var join := Joined(catalogue, observed, reachable, bound);
            && |join.routeSets| == |catalogue|
            && (forall i :: 0 <= i < |catalogue| ==>
                  && join.routeSets[i].model == catalogue[i].model
                  && TellsAll(join.routeSets[i].routes, catalogue[i], catalogue[i].routes, observed, reachable, bound))
            && TellsUnmatched(join.unmatched, catalogue, observed, picks)
  {
    var join, claimed := Joined(catalogue, observed, reachable, bound), ClaimedIn(catalogue, observed);
    forall i | 0 <= i < |catalogue|
      ensures join.routeSets[i].model == catalogue[i].model
      ensures TellsAll(join.routeSets[i].routes, catalogue[i], catalogue[i].routes, observed, reachable, bound)
    {
      EntryRoutesTell(catalogue[i], catalogue[i].routes, observed, reachable, bound);
    }
    picks := UnmatchedTells(catalogue, observed, claimed);
  }

  lemma UnwantedAre(catalogue: seq<Entry>, observed: seq<Offer>, i: nat)
    requires i < |observed|
    ensures FreeEach(observed, ClaimedIn(catalogue, observed))[i] <==> Unwanted(catalogue, observed, observed[i])
  {
    ClaimedInMeans(catalogue, observed, KeyOf(observed[i]));
  }

  lemma {:induction false} UnmatchedTells(catalogue: seq<Entry>, observed: seq<Offer>, claimed: set<Key>)
    returns (picks: seq<nat>)
    requires claimed == ClaimedIn(catalogue, observed)
    ensures TellsUnmatched(UnmatchedOf(Unclaimed(observed, claimed)), catalogue, observed, picks)
  {
    picks := Pick(FreeEach(observed, claimed));
    UnclaimedIsPicked(observed, claimed);
    PickMeans(FreeEach(observed, claimed));
    forall i | 0 <= i < |observed| ensures Unwanted(catalogue, observed, observed[i]) <==> i in picks {
      UnwantedAre(catalogue, observed, i);
    }
  }
}
