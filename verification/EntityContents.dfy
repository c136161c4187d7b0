/** What a materialised reading holds, said of the records' members and of the objects themselves, in
    their order: which edges, which disclosed absences, which nodes a local space lists, and what
    adoption keeps. */
module EntityContents {
  import opened Prelude
  import opened Selections
  import opened Entities

  /** The place of a member: its record's, and its own in the record. */
  type Spot = (nat, nat)

  predicate Ahead(a: Spot, b: Spot) {
    a.0 < b.0 || (a.0 == b.0 && a.1 < b.1)
  }

  predicate IsSpot(sets: seq<SetRecord>, s: Spot) {
    s.0 < |sets| && s.1 < |sets[s.0].members|
  }

  /** What a member points at: a valid agent's node, a nested set's node, or nothing. */
  predicate Points(m: Member, valid: string -> bool, to: string) {
    match m
    case Agent(agent) => agent.Some? && valid(agent.value) && to == AgentRef(agent.value)
    case Nested(set_) => set_.Some? && to == SetEntityRef(set_.value)
    case OtherMember => false
  }

  predicate Pointing(m: Member, valid: string -> bool) {
    (m.Agent? && m.agent.Some? && valid(m.agent.value)) || (m.Nested? && m.set_.Some?)
  }

  lemma TargetIsPointedAt(m: Member, valid: string -> bool)
    ensures TargetOf(m, valid).Some? <==> Pointing(m, valid)
    ensures Pointing(m, valid) ==> Points(m, valid, TargetOf(m, valid).value)
  {
  }

  // ------------------------------------------------------------- the edges declared

  function PointingEach(members: seq<Member>, valid: string -> bool): seq<bool> {
    seq(|members|, i requires 0 <= i < |members| => Pointing(members[i], valid))
  }

  /** The edge of a member. */
  predicate IsEdgeOf(e: Edge, setRef: string, m: Member, valid: string -> bool) {
    e.from == SetEntityRef(setRef) && Points(m, valid, e.to)
    && e.ref == "wiki:edge:" + e.from + "->" + e.to + ":member"
  }

  /** A member's edge; what it is for one that points at nothing does not matter. */
  function EdgeFor(setRef: string, m: Member, valid: string -> bool): Edge {
    MemberEdge(SetEntityRef(setRef), if TargetOf(m, valid).Some? then TargetOf(m, valid).value else "")
  }

  function EdgeEach(setRef: string, members: seq<Member>, valid: string -> bool): seq<Edge> {
    seq(|members|, i requires 0 <= i < |members| => EdgeFor(setRef, members[i], valid))
  }

  lemma EdgeForIsItsEdge(setRef: string, m: Member, valid: string -> bool)
    requires Pointing(m, valid)
    ensures IsEdgeOf(EdgeFor(setRef, m, valid), setRef, m, valid)
  {
    TargetIsPointedAt(m, valid);
  }

  lemma EachNext(setRef: string, members: seq<Member>, valid: string -> bool)
    requires members != []
    ensures var n := |members| - 1;
            && PointingEach(members, valid)[..n] == PointingEach(members[..n], valid)
            && EdgeEach(setRef, members, valid)[..n] == EdgeEach(setRef, members[..n], valid)
  {
  }

  lemma {:induction false} EdgesArePicked(setRef: string, members: seq<Member>, valid: string -> bool)
    ensures EdgesOf(setRef, members, valid)
            == Those(EdgeEach(setRef, members, valid), Pick(PointingEach(members, valid)))
  {
    if members != [] {
      var n := |members| - 1;
      EdgesArePicked(setRef, members[..n], valid);
      EachNext(setRef, members, valid);
      TargetIsPointedAt(members[n], valid);
      PickNext(EdgeEach(setRef, members, valid), PointingEach(members, valid));
    }
  }

  lemma PointingAre(members: seq<Member>, valid: string -> bool)
    ensures var js := Pick(PointingEach(members, valid));
            && Places(js, |members|) && forall j :: 0 <= j < |members| ==> (Pointing(members[j], valid) <==> j in js)
  {
    PickMeans(PointingEach(members, valid));
    forall j | 0 <= j < |members| ensures Pointing(members[j], valid) <==> j in Pick(PointingEach(members, valid)) {
      assert PointingEach(members, valid)[j] == Pointing(members[j], valid);
    }
  }

  /** The edges of a record are those of its members that point at something, in order. */
  lemma {:induction false} MembersPointing(setRef: string, members: seq<Member>, valid: string -> bool)
    returns (js: seq<nat>)
    ensures js == Pick(PointingEach(members, valid)) && |EdgesOf(setRef, members, valid)| == |js|
    ensures forall k :: 0 <= k < |js| ==> IsEdgeOf(EdgesOf(setRef, members, valid)[k], setRef, members[js[k]], valid)
  {
    js := Pick(PointingEach(members, valid));
    EdgesArePicked(setRef, members, valid);
    PointingAre(members, valid);
    forall k | 0 <= k < |js| ensures IsEdgeOf(EdgesOf(setRef, members, valid)[k], setRef, members[js[k]], valid) {
      assert js[k] in js;
      EdgeForIsItsEdge(setRef, members[js[k]], valid);
    }
  }

  /** Exactly the members that point at something, record by record and in each record's order. */
  ghost predicate Spots(sets: seq<SetRecord>, valid: string -> bool, spots: seq<Spot>) {
    && (forall k :: 0 <= k < |spots| ==> IsSpot(sets, spots[k]))
    && (forall k, l :: 0 <= k < l < |spots| ==> Ahead(spots[k], spots[l]))
    && forall s: Spot :: IsSpot(sets, s) ==> (Pointing(sets[s.0].members[s.1], valid) <==> s in spots)
  }

  predicate EdgeAt(sets: seq<SetRecord>, valid: string -> bool, s: Spot, e: Edge)
    requires IsSpot(sets, s)
  {
    IsEdgeOf(e, sets[s.0].setRef, sets[s.0].members[s.1], valid)
  }

  function InRecord(i: nat, js: seq<nat>): seq<Spot> {
    seq(|js|, k requires 0 <= k < |js| => (i, js[k]))
  }

  lemma InRecordHas(i: nat, js: seq<nat>, j: nat)
    ensures (i, j) in InRecord(i, js) <==> j in js
  {
    if j in js {
      var k :| 0 <= k < |js| && js[k] == j;
      assert InRecord(i, js)[k] == (i, j);
    }
  }

  lemma {:induction false} SpotsNext(sets: seq<SetRecord>, valid: string -> bool, front: seq<Spot>, js: seq<nat>)
    requires sets != [] && Spots(sets[..|sets| - 1], valid, front)
    requires js == Pick(PointingEach(sets[|sets| - 1].members, valid))
    ensures Spots(sets, valid, front + InRecord(|sets| - 1, js))
  {
    var n := |sets| - 1;
    PointingAre(sets[n].members, valid);
    var last := InRecord(n, js);
    var spots := front + last;
    forall k | 0 <= k < |spots| ensures IsSpot(sets, spots[k]) {
      if k < |front| { assert IsSpot(sets[..n], front[k]); }
    }
    forall k, l | 0 <= k < l < |spots| ensures Ahead(spots[k], spots[l]) {
      if k < |front| { assert IsSpot(sets[..n], front[k]); }
    }
    forall s: Spot | IsSpot(sets, s) ensures Pointing(sets[s.0].members[s.1], valid) <==> s in spots {
      if s.0 < n {
        assert IsSpot(sets[..n], s) && s !in last;
      } else {
        InRecordHas(n, js, s.1);
        assert s == (n, s.1) && s !in front;
      }
    }
  }

  lemma {:induction false} DeclaredInOrder(sets: seq<SetRecord>, valid: string -> bool) returns (spots: seq<Spot>)
    ensures Spots(sets, valid, spots) && |spots| == |AllEdges(sets, valid)|
    ensures forall k :: 0 <= k < |spots| ==> EdgeAt(sets, valid, spots[k], AllEdges(sets, valid)[k])
  {
    if sets == [] {
      spots := [];
    } else {
      var n := |sets| - 1;
      var front := DeclaredInOrder(sets[..n], valid);
      var js := MembersPointing(sets[n].setRef, sets[n].members, valid);
      SpotsNext(sets, valid, front, js);
      spots := front + InRecord(n, js);
      forall k | 0 <= k < |spots| ensures EdgeAt(sets, valid, spots[k], AllEdges(sets, valid)[k]) {
        if k < |front| {
          assert EdgeAt(sets[..n], valid, front[k], AllEdges(sets[..n], valid)[k]);
        }
      }
    }
  }

  // ----------------------------------------------------- kept, omitted, disclosed

  function KnownEach(edges: seq<Edge>, known: set<string>): seq<bool> {
    seq(|edges|, i requires 0 <= i < |edges| => edges[i].to in known)
  }

  lemma KnownNext(edges: seq<Edge>, known: set<string>)
    requires edges != []
    ensures KnownEach(edges, known)[..|edges| - 1] == KnownEach(edges[..|edges| - 1], known)
  {
  }

  lemma {:induction false} KeptArePicked(edges: seq<Edge>, known: set<string>)
    ensures Kept(edges, known) == Those(edges, Pick(KnownEach(edges, known)))
  {
    if edges != [] {
      KeptArePicked(edges[..|edges| - 1], known);
      KnownNext(edges, known);
      PickNext(edges, KnownEach(edges, known));
    }
  }

  function UnknownEach(edges: seq<Edge>, known: set<string>): seq<bool> {
    seq(|edges|, i requires 0 <= i < |edges| => edges[i].to !in known)
  }

  function OmissionEach(edges: seq<Edge>): seq<Absence> {
    seq(|edges|, i requires 0 <= i < |edges| => EdgeOmitted(edges[i].to))
  }

  lemma UnknownNext(edges: seq<Edge>, known: set<string>)
    requires edges != []
    ensures UnknownEach(edges, known)[..|edges| - 1] == UnknownEach(edges[..|edges| - 1], known)
    ensures OmissionEach(edges)[..|edges| - 1] == OmissionEach(edges[..|edges| - 1])
  {
  }

  /** The edges left out are disclosed by their targets, in order. */
  lemma {:induction false} OmittedArePicked(edges: seq<Edge>, known: set<string>)
    ensures Omitted(edges, known) == Those(OmissionEach(edges), Pick(UnknownEach(edges, known)))
  {
    if edges != [] {
      OmittedArePicked(edges[..|edges| - 1], known);
      UnknownNext(edges, known);
      PickNext(OmissionEach(edges), UnknownEach(edges, known));
    }
  }

  /** The participants no profile gave, one after the other, each disclosed when it was declared. */
  predicate Disclosed(p: Pass, given: nat) {
    && given <= |p.nodes| && |p.absences| == |p.nodes| - given
    && forall k :: 0 <= k < |p.absences| ==> p.absences[k] == DeclaredOnly(p.nodes[given + k].subject)
  }

  lemma DeclareDiscloses(p: Pass, s: SetRecord, m: Member, valid: string -> bool, given: nat)
    requires Disclosed(p, given)
    ensures Disclosed(Declare(p, s, m, valid), given)
  {
  }

  lemma {:induction false} MembersDisclose(p: Pass, s: SetRecord, members: seq<Member>, valid: string -> bool,
                                            given: nat)
    requires Disclosed(p, given)
    ensures Disclosed(DeclareAll(p, s, members, valid), given)
    decreases |members|
  {
    if members != [] {
      var n := |members| - 1;
      MembersDisclose(p, s, members[..n], valid, given);
      DeclareDiscloses(DeclareAll(p, s, members[..n], valid), s, members[n], valid, given);
    }
  }

  lemma {:induction false} SetsDisclose(p: Pass, sets: seq<SetRecord>, valid: string -> bool, given: nat)
    requires Disclosed(p, given)
    ensures Disclosed(DeclareSets(p, sets, valid), given)
    decreases |sets|
  {
    if sets != [] {
      var n := |sets| - 1;
      SetsDisclose(p, sets[..n], valid, given);
      MembersDisclose(DeclareSets(p, sets[..n], valid), sets[n], sets[n].members, valid, given);
    }
  }

  /** These edges are those of these spots, place by place. */
  ghost predicate EdgesAt(sets: seq<SetRecord>, valid: string -> bool, spots: seq<Spot>, picks: seq<nat>,
                          edges: seq<Edge>) {
    && Places(picks, |spots|) && |edges| == |picks|
    && forall k :: 0 <= k < |picks| ==> IsSpot(sets, spots[picks[k]]) && EdgeAt(sets, valid, spots[picks[k]], edges[k])
  }

  /** An absence is disclosed for each participant no profile gave, and then for each edge left out. */
  ghost predicate AbsencesTell(r: Reading, given: nat, sets: seq<SetRecord>, valid: string -> bool, spots: seq<Spot>,
                               dropped: seq<nat>) {
    && given <= |r.agents| && Places(dropped, |spots|)
    && var created := |r.agents| - given;
       && |r.absences| == created + |dropped|
       && (forall k :: 0 <= k < created ==> r.absences[k] == DeclaredOnly(r.agents[given + k].subject))
       && forall k :: 0 <= k < |dropped| ==>
            && r.absences[created + k].EdgeOmitted? && IsSpot(sets, spots[dropped[k]])
            && Points(sets[spots[dropped[k]].0].members[spots[dropped[k]].1], valid, r.absences[created + k].to)
  }

  /** A member that points at something in the graph. */
  ghost predicate Reaches(r: Reading, m: Member, valid: string -> bool) {
    exists to :: Points(m, valid, to) && InGraph(r, to)
  }

  lemma ReachesIfKnown(nara: Option<Node>, profiles: seq<Node>, sets: seq<SetRecord>, valid: string -> bool,
                       e: Edge, setRef: string, m: Member)
    requires IsEdgeOf(e, setRef, m, valid)
    ensures var r := Materialised(nara, profiles, sets, valid);
            e.to in KnownRefs(nara, r.agents, sets) <==> Reaches(r, m, valid)
  {
    KnownIfInGraph(nara, profiles, sets, valid, e.to);
    assert forall to :: Points(m, valid, to) ==> to == e.to;
  }

  lemma KeptAreAt(sets: seq<SetRecord>, valid: string -> bool, spots: seq<Spot>, edges: seq<Edge>, known: set<string>,
                  kept: seq<nat>)
    requires Spots(sets, valid, spots) && |spots| == |edges|
    requires forall k :: 0 <= k < |spots| ==> EdgeAt(sets, valid, spots[k], edges[k])
    requires kept == Pick(KnownEach(edges, known)) && Places(kept, |edges|) && Kept(edges, known) == Those(edges, kept)
    ensures EdgesAt(sets, valid, spots, kept, Kept(edges, known))
  {
    forall k | 0 <= k < |kept|
      ensures IsSpot(sets, spots[kept[k]]) && EdgeAt(sets, valid, spots[kept[k]], Kept(edges, known)[k])
    {
      assert Kept(edges, known)[k] == edges[kept[k]];
    }
  }

  lemma DroppedAreDisclosed(r: Reading, given: nat, sets: seq<SetRecord>, valid: string -> bool, spots: seq<Spot>,
                            edges: seq<Edge>, dropped: seq<nat>, p: Pass, omitted: seq<Absence>)
    requires Spots(sets, valid, spots) && |spots| == |edges|
    requires forall k :: 0 <= k < |spots| ==> EdgeAt(sets, valid, spots[k], edges[k])
    requires Places(dropped, |edges|) && omitted == Those(OmissionEach(edges), dropped) && Disclosed(p, given)
    requires r.agents == p.nodes && r.absences == p.absences + omitted
    ensures AbsencesTell(r, given, sets, valid, spots, dropped)
  {
    var created := |r.agents| - given;
    forall k | 0 <= k < |dropped|
      ensures r.absences[created + k].EdgeOmitted? && IsSpot(sets, spots[dropped[k]])
      ensures Points(sets[spots[dropped[k]].0].members[spots[dropped[k]].1], valid, r.absences[created + k].to)
    {
      OmissionPoints(sets, valid, spots[dropped[k]], edges[dropped[k]]);
      OmissionAt(p.absences, edges, dropped, k);
    }
    FirstAbsences(p, given, omitted);
  }

  lemma OmissionAt(first: seq<Absence>, edges: seq<Edge>, dropped: seq<nat>, k: nat)
    requires Places(dropped, |edges|) && k < |dropped|
    ensures (first + Those(OmissionEach(edges), dropped))[|first| + k] == EdgeOmitted(edges[dropped[k]].to)
  {
  }

  lemma FirstAbsences(p: Pass, given: nat, omitted: seq<Absence>)
    requires Disclosed(p, given)
    ensures forall k :: 0 <= k < |p.absences| ==> (p.absences + omitted)[k] == DeclaredOnly(p.nodes[given + k].subject)
  {
  }

  lemma OmissionPoints(sets: seq<SetRecord>, valid: string -> bool, s: Spot, e: Edge)
    requires IsSpot(sets, s) && EdgeAt(sets, valid, s, e)
    ensures Points(sets[s.0].members[s.1], valid, e.to)
  {
  }

  lemma SpotIsKeptIfReached(nara: Option<Node>, profiles: seq<Node>, sets: seq<SetRecord>, valid: string -> bool,
                            spots: seq<Spot>, edges: seq<Edge>, kept: seq<nat>, dropped: seq<nat>, k: nat)
    requires k < |spots| == |edges| && IsSpot(sets, spots[k]) && EdgeAt(sets, valid, spots[k], edges[k])
    requires var known := KnownRefs(nara, Materialised(nara, profiles, sets, valid).agents, sets);
             kept == Pick(KnownEach(edges, known)) && dropped == Pick(UnknownEach(edges, known))
    ensures k in kept <==>
              Reaches(Materialised(nara, profiles, sets, valid), sets[spots[k].0].members[spots[k].1], valid)
    ensures k in dropped <==> k !in kept
  {
    var known := KnownRefs(nara, Materialised(nara, profiles, sets, valid).agents, sets);
    var s := sets[spots[k].0];
    ReachesIfKnown(nara, profiles, sets, valid, edges[k], s.setRef, s.members[spots[k].1]);
    PickHas(KnownEach(edges, known), k);
    PickHas(UnknownEach(edges, known), k);
  }

  /** The whole reading: of the members that point at something, in order, those that reach the graph have
      their edges and the others are disclosed, after the participants that are only declared. */
  lemma {:induction false} ReadingTells(nara: Option<Node>, profiles: seq<Node>, sets: seq<SetRecord>,
                                        valid: string -> bool)
    returns (spots: seq<Spot>, kept: seq<nat>, dropped: seq<nat>)
    ensures Spots(sets, valid, spots)
    ensures var r := Materialised(nara, profiles, sets, valid);
            && (forall k :: 0 <= k < |spots| ==>
                  && (k in kept <==> Reaches(r, sets[spots[k].0].members[spots[k].1], valid))
                  && (k in dropped <==> k !in kept))
            && EdgesAt(sets, valid, spots, kept, r.edges) && AbsencesTell(r, |profiles|, sets, valid, spots, dropped)
  {
    var r := Materialised(nara, profiles, sets, valid);
    var edges, known := AllEdges(sets, valid), KnownRefs(nara, r.agents, sets);
    spots := DeclaredInOrder(sets, valid);
    kept, dropped := Pick(KnownEach(edges, known)), Pick(UnknownEach(edges, known));
    KeptArePicked(edges, known);
    OmittedArePicked(edges, known);
    PickAscends(KnownEach(edges, known));
    PickAscends(UnknownEach(edges, known));
    SetsDisclose(Pass(profiles, []), sets, valid, |profiles|);
    KeptAreAt(sets, valid, spots, edges, known, kept);
    DroppedAreDisclosed(r, |profiles|, sets, valid, spots, edges, dropped, DeclareSets(Pass(profiles, []), sets, valid),
                        Omitted(edges, known));
    forall k | 0 <= k < |spots|
      ensures k in kept <==> Reaches(r, sets[spots[k].0].members[spots[k].1], valid)
      ensures k in dropped <==> k !in kept
    {
      SpotIsKeptIfReached(nara, profiles, sets, valid, spots, edges, kept, dropped, k);
    }
  }

  // ------------------------------------------------- the evidence on a participant

  predicate Names(m: Member, agent: string, valid: string -> bool) {
    m.Agent? && m.agent == Some(agent) && valid(agent)
  }

  predicate NamesAgent(s: SetRecord, agent: string, valid: string -> bool) {
    exists m :: m in s.members && Names(m, agent, valid)
  }

  function NodeOf(nodes: seq<Node>, agent: string): Option<Node> {
    if HasRef(nodes, AgentRef(agent)) then Some(nodes[Position(nodes, AgentRef(agent))]) else None
  }

  function SourcesOn(n: Option<Node>): seq<string> {
    if n.Some? then n.value.sources else []
  }

  function ProvenanceOn(n: Option<Node>): seq<(string, string)> {
    if n.Some? then n.value.provenance else []
  }

  predicate NoRepeats<T(==)>(s: seq<T>) {
    forall i, j :: 0 <= i < j < |s| ==> s[i] != s[j]
  }

  /** With each of these records its source and its revision come onto the node, once each and after what
      was there; a created node carries its agent as its subject. */
  ghost predicate Evidences(n: Option<Node>, r: Option<Node>, agent: string, named: set<SetRecord>) {
    && (r.Some? <==> n.Some? || named != {})
    && SourcesOn(n) <= SourcesOn(r) && ProvenanceOn(n) <= ProvenanceOn(r)
    && (forall x :: x in SourcesOn(r) <==> x in SourcesOn(n) || exists s :: s in named && s.source == x)
    && (forall x :: x in ProvenanceOn(r) <==>
          x in ProvenanceOn(n) || exists s :: s in named && (s.source, s.revision) == x)
    && (NoRepeats(SourcesOn(n)) ==> NoRepeats(SourcesOn(r)))
    && (NoRepeats(ProvenanceOn(n)) ==> NoRepeats(ProvenanceOn(r)))
    && (n.None? && r.Some? ==> r.value.subject == agent)
    && (n.Some? && r.Some? ==> r.value.subject == n.value.subject)
  }

  lemma AddedOnce<T>(s: seq<T>, x: T)
    ensures s <= Added(s, x) && (forall y :: y in Added(s, x) <==> y in s || y == x)
    ensures NoRepeats(s) ==> NoRepeats(Added(s, x))
  {
  }

  lemma JoiningEvidences(n: Option<Node>, agent: string, s: SetRecord)
    ensures var was := if n.Some? then n.value else Participant(agent);
            Evidences(n, Some(Joining(was, s)), agent, {s})
  {
    var was := if n.Some? then n.value else Participant(agent);
    AddedOnce(was.sources, s.source);
    AddedOnce(was.provenance, (s.source, s.revision));
  }

  lemma NothingEvidences(n: Option<Node>, agent: string)
    ensures Evidences(n, n, agent, {})
  {
  }

  lemma EvidencesJoin(n: Option<Node>, q: Option<Node>, r: Option<Node>, agent: string, a: set<SetRecord>,
                      b: set<SetRecord>)
    requires Evidences(n, q, agent, a) && Evidences(q, r, agent, b)
    ensures Evidences(n, r, agent, a + b)
  {
    SourcesJoin(n, q, r, agent, a, b);
    ProvenanceJoin(n, q, r, agent, a, b);
  }

  lemma SourcesJoin(n: Option<Node>, q: Option<Node>, r: Option<Node>, agent: string, a: set<SetRecord>,
                    b: set<SetRecord>)
    requires Evidences(n, q, agent, a) && Evidences(q, r, agent, b)
    ensures forall x :: x in SourcesOn(r) <==> x in SourcesOn(n) || exists s :: s in a + b && s.source == x
  {
    forall x ensures x in SourcesOn(r) <==> x in SourcesOn(n) || exists s :: s in a + b && s.source == x {
      assert x in SourcesOn(q) <==> x in SourcesOn(n) || exists s :: s in a && s.source == x;
      if s :| s in b && s.source == x { assert s in a + b; }
      if s :| s in a && s.source == x { assert s in a + b; }
    }
  }

  lemma ProvenanceJoin(n: Option<Node>, q: Option<Node>, r: Option<Node>, agent: string, a: set<SetRecord>,
                       b: set<SetRecord>)
    requires Evidences(n, q, agent, a) && Evidences(q, r, agent, b)
    ensures forall x :: x in ProvenanceOn(r) <==>
              x in ProvenanceOn(n) || exists s :: s in a + b && (s.source, s.revision) == x
  {
    forall x ensures x in ProvenanceOn(r) <==>
                     x in ProvenanceOn(n) || exists s :: s in a + b && (s.source, s.revision) == x {
      assert x in ProvenanceOn(q) <==> x in ProvenanceOn(n) || exists s :: s in a && (s.source, s.revision) == x;
      if s :| s in b && (s.source, s.revision) == x { assert s in a + b; }
      if s :| s in a && (s.source, s.revision) == x { assert s in a + b; }
    }
  }

  function Naming(s: SetRecord, members: seq<Member>, agent: string, valid: string -> bool): set<SetRecord> {
    if exists m :: m in members && Names(m, agent, valid) then {s} else {}
  }

  lemma {:induction false} DeclareEvidences(p: Pass, s: SetRecord, m: Member, valid: string -> bool, agent: string)
    requires RefsDistinct(p.nodes)
    ensures RefsDistinct(Declare(p, s, m, valid).nodes)
    ensures Evidences(NodeOf(p.nodes, agent), NodeOf(Declare(p, s, m, valid).nodes, agent), agent,
                      if Names(m, agent, valid) then {s} else {})
  {
    var r := Declare(p, s, m, valid);
    DeclareSteps(p, s, m, valid, agent);
    NothingEvidences(NodeOf(p.nodes, agent), agent);
    if Declares(m, valid) {
      var i := Position(p.nodes, AgentRef(m.agent.value));
      RefsAreInjective(agent, m.agent.value);
      if Names(m, agent, valid) {
        JoiningEvidences(NodeOf(p.nodes, agent), agent, s);
        PositionIs(r.nodes, i);
      } else if HasRef(p.nodes, AgentRef(agent)) {
        PositionStays(p.nodes, r.nodes, AgentRef(agent));
      }
    }
  }

  lemma {:induction false} MembersEvidence(p: Pass, s: SetRecord, members: seq<Member>, valid: string -> bool,
                                           agent: string)
    requires RefsDistinct(p.nodes)
    ensures RefsDistinct(DeclareAll(p, s, members, valid).nodes)
    ensures Evidences(NodeOf(p.nodes, agent), NodeOf(DeclareAll(p, s, members, valid).nodes, agent), agent,
                      Naming(s, members, agent, valid))
    decreases |members|
  {
    if members == [] {
      NothingEvidences(NodeOf(p.nodes, agent), agent);
    } else {
      var n := |members| - 1;
      var q := DeclareAll(p, s, members[..n], valid);
      MembersEvidence(p, s, members[..n], valid, agent);
      DeclareEvidences(q, s, members[n], valid, agent);
      EvidencesJoin(NodeOf(p.nodes, agent), NodeOf(q.nodes, agent),
                    NodeOf(Declare(q, s, members[n], valid).nodes, agent), agent,
                    Naming(s, members[..n], agent, valid), if Names(members[n], agent, valid) then {s} else {});
      NamingPush(s, members, agent, valid);
    }
  }

  lemma NamingPush(s: SetRecord, members: seq<Member>, agent: string, valid: string -> bool)
    requires members != []
    ensures Naming(s, members, agent, valid)
            == Naming(s, members[..|members| - 1], agent, valid)
               + if Names(members[|members| - 1], agent, valid) then {s} else {}
  {
    assert forall m :: m in members <==> m in members[..|members| - 1] || m == members[|members| - 1];
  }

  /** The records that name this agent. */
  function NamedBy(sets: seq<SetRecord>, agent: string, valid: string -> bool): set<SetRecord> {
    set s | s in sets && NamesAgent(s, agent, valid)
  }

  /** Whatever names an agent leaves its source and revision on the agent's node, and nothing else does. */
  lemma {:induction false} EvidenceIsRecorded(p: Pass, sets: seq<SetRecord>, valid: string -> bool, agent: string)
    requires RefsDistinct(p.nodes)
    ensures RefsDistinct(DeclareSets(p, sets, valid).nodes)
    ensures Evidences(NodeOf(p.nodes, agent), NodeOf(DeclareSets(p, sets, valid).nodes, agent), agent,
                      NamedBy(sets, agent, valid))
    decreases |sets|
  {
    if sets == [] {
      NothingEvidences(NodeOf(p.nodes, agent), agent);
    } else {
      var n := |sets| - 1;
      var q := DeclareSets(p, sets[..n], valid);
      EvidenceIsRecorded(p, sets[..n], valid, agent);
      MembersEvidence(q, sets[n], sets[n].members, valid, agent);
      EvidencesJoin(NodeOf(p.nodes, agent), NodeOf(q.nodes, agent), NodeOf(DeclareSets(p, sets, valid).nodes, agent),
                    agent, NamedBy(sets[..n], agent, valid), Naming(sets[n], sets[n].members, agent, valid));
      NamedByPush(sets, agent, valid);
    }
  }

  lemma NamedByPush(sets: seq<SetRecord>, agent: string, valid: string -> bool)
    requires sets != []
    ensures NamedBy(sets, agent, valid)
            == NamedBy(sets[..|sets| - 1], agent, valid)
               + Naming(sets[|sets| - 1], sets[|sets| - 1].members, agent, valid)
  {
    var last := sets[|sets| - 1];
    assert forall s :: s in sets <==> s in sets[..|sets| - 1] || s == last;
    assert NamesAgent(last, agent, valid) <==> exists m :: m in last.members && Names(m, agent, valid);
  }

  /** Each record has its node, in order: named for the record, with its source and revision, and with a
      local space unless the record's reference is empty. */
  lemma SetNodesTell(nara: Option<Node>, profiles: seq<Node>, sets: seq<SetRecord>, valid: string -> bool)
    ensures var r := Materialised(nara, profiles, sets, valid);
            && r.nara == nara && |r.sets| == |sets|
            && forall i :: 0 <= i < |sets| ==>
                 && r.sets[i].ref == SetEntityRef(sets[i].setRef) && r.sets[i].subject == sets[i].setRef
                 && r.sets[i].sources == [sets[i].source]
                 && r.sets[i].provenance == [(sets[i].source, sets[i].revision)] && r.sets[i].participation == []
                 && (r.sets[i].localSpace.Some? <==> sets[i].setRef != "")
  {
  }

  // --------------------------------------------------------------- local spaces

  lemma {:induction false} OwnTargets(edges: seq<Edge>, from: string)
    requires forall e :: e in edges ==> e.from == from
    ensures |Targets(edges, from)| == |edges|
    ensures forall k :: 0 <= k < |edges| ==> Targets(edges, from)[k] == edges[k].to
  {
    if edges != [] {
      var n := |edges| - 1;
      assert edges[n] in edges;
      OwnTargets(edges[..n], from);
    }
  }

  lemma {:induction false} KeptEdgesLead(s: SetRecord, known: set<string>, valid: string -> bool, all: seq<nat>)
    requires var own := EdgesOf(s.setRef, s.members, valid);
             && Places(all, |s.members|) && |all| == |own|
             && forall k :: 0 <= k < |all| ==> IsEdgeOf(own[k], s.setRef, s.members[all[k]], valid)
    ensures var kept := Kept(EdgesOf(s.setRef, s.members, valid), known);
            && |KeptMembers(s, known, valid)| == |kept|
            && forall k :: 0 <= k < |kept| ==> KeptMembers(s, known, valid)[k] == kept[k].to
  {
    var own := EdgesOf(s.setRef, s.members, valid);
    forall e | e in Kept(own, known) ensures e.from == SetEntityRef(s.setRef) {
      var k :| 0 <= k < |own| && own[k] == e;
      assert IsEdgeOf(own[k], s.setRef, s.members[all[k]], valid);
    }
    OwnTargets(Kept(own, known), SetEntityRef(s.setRef));
  }

  /** The places that point at something known are the places of the kept edges. */
  lemma {:induction false} KeptPlaces(members: seq<Member>, valid: string -> bool, known: set<string>, own: seq<Edge>,
                                      setRef: string, all: seq<nat>, kept: seq<nat>, j: nat)
    requires all == Pick(PointingEach(members, valid)) && |all| == |own| && kept == Pick(KnownEach(own, known))
    requires forall k :: 0 <= k < |all| ==> IsEdgeOf(own[k], setRef, members[all[k]], valid)
    requires j < |members| && Places(all, |members|) && Places(kept, |own|)
    ensures j in Through(all, kept) <==> Pointing(members[j], valid) && TargetOf(members[j], valid).value in known
  {
    PickMeans(PointingEach(members, valid));
    PickMeans(KnownEach(own, known));
    ThroughHas(all, kept, |members|, j);
    assert PointingEach(members, valid)[j] == Pointing(members[j], valid);
    TargetIsPointedAt(members[j], valid);
    if j in all {
      var k :| 0 <= k < |all| && all[k] == j;
      assert IsEdgeOf(own[k], setRef, members[j], valid);
      assert KnownEach(own, known)[k] == (own[k].to in known);
    }
  }

  lemma EdgesPoint(members: seq<Member>, valid: string -> bool, own: seq<Edge>, known: set<string>, setRef: string,
                   all: seq<nat>, kept: seq<nat>, targets: seq<string>)
    requires Places(all, |members|) && |all| == |own| && Places(kept, |own|) && Kept(own, known) == Those(own, kept)
    requires forall k :: 0 <= k < |all| ==> IsEdgeOf(own[k], setRef, members[all[k]], valid)
    requires |targets| == |kept| && forall k :: 0 <= k < |kept| ==> targets[k] == Kept(own, known)[k].to
    ensures forall k :: 0 <= k < |kept| ==> Points(members[Through(all, kept)[k]], valid, targets[k])
  {
    forall k | 0 <= k < |kept| ensures Points(members[Through(all, kept)[k]], valid, targets[k]) {
      assert Kept(own, known)[k] == own[kept[k]];
      assert IsEdgeOf(own[kept[k]], setRef, members[all[kept[k]]], valid);
    }
  }

  lemma PlacesKept(members: seq<Member>, valid: string -> bool, own: seq<Edge>, known: set<string>, setRef: string,
                   all: seq<nat>, kept: seq<nat>)
    requires all == Pick(PointingEach(members, valid)) && |all| == |own| && kept == Pick(KnownEach(own, known))
    requires Places(all, |members|) && Places(kept, |own|)
    requires forall k :: 0 <= k < |all| ==> IsEdgeOf(own[k], setRef, members[all[k]], valid)
    ensures forall j :: 0 <= j < |members| ==>
              (j in Through(all, kept) <==> Pointing(members[j], valid) && TargetOf(members[j], valid).value in known)
  {
    forall j | 0 <= j < |members|
      ensures j in Through(all, kept) <==> Pointing(members[j], valid) && TargetOf(members[j], valid).value in known
    {
      KeptPlaces(members, valid, known, own, setRef, all, kept, j);
    }
  }

  /** What a record's kept edges lead to, member by member. */
  lemma {:induction false} KeptTargets(s: SetRecord, known: set<string>, valid: string -> bool) returns (js: seq<nat>)
    ensures Places(js, |s.members|) && |js| == |KeptMembers(s, known, valid)|
    ensures forall j :: 0 <= j < |s.members| ==>
              (j in js <==> Pointing(s.members[j], valid) && TargetOf(s.members[j], valid).value in known)
    ensures forall k :: 0 <= k < |js| ==> Points(s.members[js[k]], valid, KeptMembers(s, known, valid)[k])
  {
    var own := EdgesOf(s.setRef, s.members, valid);
    var all := MembersPointing(s.setRef, s.members, valid);
    var kept := Pick(KnownEach(own, known));
    KeptArePicked(own, known);
    PickAscends(KnownEach(own, known));
    PickAscends(PointingEach(s.members, valid));
    KeptEdgesLead(s, known, valid, all);
    js := Through(all, kept);
    ThroughPlaces(all, kept, |s.members|);
    PlacesKept(s.members, valid, own, known, s.setRef, all, kept);
    EdgesPoint(s.members, valid, own, known, s.setRef, all, kept, KeptMembers(s, known, valid));
  }

  /** With distinct set references, a named set's local space lists, in the record's order, exactly what
      its members point at in the graph. */
  lemma {:induction false} SpaceListsItsMembers(
      nara: Option<Node>, profiles: seq<Node>, sets: seq<SetRecord>, valid: string -> bool, i: nat)
    returns (space: Space, js: seq<nat>)
    requires SetsDistinct(sets) && i < |sets| && sets[i].setRef != ""
    ensures var r := Materialised(nara, profiles, sets, valid);
            && space in r.spaces && space.ref == LocalSpaceRef(sets[i].setRef)
            && space.anchor == SetEntityRef(sets[i].setRef) && r.sets[i].localSpace == Some(space.ref)
            && Places(js, |sets[i].members|) && |space.nodeRefs| == |js|
            && (forall j :: 0 <= j < |sets[i].members| ==> (j in js <==> Reaches(r, sets[i].members[j], valid)))
            && forall k :: 0 <= k < |js| ==> Points(sets[i].members[js[k]], valid, space.nodeRefs[k])
  {
    var r, s := Materialised(nara, profiles, sets, valid), sets[i];
    space := SpaceOf(s, r.edges);
    SpacesAreOwn(nara, profiles, sets, valid, i);
    js := KeptTargets(s, KnownRefs(nara, r.agents, sets), valid);
    forall j | 0 <= j < |s.members| ensures j in js <==> Reaches(r, s.members[j], valid) {
      MemberReachesIfKnown(nara, profiles, sets, valid, s.members[j]);
    }
  }

  lemma MemberReachesIfKnown(nara: Option<Node>, profiles: seq<Node>, sets: seq<SetRecord>, valid: string -> bool,
                             m: Member)
    ensures var r := Materialised(nara, profiles, sets, valid);
            Reaches(r, m, valid)
            <==> Pointing(m, valid) && TargetOf(m, valid).value in KnownRefs(nara, r.agents, sets)
  {
    TargetIsPointedAt(m, valid);
    if Pointing(m, valid) {
      var to := TargetOf(m, valid).value;
      KnownIfInGraph(nara, profiles, sets, valid, to);
      assert forall other :: Points(m, valid, other) ==> other == to;
    }
  }

  /** Places of places. */
  function Through(all: seq<nat>, picks: seq<nat>): seq<nat>
    requires Places(picks, |all|)
  {
    seq(|picks|, k requires 0 <= k < |picks| => all[picks[k]])
  }

  lemma ThroughPlaces(all: seq<nat>, picks: seq<nat>, n: nat)
    requires Places(all, n) && Places(picks, |all|)
    ensures Places(Through(all, picks), n)
  {
  }

  lemma ThroughHas(all: seq<nat>, picks: seq<nat>, n: nat, j: nat)
    requires Places(all, n) && Places(picks, |all|)
    ensures j in Through(all, picks) <==> exists k :: 0 <= k < |all| && all[k] == j && k in picks
  {
    if k :| 0 <= k < |all| && all[k] == j && k in picks {
      var l :| 0 <= l < |picks| && picks[l] == k;
      assert Through(all, picks)[l] == j;
    }
    if j in Through(all, picks) {
      var l :| 0 <= l < |picks| && Through(all, picks)[l] == j;
      assert picks[l] in picks;
    }
  }

  // ------------------------------------------------------------------ adoption

  function FreeEach(objects: seq<WikiObject>, refs: set<string>): seq<bool> {
    seq(|objects|, i requires 0 <= i < |objects| => RefOf(objects[i]) !in refs)
  }

  lemma FreeNext(objects: seq<WikiObject>, refs: set<string>)
    requires objects != []
    ensures FreeEach(objects, refs)[..|objects| - 1] == FreeEach(objects[..|objects| - 1], refs)
  {
  }

  lemma {:induction false} WithoutIsPicked(objects: seq<WikiObject>, refs: set<string>)
    ensures Without(objects, refs) == Those(objects, Pick(FreeEach(objects, refs)))
  {
    if objects != [] {
      WithoutIsPicked(objects[..|objects| - 1], refs);
      FreeNext(objects, refs);
      PickNext(objects, FreeEach(objects, refs));
    }
  }

  /** Adoption: exactly the discovered objects whose reference no entity has, in their order, and then
      the entities as they are. */
  lemma {:induction false} AdoptionTells(discovered: seq<WikiObject>, entities: seq<WikiObject>)
    returns (picks: seq<nat>)
    ensures var r := Adopted(discovered, entities);
            && Places(picks, |discovered|) && |r| == |picks| + |entities|
            && (forall i :: 0 <= i < |discovered| ==>
                  (i in picks <==> forall e :: e in entities ==> RefOf(e) != RefOf(discovered[i])))
            && (forall k :: 0 <= k < |picks| ==> r[k] == discovered[picks[k]])
            && r[|picks|..] == entities
  {
    var refs := RefsOf(entities);
    picks := Pick(FreeEach(discovered, refs));
    WithoutIsPicked(discovered, refs);
    PickMeans(FreeEach(discovered, refs));
    forall i | 0 <= i < |discovered|
      ensures i in picks <==> forall e :: e in entities ==> RefOf(e) != RefOf(discovered[i])
    {
      assert FreeEach(discovered, refs)[i] == (RefOf(discovered[i]) !in refs);
    }
  }
}
