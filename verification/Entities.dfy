/**
 * Entity materialisation (central_entities.rs): the participants authored sets declare, the
 * membership edges and local spaces compiled from them, and adoption into a discovered wiki.
 * The carriers are inputs; `valid` is valid_agent_ref.
 */
module Entities {
  import opened Prelude

  datatype Member = Agent(agent: Option<string>) | Nested(set_: Option<string>) | OtherMember

  datatype SetRecord = SetRecord(setRef: string, source: string, revision: string, members: seq<Member>)

  datatype Node = Node(
    ref: string, subject: string, sources: seq<string>, provenance: seq<(string, string)>,
    participation: seq<string>, localSpace: Option<string>)

  datatype Edge = Edge(ref: string, from: string, to: string)

  datatype Space = Space(ref: string, nodeRefs: seq<string>, anchor: string)

  datatype WikiObject = NodeObject(node: Node) | SpaceObject(space: Space) | EdgeObject(edge: Edge)

  datatype Absence = DeclaredOnly(agent: string) | EdgeOmitted(to: string)

  // ------------------------------------------------------------------ references

  const NARA_ENTITY_REF := "wiki:node:identity"
  const PASU := "wiki:node:pasu:"

  function AgentRef(agent: string): string {
    PASU + "agent:" + agent
  }

  function SetEntityRef(setRef: string): string {
    PASU + "agent-set:" + setRef
  }

  function LocalSpaceRef(setRef: string): string {
    "wiki:space:pasu-local:" + setRef
  }

  function MemberEdge(from: string, to: string): Edge {
    Edge("wiki:edge:" + from + "->" + to + ":member", from, to)
  }

  /** The references keep apart what they name: colons inside a set's own ref included. */
  lemma RefsAreInjective(a: string, b: string)
    ensures AgentRef(a) == AgentRef(b) ==> a == b
    ensures SetEntityRef(a) == SetEntityRef(b) ==> a == b
    ensures LocalSpaceRef(a) == LocalSpaceRef(b) ==> a == b
    ensures AgentRef(a) != SetEntityRef(b)
  {
    assert AgentRef(a)[|PASU| + 6..] == a && AgentRef(b)[|PASU| + 6..] == b;
    assert SetEntityRef(a)[|PASU| + 10..] == a && SetEntityRef(b)[|PASU| + 10..] == b;
    assert LocalSpaceRef(a)[22..] == a && LocalSpaceRef(b)[22..] == b;
    assert AgentRef(a)[|PASU| + 5] == ':' && SetEntityRef(b)[|PASU| + 5] == '-';
  }

  // ------------------------------------------------------------------ declared participants

  function Position(nodes: seq<Node>, ref: string): (i: nat)
    ensures i <= |nodes| && (i < |nodes| ==> nodes[i].ref == ref)
    ensures forall j :: 0 <= j < i ==> nodes[j].ref != ref
  {
    if nodes == [] || nodes[0].ref == ref then 0 else 1 + Position(nodes[1..], ref)
  }

  function Participant(agent: string): Node {
    Node(AgentRef(agent), agent, [], [], [], None)
  }

  function Added<T(==)>(s: seq<T>, x: T): seq<T> {
    if x in s then s else s + [x]
  }

  function Joining(n: Node, set_: SetRecord): Node {
    n.(sources := Added(n.sources, set_.source),
       provenance := Added(n.provenance, (set_.source, set_.revision)),
       participation := n.participation + [SetEntityRef(set_.setRef)])
  }

  datatype Pass = Pass(nodes: seq<Node>, absences: seq<Absence>)

  function Declares(m: Member, valid: string -> bool): bool {
    m.Agent? && m.agent.Some? && valid(m.agent.value)
  }

  function Declare(p: Pass, set_: SetRecord, m: Member, valid: string -> bool): Pass {
    if !Declares(m, valid) then p
    else
      var agent := m.agent.value;
      var i := Position(p.nodes, AgentRef(agent));
      if i < |p.nodes| then Pass(p.nodes[i := Joining(p.nodes[i], set_)], p.absences)
      else Pass(p.nodes + [Joining(Participant(agent), set_)], p.absences + [DeclaredOnly(agent)])
  }

  function DeclareAll(p: Pass, set_: SetRecord, members: seq<Member>, valid: string -> bool): Pass {
    if members == [] then p
    else Declare(DeclareAll(p, set_, members[..|members| - 1], valid), set_, members[|members| - 1], valid)
  }

  function DeclareSets(p: Pass, sets: seq<SetRecord>, valid: string -> bool): Pass {
    if sets == [] then p
    else
      var last := sets[|sets| - 1];
      DeclareAll(DeclareSets(p, sets[..|sets| - 1], valid), last, last.members, valid)
  }

  /** The nested loops that create or extend a participant per declared member. */
  method DeclareParticipants(profiles: seq<Node>, sets: seq<SetRecord>, valid: string -> bool) returns (p: Pass)
    ensures p == DeclareSets(Pass(profiles, []), sets, valid)
  {
    var nodes, absences: seq<Absence> := profiles, [];
    for k := 0 to |sets|
      invariant Pass(nodes, absences) == DeclareSets(Pass(profiles, []), sets[..k], valid)
    {
      var members := sets[k].members;
      ghost var before := Pass(nodes, absences);
      for j := 0 to |members|
        invariant Pass(nodes, absences) == DeclareAll(before, sets[k], members[..j], valid)
      {
        assert members[..j + 1][..j] == members[..j];
        if !Declares(members[j], valid) {
          continue;
        }
        var agent := members[j].agent.value;
        var index := Position(nodes, AgentRef(agent));
        var created := index == |nodes|;
        if created {
          nodes := nodes + [Participant(agent)];
        }
        nodes := nodes[index := Joining(nodes[index], sets[k])];
        if created {
          absences := absences + [DeclaredOnly(agent)];
        }
      }
      assert members[..|members|] == members;
      assert sets[..k + 1][..k] == sets[..k];
    }
    assert sets[..|sets|] == sets;
    p := Pass(nodes, absences);
  }

  ghost predicate RefsDistinct(nodes: seq<Node>) {
    forall i, j :: 0 <= i < j < |nodes| ==> nodes[i].ref != nodes[j].ref
  }

  predicate HasRef(nodes: seq<Node>, ref: string) {
    Position(nodes, ref) < |nodes|
  }

  function ParticipationOf(nodes: seq<Node>, ref: string): seq<string> {
    if HasRef(nodes, ref) then nodes[Position(nodes, ref)].participation else []
  }

  /** The nodes keep their places, references and subjects; only the evidence on them grows. */
  ghost predicate Extends(before: seq<Node>, after: seq<Node>) {
    |before| <= |after| && forall i :: 0 <= i < |before| ==> Grown(before[i], after[i])
  }

  predicate Grown(n: Node, r: Node) {
    && r.ref == n.ref && r.subject == n.subject && r.localSpace == n.localSpace
    && n.sources <= r.sources && n.provenance <= r.provenance && n.participation <= r.participation
  }

  /** The sets whose membership names an agent, once per mention, in order. */
  function MentionOf(set_: SetRecord, m: Member, agent: string, valid: string -> bool): seq<string> {
    if Declares(m, valid) && m.agent.value == agent then [SetEntityRef(set_.setRef)] else []
  }

  function Mentions(set_: SetRecord, members: seq<Member>, agent: string, valid: string -> bool): seq<string> {
    if members == [] then [] else
      Mentions(set_, members[..|members| - 1], agent, valid) + MentionOf(set_, members[|members| - 1], agent, valid)
  }

  function MentionsIn(sets: seq<SetRecord>, agent: string, valid: string -> bool): seq<string> {
    if sets == [] then [] else
      var last := sets[|sets| - 1];
      MentionsIn(sets[..|sets| - 1], agent, valid) + Mentions(last, last.members, agent, valid)
  }

  /** What one pass does to one agent: the same nodes extended, still distinct, its mentions added. */
  ghost predicate Steps(p: Pass, r: Pass, agent: string, mentions: seq<string>) {
    && RefsDistinct(r.nodes) && Extends(p.nodes, r.nodes)
    && ParticipationOf(r.nodes, AgentRef(agent)) == ParticipationOf(p.nodes, AgentRef(agent)) + mentions
    && (HasRef(r.nodes, AgentRef(agent)) <==> HasRef(p.nodes, AgentRef(agent)) || mentions != [])
  }

  lemma PositionIs(nodes: seq<Node>, i: nat)
    requires RefsDistinct(nodes) && i < |nodes|
    ensures Position(nodes, nodes[i].ref) == i
  {
  }

  lemma PositionStays(nodes: seq<Node>, after: seq<Node>, ref: string)
    requires RefsDistinct(after) && Extends(nodes, after) && HasRef(nodes, ref)
    ensures Position(after, ref) == Position(nodes, ref)
  {
    PositionIs(after, Position(nodes, ref));
  }

  lemma PositionAbsent(nodes: seq<Node>, last: Node, ref: string)
    requires !HasRef(nodes, ref) && last.ref != ref
    ensures !HasRef(nodes + [last], ref)
  {
    assert forall j :: 0 <= j < |nodes| ==> (nodes + [last])[j] == nodes[j];
  }

  /** A declared member whose node is already there. */
  lemma JoinSteps(p: Pass, i: nat, set_: SetRecord, agent: string)
    requires RefsDistinct(p.nodes) && i < |p.nodes|
    ensures var r := Pass(p.nodes[i := Joining(p.nodes[i], set_)], p.absences);
            Steps(p, r, agent, if p.nodes[i].ref == AgentRef(agent) then [SetEntityRef(set_.setRef)] else [])
  {
    var nodes := p.nodes[i := Joining(p.nodes[i], set_)];
    assert forall j :: 0 <= j < |nodes| ==> nodes[j].ref == p.nodes[j].ref;
    assert Extends(p.nodes, nodes);
    var ref := AgentRef(agent);
    if HasRef(p.nodes, ref) {
      PositionStays(p.nodes, nodes, ref);
      if p.nodes[i].ref == ref { PositionIs(p.nodes, i); }
    } else {
      assert !HasRef(nodes, ref) by {
        assert forall j :: 0 <= j < |nodes| ==> p.nodes[j].ref != ref;
      }
      assert p.nodes[i].ref != ref;
    }
  }

  /** A declared member whose node is created. */
  lemma CreateSteps(p: Pass, named: string, set_: SetRecord, agent: string, absences: seq<Absence>)
    requires RefsDistinct(p.nodes) && !HasRef(p.nodes, AgentRef(named))
    ensures var r := Pass(p.nodes + [Joining(Participant(named), set_)], absences);
            Steps(p, r, agent, if named == agent then [SetEntityRef(set_.setRef)] else [])
  {
    var last := Joining(Participant(named), set_);
    var nodes := p.nodes + [last];
    assert RefsDistinct(nodes) && Extends(p.nodes, nodes);
    var ref := AgentRef(agent);
    RefsAreInjective(agent, named);
    if named == agent {
      assert nodes[|p.nodes|] == last;
      PositionIs(nodes, |p.nodes|);
    } else if HasRef(p.nodes, ref) {
      PositionStays(p.nodes, nodes, ref);
    } else {
      PositionAbsent(p.nodes, last, ref);
    }
  }

  lemma DeclareSteps(p: Pass, set_: SetRecord, m: Member, valid: string -> bool, agent: string)
    requires RefsDistinct(p.nodes)
    ensures Steps(p, Declare(p, set_, m, valid), agent, MentionOf(set_, m, agent, valid))
  {
    if Declares(m, valid) {
      var i := Position(p.nodes, AgentRef(m.agent.value));
      RefsAreInjective(agent, m.agent.value);
      if i < |p.nodes| {
        JoinSteps(p, i, set_, agent);
      } else {
        CreateSteps(p, m.agent.value, set_, agent, p.absences + [DeclaredOnly(m.agent.value)]);
      }
    }
  }

  lemma StepsJoin(p: Pass, q: Pass, r: Pass, agent: string, a: seq<string>, b: seq<string>)
    requires Steps(p, q, agent, a) && Steps(q, r, agent, b)
    ensures Steps(p, r, agent, a + b)
  {
    forall i | 0 <= i < |p.nodes| ensures Grown(p.nodes[i], r.nodes[i]) {
      assert Grown(p.nodes[i], q.nodes[i]) && Grown(q.nodes[i], r.nodes[i]);
    }
    var had := ParticipationOf(p.nodes, AgentRef(agent));
    assert had + a + b == had + (a + b);
  }

  lemma {:induction false} DeclareAllSteps(p: Pass, set_: SetRecord, members: seq<Member>, valid: string -> bool,
                                           agent: string)
    requires RefsDistinct(p.nodes)
    ensures Steps(p, DeclareAll(p, set_, members, valid), agent, Mentions(set_, members, agent, valid))
    decreases |members|
  {
    if members != [] {
      var n := |members| - 1;
      DeclareAllSteps(p, set_, members[..n], valid, agent);
      var q := DeclareAll(p, set_, members[..n], valid);
      DeclareSteps(q, set_, members[n], valid, agent);
      StepsJoin(p, q, DeclareAll(p, set_, members, valid), agent,
                Mentions(set_, members[..n], agent, valid), MentionOf(set_, members[n], agent, valid));
    }
  }

  /** Every agent's node records each set that declares it, once per mention, after what its profile
      gave it; it exists exactly when there is a profile or a mention; nothing else is disturbed. */
  lemma {:induction false} ParticipationIsRecorded(p: Pass, sets: seq<SetRecord>, valid: string -> bool, agent: string)
    requires RefsDistinct(p.nodes)
    ensures Steps(p, DeclareSets(p, sets, valid), agent, MentionsIn(sets, agent, valid))
    decreases |sets|
  {
    if sets != [] {
      var n := |sets| - 1;
      ParticipationIsRecorded(p, sets[..n], valid, agent);
      var q := DeclareSets(p, sets[..n], valid);
      DeclareAllSteps(q, sets[n], sets[n].members, valid, agent);
      StepsJoin(p, q, DeclareSets(p, sets, valid), agent,
                MentionsIn(sets[..n], agent, valid), Mentions(sets[n], sets[n].members, agent, valid));
    }
  }

  // ------------------------------------------------------------------ membership edges

  function TargetOf(m: Member, valid: string -> bool): Option<string> {
    match m
    case Agent(Some(agent)) => if valid(agent) then Some(AgentRef(agent)) else None
    case Nested(Some(nested)) => Some(SetEntityRef(nested))
    case _ => None
  }

  function EdgesOf(setRef: string, members: seq<Member>, valid: string -> bool): seq<Edge> {
    if members == [] then [] else
      var n := |members| - 1;
      EdgesOf(setRef, members[..n], valid)
      + match TargetOf(members[n], valid)
        case Some(to) => [MemberEdge(SetEntityRef(setRef), to)]
        case None => []
  }

  function AllEdges(sets: seq<SetRecord>, valid: string -> bool): seq<Edge> {
    if sets == [] then [] else
      var n := |sets| - 1;
      AllEdges(sets[..n], valid) + EdgesOf(sets[n].setRef, sets[n].members, valid)
  }

  function KnownRefs(nara: Option<Node>, agents: seq<Node>, sets: seq<SetRecord>): set<string> {
    (set n | n in agents :: n.ref) + (set s | s in sets :: SetEntityRef(s.setRef))
    + if nara.Some? then {nara.value.ref} else {}
  }

  function Kept(edges: seq<Edge>, known: set<string>): (r: seq<Edge>)
    ensures forall e :: e in r <==> e in edges && e.to in known
  {
    if edges == [] then [] else
      var n := |edges| - 1;
      assert forall e :: e in edges <==> e in edges[..n] || e == edges[n];
      Kept(edges[..n], known) + if edges[n].to in known then [edges[n]] else []
  }

  function Omitted(edges: seq<Edge>, known: set<string>): seq<Absence> {
    if edges == [] then [] else
      var n := |edges| - 1;
      Omitted(edges[..n], known) + if edges[n].to in known then [] else [EdgeOmitted(edges[n].to)]
  }

  method KeepEdges(setEdges: seq<Edge>, known: set<string>, before: seq<Absence>)
    returns (edges: seq<Edge>, absences: seq<Absence>)
    ensures edges == Kept(setEdges, known)
    ensures absences == before + Omitted(setEdges, known)
  {
    edges, absences := [], before;
    for k := 0 to |setEdges|
      invariant edges == Kept(setEdges[..k], known)
      invariant absences == before + Omitted(setEdges[..k], known)
    {
      assert setEdges[..k + 1][..k] == setEdges[..k];
      if setEdges[k].to in known {
        edges := edges + [setEdges[k]];
      } else {
        absences := absences + [EdgeOmitted(setEdges[k].to)];
      }
    }
    assert setEdges[..|setEdges|] == setEdges;
  }

  // ------------------------------------------------------------------ local spaces

  function Targets(edges: seq<Edge>, from: string): (r: seq<string>)
  {
    if edges == [] then [] else
      var n := |edges| - 1;
      Targets(edges[..n], from) + if edges[n].from == from then [edges[n].to] else []
  }

  function SetNode(s: SetRecord): Node {
    Node(SetEntityRef(s.setRef), s.setRef, [s.source], [(s.source, s.revision)], [],
         if s.setRef == "" then None else Some(LocalSpaceRef(s.setRef)))
  }

  function SpaceOf(s: SetRecord, edges: seq<Edge>): Space {
    Space(LocalSpaceRef(s.setRef), Targets(edges, SetEntityRef(s.setRef)), SetEntityRef(s.setRef))
  }

  function SpacesOf(sets: seq<SetRecord>, edges: seq<Edge>): seq<Space> {
    if sets == [] then [] else
      var n := |sets| - 1;
      SpacesOf(sets[..n], edges) + if sets[n].setRef == "" then [] else [SpaceOf(sets[n], edges)]
  }

  function SetNodes(sets: seq<SetRecord>): seq<Node> {
    seq(|sets|, i requires 0 <= i < |sets| => SetNode(sets[i]))
  }

  /** The loop that gives each set node its local space. */
  method BuildSpaces(sets: seq<SetRecord>, edges: seq<Edge>) returns (nodes: seq<Node>, spaces: seq<Space>)
    ensures nodes == SetNodes(sets) && spaces == SpacesOf(sets, edges)
  {
    nodes, spaces := [], [];
    for k := 0 to |sets|
      invariant nodes == SetNodes(sets[..k]) && spaces == SpacesOf(sets[..k], edges)
    {
      assert sets[..k + 1][..k] == sets[..k];
      var s := sets[k];
      var node := Node(SetEntityRef(s.setRef), s.setRef, [s.source], [(s.source, s.revision)], [], None);
      if s.setRef != "" {
        node := node.(localSpace := Some(LocalSpaceRef(s.setRef)));
        spaces := spaces + [Space(LocalSpaceRef(s.setRef), Targets(edges, node.ref), node.ref)];
      }
      nodes := nodes + [node];
    }
    assert sets[..|sets|] == sets;
  }

  // ------------------------------------------------------------------ the reading

  datatype Reading = Reading(nara: Option<Node>, agents: seq<Node>, sets: seq<Node>, spaces: seq<Space>,
                             edges: seq<Edge>, absences: seq<Absence>)

  function Materialised(nara: Option<Node>, profiles: seq<Node>, sets: seq<SetRecord>, valid: string -> bool): Reading {
    var p := DeclareSets(Pass(profiles, []), sets, valid);
    var known := KnownRefs(nara, p.nodes, sets);
    var edges := Kept(AllEdges(sets, valid), known);
    Reading(nara, p.nodes, SetNodes(sets), SpacesOf(sets, edges), edges,
            p.absences + Omitted(AllEdges(sets, valid), known))
  }

  method Materialise(nara: Option<Node>, profiles: seq<Node>, sets: seq<SetRecord>, valid: string -> bool)
    returns (r: Reading)
    ensures r == Materialised(nara, profiles, sets, valid)
  {
    var p := DeclareParticipants(profiles, sets, valid);
    var known := KnownRefs(nara, p.nodes, sets);
    var edges, absences := KeepEdges(AllEdges(sets, valid), known, p.absences);
    var setNodes, spaces := BuildSpaces(sets, edges);
    r := Reading(nara, p.nodes, setNodes, spaces, edges, absences);
  }

  predicate InGraph(r: Reading, ref: string) {
    (r.nara.Some? && r.nara.value.ref == ref) || (exists n :: n in r.agents && n.ref == ref)
    || exists n :: n in r.sets && n.ref == ref
  }

  ghost predicate DeclaredEdge(sets: seq<SetRecord>, valid: string -> bool, e: Edge) {
    exists s, m :: s in sets && m in s.members && TargetOf(m, valid).Some?
                   && e == MemberEdge(SetEntityRef(s.setRef), TargetOf(m, valid).value)
  }

  lemma {:induction false} EdgesOfMean(setRef: string, members: seq<Member>, valid: string -> bool, e: Edge)
    ensures e in EdgesOf(setRef, members, valid)
            <==> exists m ::
                   m in members && TargetOf(m, valid).Some?
                   && e == MemberEdge(SetEntityRef(setRef), TargetOf(m, valid).value)
  {
    if members != [] {
      var n := |members| - 1;
      EdgesOfMean(setRef, members[..n], valid, e);
      assert forall m :: m in members <==> m in members[..n] || m == members[n];
    }
  }

  lemma {:induction false} AllEdgesMean(sets: seq<SetRecord>, valid: string -> bool, e: Edge)
    ensures e in AllEdges(sets, valid) <==> DeclaredEdge(sets, valid, e)
  {
    if sets != [] {
      var n := |sets| - 1;
      AllEdgesMean(sets[..n], valid, e);
      EdgesOfMean(sets[n].setRef, sets[n].members, valid, e);
      assert forall s :: s in sets <==> s in sets[..n] || s == sets[n];
    }
  }

  lemma {:induction false} MentionedIfDeclared(sets: seq<SetRecord>, s: SetRecord, m: Member, valid: string -> bool)
    requires s in sets && m in s.members && Declares(m, valid)
    ensures MentionsIn(sets, m.agent.value, valid) != []
  {
    var n := |sets| - 1;
    var agent := m.agent.value;
    var front, last := MentionsIn(sets[..n], agent, valid), Mentions(sets[n], sets[n].members, agent, valid);
    assert MentionsIn(sets, agent, valid) == front + last;
    if s == sets[n] {
      MentionedInSet(s, s.members, m, valid);
    } else {
      assert s in sets[..n];
      MentionedIfDeclared(sets[..n], s, m, valid);
    }
  }

  lemma {:induction false} MentionedInSet(s: SetRecord, members: seq<Member>, m: Member, valid: string -> bool)
    requires m in members && Declares(m, valid)
    ensures Mentions(s, members, m.agent.value, valid) != []
  {
    var n := |members| - 1;
    if m in members[..n] {
      MentionedInSet(s, members[..n], m, valid);
    }
  }

  lemma KnownIfInGraph(nara: Option<Node>, profiles: seq<Node>, sets: seq<SetRecord>, valid: string -> bool,
                       ref: string)
    ensures var r := Materialised(nara, profiles, sets, valid);
            ref in KnownRefs(nara, r.agents, sets) <==> InGraph(r, ref)
  {
    var r := Materialised(nara, profiles, sets, valid);
    if s :| s in sets && SetEntityRef(s.setRef) == ref {
      var i :| 0 <= i < |sets| && sets[i] == s;
      assert r.sets[i].ref == ref && r.sets[i] in r.sets;
    }
    if n :| n in r.sets && n.ref == ref {
      var i :| 0 <= i < |sets| && r.sets[i] == n;
      assert sets[i] in sets && SetEntityRef(sets[i].setRef) == ref;
    }
  }

  /** The edges are exactly the declared ones whose target exists, and both ends of each exist. */
  lemma GraphIsClosed(nara: Option<Node>, profiles: seq<Node>, sets: seq<SetRecord>, valid: string -> bool, e: Edge)
    ensures var r := Materialised(nara, profiles, sets, valid);
            && (e in r.edges <==> DeclaredEdge(sets, valid, e) && InGraph(r, e.to))
            && (e in r.edges ==> InGraph(r, e.from))
  {
    var r := Materialised(nara, profiles, sets, valid);
    AllEdgesMean(sets, valid, e);
    KnownIfInGraph(nara, profiles, sets, valid, e.to);
    if e in r.edges {
      var s, m :| s in sets && m in s.members && TargetOf(m, valid).Some?
                  && e == MemberEdge(SetEntityRef(s.setRef), TargetOf(m, valid).value);
      assert e.from in KnownRefs(nara, r.agents, sets);
      KnownIfInGraph(nara, profiles, sets, valid, e.from);
    }
  }

  /** No edge to a valid agent member is ever omitted. */
  lemma AgentEdgesAreNeverOmitted(
      nara: Option<Node>, profiles: seq<Node>, sets: seq<SetRecord>, valid: string -> bool, s: SetRecord, m: Member)
    requires RefsDistinct(profiles)
    requires s in sets && m in s.members && Declares(m, valid)
    ensures MemberEdge(SetEntityRef(s.setRef), AgentRef(m.agent.value))
            in Materialised(nara, profiles, sets, valid).edges
  {
    var agent := m.agent.value;
    var e := MemberEdge(SetEntityRef(s.setRef), AgentRef(agent));
    var r := Materialised(nara, profiles, sets, valid);
    ParticipationIsRecorded(Pass(profiles, []), sets, valid, agent);
    MentionedIfDeclared(sets, s, m, valid);
    assert r.agents[Position(r.agents, AgentRef(agent))] in r.agents;
    assert TargetOf(m, valid) == Some(AgentRef(agent));
    GraphIsClosed(nara, profiles, sets, valid, e);
  }

  ghost predicate AgentNodes(nodes: seq<Node>) {
    forall i :: 0 <= i < |nodes| ==> nodes[i].ref == AgentRef(nodes[i].subject)
  }

  /** An edge is omitted exactly when its member is a nested set that no record declares. */
  lemma OmittedIffNoSuchSet(
      nara: Option<Node>, profiles: seq<Node>, sets: seq<SetRecord>, valid: string -> bool, s: SetRecord, m: Member)
    requires RefsDistinct(profiles) && AgentNodes(profiles)
    requires nara.Some? ==> nara.value.ref == NARA_ENTITY_REF
    requires s in sets && m in s.members && TargetOf(m, valid).Some?
    ensures MemberEdge(SetEntityRef(s.setRef), TargetOf(m, valid).value)
            !in Materialised(nara, profiles, sets, valid).edges
            <==> m.Nested? && forall t :: t in sets ==> t.setRef != m.set_.value
  {
    var r := Materialised(nara, profiles, sets, valid);
    var e := MemberEdge(SetEntityRef(s.setRef), TargetOf(m, valid).value);
    GraphIsClosed(nara, profiles, sets, valid, e);
    if m.Agent? {
      AgentEdgesAreNeverOmitted(nara, profiles, sets, valid, s, m);
    } else {
      OnlyAgentsDeclared(Pass(profiles, []), sets, valid);
      SetTargetInGraph(nara, profiles, sets, valid, m.set_.value);
    }
  }

  lemma SetTargetInGraph(nara: Option<Node>, profiles: seq<Node>, sets: seq<SetRecord>, valid: string -> bool,
                         nested: string)
    requires AgentNodes(Materialised(nara, profiles, sets, valid).agents)
    requires nara.Some? ==> nara.value.ref == NARA_ENTITY_REF
    ensures InGraph(Materialised(nara, profiles, sets, valid), SetEntityRef(nested))
            <==> exists t :: t in sets && t.setRef == nested
  {
    var r := Materialised(nara, profiles, sets, valid);
    KnownIfInGraph(nara, profiles, sets, valid, SetEntityRef(nested));
    forall n | n in r.agents ensures n.ref != SetEntityRef(nested) {
      RefsAreInjective(n.subject, nested);
    }
    assert NARA_ENTITY_REF[10] == 'i' && SetEntityRef(nested)[10] == 'p';
    forall t | t in sets ensures SetEntityRef(t.setRef) == SetEntityRef(nested) ==> t.setRef == nested {
      RefsAreInjective(t.setRef, nested);
    }
  }

  lemma {:induction false} OnlyAgentsDeclared(p: Pass, sets: seq<SetRecord>, valid: string -> bool)
    requires AgentNodes(p.nodes)
    ensures AgentNodes(DeclareSets(p, sets, valid).nodes)
    decreases |sets|
  {
    if sets != [] {
      var n := |sets| - 1;
      OnlyAgentsDeclared(p, sets[..n], valid);
      OnlyAgentsInSet(DeclareSets(p, sets[..n], valid), sets[n], sets[n].members, valid);
    }
  }

  lemma {:induction false} OnlyAgentsInSet(p: Pass, s: SetRecord, members: seq<Member>, valid: string -> bool)
    requires AgentNodes(p.nodes)
    ensures AgentNodes(DeclareAll(p, s, members, valid).nodes)
    decreases |members|
  {
    if members != [] {
      OnlyAgentsInSet(p, s, members[..|members| - 1], valid);
    }
  }

  // ------------------------------------------------------------------ what a local space lists

  ghost predicate SetsDistinct(sets: seq<SetRecord>) {
    forall i, j :: 0 <= i < j < |sets| ==> sets[i].setRef != sets[j].setRef
  }

  /** The members of one record that are materialised, in order. */
  function KeptMembers(s: SetRecord, known: set<string>, valid: string -> bool): seq<string> {
    Targets(Kept(EdgesOf(s.setRef, s.members, valid), known), SetEntityRef(s.setRef))
  }

  /** The kept members of every record under a reference, record by record. */
  function SharedMembers(sets: seq<SetRecord>, setRef: string, known: set<string>, valid: string -> bool): seq<string> {
    if sets == [] then [] else
      var n := |sets| - 1;
      SharedMembers(sets[..n], setRef, known, valid)
      + if sets[n].setRef == setRef then KeptMembers(sets[n], known, valid) else []
  }

  lemma {:induction false} KeptAppend(a: seq<Edge>, b: seq<Edge>, known: set<string>)
    ensures Kept(a + b, known) == Kept(a, known) + Kept(b, known)
    decreases |b|
  {
    if b == [] {
      assert a + b == a;
    } else {
      assert (a + b)[..|a + b| - 1] == a + b[..|b| - 1];
      KeptAppend(a, b[..|b| - 1], known);
    }
  }

  lemma {:induction false} TargetsAppend(a: seq<Edge>, b: seq<Edge>, from: string)
    ensures Targets(a + b, from) == Targets(a, from) + Targets(b, from)
    decreases |b|
  {
    if b == [] {
      assert a + b == a;
    } else {
      assert (a + b)[..|a + b| - 1] == a + b[..|b| - 1];
      TargetsAppend(a, b[..|b| - 1], from);
    }
  }

  lemma {:induction false} NoTargetsFromOthers(s: SetRecord, members: seq<Member>, known: set<string>,
                                               valid: string -> bool, setRef: string)
    requires s.setRef != setRef
    ensures Targets(Kept(EdgesOf(s.setRef, members, valid), known), SetEntityRef(setRef)) == []
    decreases |members|
  {
    RefsAreInjective(s.setRef, setRef);
    if members != [] {
      var n := |members| - 1;
      NoTargetsFromOthers(s, members[..n], known, valid, setRef);
      var front := EdgesOf(s.setRef, members[..n], valid);
      match TargetOf(members[n], valid) {
        case Some(to) =>
          var last := [MemberEdge(SetEntityRef(s.setRef), to)];
          KeptAppend(front, last, known);
          assert last[..0] == [];
          TargetsAppend(Kept(front, known), Kept(last, known), SetEntityRef(setRef));
        case None =>
          assert front + [] == front;
      }
    }
  }

  /** A local space lists the kept members of every record that has its set's reference. */
  lemma {:induction false} SpaceListsSharedMembers(sets: seq<SetRecord>, setRef: string, known: set<string>,
                                                   valid: string -> bool)
    ensures Targets(Kept(AllEdges(sets, valid), known), SetEntityRef(setRef))
            == SharedMembers(sets, setRef, known, valid)
    decreases |sets|
  {
    if sets != [] {
      var n := |sets| - 1;
      SpaceListsSharedMembers(sets[..n], setRef, known, valid);
      var front, last := AllEdges(sets[..n], valid), EdgesOf(sets[n].setRef, sets[n].members, valid);
      KeptAppend(front, last, known);
      TargetsAppend(Kept(front, known), Kept(last, known), SetEntityRef(setRef));
      if sets[n].setRef != setRef {
        NoTargetsFromOthers(sets[n], sets[n].members, known, valid, setRef);
      }
    }
  }

  lemma {:induction false} SharedByNone(sets: seq<SetRecord>, setRef: string, known: set<string>, valid: string -> bool)
    requires forall s :: s in sets ==> s.setRef != setRef
    ensures SharedMembers(sets, setRef, known, valid) == []
  {
    if sets != [] {
      var n := |sets| - 1;
      assert sets[n] in sets;
      SharedByNone(sets[..n], setRef, known, valid);
    }
  }

  lemma {:induction false} SharedIsOwn(sets: seq<SetRecord>, i: nat, known: set<string>, valid: string -> bool)
    requires SetsDistinct(sets) && i < |sets|
    ensures SharedMembers(sets, sets[i].setRef, known, valid) == KeptMembers(sets[i], known, valid)
  {
    var n := |sets| - 1;
    if i == n {
      forall s | s in sets[..n] ensures s.setRef != sets[n].setRef {
        var j :| 0 <= j < n && sets[j] == s;
      }
      SharedByNone(sets[..n], sets[n].setRef, known, valid);
    } else {
      SharedIsOwn(sets[..n], i, known, valid);
    }
  }

  /** With distinct set references every set's local space is its own: a reference no other set has,
      listing exactly the members of that set that are materialised, in the record's order. */
  lemma SpacesAreOwn(nara: Option<Node>, profiles: seq<Node>, sets: seq<SetRecord>, valid: string -> bool, i: nat)
    requires SetsDistinct(sets) && i < |sets| && sets[i].setRef != ""
    ensures var r := Materialised(nara, profiles, sets, valid);
            var space := SpaceOf(sets[i], r.edges);
            && space in r.spaces && r.sets[i].localSpace == Some(space.ref) && space.anchor == r.sets[i].ref
            && space.nodeRefs == KeptMembers(sets[i], KnownRefs(nara, r.agents, sets), valid)
            && forall j :: 0 <= j < |sets| && j != i ==> r.sets[j].localSpace != Some(space.ref)
  {
    var r := Materialised(nara, profiles, sets, valid);
    var known := KnownRefs(nara, r.agents, sets);
    SpaceListsSharedMembers(sets, sets[i].setRef, known, valid);
    SharedIsOwn(sets, i, known, valid);
    SpaceIsListed(sets, i, r.edges);
    forall j | 0 <= j < |sets| && j != i ensures r.sets[j].localSpace != Some(LocalSpaceRef(sets[i].setRef)) {
      RefsAreInjective(sets[j].setRef, sets[i].setRef);
      if j < i { assert sets[j].setRef != sets[i].setRef; }
    }
  }

  lemma {:induction false} SpaceIsListed(sets: seq<SetRecord>, i: nat, edges: seq<Edge>)
    requires i < |sets| && sets[i].setRef != ""
    ensures SpaceOf(sets[i], edges) in SpacesOf(sets, edges)
  {
    var n := |sets| - 1;
    if i < n {
      SpaceIsListed(sets[..n], i, edges);
    }
  }

  // ------------------------------------------------------------------ adoption

  function RefOf(o: WikiObject): string {
    match o
    case NodeObject(n) => n.ref
    case SpaceObject(s) => s.ref
    case EdgeObject(e) => e.ref
  }

  function RefsOf(objects: seq<WikiObject>): set<string> {
    set o | o in objects :: RefOf(o)
  }

  function Without(objects: seq<WikiObject>, refs: set<string>): (r: seq<WikiObject>)
    ensures forall o :: o in r <==> o in objects && RefOf(o) !in refs
  {
    if objects == [] then [] else
      var n := |objects| - 1;
      assert forall o :: o in objects <==> o in objects[..n] || o == objects[n];
      Without(objects[..n], refs) + if RefOf(objects[n]) in refs then [] else [objects[n]]
  }

  class Wiki {
    var objects: seq<WikiObject>

    constructor (discovered: seq<WikiObject>)
      ensures objects == discovered
    {
      objects := discovered;
    }

    /** adopt_into: what collides is dropped, the entities follow what remains. */
    method Adopt(entities: seq<WikiObject>)
      modifies this
      ensures objects == Adopted(old(objects), entities)
    {
      var refs := set o | o in entities :: RefOf(o);
      var retained: seq<WikiObject> := [];
      for k := 0 to |objects|
        invariant objects == old(objects) && retained == Without(objects[..k], refs)
      {
        assert objects[..k + 1][..k] == objects[..k];
        if RefOf(objects[k]) !in refs {
          retained := retained + [objects[k]];
        }
      }
      assert objects[..|objects|] == objects;
      objects := retained + entities;
    }
  }

  function Adopted(discovered: seq<WikiObject>, entities: seq<WikiObject>): seq<WikiObject> {
    Without(discovered, RefsOf(entities)) + entities
  }

  lemma {:induction false} WithoutAppend(a: seq<WikiObject>, b: seq<WikiObject>, refs: set<string>)
    ensures Without(a + b, refs) == Without(a, refs) + Without(b, refs)
    decreases |b|
  {
    if b == [] {
      assert a + b == a;
    } else {
      assert (a + b)[..|a + b| - 1] == a + b[..|b| - 1];
      WithoutAppend(a, b[..|b| - 1], refs);
    }
  }

  lemma {:induction false} WithoutTwice(objects: seq<WikiObject>, refs: set<string>, more: set<string>)
    ensures Without(Without(objects, refs), more) == Without(objects, refs + more)
    decreases |objects|
  {
    if objects != [] {
      var n := |objects| - 1;
      WithoutTwice(objects[..n], refs, more);
      var last := if RefOf(objects[n]) in refs then [] else [objects[n]];
      WithoutAppend(Without(objects[..n], refs), last, more);
      assert last != [] ==> last[..0] == [];
    }
  }

  lemma {:induction false} WithoutAll(objects: seq<WikiObject>, refs: set<string>)
    requires forall o :: o in objects ==> RefOf(o) in refs
    ensures Without(objects, refs) == []
  {
    if objects != [] {
      assert objects[|objects| - 1] in objects;
      WithoutAll(objects[..|objects| - 1], refs);
    }
  }

  /** Adopting again changes nothing; adopting a later set of entities over an earlier one that it
      covers is the same as adopting it alone. */
  lemma AdoptingAgain(discovered: seq<WikiObject>, earlier: seq<WikiObject>, later: seq<WikiObject>)
    requires RefsOf(earlier) <= RefsOf(later)
    ensures Adopted(Adopted(discovered, earlier), later) == Adopted(discovered, later)
    ensures Adopted(Adopted(discovered, later), later) == Adopted(discovered, later)
  {
    AdoptingOver(discovered, earlier, later);
    AdoptingOver(discovered, later, later);
  }

  lemma AdoptingOver(discovered: seq<WikiObject>, earlier: seq<WikiObject>, later: seq<WikiObject>)
    requires RefsOf(earlier) <= RefsOf(later)
    ensures Adopted(Adopted(discovered, earlier), later) == Adopted(discovered, later)
  {
    var a, b := RefsOf(earlier), RefsOf(later);
    WithoutAppend(Without(discovered, a), earlier, b);
    WithoutTwice(discovered, a, b);
    assert a + b == b;
    forall o | o in earlier ensures RefOf(o) in b { assert RefOf(o) in a; }
    WithoutAll(earlier, b);
    assert Without(discovered, b) + [] == Without(discovered, b);
  }
}
