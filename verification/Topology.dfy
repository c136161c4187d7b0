/**
 * Component containment as a forest: the checks of resolve_component_topology, the maps and
 * walks it is made of, and what an accepted list of containments means.
 *
 * A component reference is an ordered value (a natural); a provenance list is one ordered tag.
 */
module Topology {
  import opened Prelude

  type Component = nat

  datatype Containment = Containment(parent: Component, child: Component, provenance: nat)

  datatype Refusal =
    | SelfCycle(component: Component)
    | Unmounted(endpoint: Component)
    | MultipleParents(child: Component, previous: Component, parent: Component)
    | CycleReaches(component: Component)

  datatype Topology = Topology(roots: seq<Component>, containments: seq<Containment>)

  type Parents = map<Component, Component>

  // ------------------------------------------------------------------ the normal form of a list

  predicate Before(a: Containment, b: Containment) {
    a.parent < b.parent ||
    (a.parent == b.parent && (a.child < b.child || (a.child == b.child && a.provenance < b.provenance)))
  }

  predicate Sorted(s: seq<Containment>) {
    forall i, j :: 0 <= i < j < |s| ==> Before(s[i], s[j])
  }

  function Insert(e: Containment, s: seq<Containment>): (r: seq<Containment>)
    requires Sorted(s)
    ensures Sorted(r)
    ensures forall x :: x in r <==> x == e || x in s
  {
    if s == [] then [e]
    else if e == s[0] then s
    else if Before(e, s[0]) then [e] + s
    else
      var rest := Insert(e, s[1..]);
      assert forall x :: x in s <==> x == s[0] || x in s[1..];
      assert forall x :: x in rest ==> Before(s[0], x);
      var r := [s[0]] + rest;
      assert forall j :: 0 < j < |r| ==> r[j] in rest;
      r
  }

  /** Sorting and dropping repeated entries. */
  function Normal(s: seq<Containment>): (r: seq<Containment>)
    ensures Sorted(r)
    ensures forall x :: x in r <==> x in s
  {
    if s == [] then [] else Insert(s[0], Normal(s[1..]))
  }

  lemma {:induction false} SortedIsCanonical(a: seq<Containment>, b: seq<Containment>)
    requires Sorted(a) && Sorted(b)
    requires forall x :: x in a <==> x in b
    ensures a == b
  {
    if b != [] { assert b[0] in a; }
    if a != [] {
      assert a[0] in b;
      assert a[0] == b[0];
      forall x ensures x in a[1..] <==> x in b[1..] {
        assert x in a <==> x == a[0] || x in a[1..];
        assert x in b <==> x == b[0] || x in b[1..];
        assert a[0] !in a[1..] && b[0] !in b[1..];
      }
      SortedIsCanonical(a[1..], b[1..]);
      assert a == [a[0]] + a[1..] && b == [b[0]] + b[1..];
    }
  }

  // ------------------------------------------------------------------ the two passes

  function CheckEdge(mounted: set<Component>, parents: Parents, e: Containment): Result<Parents, Refusal> {
    if e.parent == e.child then Err(SelfCycle(e.child))
    else if e.parent !in mounted then Err(Unmounted(e.parent))
    else if e.child !in mounted then Err(Unmounted(e.child))
    else if e.child in parents && parents[e.child] != e.parent then
      Err(MultipleParents(e.child, parents[e.child], e.parent))
    else Ok(parents[e.child := e.parent])
  }

  function CheckEdges(mounted: set<Component>, edges: seq<Containment>): Result<Parents, Refusal> {
    if edges == [] then Ok(map[]) else
      match CheckEdges(mounted, edges[..|edges| - 1])
      case Err(refusal) => Err(refusal)
      case Ok(parents) => CheckEdge(mounted, parents, edges[|edges| - 1])
  }

  /** Where a walk up from cursor meets a component it has already left, if it does. */
  function Walk(parents: Parents, cursor: Component, seen: set<Component>): Option<Component>
    decreases parents.Keys - seen
  {
    if cursor !in parents then None
    else if cursor in seen then Some(cursor)
    else Walk(parents, parents[cursor], seen + {cursor})
  }

  function FirstCycle(parents: Parents, components: seq<Component>): Option<Component> {
    if components == [] then None else
      match Walk(parents, components[0], {})
      case Some(met) => Some(met)
      case None => FirstCycle(parents, components[1..])
  }

  function Roots(mounted: set<Component>, parents: Parents): (r: seq<Component>)
    ensures forall c :: c in r <==> c in mounted && c !in parents
  {
    Ascending(set c | c in mounted && c !in parents)
  }

  function Resolved(mounted: set<Component>, edges: seq<Containment>): Result<Topology, Refusal> {
    match CheckEdges(mounted, edges)
    case Err(refusal) => Err(refusal)
    case Ok(parents) =>
      match FirstCycle(parents, Ascending(mounted))
      case Some(met) => Err(CycleReaches(met))
      case None => Ok(Topology(Roots(mounted, parents), edges))
  }

  /** The first loop: a map filled edge by edge. */
  method RecordParents(mounted: set<Component>, containments: seq<Containment>)
    returns (result: Result<Parents, Refusal>)
    ensures result == CheckEdges(mounted, containments)
  {
    var parentByChild: Parents := map[];
    var i := 0;
    while i < |containments|
      invariant 0 <= i <= |containments|
      invariant CheckEdges(mounted, containments[..i]) == Ok(parentByChild)
    {
      var edge := containments[i];
      assert containments[..i + 1][..i] == containments[..i];
      if edge.parent == edge.child {
        ErrorsStand(mounted, containments, i + 1);
        return Err(SelfCycle(edge.child));
      }
      if edge.parent !in mounted {
        ErrorsStand(mounted, containments, i + 1);
        return Err(Unmounted(edge.parent));
      }
      if edge.child !in mounted {
        ErrorsStand(mounted, containments, i + 1);
        return Err(Unmounted(edge.child));
      }
      var previous := if edge.child in parentByChild then Some(parentByChild[edge.child]) else None;
      if previous.Some? && previous.value != edge.parent {
        ErrorsStand(mounted, containments, i + 1);
        return Err(MultipleParents(edge.child, previous.value, edge.parent));
      }
      parentByChild := parentByChild[edge.child := edge.parent];
      i := i + 1;
    }
    assert containments[..i] == containments;
    return Ok(parentByChild);
  }

  /** The second loop: one guarded walk per mounted component. */
  method WalkFromEach(parentByChild: Parents, components: seq<Component>) returns (met: Option<Component>)
    ensures met == FirstCycle(parentByChild, components)
  {
    var k := 0;
    while k < |components|
      invariant 0 <= k <= |components|
      invariant FirstCycle(parentByChild, components) == FirstCycle(parentByChild, components[k..])
    {
      var cursor := components[k];
      var seen: set<Component> := {};
      while cursor in parentByChild
        invariant Walk(parentByChild, components[k], {}) == Walk(parentByChild, cursor, seen)
        decreases parentByChild.Keys - seen
      {
        if cursor in seen {
          return Some(cursor);
        }
        seen := seen + {cursor};
        cursor := parentByChild[cursor];
      }
      k := k + 1;
    }
    return None;
  }

  method ResolveComponentTopology(bindings: seq<Component>, given: seq<Containment>)
    returns (result: Result<Topology, Refusal>)
    ensures result == Resolved((set c | c in bindings), Normal(given))
    ensures Verdict((set c | c in bindings), given, result)
  {
    var mounted := set c | c in bindings;
    var containments := Normal(given);
    ResultIsOfTheGiven(mounted, given);
    var parents := RecordParents(mounted, containments);
    if parents.Err? {
      return Err(parents.error);
    }
    var met := WalkFromEach(parents.value, Ascending(mounted));
    if met.Some? {
      return Err(CycleReaches(met.value));
    }
    return Ok(Topology(Roots(mounted, parents.value), containments));
  }

  lemma {:induction false} ErrorsStand(mounted: set<Component>, edges: seq<Containment>, i: nat)
    requires i <= |edges|
    requires CheckEdges(mounted, edges[..i]).Err?
    ensures CheckEdges(mounted, edges) == CheckEdges(mounted, edges[..i])
  {
    if i == |edges| {
      assert edges[..i] == edges;
    } else {
      var shorter := edges[..|edges| - 1];
      assert shorter[..i] == edges[..i];
      ErrorsStand(mounted, shorter, i);
    }
  }

  // ------------------------------------------------------------------ what acceptance means

  predicate HasEdge(edges: seq<Containment>, parent: Component, child: Component) {
    exists e :: e in edges && e.parent == parent && e.child == child
  }

  predicate EndpointsMounted(mounted: set<Component>, edges: seq<Containment>) {
    forall e :: e in edges ==> e.parent in mounted && e.child in mounted
  }

  predicate NoSelfLoop(edges: seq<Containment>) {
    forall e :: e in edges ==> e.parent != e.child
  }

  predicate OneParentEach(edges: seq<Containment>) {
    forall e, f :: e in edges && f in edges && e.child == f.child ==> e.parent == f.parent
  }

  /** A chain names a child, then its parent, then that one's parent, and so on. */
  predicate Chain(edges: seq<Containment>, path: seq<Component>) {
    forall i :: 0 <= i < |path| - 1 ==> HasEdge(edges, path[i + 1], path[i])
  }

  predicate ClosedChain(edges: seq<Containment>, path: seq<Component>) {
    2 <= |path| && Chain(edges, path) && path[0] == path[|path| - 1]
  }

  ghost predicate Acyclic(edges: seq<Containment>) {
    forall path :: !ClosedChain(edges, path)
  }

  ghost predicate Acceptable(mounted: set<Component>, edges: seq<Containment>) {
    EndpointsMounted(mounted, edges) && NoSelfLoop(edges) && OneParentEach(edges) && Acyclic(edges)
  }

  ghost predicate Follows(edges: seq<Containment>, parents: Parents) {
    forall p, c :: HasEdge(edges, p, c) <==> c in parents && parents[c] == p
  }

  lemma {:induction false} FirstPassDecides(mounted: set<Component>, edges: seq<Containment>)
    ensures CheckEdges(mounted, edges).Ok?
            <==> EndpointsMounted(mounted, edges) && NoSelfLoop(edges) && OneParentEach(edges)
    ensures CheckEdges(mounted, edges).Ok? ==> Follows(edges, CheckEdges(mounted, edges).value)
  {
    if edges != [] {
      var shorter, e := edges[..|edges| - 1], edges[|edges| - 1];
      FirstPassDecides(mounted, shorter);
      assert edges == shorter + [e];
      assert forall x :: x in edges <==> x in shorter || x == e;
      if CheckEdges(mounted, shorter).Ok? {
        var parents := CheckEdges(mounted, shorter).value;
        if e.child in parents {
          assert HasEdge(shorter, parents[e.child], e.child);
        }
        if CheckEdge(mounted, parents, e).Ok? {
          EdgeRecorded(shorter, e, parents);
          forall f | f in shorter && f.child == e.child ensures f.parent == e.parent {
            assert HasEdge(shorter, f.parent, f.child);
          }
        }
      }
    }
  }

  lemma EdgeRecorded(shorter: seq<Containment>, e: Containment, parents: Parents)
    requires Follows(shorter, parents)
    requires e.child in parents ==> parents[e.child] == e.parent
    ensures Follows(shorter + [e], parents[e.child := e.parent])
  {
    var edges, after := shorter + [e], parents[e.child := e.parent];
    assert e in edges;
    forall p, c ensures HasEdge(edges, p, c) <==> c in after && after[c] == p {
      assert HasEdge(edges, p, c) <==> HasEdge(shorter, p, c) || (e.parent == p && e.child == c) by {
        if HasEdge(shorter, p, c) {
          var f :| f in shorter && f.parent == p && f.child == c;
          assert f in edges;
        }
      }
    }
  }

  /** A walk that comes back has drawn a closed chain. */
  lemma {:induction false} MeetingDrawsACycle(
      edges: seq<Containment>, parents: Parents, path: seq<Component>, seen: set<Component>)
    returns (loop: seq<Component>)
    requires Follows(edges, parents)
    requires path != [] && Chain(edges, path)
    requires forall c :: c in seen ==> c in path[..|path| - 1]
    requires Walk(parents, path[|path| - 1], seen).Some?
    ensures ClosedChain(edges, loop) && loop[0] == Walk(parents, path[|path| - 1], seen).value
    decreases parents.Keys - seen
  {
    var last := |path| - 1;
    var cursor := path[last];
    if cursor in seen {
      var i :| 0 <= i < last && path[i] == cursor;
      loop := path[i..];
      forall k | 0 <= k < |loop| - 1 ensures HasEdge(edges, loop[k + 1], loop[k]) {
        assert HasEdge(edges, path[i + k + 1], path[i + k]);
      }
    } else {
      var longer := path + [parents[cursor]];
      assert HasEdge(edges, parents[cursor], cursor);
      assert longer[..|longer| - 1] == path;
      loop := MeetingDrawsACycle(edges, parents, longer, seen + {cursor});
    }
  }

  /** A walk that starts among components whose parents are among them again never gets out. */
  lemma {:induction false} TrappedWalkMeets(parents: Parents, trap: set<Component>, cursor: Component,
                                            seen: set<Component>)
    requires cursor in trap
    requires forall c :: c in trap ==> c in parents && parents[c] in trap
    ensures Walk(parents, cursor, seen).Some?
    decreases parents.Keys - seen
  {
    if cursor !in seen {
      TrappedWalkMeets(parents, trap, parents[cursor], seen + {cursor});
    }
  }

  lemma {:induction false} FirstCycleDecides(parents: Parents, components: seq<Component>)
    ensures FirstCycle(parents, components).None?
            <==> forall c :: c in components ==> Walk(parents, c, {}).None?
  {
    if components != [] {
      FirstCycleDecides(parents, components[1..]);
      assert components[0] in components;
      forall c ensures c in components <==> c == components[0] || c in components[1..] {}
    }
  }

  lemma WalksDecideCycles(mounted: set<Component>, edges: seq<Containment>, parents: Parents)
    requires Follows(edges, parents)
    requires EndpointsMounted(mounted, edges)
    ensures (forall c :: c in mounted ==> Walk(parents, c, {}).None?) <==> Acyclic(edges)
  {
    if c :| c in mounted && Walk(parents, c, {}).Some? {
      var loop := MeetingDrawsACycle(edges, parents, [c], {});
      assert ClosedChain(edges, loop);
    }
    if path: seq<Component> :| ClosedChain(edges, path) {
      var trap := set c | c in path;
      forall c | c in trap ensures c in parents && parents[c] in trap {
        var i :| 0 <= i < |path| && path[i] == c;
        var at := if i == |path| - 1 then 0 else i;
        assert HasEdge(edges, path[at + 1], path[at]);
      }
      assert HasEdge(edges, path[1], path[0]);
      assert path[0] in mounted;
      TrappedWalkMeets(parents, trap, path[0], {});
    }
  }

  /** A list is accepted exactly when it describes a forest over the mounted components. */
  lemma AcceptedIffForest(mounted: set<Component>, edges: seq<Containment>)
    ensures Resolved(mounted, edges).Ok? <==> Acceptable(mounted, edges)
  {
    FirstPassDecides(mounted, edges);
    if CheckEdges(mounted, edges).Ok? {
      var parents := CheckEdges(mounted, edges).value;
      FirstCycleDecides(parents, Ascending(mounted));
      WalksDecideCycles(mounted, edges, parents);
    }
  }

  predicate SameEdges(a: seq<Containment>, b: seq<Containment>) {
    (forall e :: e in a ==> e in b) && forall e :: e in b ==> e in a
  }

  /** Order and repetition of the given list never matter, not even to which refusal is reported. */
  lemma ResultDependsOnTheSetOfEdges(mounted: set<Component>, a: seq<Containment>, b: seq<Containment>)
    requires SameEdges(a, b)
    ensures Resolved(mounted, Normal(a)) == Resolved(mounted, Normal(b))
    ensures Resolved(mounted, Normal(a)).Ok? <==> Acceptable(mounted, a)
  {
    SortedIsCanonical(Normal(a), Normal(b));
    AcceptedIffForest(mounted, Normal(a));
    SameEdgesSameVerdict(mounted, a, Normal(a));
  }

  lemma SameEdgesSameVerdict(mounted: set<Component>, a: seq<Containment>, b: seq<Containment>)
    requires SameEdges(a, b)
    ensures Acceptable(mounted, a) <==> Acceptable(mounted, b)
  {
    forall p, c ensures HasEdge(a, p, c) <==> HasEdge(b, p, c) {
      if HasEdge(a, p, c) {
        var e :| e in a && e.parent == p && e.child == c;
        assert e in b;
      }
      if HasEdge(b, p, c) {
        var e :| e in b && e.parent == p && e.child == c;
        assert e in a;
      }
    }
    assert forall path :: ClosedChain(a, path) <==> ClosedChain(b, path);
  }

  // ------------------------------------------------------------------ what the result says

  predicate Ordered(s: seq<Component>) {
    forall i, j :: 0 <= i < j < |s| ==> s[i] < s[j]
  }

  /** The topology holds exactly the given containments, in order and once each, and as its roots, in
      order, exactly what is mounted and contained by nothing. */
  ghost predicate Depicts(t: Topology, mounted: set<Component>, given: seq<Containment>) {
    && Sorted(t.containments) && (forall e :: e in t.containments <==> e in given)
    && Ordered(t.roots) && forall c :: c in t.roots <==> c in mounted && forall e :: e in given ==> e.child != c
  }

  predicate Fine(mounted: set<Component>, edges: seq<Containment>) {
    EndpointsMounted(mounted, edges) && NoSelfLoop(edges) && OneParentEach(edges)
  }

  /** Edge i is the first that offends, and the refusal says how: a self-loop before an end that is not
      mounted, a parent that is not before a child, and these before a second parent. */
  predicate OffendsAt(mounted: set<Component>, edges: seq<Containment>, i: nat, refusal: Refusal)
    requires i < |edges|
  {
    var e := edges[i];
    && Fine(mounted, edges[..i])
    && match refusal
       case SelfCycle(c) => e.parent == e.child == c
       case Unmounted(c) =>
         e.parent != e.child && c !in mounted && if e.parent in mounted then c == e.child else c == e.parent
       case MultipleParents(child, previous, parent) =>
         && e.parent != e.child && e.parent in mounted && e.child in mounted
         && child == e.child && parent == e.parent && previous != parent && HasEdge(edges[..i], previous, child)
       case CycleReaches(_) => false
  }

  ghost predicate OnACycle(edges: seq<Containment>, c: Component) {
    exists path :: ClosedChain(edges, path) && path[0] == c
  }

  /** A refusal tells of the first offending edge in order, or, when none offends, of a component that
      lies on a cycle. */
  ghost predicate Offends(mounted: set<Component>, refusal: Refusal, given: seq<Containment>) {
    if refusal.CycleReaches? then Fine(mounted, given) && OnACycle(given, refusal.component)
    else exists i :: 0 <= i < |Normal(given)| && OffendsAt(mounted, Normal(given), i, refusal)
  }

  lemma {:induction false} FirstOffender(mounted: set<Component>, edges: seq<Containment>) returns (i: nat)
    requires CheckEdges(mounted, edges).Err?
    ensures i < |edges| && OffendsAt(mounted, edges, i, CheckEdges(mounted, edges).error)
  {
    var n := |edges| - 1;
    var shorter := edges[..n];
    if CheckEdges(mounted, shorter).Err? {
      i := FirstOffender(mounted, shorter);
      assert shorter[..i] == edges[..i];
    } else {
      i := n;
      FirstPassDecides(mounted, shorter);
      var parents := CheckEdges(mounted, shorter).value;
      if edges[n].child in parents { assert HasEdge(shorter, parents[edges[n].child], edges[n].child); }
    }
  }

  lemma {:induction false} FirstCycleIsMet(parents: Parents, components: seq<Component>) returns (c: Component)
    requires FirstCycle(parents, components).Some?
    ensures c in components && Walk(parents, c, {}) == FirstCycle(parents, components)
  {
    if Walk(parents, components[0], {}).Some? {
      c := components[0];
    } else {
      c := FirstCycleIsMet(parents, components[1..]);
    }
  }

  /** The verdict on the list as given: a topology of exactly what was given when that is a forest, else
      a true refusal. */
  ghost predicate Verdict(mounted: set<Component>, given: seq<Containment>, result: Result<Topology, Refusal>) {
    && (result.Ok? <==> Acceptable(mounted, given))
    && match result
       case Ok(t) => Depicts(t, mounted, given)
       case Err(refusal) => Offends(mounted, refusal, given)
  }

  lemma {:induction false} RefusedForAnEdge(mounted: set<Component>, given: seq<Containment>)
    requires CheckEdges(mounted, Normal(given)).Err?
    ensures Offends(mounted, CheckEdges(mounted, Normal(given)).error, given)
  {
    var i := FirstOffender(mounted, Normal(given));
    assert OffendsAt(mounted, Normal(given), i, CheckEdges(mounted, Normal(given)).error);
  }

  lemma {:induction false} RefusedForACycle(mounted: set<Component>, given: seq<Containment>, parents: Parents)
    requires CheckEdges(mounted, Normal(given)) == Ok(parents) && FirstCycle(parents, Ascending(mounted)).Some?
    ensures Offends(mounted, CycleReaches(FirstCycle(parents, Ascending(mounted)).value), given)
  {
    FirstPassDecides(mounted, Normal(given));
    var c := FirstCycleIsMet(parents, Ascending(mounted));
    var loop := MeetingDrawsACycle(Normal(given), parents, [c], {});
    CycleIsOfTheGiven(given, loop);
    FineAsGiven(mounted, given);
  }

  lemma FineAsGiven(mounted: set<Component>, given: seq<Containment>)
    requires Fine(mounted, Normal(given))
    ensures Fine(mounted, given)
  {
    assert forall e :: e in given ==> e in Normal(given);
  }

  lemma {:induction false} AcceptedIsDepicted(mounted: set<Component>, given: seq<Containment>)
    requires Resolved(mounted, Normal(given)).Ok?
    ensures Depicts(Resolved(mounted, Normal(given)).value, mounted, given)
  {
    var edges := Normal(given);
    FirstPassDecides(mounted, edges);
    RootsAreTops(mounted, edges, given, CheckEdges(mounted, edges).value);
  }

  lemma {:induction false} ResultIsOfTheGiven(mounted: set<Component>, given: seq<Containment>)
    ensures Verdict(mounted, given, Resolved(mounted, Normal(given)))
  {
    var edges := Normal(given);
    AcceptedIffForest(mounted, edges);
    SameEdgesSameVerdict(mounted, given, edges);
    match CheckEdges(mounted, edges)
    case Err(_) => RefusedForAnEdge(mounted, given);
    case Ok(parents) =>
      if FirstCycle(parents, Ascending(mounted)).Some? {
        RefusedForACycle(mounted, given, parents);
      } else {
        AcceptedIsDepicted(mounted, given);
      }
  }

  lemma CycleIsOfTheGiven(given: seq<Containment>, loop: seq<Component>)
    requires ClosedChain(Normal(given), loop)
    ensures OnACycle(given, loop[0])
  {
    forall i | 0 <= i < |loop| - 1 ensures HasEdge(given, loop[i + 1], loop[i]) {
      assert HasEdge(Normal(given), loop[i + 1], loop[i]);
    }
    assert ClosedChain(given, loop);
  }

  lemma RootsAreTops(mounted: set<Component>, edges: seq<Containment>, given: seq<Containment>, parents: Parents)
    requires Follows(edges, parents) && SameEdges(given, edges)
    ensures forall c :: c in Roots(mounted, parents) <==> c in mounted && forall e :: e in given ==> e.child != c
    ensures Ordered(Roots(mounted, parents))
  {
    forall c ensures c in parents <==> exists e :: e in given && e.child == c {
      if c in parents {
        assert HasEdge(edges, parents[c], c);
      }
      if e :| e in given && e.child == c {
        assert HasEdge(edges, e.parent, c);
      }
    }
  }

  // ------------------------------------------------------------------ the forest

  /** The component n containments above c. */
  function Climb(parents: Parents, c: Component, n: nat): Option<Component>
    decreases n
  {
    if n == 0 then Some(c)
    else if c !in parents then None
    else Climb(parents, parents[c], n - 1)
  }

  lemma {:induction false} ClimbOneMore(parents: Parents, c: Component, n: nat)
    requires Climb(parents, c, n).Some?
    ensures var top := Climb(parents, c, n).value;
            Climb(parents, c, n + 1) == if top in parents then Some(parents[top]) else None
    decreases n
  {
    if n > 0 { ClimbOneMore(parents, parents[c], n - 1); }
  }

  ghost predicate Tops(parents: Parents, c: Component, n: nat, root: Component) {
    Climb(parents, c, n) == Some(root) && root !in parents
  }

  lemma {:induction false} WalkReachesATop(
      parents: Parents, start: Component, n: nat, cursor: Component, seen: set<Component>)
    returns (m: nat, root: Component)
    requires Climb(parents, start, n) == Some(cursor)
    requires seen <= parents.Keys && |seen| == n
    requires Walk(parents, cursor, seen).None?
    ensures Tops(parents, start, m, root) && m <= |parents.Keys|
    decreases parents.Keys - seen
  {
    if cursor !in parents {
      m, root := n, cursor;
      SubsetIsNoLarger(seen, parents.Keys);
    } else {
      ClimbOneMore(parents, start, n);
      m, root := WalkReachesATop(parents, start, n + 1, parents[cursor], seen + {cursor});
    }
  }

  lemma {:induction false} SubsetIsNoLarger(a: set<Component>, b: set<Component>)
    requires a <= b
    ensures |a| <= |b|
    ensures a != b ==> |a| < |b|
  {
    if a != {} {
      var x :| x in a;
      SubsetIsNoLarger(a - {x}, b - {x});
      assert a == b <==> a - {x} == b - {x};
    }
  }

  lemma {:induction false} TopIsUnique(parents: Parents, c: Component, n: nat, r: Component, m: nat, s: Component)
    requires Tops(parents, c, n, r) && Tops(parents, c, m, s)
    ensures n == m && r == s
    decreases n
  {
    if n > 0 && m > 0 { TopIsUnique(parents, parents[c], n - 1, r, m - 1, s); }
  }

  lemma {:induction false} ClimbStaysMounted(
      mounted: set<Component>, edges: seq<Containment>, parents: Parents, c: Component, n: nat)
    requires Follows(edges, parents) && EndpointsMounted(mounted, edges)
    requires c in mounted && Climb(parents, c, n).Some?
    ensures Climb(parents, c, n).value in mounted
    decreases n
  {
    if n > 0 {
      assert HasEdge(edges, parents[c], c);
      ClimbStaysMounted(mounted, edges, parents, parents[c], n - 1);
    }
  }

  ghost predicate InTree(parents: Parents, c: Component, root: Component) {
    exists n :: Tops(parents, c, n, root)
  }

  lemma {:induction false} ClimbsToOneRoot(mounted: set<Component>, edges: seq<Containment>, c: Component)
    returns (depth: nat, root: Component)
    requires Resolved(mounted, edges).Ok?
    requires c in mounted
    ensures var parents := CheckEdges(mounted, edges).value;
            && root in Resolved(mounted, edges).value.roots
            && Tops(parents, c, depth, root) && depth < |mounted|
            && forall other :: InTree(parents, c, other) ==> other == root
  {
    var parents := CheckEdges(mounted, edges).value;
    FirstPassDecides(mounted, edges);
    FirstCycleDecides(parents, Ascending(mounted));
    assert c in Ascending(mounted);
    depth, root := WalkReachesATop(parents, c, 0, c, {});
    ClimbStaysMounted(mounted, edges, parents, c, depth);
    forall child | child in parents ensures child in mounted {
      assert HasEdge(edges, parents[child], child);
    }
    SubsetIsNoLarger(parents.Keys, mounted);
    forall other | InTree(parents, c, other) ensures other == root {
      var n :| Tops(parents, c, n, other);
      TopIsUnique(parents, c, n, other, depth, root);
    }
  }

  lemma ParentSharesTheTree(parents: Parents, c: Component, root: Component)
    requires c in parents
    ensures InTree(parents, c, root) <==> InTree(parents, parents[c], root)
  {
    if n: nat :| Tops(parents, c, n, root) {
      assert n > 0 && Tops(parents, parents[c], n - 1, root);
    }
    if n: nat :| Tops(parents, parents[c], n, root) {
      assert Tops(parents, c, n + 1, root);
    }
  }

  // ------------------------------------------------------------------ the two readers

  function ChildrenIn(edges: seq<Containment>, parent: Component): (r: seq<Component>)
    ensures forall c :: c in r <==> HasEdge(edges, parent, c)
  {
    if edges == [] then [] else
      var rest := ChildrenIn(edges[1..], parent);
      assert forall e :: e in edges <==> e == edges[0] || e in edges[1..];
      if edges[0].parent == parent then [edges[0].child] + rest else rest
  }

  function ParentIn(edges: seq<Containment>, child: Component): (r: Option<Component>)
    ensures r.Some? ==> HasEdge(edges, r.value, child)
    ensures r.None? ==> forall e :: e in edges ==> e.child != child
  {
    if edges == [] then None
    else if edges[0].child == child then assert edges[0] in edges; Some(edges[0].parent)
    else
      assert forall e :: e in edges <==> e == edges[0] || e in edges[1..];
      ParentIn(edges[1..], child)
  }

  /** children_of and parent_of. */
  function ChildrenOf(t: Topology, parent: Component): seq<Component> {
    ChildrenIn(t.containments, parent)
  }

  function ParentOf(t: Topology, child: Component): Option<Component> {
    ParentIn(t.containments, child)
  }

  /** This is what the given list is accepted as. */
  predicate Accepted(mounted: set<Component>, given: seq<Containment>, t: Topology) {
    Resolved(mounted, Normal(given)) == Ok(t)
  }

  lemma AcceptedFollows(mounted: set<Component>, given: seq<Containment>, t: Topology) returns (parents: Parents)
    requires Accepted(mounted, given, t)
    ensures t.containments == Normal(given) && Resolved(mounted, t.containments) == Ok(t)
    ensures CheckEdges(mounted, t.containments) == Ok(parents) && Follows(t.containments, parents)
    ensures forall c :: ParentOf(t, c) == if c in parents then Some(parents[c]) else None
    ensures forall p, c :: HasEdge(t.containments, p, c) <==> HasEdge(given, p, c)
  {
    parents := CheckEdges(mounted, Normal(given)).value;
    FirstPassDecides(mounted, t.containments);
    forall c ensures ParentOf(t, c) == if c in parents then Some(parents[c]) else None {
      if c in parents { assert HasEdge(t.containments, parents[c], c); }
    }
    forall p, c ensures HasEdge(t.containments, p, c) <==> HasEdge(given, p, c) {
      if HasEdge(given, p, c) {
        var e :| e in given && e.parent == p && e.child == c;
        assert e in t.containments;
      }
    }
  }

  /** The two readers of an accepted topology tell of exactly the given containments, and so answer each
      other; the roots are what has no parent. */
  lemma ReadersAgree(mounted: set<Component>, given: seq<Containment>, t: Topology, p: Component, c: Component)
    requires Accepted(mounted, given, t)
    ensures c in ChildrenOf(t, p) <==> HasEdge(given, p, c)
    ensures ParentOf(t, c) == Some(p) <==> HasEdge(given, p, c)
    ensures c in t.roots <==> c in mounted && ParentOf(t, c).None?
  {
    var parents := AcceptedFollows(mounted, given, t);
  }

  predicate Climbing(s: seq<Component>) {
    forall i, j :: 0 <= i < j < |s| ==> s[i] <= s[j]
  }

  /** children_of lists them in order. */
  lemma {:induction false} ChildrenClimb(edges: seq<Containment>, parent: Component)
    requires Sorted(edges)
    ensures Climbing(ChildrenIn(edges, parent))
  {
    if edges != [] {
      var e, rest := edges[0], edges[1..];
      ChildrenClimb(rest, parent);
      var below := ChildrenIn(rest, parent);
      forall k | e.parent == parent && 0 <= k < |below| ensures e.child <= below[k] {
        assert below[k] in below;
        var f :| f in rest && f.parent == parent && f.child == below[k];
      }
    }
  }

  // ------------------------------------------------------------------ the trees of the result

  /** The component n parents above c, as parent_of tells. */
  function Above(t: Topology, c: Component, n: nat): Option<Component>
    decreases n
  {
    if n == 0 then Some(c)
    else match ParentOf(t, c)
      case None => None
      case Some(p) => Above(t, p, n - 1)
  }

  lemma {:induction false} AboveClimbs(t: Topology, parents: Parents, c: Component, n: nat)
    requires forall c :: ParentOf(t, c) == if c in parents then Some(parents[c]) else None
    ensures Above(t, c, n) == Climb(parents, c, n)
    decreases n
  {
    if n > 0 && c in parents { AboveClimbs(t, parents, parents[c], n - 1); }
  }

  /** Going up from c comes to this root after some steps. */
  ghost predicate Under(t: Topology, c: Component, root: Component) {
    exists n :: Above(t, c, n) == Some(root) && ParentOf(t, root).None?
  }

  lemma UnderIsInTree(t: Topology, parents: Parents, c: Component, root: Component)
    requires forall c :: ParentOf(t, c) == if c in parents then Some(parents[c]) else None
    ensures Under(t, c, root) <==> InTree(parents, c, root)
  {
    if n: nat :| Above(t, c, n) == Some(root) && ParentOf(t, root).None? {
      AboveClimbs(t, parents, c, n);
      assert Tops(parents, c, n, root);
    }
    if n: nat :| Tops(parents, c, n, root) {
      AboveClimbs(t, parents, c, n);
    }
  }

  /**
   * Every mounted component of an accepted topology climbs to one of its roots and only one, in fewer
   * steps than there are mounted components; so the trees of the roots partition what is mounted.
   */
  lemma {:induction false} OneRootEach(mounted: set<Component>, given: seq<Containment>, t: Topology, c: Component)
    returns (depth: nat, root: Component)
    requires Accepted(mounted, given, t) && c in mounted
    ensures root in t.roots && Above(t, c, depth) == Some(root) && depth < |mounted|
    ensures forall other :: Under(t, c, other) <==> other == root
  {
    var parents := AcceptedFollows(mounted, given, t);
    depth, root := ClimbsToOneRoot(mounted, t.containments, c);
    AboveClimbs(t, parents, c, depth);
    forall other ensures Under(t, c, other) <==> other == root {
      UnderIsInTree(t, parents, c, other);
    }
  }

  /** Containment never crosses from one root's tree to another's. */
  lemma {:induction false} TreesAreClosed(mounted: set<Component>, given: seq<Containment>, t: Topology, e: Containment,
                                          root: Component)
    requires Accepted(mounted, given, t) && e in given
    ensures Under(t, e.child, root) <==> Under(t, e.parent, root)
  {
    var parents := AcceptedFollows(mounted, given, t);
    assert HasEdge(given, e.parent, e.child);
    ParentSharesTheTree(parents, e.child, root);
    UnderIsInTree(t, parents, e.child, root);
    UnderIsInTree(t, parents, e.parent, root);
  }

  lemma SomethingMountedHasARoot(mounted: set<Component>, given: seq<Containment>, t: Topology)
    requires Accepted(mounted, given, t)
    ensures t.roots == [] <==> mounted == {}
  {
    if t.roots != [] { assert t.roots[0] in mounted; }
    if c :| c in mounted {
      var _, root := OneRootEach(mounted, given, t, c);
    }
  }

  predicate Repeats(s: seq<Component>) {
    exists i, j :: 0 <= i < j < |s| && s[i] == s[j]
  }

  predicate TwiceRecorded(edges: seq<Containment>, parent: Component) {
    exists i, j :: 0 <= i < j < |edges| && edges[i].parent == edges[j].parent == parent
                   && edges[i].child == edges[j].child
  }

  /**
   * Repeated entries are dropped only when their provenance is the same too, so children_of names
   * a child twice exactly when two entries record it under that parent.
   */
  lemma {:induction false} ChildrenRepeatIffRecordedTwice(edges: seq<Containment>, parent: Component)
    ensures Repeats(ChildrenIn(edges, parent)) <==> TwiceRecorded(edges, parent)
  {
    if edges != [] {
      var e, rest := edges[0], edges[1..];
      ChildrenRepeatIffRecordedTwice(rest, parent);
      RepeatsAfterPush(e.child, ChildrenIn(rest, parent));
      RecordedAfterPush(e, rest, parent);
      assert edges == [e] + rest;
    }
  }

  lemma RepeatsAfterPush(c: Component, below: seq<Component>)
    ensures Repeats([c] + below) <==> Repeats(below) || c in below
  {
    var all := [c] + below;
    if i, j :| 0 <= i < j < |below| && below[i] == below[j] {
      assert all[i + 1] == all[j + 1];
    }
    if j :| 0 <= j < |below| && below[j] == c {
      assert all[0] == all[j + 1];
    }
    if i, j :| 0 <= i < j < |all| && all[i] == all[j] {
      assert all[j] == below[j - 1];
      if i > 0 { assert below[i - 1] == below[j - 1]; }
    }
  }

  lemma RecordedAfterPush(e: Containment, rest: seq<Containment>, parent: Component)
    ensures TwiceRecorded([e] + rest, parent)
            <==> TwiceRecorded(rest, parent) || (e.parent == parent && HasEdge(rest, parent, e.child))
  {
    var all := [e] + rest;
    if i, j :| 0 <= i < j < |rest| && rest[i].parent == rest[j].parent == parent && rest[i].child == rest[j].child {
      assert all[i + 1] == rest[i] && all[j + 1] == rest[j];
    }
    if e.parent == parent && HasEdge(rest, parent, e.child) {
      var f :| f in rest && f.parent == parent && f.child == e.child;
      var k :| 0 <= k < |rest| && rest[k] == f;
      assert all[0] == e && all[k + 1] == f;
    }
    if i, j :| 0 <= i < j < |all| && all[i].parent == all[j].parent == parent && all[i].child == all[j].child {
      assert all[j] == rest[j - 1];
      if i > 0 { assert all[i] == rest[i - 1]; }
    }
  }
}
