/**
 * SkillSet closure in scripts/verify-native-skills.py: a set carries its own members and, by
 * reference, every member of its children; the registry check refuses sets that repeat one.
 */
module SkillSets {
  import opened Prelude

  type SetRef = string
  type Member = string

  datatype Entry = Entry(own: seq<Member>, children: seq<SetRef>)

  type Registry = map<SetRef, Entry>

  datatype Refusal =
    | ReferenceCycle(at: SetRef)
    | Undeclared(at: SetRef)
    | EmptyOrDuplicate(at: SetRef)
    | UnknownMembers(at: SetRef)
    | Repeated(at: SetRef, child: SetRef)

  function Own(reg: Registry, r: SetRef): set<Member>
    requires r in reg
  {
    set m | m in reg[r].own
  }

  function Names(s: seq<SetRef>): set<SetRef> {
    set r | r in s
  }

  // ------------------------------------------------------------------ the recursion

  function Effective(reg: Registry, r: SetRef, stack: seq<SetRef>): Result<set<Member>, Refusal>
    decreases reg.Keys - Names(stack), 0, 0
  {
    if r in stack then Err(ReferenceCycle(r))
    else if r !in reg then Err(Undeclared(r))
    else
      StackGrows(reg, r, stack);
      match EffectiveOf(reg, reg[r].children, stack + [r])
      case Err(refusal) => Err(refusal)
      case Ok(carried) => Ok(Own(reg, r) + carried)
  }

  function EffectiveOf(reg: Registry, children: seq<SetRef>, stack: seq<SetRef>): Result<set<Member>, Refusal>
    decreases reg.Keys - Names(stack), 1, |children|
  {
    if children == [] then Ok({}) else
      match Effective(reg, children[0], stack)
      case Err(refusal) => Err(refusal)
      case Ok(members) =>
        match EffectiveOf(reg, children[1..], stack)
        case Err(refusal) => Err(refusal)
        case Ok(others) => Ok(members + others)
  }

  lemma StackGrows(reg: Registry, r: SetRef, stack: seq<SetRef>)
    requires r in reg && r !in stack
    ensures reg.Keys - Names(stack + [r]) < reg.Keys - Names(stack)
  {
    assert Names(stack + [r]) == Names(stack) + {r};
    assert r in reg.Keys - Names(stack);
  }

  /** effective_members, with its accumulating loop. */
  method EffectiveMembers(reg: Registry, r: SetRef, stack: seq<SetRef>) returns (result: Result<set<Member>, Refusal>)
    ensures result == Effective(reg, r, stack)
    decreases reg.Keys - Names(stack)
  {
    if r in stack {
      return Err(ReferenceCycle(r));
    }
    if r !in reg {
      return Err(Undeclared(r));
    }
    StackGrows(reg, r, stack);
    var children, deeper := reg[r].children, stack + [r];
    var out := set m | m in reg[r].own;
    ghost var carried: set<Member> := {};
    AddingNothing(EffectiveOf(reg, children, deeper));
    assert children[0..] == children;
    var i := 0;
    while i < |children|
      invariant 0 <= i <= |children|
      invariant out == Own(reg, r) + carried
      invariant Adding(carried, EffectiveOf(reg, children[i..], deeper)) == EffectiveOf(reg, children, deeper)
    {
      var members := EffectiveMembers(reg, children[i], deeper);
      assert children[i..][1..] == children[i + 1..];
      if members.Err? {
        return Err(members.error);
      }
      out := out + members.value;
      AddingTwice(carried, members.value, EffectiveOf(reg, children[i + 1..], deeper));
      carried := carried + members.value;
      i := i + 1;
    }
    assert carried + {} == carried;
    result := Ok(out);
  }

  function Adding(members: set<Member>, more: Result<set<Member>, Refusal>): Result<set<Member>, Refusal> {
    match more
    case Err(refusal) => Err(refusal)
    case Ok(others) => Ok(members + others)
  }

  lemma AddingNothing(more: Result<set<Member>, Refusal>)
    ensures Adding({}, more) == more
  {
    if more.Ok? { assert {} + more.value == more.value; }
  }

  lemma AddingTwice(a: set<Member>, b: set<Member>, more: Result<set<Member>, Refusal>)
    ensures Adding(a, Adding(b, more)) == Adding(a + b, more)
  {
    if more.Ok? { assert a + (b + more.value) == (a + b) + more.value; }
  }

  // ------------------------------------------------------------------ reachability

  /** A path of references: each next one is a child of a declared set. */
  predicate Path(reg: Registry, r: SetRef, path: seq<SetRef>) {
    path != [] && path[0] == r
    && forall i :: 0 <= i < |path| - 1 ==> path[i] in reg && path[i + 1] in reg[path[i]].children
  }

  function Last(path: seq<SetRef>): SetRef
    requires path != []
  {
    path[|path| - 1]
  }

  /** A path that ends in a declared set it has not met before. */
  predicate Fresh(reg: Registry, path: seq<SetRef>, stack: seq<SetRef>)
    requires path != []
  {
    Last(path) in reg && Last(path) !in stack && Last(path) !in path[..|path| - 1]
  }

  ghost predicate Closed(reg: Registry, r: SetRef, stack: seq<SetRef>) {
    forall path :: Path(reg, r, path) ==> Fresh(reg, path, stack)
  }

  ghost predicate Carried(reg: Registry, r: SetRef, m: Member) {
    exists path :: Path(reg, r, path) && Last(path) in reg && m in reg[Last(path)].own
  }

  lemma PathTail(reg: Registry, r: SetRef, path: seq<SetRef>, stack: seq<SetRef>)
    requires r in reg && Path(reg, r, path) && 1 < |path|
    ensures path[1] in reg[r].children && Path(reg, path[1], path[1..]) && Last(path[1..]) == Last(path)
    ensures Fresh(reg, path, stack) <==> Fresh(reg, path[1..], stack + [r])
  {
    var tail := path[1..];
    assert forall i :: 0 <= i < |tail| ==> tail[i] == path[i + 1];
    assert path[..|path| - 1] == [r] + tail[..|tail| - 1];
  }

  lemma PathCons(reg: Registry, r: SetRef, path: seq<SetRef>)
    requires r in reg && path != [] && path[0] in reg[r].children && Path(reg, path[0], path)
    ensures Path(reg, r, [r] + path) && ([r] + path)[1..] == path && Last([r] + path) == Last(path)
  {
  }

  /** A set and everything below it is fresh exactly when it is, and everything below its children is. */
  lemma ClosedUnfolds(reg: Registry, r: SetRef, stack: seq<SetRef>)
    ensures Closed(reg, r, stack) <==>
            r in reg && r !in stack && forall c :: c in reg[r].children ==> Closed(reg, c, stack + [r])
  {
    if Closed(reg, r, stack) {
      assert Path(reg, r, [r]);
      forall c, path | c in reg[r].children && Path(reg, c, path) ensures Fresh(reg, path, stack + [r]) {
        PathCons(reg, r, path);
        PathTail(reg, r, [r] + path, stack);
      }
    }
    if r in reg && r !in stack && forall c :: c in reg[r].children ==> Closed(reg, c, stack + [r]) {
      forall path | Path(reg, r, path) ensures Fresh(reg, path, stack) {
        if 1 < |path| {
          PathTail(reg, r, path, stack);
        }
      }
    }
  }

  lemma CarriedUnfolds(reg: Registry, r: SetRef, m: Member)
    requires r in reg
    ensures Carried(reg, r, m) <==> m in reg[r].own || exists c :: c in reg[r].children && Carried(reg, c, m)
  {
    if m in reg[r].own { assert Path(reg, r, [r]) && Last([r]) == r; }
    if c :| c in reg[r].children && Carried(reg, c, m) {
      var path :| Path(reg, c, path) && Last(path) in reg && m in reg[Last(path)].own;
      PathCons(reg, r, path);
    }
    if Carried(reg, r, m) && m !in reg[r].own {
      var path :| Path(reg, r, path) && Last(path) in reg && m in reg[Last(path)].own;
      PathTail(reg, r, path, []);
    }
  }

  /** The recursion is reachability: it refuses exactly when a repeated or undeclared reference can be
      reached, and otherwise returns exactly the members of every set that can be reached. */
  lemma {:induction false} EffectiveIsReachable(reg: Registry, r: SetRef, stack: seq<SetRef>)
    ensures Effective(reg, r, stack).Ok? <==> Closed(reg, r, stack)
    ensures Effective(reg, r, stack).Ok? ==> forall m :: m in Effective(reg, r, stack).value <==> Carried(reg, r, m)
    decreases reg.Keys - Names(stack), 0, 0
  {
    ClosedUnfolds(reg, r, stack);
    if r in reg && r !in stack {
      StackGrows(reg, r, stack);
      ChildrenAreReachable(reg, reg[r].children, stack + [r]);
      if Effective(reg, r, stack).Ok? {
        forall m ensures m in Effective(reg, r, stack).value <==> Carried(reg, r, m) {
          CarriedUnfolds(reg, r, m);
        }
      }
    }
  }

  lemma {:induction false} ChildrenAreReachable(reg: Registry, children: seq<SetRef>, stack: seq<SetRef>)
    ensures EffectiveOf(reg, children, stack).Ok? <==> forall c :: c in children ==> Closed(reg, c, stack)
    ensures EffectiveOf(reg, children, stack).Ok?
            ==> forall m ::
                  m in EffectiveOf(reg, children, stack).value
                  <==> exists c :: c in children && Carried(reg, c, m)
    decreases reg.Keys - Names(stack), 1, |children|
  {
    if children != [] {
      EffectiveIsReachable(reg, children[0], stack);
      ChildrenAreReachable(reg, children[1..], stack);
      forall c ensures c in children <==> c == children[0] || c in children[1..] {}
    }
  }

  /** What a refusal names: a reference on a path that comes back to it, or one no entry declares. */
  ghost predicate Accounts(reg: Registry, r: SetRef, stack: seq<SetRef>, refusal: Refusal) {
    exists path :: Path(reg, r, path) && Last(path) == refusal.at
      && match refusal
         case ReferenceCycle(at) => at in stack || at in path[..|path| - 1]
         case Undeclared(at) => at !in reg
         case _ => false
  }

  lemma {:induction false} RefusalIsTrue(reg: Registry, r: SetRef, stack: seq<SetRef>)
    requires Effective(reg, r, stack).Err?
    ensures Accounts(reg, r, stack, Effective(reg, r, stack).error)
    decreases reg.Keys - Names(stack), 0, 0
  {
    if r in stack || r !in reg {
      assert Path(reg, r, [r]) && Last([r]) == r;
    } else {
      StackGrows(reg, r, stack);
      var c := ChildRefusalIsTrue(reg, reg[r].children, stack + [r]);
      var refusal := Effective(reg, r, stack).error;
      var path :| Path(reg, c, path) && Last(path) == refusal.at
        && match refusal
           case ReferenceCycle(at) => at in stack + [r] || at in path[..|path| - 1]
           case Undeclared(at) => at !in reg
           case _ => false;
      PathCons(reg, r, path);
      assert ([r] + path)[..|path|] == [r] + path[..|path| - 1];
    }
  }

  lemma {:induction false} ChildRefusalIsTrue(reg: Registry, children: seq<SetRef>, stack: seq<SetRef>)
    returns (c: SetRef)
    requires EffectiveOf(reg, children, stack).Err?
    ensures c in children && Accounts(reg, c, stack, EffectiveOf(reg, children, stack).error)
    decreases reg.Keys - Names(stack), 1, |children|
  {
    if Effective(reg, children[0], stack).Err? {
      c := children[0];
      RefusalIsTrue(reg, c, stack);
    } else {
      c := ChildRefusalIsTrue(reg, children[1..], stack);
    }
  }

  // ------------------------------------------------------------------ the registry check

  predicate ListOk(own: seq<Member>, expected: set<Member>) {
    own != [] && (forall i, j :: 0 <= i < j < |own| ==> own[i] != own[j]) && forall m :: m in own ==> m in expected
  }

  /** No path from r leads outside the registry, comes back, or reaches a set with a member of r's own. */
  ghost predicate Unrepeated(reg: Registry, r: SetRef)
    requires r in reg
  {
    forall path :: Path(reg, r, path) && 1 < |path| ==>
      Fresh(reg, path, []) && Own(reg, r) !! Own(reg, Last(path))
  }

  ghost predicate Sound(reg: Registry, expected: set<Member>) {
    forall r :: r in reg ==> ListOk(reg[r].own, expected) && Unrepeated(reg, r)
  }

  predicate ChildOk(reg: Registry, r: SetRef, child: SetRef)
    requires r in reg
  {
    Effective(reg, child, []).Ok? && Own(reg, r) !! Effective(reg, child, []).value
  }

  /** Checking the children one by one checks every descendant. */
  lemma ChildrenDecideDescendants(reg: Registry, r: SetRef)
    requires r in reg && reg[r].own != []
    ensures (forall c :: c in reg[r].children ==> ChildOk(reg, r, c)) <==> Unrepeated(reg, r)
  {
    forall c ensures Effective(reg, c, []).Ok? <==> Closed(reg, c, [])
             ensures Effective(reg, c, []).Ok? ==> forall m :: m in Effective(reg, c, []).value <==> Carried(reg, c, m)
    {
      EffectiveIsReachable(reg, c, []);
    }
    if forall c :: c in reg[r].children ==> ChildOk(reg, r, c) {
      forall path | Path(reg, r, path) && 1 < |path|
        ensures Fresh(reg, path, []) && Own(reg, r) !! Own(reg, Last(path))
      {
        DescendantIsApart(reg, r, path);
      }
    }
    if Unrepeated(reg, r) {
      forall c | c in reg[r].children ensures ChildOk(reg, r, c) { ChildIsApart(reg, r, c); }
    }
  }

  lemma {:induction false} RefusesNoRepeat(reg: Registry, r: SetRef, stack: seq<SetRef>)
    requires Effective(reg, r, stack).Err?
    ensures !Effective(reg, r, stack).error.Repeated?
    decreases reg.Keys - Names(stack), 0, 0
  {
    if r !in stack && r in reg {
      StackGrows(reg, r, stack);
      NoneRefusesARepeat(reg, reg[r].children, stack + [r]);
    }
  }

  lemma {:induction false} NoneRefusesARepeat(reg: Registry, children: seq<SetRef>, stack: seq<SetRef>)
    requires EffectiveOf(reg, children, stack).Err?
    ensures !EffectiveOf(reg, children, stack).error.Repeated?
    decreases reg.Keys - Names(stack), 1, |children|
  {
    if Effective(reg, children[0], stack).Err? {
      RefusesNoRepeat(reg, children[0], stack);
    } else {
      NoneRefusesARepeat(reg, children[1..], stack);
    }
  }

  lemma DescendantIsApart(reg: Registry, r: SetRef, path: seq<SetRef>)
    requires r in reg && reg[r].own != [] && Path(reg, r, path) && 1 < |path|
    requires ChildOk(reg, r, path[1]) && Closed(reg, path[1], [])
    requires forall m :: m in Effective(reg, path[1], []).value <==> Carried(reg, path[1], m)
    ensures Fresh(reg, path, []) && Own(reg, r) !! Own(reg, Last(path))
  {
    PathTail(reg, r, path, []);
    assert Fresh(reg, path[1..], []);
    forall m | m in Own(reg, Last(path)) ensures m !in Own(reg, r) {
      assert Carried(reg, path[1], m);
    }
    assert reg[r].own[0] in Own(reg, r);
    assert path[..|path| - 1] == [r] + path[1..][..|path| - 2];
  }

  lemma ChildIsApart(reg: Registry, r: SetRef, c: SetRef)
    requires r in reg && c in reg[r].children && Unrepeated(reg, r)
    ensures ChildOk(reg, r, c)
  {
    EffectiveIsReachable(reg, c, []);
    forall path | Path(reg, c, path) ensures Fresh(reg, path, []) && Own(reg, r) !! Own(reg, Last(path)) {
      PathCons(reg, r, path);
      assert ([r] + path)[..|path|] == [r] + path[..|path| - 1];
      assert Fresh(reg, [r] + path, []);
    }
    forall m | m in Effective(reg, c, []).value ensures m !in Own(reg, r) {
      var path :| Path(reg, c, path) && Last(path) in reg && m in reg[Last(path)].own;
      assert m in Own(reg, Last(path));
    }
  }

  /** The first child that is not right, and why: its closure is refused, or it carries a member of the
      set's own. */
  ghost predicate ChildBlamed(reg: Registry, r: SetRef, refusal: Refusal)
    requires r in reg
  {
    exists k :: 0 <= k < |reg[r].children| && (forall j :: 0 <= j < k ==> ChildOk(reg, r, reg[r].children[j]))
                && ChildAccused(reg, r, reg[r].children[k], refusal)
  }

  ghost predicate ChildAccused(reg: Registry, r: SetRef, child: SetRef, refusal: Refusal)
    requires r in reg
  {
    if refusal.Repeated? then
      && refusal.at == r && refusal.child == child && Effective(reg, child, []).Ok?
      && exists m :: m in reg[r].own && Carried(reg, child, m)
    else Effective(reg, child, []) == Err(refusal)
  }

  lemma RepeatedIsCarried(reg: Registry, r: SetRef, child: SetRef)
    requires r in reg && Effective(reg, child, []).Ok? && Own(reg, r) * Effective(reg, child, []).value != {}
    ensures ChildAccused(reg, r, child, Repeated(r, child))
  {
    EffectiveIsReachable(reg, child, []);
    var m :| m in Own(reg, r) * Effective(reg, child, []).value;
    assert m in reg[r].own && Carried(reg, child, m);
  }

  predicate HasDuplicate(s: seq<Member>) {
    exists a, b :: 0 <= a < b < |s| && s[a] == s[b]
  }

  /** The first set in order that is not right, and why: its list is empty or repeats, else it has
      members nobody expects, else a child is to blame. */
  ghost predicate Blamed(reg: Registry, order: seq<SetRef>, expected: set<Member>, refusal: Refusal)
    requires forall r :: r in order ==> r in reg
  {
    exists i :: 0 <= i < |order|
      && (forall k :: 0 <= k < i ==> ListOk(reg[order[k]].own, expected) && Unrepeated(reg, order[k]))
      && SetAccused(reg, order[i], expected, refusal)
  }

  ghost predicate SetAccused(reg: Registry, r: SetRef, expected: set<Member>, refusal: Refusal)
    requires r in reg
  {
    var own := reg[r].own;
    if own == [] || HasDuplicate(own) then refusal == EmptyOrDuplicate(r)
    else if exists m :: m in own && m !in expected then refusal == UnknownMembers(r)
    else ChildBlamed(reg, r, refusal)
  }

  /** The inner loop: each child in turn. */
  method CheckChildren(reg: Registry, r: SetRef) returns (refusal: Option<Refusal>)
    requires r in reg && reg[r].own != []
    ensures refusal.None? <==> Unrepeated(reg, r)
    ensures refusal.Some? ==> ChildBlamed(reg, r, refusal.value)
  {
    ChildrenDecideDescendants(reg, r);
    var members := set m | m in reg[r].own;
    var children := reg[r].children;
    var k := 0;
    while k < |children|
      invariant 0 <= k <= |children|
      invariant forall j :: 0 <= j < k ==> ChildOk(reg, r, children[j])
    {
      var carried := EffectiveMembers(reg, children[k], []);
      if carried.Err? {
        assert !ChildOk(reg, r, children[k]);
        RefusesNoRepeat(reg, children[k], []);
        assert ChildAccused(reg, r, children[k], carried.error);
        return Some(carried.error);
      }
      if members * carried.value != {} {
        assert !ChildOk(reg, r, children[k]);
        RepeatedIsCarried(reg, r, children[k]);
        return Some(Repeated(r, children[k]));
      }
      assert Own(reg, r) !! carried.value by {
        assert forall m :: m in carried.value ==> m !in members * carried.value;
      }
      k := k + 1;
    }
    refusal := None;
  }

  /** The check loop passes a registry exactly when it is sound: whatever a set can reach is declared,
      nothing it reaches leads back, and no member is repeated in a set that already carries it. */
  method CheckSkillSets(reg: Registry, order: seq<SetRef>, expected: set<Member>) returns (refusal: Option<Refusal>)
    requires forall r :: r in order <==> r in reg
    ensures refusal.None? <==> Sound(reg, expected)
    ensures refusal.Some? ==> Blamed(reg, order, expected, refusal.value)
  {
    var i := 0;
    while i < |order|
      invariant 0 <= i <= |order|
      invariant forall k :: 0 <= k < i ==> ListOk(reg[order[k]].own, expected) && Unrepeated(reg, order[k])
    {
      var r := order[i];
      var members := reg[r].own;
      if members == [] || HasDuplicate(members) {
        assert SetAccused(reg, r, expected, EmptyOrDuplicate(r));
        return Some(EmptyOrDuplicate(r));
      }
      if exists m :: m in members && m !in expected {
        assert SetAccused(reg, r, expected, UnknownMembers(r));
        return Some(UnknownMembers(r));
      }
      refusal := CheckChildren(reg, r);
      if refusal.Some? {
        assert SetAccused(reg, r, expected, refusal.value);
        return;
      }
      i := i + 1;
    }
    refusal := None;
  }
}
