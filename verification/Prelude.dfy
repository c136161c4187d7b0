/** Small value types and sequence facts every other module uses. */
module Prelude {

  datatype Option<+T> = None | Some(value: T)

  datatype Result<+T, +E> = Ok(value: T) | Err(error: E)

  function Max(a: nat, b: nat): nat {
    if a < b then b else a
  }

  /** The last k elements, or everything when there are fewer. */
  function LastN<T>(k: nat, s: seq<T>): seq<T> {
    if |s| <= k then s else s[|s| - k..]
  }

  /** A bounded queue that drops its oldest element when full. */
  function PushBounded<T>(k: nat, queue: seq<T>, x: T): seq<T> {
    (if |queue| >= k && |queue| > 0 then queue[1..] else queue) + [x]
  }

  lemma PushKeepsLast<T>(k: nat, history: seq<T>, x: T)
    requires 0 < k
    ensures PushBounded(k, LastN(k, history), x) == LastN(k, history + [x])
  {
    if |history| < k {
    } else {
      assert (history + [x])[|history| + 1 - k..] == history[|history| + 1 - k..] + [x];
      assert LastN(k, history)[1..] == history[|history| + 1 - k..];
    }
  }

  /** The least element of a non-empty set of naturals. */
  function Least(s: set<nat>): (m: nat)
    requires s != {}
    ensures m in s
    ensures forall x :: x in s ==> m <= x
  {
    NonEmptyHasLeast(s);
    var m :| m in s && forall x :: x in s ==> m <= x;
    m
  }

  lemma {:induction false} LeastExists(s: set<nat>, y: nat)
    requires y in s
    ensures exists m :: m in s && forall x :: x in s ==> m <= x
  {
    if x :| x in s && x < y {
      LeastExists(s, x);
    } else {
      assert y in s && forall x :: x in s ==> y <= x;
    }
  }

  lemma NonEmptyHasLeast(s: set<nat>)
    requires s != {}
    ensures exists m :: m in s && forall x :: x in s ==> m <= x
  {
    var y :| y in s;
    LeastExists(s, y);
  }

  /** The elements of a finite set of naturals in ascending order. */
  function Ascending(s: set<nat>): (r: seq<nat>)
    ensures forall x :: x in r <==> x in s
    ensures forall i, j :: 0 <= i < j < |r| ==> r[i] < r[j]
    decreases |s|
  {
    if s == {} then [] else
      var m := Least(s);
      [m] + Ascending(s - {m})
  }

  /** a is b with some elements left out. */
  predicate Subsequence<T(==)>(a: seq<T>, b: seq<T>)
    decreases |b|
  {
    if a == [] then true
    else if b == [] then false
    else if a[|a| - 1] == b[|b| - 1] && Subsequence(a[..|a| - 1], b[..|b| - 1]) then true
    else Subsequence(a, b[..|b| - 1])
  }

  lemma SubsequencePush<T>(a: seq<T>, b: seq<T>, x: T)
    requires Subsequence(a, b)
    ensures Subsequence(a, b + [x]) && Subsequence(a + [x], b + [x])
  {
    assert (b + [x])[..|b|] == b && (a + [x])[..|a|] == a;
  }

  lemma SubsequenceNext<T>(a: seq<T>, b: seq<T>, r: seq<T>)
    requires b != [] && Subsequence(a, b[..|b| - 1]) && (r == a || r == a + [b[|b| - 1]])
    ensures Subsequence(r, b)
  {
    SubsequencePush(a, b[..|b| - 1], b[|b| - 1]);
    assert b == b[..|b| - 1] + [b[|b| - 1]];
  }

  lemma {:induction false} SubsequenceOfItself<T>(a: seq<T>)
    ensures Subsequence(a, a)
  {
    if a != [] { SubsequenceOfItself(a[..|a| - 1]); }
  }

  lemma {:induction false} SubsequenceAppend<T>(a: seq<T>, b: seq<T>, more: seq<T>)
    requires Subsequence(a, b)
    ensures Subsequence(a + more, b + more)
    decreases |more|
  {
    if more == [] {
      assert a + more == a && b + more == b;
    } else {
      var n := |more| - 1;
      SubsequenceAppend(a, b, more[..n]);
      SubsequencePush(a + more[..n], b + more[..n], more[n]);
      LastApart(a, more);
      LastApart(b, more);
    }
  }

  lemma LastApart<T>(a: seq<T>, more: seq<T>)
    requires more != []
    ensures a + more == a + more[..|more| - 1] + [more[|more| - 1]]
  {
  }

  /** Leaving the last element of a out as well. */
  lemma {:induction false} SubsequencePop<T>(a: seq<T>, b: seq<T>)
    requires Subsequence(a, b) && a != []
    ensures Subsequence(a[..|a| - 1], b)
    decreases |b|
  {
    var m, n := |a| - 1, |b| - 1;
    if a[m] == b[n] && Subsequence(a[..m], b[..n]) {
      SubsequenceWider(a[..m], b[..n], b[n]);
      assert b == b[..n] + [b[n]];
    } else {
      SubsequencePop(a, b[..n]);
      SubsequenceWider(a[..m], b[..n], b[n]);
      assert b == b[..n] + [b[n]];
    }
  }

  lemma {:induction false} SubsequenceWider<T>(a: seq<T>, b: seq<T>, x: T)
    requires Subsequence(a, b)
    ensures Subsequence(a, b + [x])
  {
    assert (b + [x])[..|b|] == b;
  }

  lemma {:induction false} SubsequenceDrop<T>(a: seq<T>, more: seq<T>, b: seq<T>)
    requires Subsequence(a + more, b)
    ensures Subsequence(a, b)
    decreases |more|
  {
    if more == [] {
      assert a + more == a;
    } else {
      SubsequencePop(a + more, b);
      assert (a + more)[..|a + more| - 1] == a + more[..|more| - 1];
      SubsequenceDrop(a, more[..|more| - 1], b);
    }
  }
}
