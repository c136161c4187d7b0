/** What is picked from a list: by its places, in order. */
module Selections {

  /** These places of a list of n, in order. */
  predicate Places(picks: seq<nat>, n: nat) {
    (forall k :: 0 <= k < |picks| ==> picks[k] < n) && forall k, l :: 0 <= k < l < |picks| ==> picks[k] < picks[l]
  }

  lemma PlacesPush(front: seq<nat>, n: nat, w: bool)
    requires Places(front, n)
    ensures var picks := if w then front + [n] else front;
            && Places(picks, n + 1) && forall i :: i in picks <==> i in front || (w && i == n)
  {
  }

  /** The places of what is wanted. */
  function Pick(wanted: seq<bool>): (picks: seq<nat>)
    ensures forall k :: 0 <= k < |picks| ==> picks[k] < |wanted|
  {
    if wanted == [] then [] else
      var n := |wanted| - 1;
      if wanted[n] then Pick(wanted[..n]) + [n] else Pick(wanted[..n])
  }

  lemma {:induction false} PickHas(wanted: seq<bool>, i: nat)
    requires i < |wanted|
    ensures i in Pick(wanted) <==> wanted[i]
  {
    var n := |wanted| - 1;
    var front := Pick(wanted[..n]);
    assert i in front + [n] <==> i in front || i == n;
    if i < n {
      PickHas(wanted[..n], i);
    }
  }

  lemma {:induction false} PickAscends(wanted: seq<bool>)
    ensures Places(Pick(wanted), |wanted|)
  {
    if wanted != [] {
      PickAscends(wanted[..|wanted| - 1]);
    }
  }

  /** Every place of what is wanted is picked, and no other. */
  lemma PickMeans(wanted: seq<bool>)
    ensures Places(Pick(wanted), |wanted|)
    ensures forall i :: 0 <= i < |wanted| ==> (i in Pick(wanted) <==> wanted[i])
  {
    PickAscends(wanted);
    forall i | 0 <= i < |wanted| ensures i in Pick(wanted) <==> wanted[i] { PickHas(wanted, i); }
  }

  /** What stands at these places. */
  function Those<T>(all: seq<T>, picks: seq<nat>): seq<T>
    requires forall k :: 0 <= k < |picks| ==> picks[k] < |all|
  {
    seq(|picks|, k requires 0 <= k < |picks| => all[picks[k]])
  }

  lemma ThoseStay<T>(all: seq<T>, picks: seq<nat>)
    requires all != [] && forall k :: 0 <= k < |picks| ==> picks[k] < |all| - 1
    ensures Those(all, picks) == Those(all[..|all| - 1], picks)
  {
  }

  lemma ThosePush<T>(all: seq<T>, picks: seq<nat>, i: nat)
    requires i < |all| && forall k :: 0 <= k < |picks| ==> picks[k] < |all|
    ensures Those(all, picks + [i]) == Those(all, picks) + [all[i]]
  {
  }

  /** Picking one place further. */
  lemma PickNext<T>(all: seq<T>, wanted: seq<bool>)
    requires all != [] && |wanted| == |all|
    ensures var n := |all| - 1;
            Those(all, Pick(wanted)) == if wanted[n] then Those(all[..n], Pick(wanted[..n])) + [all[n]]
                                        else Those(all[..n], Pick(wanted[..n]))
  {
    var n := |all| - 1;
    ThoseStay(all, Pick(wanted[..n]));
    ThosePush(all, Pick(wanted[..n]), n);
  }
}
