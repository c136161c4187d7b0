/** The text of numbers, and its order: how the host's maps are keyed and walked. */
module Tokens {
  import opened Prelude

  const DIGITS := "0123456789"

  function Decimal(n: nat): (s: string)
    ensures s != ""
    decreases n
  {
    if n < 10 then [DIGITS[n]] else Decimal(n / 10) + [DIGITS[n % 10]]
  }

  lemma {:induction false} DecimalIsInjective(m: nat, n: nat)
    requires Decimal(m) == Decimal(n)
    ensures m == n
    decreases m
  {
    var a, b := Decimal(m), Decimal(n);
    assert a[|a| - 1] == DIGITS[m % 10] && b[|b| - 1] == DIGITS[n % 10];
    assert m % 10 == n % 10;
    assert (|a| == 1 <==> m < 10) && (|b| == 1 <==> n < 10);
    if 10 <= m {
      assert a[..|a| - 1] == Decimal(m / 10) && b[..|b| - 1] == Decimal(n / 10);
      DecimalIsInjective(m / 10, n / 10);
    }
  }

  /** Texts in the order of a map's keys. */
  predicate AtMost(a: string, b: string) {
    a == "" || (b != "" && (a[0] < b[0] || (a[0] == b[0] && AtMost(a[1..], b[1..]))))
  }

  lemma {:induction false} AtMostIsTotal(a: string, b: string)
    ensures AtMost(a, b) || AtMost(b, a)
    ensures AtMost(a, b) && AtMost(b, a) ==> a == b
  {
    if a != "" && b != "" {
      AtMostIsTotal(a[1..], b[1..]);
      assert a == [a[0]] + a[1..] && b == [b[0]] + b[1..];
    }
  }

  lemma {:induction false} AtMostIsTransitive(a: string, b: string, c: string)
    requires AtMost(a, b) && AtMost(b, c)
    ensures AtMost(a, c)
  {
    if a != "" && a[0] == b[0] && b[0] == c[0] {
      AtMostIsTransitive(a[1..], b[1..], c[1..]);
    }
  }

  /** The number whose text comes first. */
  predicate ComesFirst(s: set<nat>, m: nat) {
    m in s && forall x :: x in s ==> AtMost(Decimal(m), Decimal(x))
  }

  lemma {:induction false} OneComesFirst(s: set<nat>)
    requires s != {}
    ensures exists m :: ComesFirst(s, m)
    decreases |s|
  {
    var y :| y in s;
    var rest := s - {y};
    AtMostIsTotal(Decimal(y), Decimal(y));
    if rest == {} {
      assert s == {y};
      assert ComesFirst(s, y);
    } else {
      OneComesFirst(rest);
      var m :| ComesFirst(rest, m);
      AtMostIsTotal(Decimal(y), Decimal(m));
      if AtMost(Decimal(m), Decimal(y)) {
        assert ComesFirst(s, m);
      } else {
        forall x | x in rest ensures AtMost(Decimal(y), Decimal(x)) {
          AtMostIsTransitive(Decimal(y), Decimal(m), Decimal(x));
        }
        assert ComesFirst(s, y);
      }
    }
  }

  lemma OnlyOneComesFirst(s: set<nat>, m: nat, n: nat)
    requires ComesFirst(s, m) && ComesFirst(s, n)
    ensures m == n
  {
    AtMostIsTotal(Decimal(m), Decimal(n));
    DecimalIsInjective(m, n);
  }

  function FirstByText(s: set<nat>): (m: nat)
    requires s != {}
    ensures ComesFirst(s, m)
  {
    OneComesFirst(s);
    assert forall m, n | ComesFirst(s, m) && ComesFirst(s, n) :: m == n by {
      forall m, n | ComesFirst(s, m) && ComesFirst(s, n) ensures m == n { OnlyOneComesFirst(s, m, n); }
    }
    var m :| ComesFirst(s, m);
    m
  }
}
