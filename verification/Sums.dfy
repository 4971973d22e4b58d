/** Weighted sums over the processes of a system: who holds what, added up. */
module Sums {

  function Sum<T>(s: seq<T>, w: T -> int): int
  {
    if s == [] then 0 else w(s[0]) + Sum(s[1..], w)
  }

  lemma {:induction false} SumUpdate<T>(s: seq<T>, i: nat, x: T, w: T -> int)
    requires i < |s|
    ensures Sum(s[i := x], w) == Sum(s, w) - w(s[i]) + w(x)
  {
    if i == 0 {
      assert s[0 := x][1..] == s[1..];
    } else {
      assert s[i := x][1..] == s[1..][i - 1 := x];
      SumUpdate(s[1..], i - 1, x, w);
    }
  }

  /** Weights below other weights stay below when one member is left out of both sums. */
  lemma {:induction false} SumOthers<T>(s: seq<T>, i: nat, v: T -> int, w: T -> int)
    requires i < |s|
    requires forall k :: 0 <= k < |s| ==> 0 <= v(s[k]) <= w(s[k])
    ensures 0 <= Sum(s, v) - v(s[i]) <= Sum(s, w) - w(s[i])
  {
    if i == 0 {
      SumBelow(s[1..], v, w);
    } else {
      SumOthers(s[1..], i - 1, v, w);
    }
  }

  lemma {:induction false} SumBelow<T>(s: seq<T>, v: T -> int, w: T -> int)
    requires forall k :: 0 <= k < |s| ==> 0 <= v(s[k]) <= w(s[k])
    ensures 0 <= Sum(s, v) <= Sum(s, w)
  {
    if s != [] {
      SumBelow(s[1..], v, w);
    }
  }

  /** A positive sum has a positive member. */
  lemma {:induction false} SumWitness<T>(s: seq<T>, w: T -> int) returns (i: nat)
    requires Sum(s, w) > 0
    ensures i < |s| && w(s[i]) > 0
  {
    if w(s[0]) > 0 {
      i := 0;
    } else {
      i := SumWitness(s[1..], w);
      i := i + 1;
    }
  }

  /** Equal weights everywhere give a product. */
  lemma {:induction false} SumConstant<T>(s: seq<T>, w: T -> int, x: int)
    requires forall k :: 0 <= k < |s| ==> w(s[k]) == x
    ensures Sum(s, w) == |s| * x
  {
    if s != [] {
      SumConstant(s[1..], w, x);
    }
  }
}
