/** Which elements of a sequence come back, said by their positions. */
module Subsequences {
  /** `picks` are the positions of the elements to keep, in order. */
  ghost predicate Selects<T>(xs: seq<T>, keep: T -> bool, picks: seq<nat>) {
    && (forall i, j :: 0 <= i < j < |picks| ==> picks[i] < picks[j])
    && (forall n: nat :: n in picks <==> n < |xs| && keep(xs[n]))
  }

  predicate Inside(picks: seq<nat>, size: nat) {
    forall i :: 0 <= i < |picks| ==> picks[i] < size
  }

  function Pick<T>(xs: seq<T>, picks: seq<nat>): (r: seq<T>)
    requires Inside(picks, |xs|)
    ensures |r| == |picks|
  {
    seq(|picks|, i requires 0 <= i < |picks| => xs[picks[i]])
  }

  lemma PickPush<T>(xs: seq<T>, x: T, picks: seq<nat>)
    requires Inside(picks, |xs|)
    ensures Inside(picks + [|xs|], |xs + [x]|)
    ensures Pick(xs + [x], picks) == Pick(xs, picks) && Pick(xs + [x], picks + [|xs|]) == Pick(xs, picks) + [x]
  {
  }

  lemma MorePicks(picks: seq<nat>, n: nat)
    ensures forall m: nat :: m in picks + [n] <==> m in picks || m == n
  {
    var more := picks + [n];
    assert more[|picks|] == n;
    forall m: nat | m in picks
      ensures m in more
    {
      var i :| 0 <= i < |picks| && picks[i] == m;
      assert more[i] == m;
    }
  }

  lemma SelectsInside<T>(xs: seq<T>, keep: T -> bool, picks: seq<nat>)
    requires Selects(xs, keep, picks)
    ensures Inside(picks, |xs|) && forall i :: 0 <= i < |picks| ==> keep(Pick(xs, picks)[i])
  {
    assert forall i :: 0 <= i < |picks| ==> picks[i] in picks;
  }

  lemma SelectsPush<T>(xs: seq<T>, x: T, keep: T -> bool, picks: seq<nat>)
    requires Selects(xs, keep, picks)
    ensures Selects(xs + [x], keep, if keep(x) then picks + [|xs|] else picks)
  {
    SelectsInside(xs, keep, picks);
    MorePicks(picks, |xs|);
    var more := xs + [x];
    assert more[|xs|] == x && forall n :: 0 <= n < |xs| ==> more[n] == xs[n];
  }

  lemma SelectsSize<T>(xs: seq<T>, keep: T -> bool, picks: seq<nat>)
    requires Selects(xs, keep, picks)
    ensures |picks| <= |xs|
  {
    if |picks| > 0 {
      SelectsInside(xs, keep, picks);
      IncreasingAtLeast(picks, |picks| - 1);
    }
  }

  lemma {:induction false} IncreasingAtLeast(picks: seq<nat>, i: nat)
    requires i < |picks| && forall j, k :: 0 <= j < k < |picks| ==> picks[j] < picks[k]
    ensures i <= picks[i]
  {
    if i > 0 {
      IncreasingAtLeast(picks, i - 1);
    }
  }
}
