/**
 * `random.shuffle` as the programs use it: the outcome is not modelled,
 * it is passed in as a permutation of positions.
 */
module Shuffling {
  /** `order` lists each position below `n` exactly once. */
  predicate IsPermutation(order: seq<nat>, n: nat) {
    && |order| == n
    && (forall i :: 0 <= i < n ==> order[i] < n)
    && (forall i, j :: 0 <= i < j < n ==> order[i] != order[j])
  }

  /** `xs` after a shuffle that moved position `order[i]` to position `i`. */
  function Permute<T>(xs: seq<T>, order: seq<nat>): (r: seq<T>)
    requires IsPermutation(order, |xs|)
    ensures |r| == |xs|
    ensures forall i :: 0 <= i < |r| ==> r[i] == xs[order[i]]
  {
    seq(|xs|, i requires 0 <= i < |xs| => xs[order[i]])
  }

  /** The identity shuffle: nothing moves. */
  lemma PermuteIdentity<T>(xs: seq<T>)
    ensures IsPermutation(Identity(|xs|), |xs|)
    ensures Permute(xs, Identity(|xs|)) == xs
  {
  }

  /** A shuffle loses no element and invents none. */
  lemma PermuteKeepsElements<T>(xs: seq<T>, order: seq<nat>)
    requires IsPermutation(order, |xs|)
    ensures forall x :: x in Permute(xs, order) <==> x in xs
  {
    var r := Permute(xs, order);
    forall x | x in xs
      ensures x in r
    {
      var k :| 0 <= k < |xs| && xs[k] == x;
      PermutationCovers(order, |xs|, k);
      var i :| 0 <= i < |xs| && order[i] == k;
      assert r[i] == x;
    }
  }

  /** Every position below `n` is the source of some position of the shuffle. */
  lemma PermutationCovers(order: seq<nat>, n: nat, k: nat)
    requires IsPermutation(order, n) && k < n
    ensures exists i :: 0 <= i < n && order[i] == k
  {
    ImageSize(order);
    BelowSize(n);
    var image := Image(order);
    var below := Below(n);
    var id := Identity(n);
    forall m | m in image
      ensures m in below
    {
      var i :| 0 <= i < n && order[i] == m;
      assert id[m] == m;
    }
    assert image * below == image;
    assert |below - image| == 0;
    assert id[k] == k && k in below;
    assert k in image;
  }

  /** The positions `order` lists. */
  function Image(order: seq<nat>): set<nat> {
    set i | 0 <= i < |order| :: order[i]
  }

  /** The positions below `n`. */
  function Below(n: nat): set<nat> {
    Image(Identity(n))
  }

  /** A list without repeats lists as many positions as it has entries. */
  lemma {:induction false} ImageSize(order: seq<nat>)
    requires forall i, j :: 0 <= i < j < |order| ==> order[i] != order[j]
    ensures |Image(order)| == |order|
  {
    if order != [] {
      var front := order[..|order| - 1];
      ImageSize(front);
      assert Image(order) == Image(front) + {order[|order| - 1]};
    }
  }

  /** There are `n` positions below `n`. */
  lemma BelowSize(n: nat)
    ensures |Below(n)| == n
  {
    ImageSize(Identity(n));
  }

  /** `list(range(n))` */
  function Identity(n: nat): (r: seq<nat>)
    ensures |r| == n
    ensures forall i :: 0 <= i < n ==> r[i] == i
  {
    seq(n, i requires 0 <= i < n => i)
  }
}
