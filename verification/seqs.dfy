/** Small sequence helpers used by the tensor-indexing parts of the model. */
module Seqs {

  /** The position of the first occurrence of `x` in `xs`, or `|xs|` when `x`
      does not occur. */
  function IndexOf(xs: seq<int>, x: int): (k: nat)
    ensures k <= |xs|
    ensures k < |xs| ==> xs[k] == x
    ensures forall j :: 0 <= j < k ==> xs[j] != x
  {
    if |xs| == 0 then 0
    else if xs[0] == x then 0
    else 1 + IndexOf(xs[1..], x)
  }

  /** No value occurs twice. */
  predicate Distinct(xs: seq<int>) {
    forall i, j :: 0 <= i < j < |xs| ==> xs[i] != xs[j]
  }

  /** Every element lies in `[0, n)`. */
  predicate InRange(xs: seq<int>, n: int) {
    forall k :: 0 <= k < |xs| ==> 0 <= xs[k] < n
  }

  /** Strictly ascending. */
  predicate Ascending(xs: seq<nat>) {
    forall i, j :: 0 <= i < j < |xs| ==> xs[i] < xs[j]
  }

  /** Fancy indexing `xs[idx]`: the elements at the given positions, in the
      order the positions are listed. */
  function Select<T>(xs: seq<T>, idx: seq<nat>): (r: seq<T>)
    requires forall k :: 0 <= k < |idx| ==> idx[k] < |xs|
  {
    seq(|idx|, k requires 0 <= k < |idx| => xs[idx[k]])
  }

  /** Two ascending sequences with the same elements are equal. */
  lemma {:induction false} AscendingUnique(a: seq<nat>, b: seq<nat>)
    requires Ascending(a) && Ascending(b)
    requires forall x :: x in a <==> x in b
    ensures a == b
    decreases |a| + |b|
  {
    if |a| > 0 {
      assert a[0] in a;
    }
    if |b| > 0 {
      assert b[0] in b;
    }
    if |a| == 0 && |b| == 0 {
    } else {
      assert |a| > 0 && |b| > 0;
      // The heads are the minima of the same set.
      assert a[0] in b;
      assert b[0] in a;
      var i :| 0 <= i < |b| && b[i] == a[0];
      var j :| 0 <= j < |a| && a[j] == b[0];
      assert a[0] <= a[j];
      assert b[0] <= b[i];
      forall x
        ensures x in a[1..] <==> x in b[1..]
      {
        if x in a[1..] {
          var p :| 1 <= p < |a| && a[p] == x;
          assert a[0] < x;
          assert x in b;
          var q :| 0 <= q < |b| && b[q] == x;
          assert q != 0;
          assert b[1..][q - 1] == x;
        }
        if x in b[1..] {
          var p :| 1 <= p < |b| && b[p] == x;
          assert b[0] < x;
          assert x in a;
          var q :| 0 <= q < |a| && a[q] == x;
          assert q != 0;
          assert a[1..][q - 1] == x;
        }
      }
      AscendingUnique(a[1..], b[1..]);
      assert a == [a[0]] + a[1..];
      assert b == [b[0]] + b[1..];
    }
  }
}
