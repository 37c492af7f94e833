/** Length-aware views of padded perturbations (`PerturbationSummaryOld`
    and `ExamplesSummary`): each example is a `maxSeqLength × features`
    perturbation of which only the first `length` time steps are real. The
    sliced view keeps those rows, the mask view hides the others, and the
    nonzero counts agree between the two. */
module PerturbationSummaries {
  import opened Ledgers

  /** Every example has shape `maxLen × features`. */
  predicate Padded(data: seq<Pert>, maxLen: nat, features: nat) {
    forall i :: 0 <= i < |data| ==> Shaped(data[i], maxLen, features)
  }

  /** Where the slice `[:stop]` ends on an axis of length `n`: a stop past the
      end is clamped, a negative stop counts back from the end (and clamps at
      the start). */
  function SliceEnd(n: nat, stop: int): (e: nat)
    ensures e <= n
    ensures 0 <= stop <= n ==> e == stop
    ensures stop > n ==> e == n
    ensures stop < 0 && -stop <= n ==> e - stop == n
    ensures stop + n < 0 ==> e == 0
  {
    if stop >= 0 then (if stop <= n then stop else n)
    else if n + stop >= 0 then n + stop else 0
  }

  /** `actual_perts` / `perts_actual`: for every example named by the lengths
      tensor, its first `length` time steps (Python slice semantics), all
      features. */
  function ActualPerts(data: seq<Pert>, lengths: seq<int>): (r: seq<Pert>)
    requires |lengths| <= |data|
    ensures |r| == |lengths|
    ensures forall i :: 0 <= i < |r| ==> |r[i]| == SliceEnd(|data[i]|, lengths[i])
    ensures forall i, t :: 0 <= i < |r| && 0 <= t < SliceEnd(|data[i]|, lengths[i]) ==> r[i][t] == data[i][t]
  {
    seq(|lengths|, i requires 0 <= i < |lengths| => data[i][..SliceEnd(|data[i]|, lengths[i])])
  }

  /** One example's mask: cell `(t, f)` is hidden iff `t >= length`. */
  function MaskRows(length: int, maxLen: nat, features: nat): (m: seq<seq<bool>>)
    ensures |m| == maxLen
    ensures forall t :: 0 <= t < maxLen ==> |m[t]| == features
  {
    seq(maxLen, t => seq(features, f => t >= length))
  }

  /** `ExamplesSummary.mask`: shape `examples × maxLen × features`, hiding
      every cell at or after its example's length. */
  function Mask(lengths: seq<int>, maxLen: nat, features: nat): (m: seq<seq<seq<bool>>>)
    ensures |m| == |lengths|
    ensures forall i :: 0 <= i < |m| ==> m[i] == MaskRows(lengths[i], maxLen, features)
  {
    seq(|lengths|, i requires 0 <= i < |lengths| => MaskRows(lengths[i], maxLen, features))
  }

  /** The mask hides cell `(i, t, f)` iff time step `t` is at or after example
      `i`'s length, independently of the feature. */
  lemma MaskHidesPadding(lengths: seq<int>, maxLen: nat, features: nat, i: int, t: int, f: int)
    requires 0 <= i < |lengths| && 0 <= t < maxLen && 0 <= f < features
    ensures Mask(lengths, maxLen, features)[i][t][f] <==> t >= lengths[i]
  {
  }

  /** For a length within `[0, maxLen]`, a cell is visible in the mask iff it
      is a cell of the sliced perturbation. */
  lemma MaskMatchesSlice(data: seq<Pert>, lengths: seq<int>, maxLen: nat, features: nat, i: int)
    requires Padded(data, maxLen, features) && |lengths| <= |data|
    requires 0 <= i < |lengths| && 0 <= lengths[i] <= maxLen
    ensures var a := ActualPerts(data, lengths)[i];
            var m := Mask(lengths, maxLen, features)[i];
            forall t, f :: 0 <= t < maxLen && 0 <= f < features ==>
              (!m[t][f] <==> (t < |a| && f < |a[t]|))
  {
    var a := ActualPerts(data, lengths)[i];
    assert |a| == lengths[i];
    forall t | 0 <= t < |a|
      ensures |a[t]| == features
    {
      assert a[t] == data[i][t];
    }
  }

  /** The number of nonzero cells of one row. */
  function RowNonzero(row: seq<real>): (c: nat)
    ensures c <= |row|
    ensures c == 0 <==> forall f :: 0 <= f < |row| ==> row[f] == 0.0
  {
    if |row| == 0 then 0
    else (if row[0] != 0.0 then 1 else 0) + RowNonzero(row[1..])
  }

  /** The number of cells of a perturbation. */
  function CellCount(rows: seq<seq<real>>): nat {
    if |rows| == 0 then 0 else |rows[0]| + CellCount(rows[1..])
  }

  /** `torch.count_nonzero` on one perturbation. */
  function CountNonzero(rows: seq<seq<real>>): (c: nat)
    ensures c <= CellCount(rows)
    ensures c == 0 <==> forall t, f :: 0 <= t < |rows| && 0 <= f < |rows[t]| ==> rows[t][f] == 0.0
  {
    if |rows| == 0 then 0
    else
      assert forall t :: 1 <= t < |rows| ==> rows[t] == rows[1..][t - 1];
      RowNonzero(rows[0]) + CountNonzero(rows[1..])
  }

  /** The number of nonzero cells of a row that its mask row leaves visible. */
  function RowMaskedNonzero(row: seq<real>, m: seq<bool>): nat
    requires |m| == |row|
  {
    if |row| == 0 then 0
    else (if !m[0] && row[0] != 0.0 then 1 else 0) + RowMaskedNonzero(row[1..], m[1..])
  }

  /** The nonzero count of a masked array: nonzero cells the mask leaves
      visible. */
  function MaskedNonzero(rows: seq<seq<real>>, m: seq<seq<bool>>): nat
    requires |m| == |rows| && forall t :: 0 <= t < |rows| ==> |m[t]| == |rows[t]|
  {
    if |rows| == 0 then 0
    else RowMaskedNonzero(rows[0], m[0]) + MaskedNonzero(rows[1..], m[1..])
  }

  lemma {:induction false} RowAllVisible(row: seq<real>, m: seq<bool>)
    requires |m| == |row| && forall f :: 0 <= f < |m| ==> !m[f]
    ensures RowMaskedNonzero(row, m) == RowNonzero(row)
    decreases |row|
  {
    if |row| > 0 {
      RowAllVisible(row[1..], m[1..]);
    }
  }

  lemma {:induction false} RowAllHidden(row: seq<real>, m: seq<bool>)
    requires |m| == |row| && forall f :: 0 <= f < |m| ==> m[f]
    ensures RowMaskedNonzero(row, m) == 0
    decreases |row|
  {
    if |row| > 0 {
      RowAllHidden(row[1..], m[1..]);
    }
  }

  /** Counting nonzero cells under a length mask equals counting them in the
      slice `[:length]`: padding cells never contribute. */
  lemma {:induction false} MaskedCountIsSlicedCount(rows: seq<seq<real>>, m: seq<seq<bool>>, length: int)
    requires |m| == |rows| && forall t :: 0 <= t < |rows| ==> |m[t]| == |rows[t]|
    requires forall t, f :: 0 <= t < |m| && 0 <= f < |m[t]| ==> (m[t][f] <==> t >= length)
    requires length >= 0
    ensures MaskedNonzero(rows, m) == CountNonzero(rows[..SliceEnd(|rows|, length)])
    decreases |rows|
  {
    if |rows| > 0 {
      var e := SliceEnd(|rows|, length);
      if length == 0 {
        RowAllHidden(rows[0], m[0]);
        MaskedCountIsSlicedCount(rows[1..], m[1..], 0);
        assert rows[1..][..0] == [];
      } else {
        RowAllVisible(rows[0], m[0]);
        MaskedCountIsSlicedCount(rows[1..], m[1..], length - 1);
        assert SliceEnd(|rows[1..]|, length - 1) == e - 1;
        assert rows[..e][1..] == rows[1..][..e - 1];
      }
    }
  }

  /** `num_nonzero`: the nonzero count of every example's sliced
      perturbation, never more than its number of cells. */
  function NumNonzero(data: seq<Pert>, lengths: seq<int>): (r: seq<nat>)
    requires |lengths| <= |data|
    ensures |r| == |lengths|
    ensures forall i :: 0 <= i < |r| ==> r[i] <= CellCount(ActualPerts(data, lengths)[i])
  {
    var a := ActualPerts(data, lengths);
    seq(|lengths|, i requires 0 <= i < |lengths| => CountNonzero(a[i]))
  }

  /** Statistics over the mask and over the slices agree: for a nonnegative
      length, masking example `i`'s padded perturbation and counting nonzero
      cells gives its `num_nonzero` entry. */
  lemma NumNonzeroIgnoresPadding(data: seq<Pert>, lengths: seq<int>, maxLen: nat, features: nat, i: int)
    requires Padded(data, maxLen, features) && |lengths| <= |data|
    requires 0 <= i < |lengths| && lengths[i] >= 0
    ensures var m := Mask(lengths, maxLen, features)[i];
            MaskedNonzero(data[i], m) == NumNonzero(data, lengths)[i]
  {
    var m := Mask(lengths, maxLen, features)[i];
    assert |data[i]| == maxLen;
    MaskedCountIsSlicedCount(data[i], m, lengths[i]);
    assert data[i][..SliceEnd(|data[i]|, lengths[i])] == ActualPerts(data, lengths)[i];
  }

  /** Two padded tensors that agree on every time step before each example's
      length have the same `num_nonzero`, whatever their padding holds. */
  lemma PaddingDoesNotCount(data: seq<Pert>, other: seq<Pert>, lengths: seq<int>)
    requires |lengths| <= |data| && |lengths| <= |other|
    requires forall i :: 0 <= i < |lengths| ==> |data[i]| == |other[i]|
    requires forall i, t :: 0 <= i < |lengths| && 0 <= t < SliceEnd(|data[i]|, lengths[i]) ==> data[i][t] == other[i][t]
    ensures NumNonzero(data, lengths) == NumNonzero(other, lengths)
  {
    var a := ActualPerts(data, lengths);
    var b := ActualPerts(other, lengths);
    forall i | 0 <= i < |lengths|
      ensures a[i] == b[i]
    {
    }
  }

  /** `num_actual_elements`: length times feature count for every example. */
  function NumActualElements(lengths: seq<int>, features: nat): (r: seq<int>)
    ensures |r| == |lengths|
    ensures forall i :: 0 <= i < |r| ==> (r[i] == 0 <==> lengths[i] == 0 || features == 0)
    ensures forall i :: 0 <= i < |r| ==> (lengths[i] >= 0 ==> r[i] >= 0)
  {
    seq(|lengths|, i requires 0 <= i < |lengths| => lengths[i] * features)
  }

  lemma {:induction false} CellCountOfShaped(rows: seq<seq<real>>, features: nat)
    requires forall t :: 0 <= t < |rows| ==> |rows[t]| == features
    ensures CellCount(rows) == |rows| * features
    decreases |rows|
  {
    if |rows| > 0 {
      CellCountOfShaped(rows[1..], features);
    }
  }

  /** For lengths within `[0, maxLen]`, `num_actual_elements` is exactly the
      number of cells of each sliced perturbation, so the nonzero count never
      exceeds it. */
  lemma ActualElementsCountCells(data: seq<Pert>, lengths: seq<int>, maxLen: nat, features: nat, i: int)
    requires Padded(data, maxLen, features) && |lengths| <= |data|
    requires 0 <= i < |lengths| && 0 <= lengths[i] <= maxLen
    ensures CellCount(ActualPerts(data, lengths)[i]) == NumActualElements(lengths, features)[i]
    ensures NumNonzero(data, lengths)[i] <= NumActualElements(lengths, features)[i]
  {
    var a := ActualPerts(data, lengths)[i];
    forall t | 0 <= t < |a|
      ensures |a[t]| == features
    {
      assert a[t] == data[i][t];
    }
    CellCountOfShaped(a, features);
  }

  /** The positions whose value is below the cutoff. */
  function Below(nn: seq<int>, cutoff: int): set<int> {
    set i | 0 <= i < |nn| && nn[i] < cutoff
  }

  /** `num_examples_with_num_nonzero_less_than`: how many examples have
      fewer than `cutoff` nonzero cells. */
  function NumExamplesWithNumNonzeroLessThan(nn: seq<int>, cutoff: int): (c: nat)
    ensures c == |Below(nn, cutoff)|
    ensures c <= |nn|
    ensures c == |nn| <==> forall i :: 0 <= i < |nn| ==> nn[i] < cutoff
    decreases |nn|
  {
    if |nn| == 0 then
      assert Below(nn, cutoff) == {};
      0
    else
      var n := |nn| - 1;
      var pre := nn[..n];
      var c := NumExamplesWithNumNonzeroLessThan(pre, cutoff);
      assert forall i :: 0 <= i < n ==> pre[i] == nn[i];
      if nn[n] < cutoff then
        assert Below(nn, cutoff) == Below(pre, cutoff) + {n};
        c + 1
      else
        assert Below(nn, cutoff) == Below(pre, cutoff);
        c
  }

  /** Raising the cutoff never lowers the count. */
  lemma {:induction false} CountMonotoneInCutoff(nn: seq<int>, lo: int, hi: int)
    requires lo <= hi
    ensures NumExamplesWithNumNonzeroLessThan(nn, lo) <= NumExamplesWithNumNonzeroLessThan(nn, hi)
    decreases |nn|
  {
    if |nn| > 0 {
      CountMonotoneInCutoff(nn[..|nn| - 1], lo, hi);
    }
  }

  /** One example of 5 time steps and 2 features with length 3 whose only
      nonzero cells sit at time steps 3 and 4: both the sliced count and the
      masked count are 0, so it counts among the examples with fewer than one
      nonzero cell. */
  lemma NonzeroOnlyInPadding(data: seq<Pert>, lengths: seq<int>)
    requires data == [[[0.0, 0.0], [0.0, 0.0], [0.0, 0.0], [1.0, -2.0], [0.5, 0.0]]]
    requires lengths == [3]
    ensures NumNonzero(data, lengths) == [0]
    ensures MaskedNonzero(data[0], Mask(lengths, 5, 2)[0]) == 0
    ensures NumExamplesWithNumNonzeroLessThan(NumNonzero(data, lengths), 1) == 1
  {
    var a := ActualPerts(data, lengths);
    assert a[0] == [[0.0, 0.0], [0.0, 0.0], [0.0, 0.0]];
    assert CountNonzero(a[0]) == 0;
    assert Padded(data, 5, 2);
    NumNonzeroIgnoresPadding(data, lengths, 5, 2, 0);
    assert NumNonzero(data, lengths) == [0];
    assert [0][..0] == [];
  }
}
