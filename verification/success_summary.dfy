/** `TrainerSuccessSummary`: the positions of a trainer result whose samples
    were recorded as successes, checked to agree between the first-wins and
    best-wins columns, and the dataset indices and sequence lengths selected
    by those positions. */
module SuccessSummaries {
  import opened Wrappers
  import opened Losses
  import opened Seqs
  import opened Ledgers
  import BatchResults
  import LedgerRuns
  import opened TrainerResults

  /** Position `p` of an epoch column holds a recorded success. */
  predicate Succeeded(epochs: seq<int>, p: int) {
    0 <= p < |epochs| && epochs[p] != -1
  }

  /** `np.where(epochs != -1)[0]`: the ascending positions whose epoch is not
      the sentinel, each exactly once. */
  function SuccessPositions(epochs: seq<int>): (ps: seq<nat>)
    ensures Ascending(ps)
    ensures forall k :: 0 <= k < |ps| ==> Succeeded(epochs, ps[k])
    ensures forall p :: Succeeded(epochs, p) ==> p in ps
    decreases |epochs|
  {
    if |epochs| == 0 then []
    else
      var pre := SuccessPositions(epochs[..|epochs| - 1]);
      assert forall k :: 0 <= k < |pre| ==> Succeeded(epochs, pre[k]);
      if epochs[|epochs| - 1] != -1 then pre + [|epochs| - 1] else pre
  }

  /** The success positions are the only ascending list of exactly the
      successful positions. */
  lemma SuccessPositionsUnique(epochs: seq<int>, xs: seq<nat>)
    requires Ascending(xs)
    requires forall x :: x in xs <==> Succeeded(epochs, x)
    ensures xs == SuccessPositions(epochs)
  {
    var ps := SuccessPositions(epochs);
    forall x
      ensures x in xs <==> x in ps
    {
      if x in ps {
        var k :| 0 <= k < |ps| && ps[k] == x;
      }
    }
    AscendingUnique(xs, ps);
  }

  /** Two epoch columns have the same success positions iff they mark the
      same positions as recorded. */
  lemma SamePositionsIffSameSuccesses(a: seq<int>, b: seq<int>)
    ensures SuccessPositions(a) == SuccessPositions(b) <==> forall p :: Succeeded(a, p) <==> Succeeded(b, p)
  {
    var pa := SuccessPositions(a);
    var pb := SuccessPositions(b);
    if forall p :: Succeeded(a, p) <==> Succeeded(b, p) {
      forall x
        ensures x in pa <==> Succeeded(b, x)
      {
        if x in pa {
          var k :| 0 <= k < |pa| && pa[k] == x;
        }
      }
      SuccessPositionsUnique(b, pa);
    } else {
      var p :| !(Succeeded(a, p) <==> Succeeded(b, p));
      if Succeeded(a, p) {
        assert p in pa;
        assert forall k :: 0 <= k < |pb| ==> pb[k] != p;
      } else {
        assert p in pb;
        assert forall k :: 0 <= k < |pa| ==> pa[k] != p;
      }
    }
  }

  datatype SummaryError =
    | FirstBestDisagree  // the assertion that first and best agree fails
    | IndexOutOfRange    // a success position is past the end of the selected column

  /** `indices_trainer_success`, with the agreement check comparing the two
      position lists as wholes: it succeeds iff the first-wins and best-wins
      columns record the same positions, and then yields those positions. */
  function IndicesTrainerSuccess(tr: TrainerResult): (r: Result<seq<nat>, SummaryError>)
    ensures r.Success? <==> forall p :: Succeeded(tr.first.epochs, p) <==> Succeeded(tr.best.epochs, p)
    ensures r.Success? ==> Ascending(r.value)
    ensures r.Success? ==> forall p :: p in r.value <==> Succeeded(tr.best.epochs, p)
    ensures r.Failure? ==> r.error == FirstBestDisagree
  {
    SamePositionsIffSameSuccesses(tr.first.epochs, tr.best.epochs);
    var f := SuccessPositions(tr.first.epochs);
    var b := SuccessPositions(tr.best.epochs);
    if f == b then Success(b) else Failure(FirstBestDisagree)
  }

  /** Fancy indexing `xs[idx]`: the entries at the given positions, or an
      index error when one of them is past the end. */
  function SelectChecked<T>(xs: seq<T>, idx: seq<nat>): (r: Result<seq<T>, SummaryError>)
    ensures r.Success? <==> forall k :: 0 <= k < |idx| ==> idx[k] < |xs|
    ensures r.Success? ==> |r.value| == |idx| && forall k :: 0 <= k < |idx| ==> r.value[k] == xs[idx[k]]
    ensures r.Failure? ==> r.error == IndexOutOfRange
  {
    if forall k :: 0 <= k < |idx| ==> idx[k] < |xs| then Success(Select(xs, idx)) else Failure(IndexOutOfRange)
  }

  /** `indices_dataset_success`: the dataset index of every successful
      position, in position order. */
  function IndicesDatasetSuccess(tr: TrainerResult): (r: Result<seq<int>, SummaryError>)
    ensures r.Success? ==> IndicesTrainerSuccess(tr).Success?
    ensures r.Success? ==> var ps := IndicesTrainerSuccess(tr).value;
              |r.value| == |ps| && forall k :: 0 <= k < |ps| ==> ps[k] < |tr.datasetIndices| && r.value[k] == tr.datasetIndices[ps[k]]
    ensures Aligned(tr) ==> (r.Success? <==> IndicesTrainerSuccess(tr).Success?)
  {
    var ps :- IndicesTrainerSuccess(tr);
    SelectChecked(tr.datasetIndices, ps)
  }

  /** `inputs_seq_lengths_success`: the sequence length of every successful
      position, selected by the same positions. */
  function InputsSeqLengthsSuccess(tr: TrainerResult): (r: Result<seq<int>, SummaryError>)
    ensures r.Success? ==> IndicesTrainerSuccess(tr).Success?
    ensures r.Success? ==> var ps := IndicesTrainerSuccess(tr).value;
              |r.value| == |ps| && forall k :: 0 <= k < |ps| ==> ps[k] < |tr.inputSeqLengths| && r.value[k] == tr.inputSeqLengths[ps[k]]
    ensures Aligned(tr) ==> (r.Success? <==> IndicesTrainerSuccess(tr).Success?)
  {
    var ps :- IndicesTrainerSuccess(tr);
    SelectChecked(tr.inputSeqLengths, ps)
  }

  /** An aligned trainer result whose columns agree yields all three
      summaries, and the k-th successful dataset index and length belong to
      the same sample. */
  lemma AgreeingResultSummarizes(tr: TrainerResult)
    requires Aligned(tr) && FirstBestAgree(tr)
    ensures IndicesTrainerSuccess(tr).Success?
    ensures IndicesDatasetSuccess(tr).Success? && InputsSeqLengthsSuccess(tr).Success?
    ensures var ps := IndicesTrainerSuccess(tr).value;
            forall k :: 0 <= k < |ps| ==>
              && IndicesDatasetSuccess(tr).value[k] == tr.datasetIndices[ps[k]]
              && InputsSeqLengthsSuccess(tr).value[k] == tr.inputSeqLengths[ps[k]]
              && tr.first.epochs[ps[k]] != -1
  {
    forall p
      ensures Succeeded(tr.first.epochs, p) <==> Succeeded(tr.best.epochs, p)
    {
    }
  }

  /** Folding batches whose ledgers agree into a fresh trainer result always
      gives a summary. */
  lemma AccumulatedBatchesSummarize(bs: seq<BatchResults.BatchResult>)
    requires AllBatchAligned(bs)
    requires forall i :: 0 <= i < |bs| ==> BatchResults.LedgersAgree(bs[i])
    ensures IndicesTrainerSuccess(Accumulate(Empty(), bs)).Success?
    ensures IndicesDatasetSuccess(Accumulate(Empty(), bs)).Success?
    ensures InputsSeqLengthsSuccess(Accumulate(Empty(), bs)).Success?
  {
    AccumulateAligned(Empty(), bs);
    AccumulateKeepsAgreement(Empty(), bs);
    AgreeingResultSummarizes(Accumulate(Empty(), bs));
  }

  // The agreement check as written: `np.all(first == best)` on two
  // one-dimensional integer arrays.

  /** `np.all(a == b)` under numpy broadcasting: arrays of equal length are
      compared elementwise, an array of length one is compared against every
      entry of the other (so against nothing when the other is empty), and any
      other pair of lengths makes the comparison fail. */
  function AllEqualBroadcast(a: seq<nat>, b: seq<nat>): (r: bool)
    ensures |a| == |b| ==> (r <==> a == b)
    ensures |a| + |b| == 1 ==> r
    ensures |a| != |b| && |a| != 1 && |b| != 1 ==> !r
  {
    if |a| == |b| then a == b
    else if |a| == 1 then forall k :: 0 <= k < |b| ==> b[k] == a[0]
    else if |b| == 1 then forall k :: 0 <= k < |a| ==> a[k] == b[0]
    else false
  }

  /** `indices_trainer_success` exactly as written: the best-wins positions,
      guarded by the broadcasting comparison. It lets through everything the
      whole-list comparison lets through, with the same value. */
  function IndicesTrainerSuccessAsWritten(tr: TrainerResult): (r: Result<seq<nat>, SummaryError>)
    ensures IndicesTrainerSuccess(tr).Success? ==> r == IndicesTrainerSuccess(tr)
    ensures r.Success? ==> r.value == SuccessPositions(tr.best.epochs)
  {
    var f := SuccessPositions(tr.first.epochs);
    var b := SuccessPositions(tr.best.epochs);
    if AllEqualBroadcast(f, b) then Success(b) else Failure(FirstBestDisagree)
  }

  /** `indices_dataset_success` exactly as written: the dataset indices
      selected by the positions the broadcasting check lets through. Wherever
      the whole-list check succeeds it agrees with `IndicesDatasetSuccess`. */
  function IndicesDatasetSuccessAsWritten(tr: TrainerResult): (r: Result<seq<int>, SummaryError>)
    ensures IndicesTrainerSuccess(tr).Success? ==> r == IndicesDatasetSuccess(tr)
    ensures r.Success? ==> var ps := SuccessPositions(tr.best.epochs);
              |r.value| == |ps| && forall k :: 0 <= k < |ps| ==> ps[k] < |tr.datasetIndices| && r.value[k] == tr.datasetIndices[ps[k]]
  {
    var ps :- IndicesTrainerSuccessAsWritten(tr);
    SelectChecked(tr.datasetIndices, ps)
  }

  /** `inputs_seq_lengths_success` exactly as written: the sequence lengths
      selected by the positions the broadcasting check lets through. Wherever
      the whole-list check succeeds it agrees with `InputsSeqLengthsSuccess`. */
  function InputsSeqLengthsSuccessAsWritten(tr: TrainerResult): (r: Result<seq<int>, SummaryError>)
    ensures IndicesTrainerSuccess(tr).Success? ==> r == InputsSeqLengthsSuccess(tr)
    ensures r.Success? ==> var ps := SuccessPositions(tr.best.epochs);
              |r.value| == |ps| && forall k :: 0 <= k < |ps| ==> ps[k] < |tr.inputSeqLengths| && r.value[k] == tr.inputSeqLengths[ps[k]]
  {
    var ps :- IndicesTrainerSuccessAsWritten(tr);
    SelectChecked(tr.inputSeqLengths, ps)
  }

  /** One update of a fresh one-sample batch with a `+inf` loss: first-wins
      records epoch 0, best-wins keeps the sentinel. */
  lemma InfiniteLossSplitsLedgers(b: BatchResults.BatchResult, es: EpochSuccesses)
    requires b == BatchResults.New([7], [3], 1, 1)
    requires es == EpochSuccesses(0, [0], [PosInf], [Zeros(1, 1)])
    ensures Fits(b.first, es)
    ensures var u := BatchResults.Update(b, es);
            BatchResults.WellFormed(u) && u.first.epochs == [0] && u.best.epochs == [-1]
  {
    assert Fits(b.first, es);
    assert IndexOf([0], 0) == 0;
    LedgerRuns.UpdateSlot(b.first, es, 0);
    LedgerRuns.UpdateSlot(b.best, es, 0);
  }

  /** Columns `[0]` and `[-1]`: the check as written passes with no
      successes, so the dataset indices and lengths as written are empty,
      while the whole-list comparison rejects the columns and the corrected
      selections fail with it. */
  lemma DisagreementSlipsThrough(tr: TrainerResult)
    requires tr.first.epochs == [0] && tr.best.epochs == [-1]
    ensures IndicesTrainerSuccessAsWritten(tr) == Success([])
    ensures IndicesTrainerSuccess(tr) == Failure(FirstBestDisagree)
    ensures IndicesDatasetSuccessAsWritten(tr) == Success([])
    ensures InputsSeqLengthsSuccessAsWritten(tr) == Success([])
    ensures IndicesDatasetSuccess(tr) == Failure(FirstBestDisagree)
    ensures InputsSeqLengthsSuccess(tr) == Failure(FirstBestDisagree)
  {
    assert Succeeded(tr.first.epochs, 0) && !Succeeded(tr.best.epochs, 0);
    SuccessPositionsUnique(tr.best.epochs, []);
    SuccessPositionsUnique(tr.first.epochs, [0]);
  }

  /** The finding: a batch of one sample whose only epoch submits a `+inf`
      loss. First-wins records it (its stored loss is `+inf`, so the slot
      counts as empty), best-wins does not (`+inf > +inf` is false). The
      success lists are `[0]` and `[]`; broadcasting compares nothing, so the
      check as written passes and reports no successes, while the columns
      disagree and the whole-list comparison rejects them. */
  lemma AsWrittenMissesDisagreement(b: BatchResults.BatchResult, es: EpochSuccesses)
    requires b == BatchResults.New([7], [3], 1, 1)
    requires es == EpochSuccesses(0, [0], [PosInf], [Zeros(1, 1)])
    ensures Fits(b.first, es)
    ensures var tr := TrainerResults.Update(Empty(), BatchResults.Update(b, es));
            && tr.first.epochs == [0] && tr.best.epochs == [-1]
            && IndicesTrainerSuccessAsWritten(tr) == Success([])
            && IndicesTrainerSuccess(tr) == Failure(FirstBestDisagree)
  {
    InfiniteLossSplitsLedgers(b, es);
    var u := BatchResults.Update(b, es);
    var tr := TrainerResults.Update(Empty(), u);
    assert tr.first.epochs == [] + u.first.epochs;
    assert tr.best.epochs == [] + u.best.epochs;
    DisagreementSlipsThrough(tr);
  }
}
