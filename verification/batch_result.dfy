/** `BatchResult`: the pair of ledgers of one batch, a first-wins one and a
    best-wins one, fed the same epoch successes, with a count of epochs run. */
module BatchResults {
  import opened Ledgers
  import opened LedgerRuns

  datatype BatchResult = BatchResult(
    epochsRun: nat,
    datasetIndices: seq<int>,
    inputSeqLengths: seq<int>,
    first: Ledger,
    best: Ledger)

  /** Both ledgers are valid, have one slot per dataset index and the same
      perturbation shape, and carry the policy their role demands. */
  predicate WellFormed(b: BatchResult) {
    && Valid(b.first) && Valid(b.best)
    && Size(b.first) == |b.datasetIndices|
    && SameShape(b.first, b.best)
    && b.first.policy == FirstWins
    && b.best.policy == BestWins
  }

  /** `BatchResult.__init__`: no epoch run yet, and two fresh ledgers sized
      to the batch, first-wins and best-wins. */
  function New(datasetIndices: seq<int>, inputSeqLengths: seq<int>, maxSeqLength: nat, inputSize: nat): (b: BatchResult)
    ensures WellFormed(b) && b.epochsRun == 0
    ensures b.datasetIndices == datasetIndices && b.inputSeqLengths == inputSeqLengths
    ensures b.first.maxSeqLength == maxSeqLength && b.first.inputSize == inputSize
    ensures forall s :: 0 <= s < |datasetIndices| ==> Unrecorded(b.first, s) && Unrecorded(b.best, s)
  {
    BatchResult(0, datasetIndices, inputSeqLengths,
                Fresh(|datasetIndices|, maxSeqLength, inputSize, FirstWins),
                Fresh(|datasetIndices|, maxSeqLength, inputSize, BestWins))
  }

  /** `BatchResult.update`: one more epoch run, and the same successes fed to
      both ledgers; the batch's indices and lengths are untouched. */
  function Update(b: BatchResult, es: EpochSuccesses): (r: BatchResult)
    requires WellFormed(b) && Fits(b.first, es)
    ensures WellFormed(r) && SameShape(r.first, b.first)
    ensures r.epochsRun == b.epochsRun + 1
    ensures r.datasetIndices == b.datasetIndices && r.inputSeqLengths == b.inputSeqLengths
    ensures r.first == Ledgers.Update(b.first, es) && r.best == Ledgers.Update(b.best, es)
  {
    BatchResult(b.epochsRun + 1, b.datasetIndices, b.inputSeqLengths,
                Ledgers.Update(b.first, es), Ledgers.Update(b.best, es))
  }

  /** The batch after the epochs of `ess`, in order. */
  function RunBatch(b: BatchResult, ess: seq<EpochSuccesses>): (r: BatchResult)
    requires WellFormed(b) && AllFit(b.first, ess)
    ensures WellFormed(r) && SameShape(r.first, b.first)
    decreases |ess|
  {
    if |ess| == 0 then b
    else Update(RunBatch(b, ess[..|ess| - 1]), ess[|ess| - 1])
  }

  /** Running a batch counts every epoch once and feeds both ledgers exactly
      the sequence of successes. */
  lemma {:induction false} RunBatchFeedsBothLedgers(b: BatchResult, ess: seq<EpochSuccesses>)
    requires WellFormed(b) && AllFit(b.first, ess)
    ensures AllFit(b.best, ess)
    ensures RunBatch(b, ess).epochsRun == b.epochsRun + |ess|
    ensures RunBatch(b, ess).datasetIndices == b.datasetIndices
    ensures RunBatch(b, ess).inputSeqLengths == b.inputSeqLengths
    ensures RunBatch(b, ess).first == Run(b.first, ess)
    ensures RunBatch(b, ess).best == Run(b.best, ess)
    decreases |ess|
  {
    if |ess| > 0 {
      RunBatchFeedsBothLedgers(b, ess[..|ess| - 1]);
    }
  }

  /** The success sets of the two ledgers of a batch coincide. */
  predicate LedgersAgree(b: BatchResult)
    requires WellFormed(b)
  {
    forall s :: 0 <= s < Size(b.first) ==> (b.first.epochs[s] != -1 <==> b.best.epochs[s] != -1)
  }

  /** After well-behaved epochs on a batch whose slots are all empty, a slot
      is recorded in either ledger iff some epoch named it. */
  lemma EmptyBatchRecords(b: BatchResult, ess: seq<EpochSuccesses>)
    requires WellFormed(b) && AllFit(b.first, ess) && AllWellBehaved(ess)
    requires forall s :: 0 <= s < Size(b.first) ==> Unrecorded(b.first, s) && Unrecorded(b.best, s)
    ensures var r := RunBatch(b, ess);
            forall s :: 0 <= s < Size(b.first) ==>
              (r.first.epochs[s] != -1 <==> Submitted(ess, s)) && (r.best.epochs[s] != -1 <==> Submitted(ess, s))
  {
    RunBatchFeedsBothLedgers(b, ess);
    EmptyLedgerRecords(b.first, ess);
    EmptyLedgerRecords(b.best, ess);
  }

  /** After any sequence of well-behaved epochs on a fresh batch, a slot is
      recorded in the first-wins ledger iff it is recorded in the best-wins
      ledger iff some epoch named it. */
  lemma SuccessSetsAgree(datasetIndices: seq<int>, inputSeqLengths: seq<int>, maxSeqLength: nat, inputSize: nat,
                         ess: seq<EpochSuccesses>)
    requires AllFit(New(datasetIndices, inputSeqLengths, maxSeqLength, inputSize).first, ess)
    requires AllWellBehaved(ess)
    ensures var r := RunBatch(New(datasetIndices, inputSeqLengths, maxSeqLength, inputSize), ess);
            && r.epochsRun == |ess|
            && LedgersAgree(r)
            && forall s :: 0 <= s < |datasetIndices| ==> (r.first.epochs[s] != -1 <==> Submitted(ess, s))
  {
    var b := New(datasetIndices, inputSeqLengths, maxSeqLength, inputSize);
    assert WellFormed(b) && Size(b.first) == |datasetIndices|;
    assert forall s :: 0 <= s < Size(b.first) ==> Unrecorded(b.first, s) && Unrecorded(b.best, s);
    RunBatchFeedsBothLedgers(b, ess);
    EmptyBatchRecords(b, ess);
    var r := RunBatch(b, ess);
    assert LedgersAgree(r);
  }
}
