/** Dataset-scale aggregation: `RecordedTrainerExamples` and `TrainerResult`
    append every batch's ledgers, dataset indices, sequence lengths and epoch
    counts, in batch-processing order. */
module TrainerResults {
  import opened Wrappers
  import opened Losses
  import opened Ledgers
  import opened BatchResults

  /** The concatenation of the ledgers of every batch seen so far. */
  datatype TrainerExamples = TrainerExamples(epochs: seq<int>, losses: seq<Loss>, perts: seq<Pert>)

  function OrEmpty<T>(o: Option<seq<T>>): seq<T> {
    match o
    case Some(xs) => xs
    case None => []
  }

  /** `RecordedTrainerExamples.__post_init__`: a field given as `None` becomes a
      fresh empty column; a field given explicitly is kept. */
  function ExamplesPostInit(epochs: Option<seq<int>>, losses: Option<seq<Loss>>, perts: Option<seq<Pert>>): (t: TrainerExamples)
    ensures epochs.None? ==> t.epochs == []
    ensures losses.None? ==> t.losses == []
    ensures perts.None? ==> t.perts == []
    ensures epochs.Some? ==> t.epochs == epochs.value
    ensures losses.Some? ==> t.losses == losses.value
    ensures perts.Some? ==> t.perts == perts.value
  {
    TrainerExamples(OrEmpty(epochs), OrEmpty(losses), OrEmpty(perts))
  }

  /** `RecordedTrainerExamples.update`: the batch ledger's three columns are
      appended after the existing ones, which are left unchanged. */
  function AppendLedger(t: TrainerExamples, l: Ledger): (r: TrainerExamples)
    ensures |r.epochs| == |t.epochs| + |l.epochs|
    ensures |r.losses| == |t.losses| + |l.losses|
    ensures |r.perts| == |t.perts| + |l.perts|
    ensures r.epochs[..|t.epochs|] == t.epochs && r.epochs[|t.epochs|..] == l.epochs
    ensures r.losses[..|t.losses|] == t.losses && r.losses[|t.losses|..] == l.losses
    ensures r.perts[..|t.perts|] == t.perts && r.perts[|t.perts|..] == l.perts
  {
    TrainerExamples(t.epochs + l.epochs, t.losses + l.losses, t.perts + l.perts)
  }

  datatype TrainerResult = TrainerResult(
    datasetIndices: seq<int>,
    epochsRun: seq<int>,
    inputSeqLengths: seq<int>,
    first: TrainerExamples,
    best: TrainerExamples)

  /** All parallel columns have the same length, one entry per attacked sample. */
  predicate Aligned(tr: TrainerResult) {
    var n := |tr.datasetIndices|;
    && |tr.epochsRun| == n && |tr.inputSeqLengths| == n
    && |tr.first.epochs| == n && |tr.first.losses| == n && |tr.first.perts| == n
    && |tr.best.epochs| == n && |tr.best.losses| == n && |tr.best.perts| == n
  }

  /** A batch whose lengths tensor has one entry per dataset index. */
  predicate BatchAligned(b: BatchResult) {
    WellFormed(b) && |b.inputSeqLengths| == |b.datasetIndices|
  }

  /** `TrainerResult.__post_init__`: every column given as `None` becomes a
      fresh empty one; a column given explicitly is kept. */
  function PostInit(datasetIndices: Option<seq<int>>, epochsRun: Option<seq<int>>, inputSeqLengths: Option<seq<int>>,
                    first: Option<TrainerExamples>, best: Option<TrainerExamples>): (tr: TrainerResult)
    ensures datasetIndices.None? ==> tr.datasetIndices == []
    ensures epochsRun.None? ==> tr.epochsRun == []
    ensures inputSeqLengths.None? ==> tr.inputSeqLengths == []
    ensures first.None? ==> tr.first == TrainerExamples([], [], [])
    ensures best.None? ==> tr.best == TrainerExamples([], [], [])
    ensures datasetIndices.Some? ==> tr.datasetIndices == datasetIndices.value
    ensures epochsRun.Some? ==> tr.epochsRun == epochsRun.value
    ensures inputSeqLengths.Some? ==> tr.inputSeqLengths == inputSeqLengths.value
    ensures first.Some? ==> tr.first == first.value
    ensures best.Some? ==> tr.best == best.value
    ensures datasetIndices.None? && epochsRun.None? && inputSeqLengths.None? && first.None? && best.None? ==> Aligned(tr)
  {
    TrainerResult(
      OrEmpty(datasetIndices), OrEmpty(epochsRun), OrEmpty(inputSeqLengths),
      match first case Some(f) => f case None => ExamplesPostInit(None, None, None),
      match best case Some(b) => b case None => ExamplesPostInit(None, None, None))
  }

  /** A trainer result with nothing recorded yet. */
  function Empty(): TrainerResult {
    PostInit(None, None, None, None, None)
  }

  /** `TrainerResult.update`: appends the batch's ledgers, dataset indices and
      lengths, and one copy of the batch's epoch count per entry of its lengths
      tensor, leaving every existing prefix unchanged. An aligned result stays
      aligned after an aligned batch. */
  function Update(tr: TrainerResult, b: BatchResult): (r: TrainerResult)
    ensures r.first == AppendLedger(tr.first, b.first) && r.best == AppendLedger(tr.best, b.best)
    ensures |r.datasetIndices| == |tr.datasetIndices| + |b.datasetIndices|
    ensures r.datasetIndices[..|tr.datasetIndices|] == tr.datasetIndices
    ensures r.datasetIndices[|tr.datasetIndices|..] == b.datasetIndices
    ensures |r.inputSeqLengths| == |tr.inputSeqLengths| + |b.inputSeqLengths|
    ensures r.inputSeqLengths[..|tr.inputSeqLengths|] == tr.inputSeqLengths
    ensures r.inputSeqLengths[|tr.inputSeqLengths|..] == b.inputSeqLengths
    ensures |r.epochsRun| == |tr.epochsRun| + |b.inputSeqLengths|
    ensures r.epochsRun[..|tr.epochsRun|] == tr.epochsRun
    ensures forall p :: |tr.epochsRun| <= p < |r.epochsRun| ==> r.epochsRun[p] == b.epochsRun
    ensures Aligned(tr) && BatchAligned(b) ==> Aligned(r)
  {
    TrainerResult(
      tr.datasetIndices + b.datasetIndices,
      tr.epochsRun + seq(|b.inputSeqLengths|, _ => b.epochsRun),
      tr.inputSeqLengths + b.inputSeqLengths,
      AppendLedger(tr.first, b.first),
      AppendLedger(tr.best, b.best))
  }

  /** The trainer result after folding in the batches of `bs`, in order. */
  function Accumulate(tr: TrainerResult, bs: seq<BatchResult>): TrainerResult
    decreases |bs|
  {
    if |bs| == 0 then tr
    else Update(Accumulate(tr, bs[..|bs| - 1]), bs[|bs| - 1])
  }

  /** The number of samples in the batches of `bs`. */
  function TotalSize(bs: seq<BatchResult>): nat
    decreases |bs|
  {
    if |bs| == 0 then 0
    else TotalSize(bs[..|bs| - 1]) + |bs[|bs| - 1].datasetIndices|
  }

  predicate AllBatchAligned(bs: seq<BatchResult>) {
    forall i :: 0 <= i < |bs| ==> BatchAligned(bs[i])
  }

  /** Folding aligned batches into an aligned result keeps it aligned and grows
      it by exactly the batches' sizes. */
  lemma {:induction false} AccumulateAligned(tr: TrainerResult, bs: seq<BatchResult>)
    requires Aligned(tr) && AllBatchAligned(bs)
    ensures Aligned(Accumulate(tr, bs))
    ensures |Accumulate(tr, bs).datasetIndices| == |tr.datasetIndices| + TotalSize(bs)
    decreases |bs|
  {
    if |bs| > 0 {
      AccumulateAligned(tr, bs[..|bs| - 1]);
    }
  }

  /** The entry every column holds at position `p` equals the entry of local
      slot `j` of batch `b`. */
  predicate EntryFrom(r: TrainerResult, p: int, b: BatchResult, j: int) {
    && Aligned(r) && 0 <= p < |r.datasetIndices|
    && BatchAligned(b) && 0 <= j < |b.datasetIndices|
    && r.datasetIndices[p] == b.datasetIndices[j]
    && r.inputSeqLengths[p] == b.inputSeqLengths[j]
    && r.epochsRun[p] == b.epochsRun
    && r.first.epochs[p] == b.first.epochs[j] && r.first.losses[p] == b.first.losses[j] && r.first.perts[p] == b.first.perts[j]
    && r.best.epochs[p] == b.best.epochs[j] && r.best.losses[p] == b.best.losses[j] && r.best.perts[p] == b.best.perts[j]
  }

  /** An update keeps every entry already recorded at its position. */
  lemma UpdateKeepsEntry(r: TrainerResult, c: BatchResult, p: int, b: BatchResult, j: int)
    requires EntryFrom(r, p, b, j) && BatchAligned(c)
    ensures EntryFrom(Update(r, c), p, b, j)
  {
    var u := Update(r, c);
    var n := |r.datasetIndices|;
    assert u.datasetIndices[p] == u.datasetIndices[..n][p];
    assert u.inputSeqLengths[p] == u.inputSeqLengths[..n][p];
    assert u.epochsRun[p] == u.epochsRun[..n][p];
    assert u.first.epochs[p] == u.first.epochs[..n][p];
    assert u.first.losses[p] == u.first.losses[..n][p];
    assert u.first.perts[p] == u.first.perts[..n][p];
    assert u.best.epochs[p] == u.best.epochs[..n][p];
    assert u.best.losses[p] == u.best.losses[..n][p];
    assert u.best.perts[p] == u.best.perts[..n][p];
  }

  /** An update places slot `j` of the batch at position `n + j`, where `n` is
      the number of samples recorded before it. */
  lemma UpdateAppendsEntry(r: TrainerResult, b: BatchResult, j: int)
    requires Aligned(r) && BatchAligned(b) && 0 <= j < |b.datasetIndices|
    ensures EntryFrom(Update(r, b), |r.datasetIndices| + j, b, j)
  {
    var u := Update(r, b);
    var n := |r.datasetIndices|;
    assert u.datasetIndices[n + j] == u.datasetIndices[n..][j];
    assert u.inputSeqLengths[n + j] == u.inputSeqLengths[n..][j];
    assert u.first.epochs[n + j] == u.first.epochs[n..][j];
    assert u.first.losses[n + j] == u.first.losses[n..][j];
    assert u.first.perts[n + j] == u.first.perts[n..][j];
    assert u.best.epochs[n + j] == u.best.epochs[n..][j];
    assert u.best.losses[n + j] == u.best.losses[n..][j];
    assert u.best.perts[n + j] == u.best.perts[n..][j];
  }

  /** Index correspondence: after folding batches in order, position
      `start + TotalSize(bs[..i]) + j` of every column holds slot `j` of batch
      `i`, so a trainer-local index always maps back to the same sample's
      dataset index, length, epoch count and ledger entries. */
  lemma {:induction false} IndexCorrespondence(tr: TrainerResult, bs: seq<BatchResult>, i: nat, j: nat)
    requires Aligned(tr) && AllBatchAligned(bs)
    requires i < |bs| && j < |bs[i].datasetIndices|
    ensures EntryFrom(Accumulate(tr, bs), |tr.datasetIndices| + TotalSize(bs[..i]) + j, bs[i], j)
    decreases |bs|
  {
    var pre := bs[..|bs| - 1];
    AccumulateAligned(tr, pre);
    if i < |bs| - 1 {
      assert pre[..i] == bs[..i];
      IndexCorrespondence(tr, pre, i, j);
      UpdateKeepsEntry(Accumulate(tr, pre), bs[|bs| - 1], |tr.datasetIndices| + TotalSize(bs[..i]) + j, bs[i], j);
    } else {
      assert bs[..i] == pre;
      UpdateAppendsEntry(Accumulate(tr, pre), bs[i], j);
    }
  }

  /** The first-wins and best-wins columns mark the same positions as
      recorded. */
  predicate FirstBestAgree(tr: TrainerResult) {
    && |tr.first.epochs| == |tr.best.epochs|
    && forall p :: 0 <= p < |tr.first.epochs| ==> (tr.first.epochs[p] != -1 <==> tr.best.epochs[p] != -1)
  }

  /** Folding in batches whose ledgers agree on their success sets keeps the
      trainer-wide success sets equal. */
  lemma {:induction false} AccumulateKeepsAgreement(tr: TrainerResult, bs: seq<BatchResult>)
    requires Aligned(tr) && AllBatchAligned(bs) && FirstBestAgree(tr)
    requires forall i :: 0 <= i < |bs| ==> LedgersAgree(bs[i])
    ensures FirstBestAgree(Accumulate(tr, bs))
    decreases |bs|
  {
    if |bs| > 0 {
      var pre := bs[..|bs| - 1];
      var b := bs[|bs| - 1];
      AccumulateKeepsAgreement(tr, pre);
      AccumulateAligned(tr, pre);
      var rp := Accumulate(tr, pre);
      var r := Update(rp, b);
      var n := |rp.first.epochs|;
      forall p | 0 <= p < |r.first.epochs|
        ensures r.first.epochs[p] != -1 <==> r.best.epochs[p] != -1
      {
        if p < n {
          assert r.first.epochs[p] == r.first.epochs[..n][p];
          assert r.best.epochs[p] == r.best.epochs[..n][p];
        } else {
          assert r.first.epochs[p] == r.first.epochs[n..][p - n];
          assert r.best.epochs[p] == r.best.epochs[n..][p - n];
        }
      }
    }
  }
}
