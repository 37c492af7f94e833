/** Worked examples of the ledgers on small concrete batches. The ledgers and
    epochs are parameters pinned to concrete values, so that the verifier
    reasons through the general lemmas instead of unrolling every update. */
module Scenarios {
  import opened Losses
  import opened Seqs
  import opened Ledgers
  import opened LedgerRuns
  import opened BatchResults

  /** A one-cell perturbation holding `v`, so that a slot's perturbation shows
      which epoch it came from. */
  function Cell(v: real): Pert {
    [[v]]
  }

  /** One sample, losses 5, 3, 4, 2 submitted at epochs 0..3: the best-wins
      ledger ends with loss 2 and the epoch and perturbation of epoch 3. */
  lemma BestWinsLossSequence(l: Ledger, e0: EpochSuccesses, e1: EpochSuccesses, e2: EpochSuccesses, e3: EpochSuccesses)
    requires l == Fresh(1, 1, 1, BestWins)
    requires e0 == EpochSuccesses(0, [0], [Fin(5.0)], [Cell(5.0)])
    requires e1 == EpochSuccesses(1, [0], [Fin(3.0)], [Cell(3.0)])
    requires e2 == EpochSuccesses(2, [0], [Fin(4.0)], [Cell(4.0)])
    requires e3 == EpochSuccesses(3, [0], [Fin(2.0)], [Cell(2.0)])
    ensures AllFit(l, [e0, e1, e2, e3])
    ensures var r := Run(l, [e0, e1, e2, e3]);
            r.losses[0] == Fin(2.0) && r.epochs[0] == 3 && r.perts[0] == Cell(2.0)
  {
    var ess := [e0, e1, e2, e3];
    assert IndexOf([0], 0) == 0;
    assert Fits(l, e0) && Fits(l, e1) && Fits(l, e2) && Fits(l, e3);
    assert AllFit(l, ess);
    assert ess[..3] == [e0, e1, e2] && [e0, e1, e2][..2] == [e0, e1] && [e0, e1][..1] == [e0] && [e0][..0] == [];
    assert MinSubmitted(ess, 0) == Fin(2.0);
    assert FirstReaching(ess, 0, Fin(2.0)) == 3;
    BestWinsKeepsEarliestMinimum(l, ess, 0);
  }

  /** The same sample after epochs 0..2 only: epoch 2's loss 4 is worse than
      the recorded 3, so the record stays at epoch 1. */
  lemma BestWinsIgnoresWorseLoss(l: Ledger, e0: EpochSuccesses, e1: EpochSuccesses, e2: EpochSuccesses)
    requires l == Fresh(1, 1, 1, BestWins)
    requires e0 == EpochSuccesses(0, [0], [Fin(5.0)], [Cell(5.0)])
    requires e1 == EpochSuccesses(1, [0], [Fin(3.0)], [Cell(3.0)])
    requires e2 == EpochSuccesses(2, [0], [Fin(4.0)], [Cell(4.0)])
    ensures AllFit(l, [e0, e1, e2])
    ensures var r := Run(l, [e0, e1, e2]);
            r.losses[0] == Fin(3.0) && r.epochs[0] == 1 && r.perts[0] == Cell(3.0)
  {
    var ess := [e0, e1, e2];
    assert IndexOf([0], 0) == 0;
    assert Fits(l, e0) && Fits(l, e1) && Fits(l, e2);
    assert AllFit(l, ess);
    assert ess[..2] == [e0, e1] && [e0, e1][..1] == [e0] && [e0][..0] == [];
    assert MinSubmitted(ess, 0) == Fin(3.0);
    assert FirstReaching(ess, 0, Fin(3.0)) == 1;
    BestWinsKeepsEarliestMinimum(l, ess, 0);
  }

  /** A sample that succeeds at epochs 2 and 5 keeps epoch 2 in the first-wins
      ledger, with epoch 2's loss and perturbation. */
  lemma FirstWinsKeepsEarlierEpoch(l: Ledger, e2: EpochSuccesses, e5: EpochSuccesses)
    requires l == Fresh(1, 1, 1, FirstWins)
    requires e2 == EpochSuccesses(2, [0], [Fin(3.0)], [Cell(3.0)])
    requires e5 == EpochSuccesses(5, [0], [Fin(1.0)], [Cell(1.0)])
    ensures AllFit(l, [e2, e5])
    ensures var r := Run(l, [e2, e5]);
            r.epochs[0] == 2 && r.losses[0] == Fin(3.0) && r.perts[0] == Cell(3.0)
  {
    var ess := [e2, e5];
    assert IndexOf([0], 0) == 0;
    assert Fits(l, e2) && Fits(l, e5);
    assert AllFit(l, ess);
    assert ess[..1] == [e2] && [e2][..0] == [];
    assert FirstHit(ess, 0) == 0;
    FirstWinsKeepsFirst(l, ess, 0);
  }

  /** A ledger of two empty slots with perturbations of 4 rows of 1 cell. */
  predicate EmptyTwoSlot(l: Ledger) {
    && Valid(l) && Size(l) == 2 && l.maxSeqLength == 4 && l.inputSize == 1
    && Unrecorded(l, 0) && Unrecorded(l, 1)
  }

  /** The three epochs of `TwoSampleBatch` fit a two-slot ledger. */
  lemma TwoSampleFit(l: Ledger, e0: EpochSuccesses, e1: EpochSuccesses, e2: EpochSuccesses)
    requires EmptyTwoSlot(l)
    requires e0 == EpochSuccesses(0, [], [], [])
    requires e1 == EpochSuccesses(1, [0], [Fin(1.0)], [Zeros(4, 1)])
    requires e2 == EpochSuccesses(2, [0], [Fin(0.5)], [Zeros(4, 1)])
    ensures AllFit(l, [e0, e1, e2])
  {
    assert Fits(l, e0) && Fits(l, e1) && Fits(l, e2);
  }

  /** The epochs of `TwoSampleBatch`: finite losses, slot 0 first named at
      epoch 1, slot 1 never named. */
  lemma TwoSampleFirstHits(e0: EpochSuccesses, e1: EpochSuccesses, e2: EpochSuccesses)
    requires e0 == EpochSuccesses(0, [], [], [])
    requires e1 == EpochSuccesses(1, [0], [Fin(1.0)], [Zeros(4, 1)])
    requires e2 == EpochSuccesses(2, [0], [Fin(0.5)], [Zeros(4, 1)])
    ensures AllWellBehaved([e0, e1, e2])
    ensures FirstHit([e0, e1, e2], 0) == 1 && FirstHit([e0, e1, e2], 1) == 3
  {
    var ess := [e0, e1, e2];
    assert ess[..2] == [e0, e1] && [e0, e1][..1] == [e0] && [e0][..0] == [];
  }

  /** The three epochs of `TwoSampleBatch` on its empty first-wins ledger. */
  lemma TwoSampleFirstWins(l: Ledger, e0: EpochSuccesses, e1: EpochSuccesses, e2: EpochSuccesses)
    requires EmptyTwoSlot(l) && l.policy == FirstWins
    requires e0 == EpochSuccesses(0, [], [], [])
    requires e1 == EpochSuccesses(1, [0], [Fin(1.0)], [Zeros(4, 1)])
    requires e2 == EpochSuccesses(2, [0], [Fin(0.5)], [Zeros(4, 1)])
    ensures AllFit(l, [e0, e1, e2])
    ensures var r := Run(l, [e0, e1, e2]);
            r.epochs == [1, -1] && r.losses == [Fin(1.0), PosInf]
  {
    var ess := [e0, e1, e2];
    TwoSampleFit(l, e0, e1, e2);
    TwoSampleFirstHits(e0, e1, e2);
    assert IndexOf([0], 0) == 0;
    FirstWinsKeepsFirst(l, ess, 0);
    FirstWinsKeepsFirst(l, ess, 1);
    var r := Run(l, ess);
    assert |r.epochs| == 2 && |r.losses| == 2;
  }

  /** The losses submitted in `TwoSampleBatch`: slot 0 reaches its minimum
      0.5 first at epoch 2, slot 1 is never submitted. */
  lemma TwoSampleSubmissions(e0: EpochSuccesses, e1: EpochSuccesses, e2: EpochSuccesses)
    requires e0 == EpochSuccesses(0, [], [], [])
    requires e1 == EpochSuccesses(1, [0], [Fin(1.0)], [Zeros(4, 1)])
    requires e2 == EpochSuccesses(2, [0], [Fin(0.5)], [Zeros(4, 1)])
    ensures AllParallel([e0, e1, e2])
    ensures MinSubmitted([e0, e1, e2], 0) == Fin(0.5)
    ensures FirstReaching([e0, e1, e2], 0, Fin(0.5)) == 2
    ensures MinSubmitted([e0, e1, e2], 1) == PosInf
  {
    var ess := [e0, e1, e2];
    assert IndexOf([0], 0) == 0 && IndexOf([0], 1) == 1;
    assert ess[..2] == [e0, e1] && [e0, e1][..1] == [e0] && [e0][..0] == [];
    assert SubmittedLoss(e0, 0) == PosInf && SubmittedLoss(e1, 0) == Fin(1.0) && SubmittedLoss(e2, 0) == Fin(0.5);
    assert SubmittedLoss(e0, 1) == PosInf && SubmittedLoss(e1, 1) == PosInf && SubmittedLoss(e2, 1) == PosInf;
  }

  /** The three epochs of `TwoSampleBatch` on its empty best-wins ledger. */
  lemma TwoSampleBestWins(l: Ledger, e0: EpochSuccesses, e1: EpochSuccesses, e2: EpochSuccesses)
    requires EmptyTwoSlot(l) && l.policy == BestWins
    requires e0 == EpochSuccesses(0, [], [], [])
    requires e1 == EpochSuccesses(1, [0], [Fin(1.0)], [Zeros(4, 1)])
    requires e2 == EpochSuccesses(2, [0], [Fin(0.5)], [Zeros(4, 1)])
    ensures AllFit(l, [e0, e1, e2])
    ensures var r := Run(l, [e0, e1, e2]);
            r.epochs == [2, -1] && r.losses == [Fin(0.5), PosInf]
  {
    var ess := [e0, e1, e2];
    TwoSampleFit(l, e0, e1, e2);
    TwoSampleSubmissions(e0, e1, e2);
    BestWinsKeepsEarliestMinimum(l, ess, 0);
    BestWinsKeepsEarliestMinimum(l, ess, 1);
    BestWinsKeepsMinimum(l, ess, 1);
    var r := Run(l, ess);
    assert |r.epochs| == 2 && |r.losses| == 2;
  }

  /** A batch of two samples (max length 4, one feature) run for three epochs:
      sample 0 first succeeds at epoch 1 with loss 1.0 and improves to 0.5 at
      epoch 2, sample 1 never succeeds. First-wins keeps epoch 1, best-wins
      keeps epoch 2, and sample 1 keeps both sentinels in both ledgers. */
  lemma TwoSampleBatch(b: BatchResult, e0: EpochSuccesses, e1: EpochSuccesses, e2: EpochSuccesses)
    requires b == New([10, 11], [4, 2], 4, 1)
    requires e0 == EpochSuccesses(0, [], [], [])
    requires e1 == EpochSuccesses(1, [0], [Fin(1.0)], [Zeros(4, 1)])
    requires e2 == EpochSuccesses(2, [0], [Fin(0.5)], [Zeros(4, 1)])
    ensures AllFit(b.first, [e0, e1, e2])
    ensures var r := RunBatch(b, [e0, e1, e2]);
            && r.epochsRun == 3
            && r.first.epochs == [1, -1] && r.first.losses == [Fin(1.0), PosInf]
            && r.best.epochs == [2, -1] && r.best.losses == [Fin(0.5), PosInf]
  {
    assert EmptyTwoSlot(b.first) && EmptyTwoSlot(b.best);
    TwoSampleFirstWins(b.first, e0, e1, e2);
    TwoSampleBestWins(b.best, e0, e1, e2);
    RunBatchFeedsBothLedgers(b, [e0, e1, e2]);
  }
}
