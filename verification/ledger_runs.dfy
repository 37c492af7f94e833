/** What a ledger holds after a whole sequence of epochs: the first-wins
    ledger keeps the first success of each slot, the best-wins ledger keeps the
    earliest epoch reaching the minimum loss, and under both policies a slot is
    recorded exactly when some epoch named it. */
module LedgerRuns {
  import opened Losses
  import opened Seqs
  import opened Ledgers

  /** An epoch as the attack loop produces it: a real epoch number and finite
      losses. */
  predicate WellBehaved(es: EpochSuccesses) {
    es.epochNum >= 0 && forall k :: 0 <= k < |es.losses| ==> es.losses[k] != PosInf
  }

  predicate AllWellBehaved(ess: seq<EpochSuccesses>) {
    forall i :: 0 <= i < |ess| ==> WellBehaved(ess[i])
  }

  /** Every slot is either recorded with a finite loss or holds both sentinels. */
  predicate SentinelsAgree(l: Ledger)
    requires Valid(l)
  {
    forall s :: 0 <= s < Size(l) ==> (l.epochs[s] == -1 <==> l.losses[s] == PosInf)
  }

  /** Some epoch of `ess` named slot `s`. */
  predicate Submitted(ess: seq<EpochSuccesses>, s: int) {
    exists i :: 0 <= i < |ess| && s in ess[i].batchIndices
  }

  /** The first epoch of `ess` that names slot `s`, or `|ess|` if none does. */
  function FirstHit(ess: seq<EpochSuccesses>, s: int): (h: nat)
    ensures h <= |ess|
    ensures h < |ess| ==> s in ess[h].batchIndices
    ensures forall i :: 0 <= i < h ==> s !in ess[i].batchIndices
  {
    if |ess| == 0 then 0
    else
      var h := FirstHit(ess[..|ess| - 1], s);
      if h < |ess| - 1 then h
      else if s in ess[|ess| - 1].batchIndices then |ess| - 1
      else |ess|
  }

  /** The loss an epoch submitted for slot `s`; `+inf` if it did not name it. */
  function SubmittedLoss(es: EpochSuccesses, s: int): Loss
    requires |es.losses| == |es.batchIndices|
  {
    if s in es.batchIndices then es.losses[IndexOf(es.batchIndices, s)] else PosInf
  }

  predicate AllParallel(ess: seq<EpochSuccesses>) {
    forall i :: 0 <= i < |ess| ==> |ess[i].losses| == |ess[i].batchIndices|
  }

  /** The first epoch of `ess` whose submitted loss for `s` is `m`, or `|ess|`. */
  function FirstReaching(ess: seq<EpochSuccesses>, s: int, m: Loss): (h: nat)
    requires AllParallel(ess)
    ensures h <= |ess|
    ensures h < |ess| ==> SubmittedLoss(ess[h], s) == m
    ensures forall i :: 0 <= i < h ==> SubmittedLoss(ess[i], s) != m
  {
    if |ess| == 0 then 0
    else
      var h := FirstReaching(ess[..|ess| - 1], s, m);
      if h < |ess| - 1 then h
      else if SubmittedLoss(ess[|ess| - 1], s) == m then |ess| - 1
      else |ess|
  }

  /** The least loss any epoch of `ess` submitted for slot `s`. */
  function MinSubmitted(ess: seq<EpochSuccesses>, s: int): (m: Loss)
    requires AllParallel(ess)
    ensures forall i :: 0 <= i < |ess| ==> Le(m, SubmittedLoss(ess[i], s))
    ensures m != PosInf ==> FirstReaching(ess, s, m) < |ess|
  {
    if |ess| == 0 then PosInf
    else Min(MinSubmitted(ess[..|ess| - 1], s), SubmittedLoss(ess[|ess| - 1], s))
  }

  lemma AllFitParallel(l: Ledger, ess: seq<EpochSuccesses>)
    requires AllFit(l, ess)
    ensures AllParallel(ess)
  {
  }

  /** One epoch seen from a single slot: the slot takes all three fields from
      the entry that names it when that entry passes the policy, and keeps all
      three otherwise. */
  lemma UpdateSlot(l: Ledger, es: EpochSuccesses, s: int)
    requires Valid(l) && Fits(l, es) && 0 <= s < Size(l)
    ensures var r := Update(l, es);
            var k := IndexOf(es.batchIndices, s);
            if k < |es.batchIndices| && Accepts(l.policy, l.losses[s], es.losses[k]) then
              r.epochs[s] == es.epochNum && r.losses[s] == es.losses[k] && r.perts[s] == es.perts[k]
            else
              r.epochs[s] == l.epochs[s] && r.losses[s] == l.losses[s] && r.perts[s] == l.perts[s]
  {
    var k := IndexOf(es.batchIndices, s);
    forall j | 0 <= j < |es.batchIndices|
      ensures es.batchIndices[j] == s ==> j == k
    {
    }
  }

  /** One epoch keeps the sentinels consistent and records exactly the slots
      it names, under either policy. */
  lemma UpdateRecords(l: Ledger, es: EpochSuccesses)
    requires Valid(l) && Fits(l, es) && SentinelsAgree(l) && WellBehaved(es)
    ensures SentinelsAgree(Update(l, es))
    ensures forall s :: 0 <= s < Size(l) ==>
              (Update(l, es).epochs[s] != -1 <==> l.epochs[s] != -1 || s in es.batchIndices)
  {
    var r := Update(l, es);
    forall s | 0 <= s < Size(l)
      ensures r.epochs[s] == -1 <==> r.losses[s] == PosInf
      ensures r.epochs[s] != -1 <==> l.epochs[s] != -1 || s in es.batchIndices
    {
      UpdateSlot(l, es, s);
    }
  }

  /** After any sequence of well-behaved epochs, a slot is recorded iff it was
      recorded before or some epoch named it, whatever the policy. */
  lemma {:induction false} RunRecords(l: Ledger, ess: seq<EpochSuccesses>)
    requires Valid(l) && AllFit(l, ess) && SentinelsAgree(l) && AllWellBehaved(ess)
    ensures SentinelsAgree(Run(l, ess))
    ensures forall s :: 0 <= s < Size(l) ==>
              (Run(l, ess).epochs[s] != -1 <==> l.epochs[s] != -1 || Submitted(ess, s))
    decreases |ess|
  {
    if |ess| > 0 {
      var pre := ess[..|ess| - 1];
      var last := ess[|ess| - 1];
      RunRecords(l, pre);
      UpdateRecords(Run(l, pre), last);
      forall s | 0 <= s < Size(l)
        ensures Submitted(ess, s) <==> Submitted(pre, s) || s in last.batchIndices
      {
        if Submitted(ess, s) {
          var i :| 0 <= i < |ess| && s in ess[i].batchIndices;
          if i < |pre| {
            assert s in pre[i].batchIndices;
          }
        }
        if Submitted(pre, s) {
          var i :| 0 <= i < |pre| && s in pre[i].batchIndices;
          assert s in ess[i].batchIndices;
        }
      }
    }
  }

  /** On a ledger whose slots are all empty, well-behaved epochs record
      exactly the slots some epoch named. */
  lemma EmptyLedgerRecords(l: Ledger, ess: seq<EpochSuccesses>)
    requires Valid(l) && AllFit(l, ess) && AllWellBehaved(ess)
    requires forall s :: 0 <= s < Size(l) ==> Unrecorded(l, s)
    ensures forall s :: 0 <= s < Size(l) ==> (Run(l, ess).epochs[s] != -1 <==> Submitted(ess, s))
  {
    assert SentinelsAgree(l) by {
      forall s | 0 <= s < Size(l)
        ensures l.epochs[s] == -1 <==> l.losses[s] == PosInf
      {
        assert Unrecorded(l, s);
      }
    }
    RunRecords(l, ess);
    forall s | 0 <= s < Size(l)
      ensures Run(l, ess).epochs[s] != -1 <==> Submitted(ess, s)
    {
      assert Unrecorded(l, s);
    }
  }

  /** First-wins: a slot not yet recorded ends up holding epoch, loss and
      perturbation of the first epoch that names it, and later epochs never
      touch it again; a slot no epoch names is left as it was. */
  lemma {:induction false} FirstWinsKeepsFirst(l: Ledger, ess: seq<EpochSuccesses>, s: int)
    requires Valid(l) && AllFit(l, ess) && AllWellBehaved(ess)
    requires l.policy == FirstWins && 0 <= s < Size(l) && l.losses[s] == PosInf
    ensures var r := Run(l, ess);
            var h := FirstHit(ess, s);
            if h == |ess| then
              r.epochs[s] == l.epochs[s] && r.losses[s] == l.losses[s] && r.perts[s] == l.perts[s]
            else
              var k := IndexOf(ess[h].batchIndices, s);
              r.epochs[s] == ess[h].epochNum && r.losses[s] == ess[h].losses[k] && r.perts[s] == ess[h].perts[k]
    decreases |ess|
  {
    if |ess| > 0 {
      var pre := ess[..|ess| - 1];
      var last := ess[|ess| - 1];
      FirstWinsKeepsFirst(l, pre, s);
      var rp := Run(l, pre);
      var hp := FirstHit(pre, s);
      if hp < |pre| {
        assert pre[hp] == ess[hp];
        var k := IndexOf(ess[hp].batchIndices, s);
        assert WellBehaved(ess[hp]);
        assert rp.losses[s] != PosInf;
        assert !Selected(rp, last, s);
      } else if s in last.batchIndices {
        var k := IndexOf(last.batchIndices, s);
        assert Accepts(FirstWins, rp.losses[s], last.losses[k]);
      } else {
        assert !Selected(rp, last, s);
      }
    }
  }

  /** Best-wins: the recorded loss is the least of the loss it started with and
      every loss submitted for the slot. */
  lemma {:induction false} BestWinsKeepsMinimum(l: Ledger, ess: seq<EpochSuccesses>, s: int)
    requires Valid(l) && AllFit(l, ess)
    requires l.policy == BestWins && 0 <= s < Size(l)
    ensures AllParallel(ess)
    ensures Run(l, ess).losses[s] == Min(l.losses[s], MinSubmitted(ess, s))
    decreases |ess|
  {
    AllFitParallel(l, ess);
    if |ess| > 0 {
      var pre := ess[..|ess| - 1];
      var last := ess[|ess| - 1];
      BestWinsKeepsMinimum(l, pre, s);
      var rp := Run(l, pre);
      var x := SubmittedLoss(last, s);
      if s in last.batchIndices {
        var k := IndexOf(last.batchIndices, s);
        if !Accepts(BestWins, rp.losses[s], last.losses[k]) {
          assert !Selected(rp, last, s);
        }
      } else {
        assert !Selected(rp, last, s);
      }
      MinAssociative(l.losses[s], MinSubmitted(pre, s), x);
    }
  }

  /** Best-wins: one epoch never raises a slot's recorded loss. */
  lemma BestWinsStep(l: Ledger, es: EpochSuccesses, s: int)
    requires Valid(l) && Fits(l, es)
    requires l.policy == BestWins && 0 <= s < Size(l)
    ensures Le(Update(l, es).losses[s], l.losses[s])
  {
    UpdateSlot(l, es, s);
  }

  /** Best-wins: the recorded loss never goes up from one epoch to a later one. */
  lemma {:induction false} BestWinsMonotone(l: Ledger, ess: seq<EpochSuccesses>, j: nat, s: int)
    requires Valid(l) && AllFit(l, ess)
    requires l.policy == BestWins && 0 <= s < Size(l) && j <= |ess|
    ensures Le(Run(l, ess).losses[s], Run(l, ess[..j]).losses[s])
    decreases |ess|
  {
    if j < |ess| {
      var pre := ess[..|ess| - 1];
      assert pre[..j] == ess[..j];
      BestWinsMonotone(l, pre, j, s);
      BestWinsStep(Run(l, pre), ess[|ess| - 1], s);
    } else {
      assert ess[..j] == ess;
    }
  }

  /** Best-wins: a slot not yet recorded ends up holding the epoch and
      perturbation of the EARLIEST epoch that submitted the minimum loss, so a
      later tie never replaces an earlier record. */
  lemma {:induction false} BestWinsKeepsEarliestMinimum(l: Ledger, ess: seq<EpochSuccesses>, s: int)
    requires Valid(l) && AllFit(l, ess)
    requires l.policy == BestWins && 0 <= s < Size(l) && l.losses[s] == PosInf
    ensures AllParallel(ess)
    ensures var r := Run(l, ess);
            var m := MinSubmitted(ess, s);
            if m == PosInf then
              r.epochs[s] == l.epochs[s] && r.perts[s] == l.perts[s]
            else
              var h := FirstReaching(ess, s, m);
              var k := IndexOf(ess[h].batchIndices, s);
              h < |ess| && s in ess[h].batchIndices &&
              r.epochs[s] == ess[h].epochNum && r.losses[s] == m && r.perts[s] == ess[h].perts[k]
    decreases |ess|
  {
    AllFitParallel(l, ess);
    BestWinsKeepsMinimum(l, ess, s);
    if |ess| > 0 {
      var pre := ess[..|ess| - 1];
      var last := ess[|ess| - 1];
      BestWinsKeepsEarliestMinimum(l, pre, s);
      BestWinsKeepsMinimum(l, pre, s);
      var rp := Run(l, pre);
      var mp := MinSubmitted(pre, s);
      var x := SubmittedLoss(last, s);
      assert rp.losses[s] == mp;
      if Lt(x, mp) {
        var k := IndexOf(last.batchIndices, s);
        assert Accepts(BestWins, rp.losses[s], last.losses[k]);
        forall i | 0 <= i < |pre|
          ensures SubmittedLoss(pre[i], s) != x
        {
          assert Le(mp, SubmittedLoss(pre[i], s));
        }
        assert FirstReaching(pre, s, x) == |pre|;
      } else {
        if s in last.batchIndices {
          assert !Selected(rp, last, s);
        } else {
          assert !Selected(rp, last, s);
        }
        if mp != PosInf {
          var hp := FirstReaching(pre, s, mp);
          assert pre[hp] == ess[hp];
        }
      }
    }
  }
}
