/** The per-batch ledger (`RecordedBatchExamples`): one slot per sample of the
    batch, each holding the epoch, loss and perturbation of a recorded
    successful example, under a pluggable replacement policy. */
module Ledgers {
  import opened Losses
  import opened Seqs

  /** The perturbation of one sample: `maxSeqLength` rows of `inputSize` cells. */
  type Pert = seq<seq<real>>

  predicate Shaped(p: Pert, rows: nat, cols: nat) {
    |p| == rows && forall t :: 0 <= t < rows ==> |p[t]| == cols
  }

  /** An all-zero perturbation of the given shape. */
  function Zeros(rows: nat, cols: nat): (p: Pert)
    ensures Shaped(p, rows, cols)
    ensures forall t, f :: 0 <= t < rows && 0 <= f < cols ==> p[t][f] == 0.0
  {
    seq(rows, _ => seq(cols, _ => 0.0))
  }

  /** The two comparison functions a ledger can be built with. */
  datatype Policy = FirstWins | BestWins

  /** `has_no_entry`: the stored loss is still the sentinel, the one loss
      that no other loss lies above. */
  function HasNoEntry(stored: Loss): (r: bool)
    ensures r <==> !stored.Fin?
    ensures r <==> forall x: Loss :: Le(x, stored)
  {
    assert !Le(PosInf, stored) ==> stored.Fin?;
    stored == PosInf
  }

  /** `is_greater_than_new_val`: the stored loss is strictly above the new
      one, so taking the new one lowers the minimum; a `+inf` new loss never
      qualifies, and neither does a tie. */
  function IsGreaterThanNewVal(stored: Loss, incoming: Loss): (r: bool)
    ensures r <==> Min(stored, incoming) != stored
    ensures r ==> incoming.Fin? && incoming != stored
  {
    Lt(incoming, stored)
  }

  /** `comparison_funct` applied to one stored and one new loss: first-wins
      accepts exactly while the slot holds the sentinel, whatever the new loss;
      best-wins accepts exactly a new loss that lowers the minimum. */
  function Accepts(policy: Policy, stored: Loss, incoming: Loss): (r: bool)
    ensures policy.FirstWins? ==> (r <==> !stored.Fin?)
    ensures policy.BestWins? ==> (r <==> Min(stored, incoming) != stored)
    ensures policy.BestWins? && r ==> Min(stored, incoming) == incoming && incoming.Fin?
  {
    match policy
    case FirstWins => HasNoEntry(stored)
    case BestWins => IsGreaterThanNewVal(stored, incoming)
  }

  /** What the two comparisons mean for one slot: first-wins accepts exactly
      while the slot holds the `+inf` sentinel, whatever the new loss;
      best-wins accepts exactly a strictly smaller loss, so it rejects ties
      and a `+inf` loss, and keeps the minimum of the two. */
  lemma AcceptanceRules(stored: Loss, incoming: Loss)
    ensures Accepts(FirstWins, stored, incoming) <==> stored == PosInf
    ensures Accepts(FirstWins, PosInf, incoming)
    ensures !Accepts(BestWins, stored, stored)
    ensures !Accepts(BestWins, stored, PosInf)
    ensures Accepts(BestWins, stored, incoming) <==> Min(stored, incoming) != stored
    ensures Accepts(BestWins, stored, incoming) ==> Min(stored, incoming) == incoming
  {
  }

  /** The successes of one epoch: batch-local indices with, entry by entry,
      their losses and perturbations. */
  datatype EpochSuccesses = EpochSuccesses(
    epochNum: int,
    batchIndices: seq<int>,
    losses: seq<Loss>,
    perts: seq<Pert>)

  datatype Ledger = Ledger(
    epochs: seq<int>,
    losses: seq<Loss>,
    perts: seq<Pert>,
    maxSeqLength: nat,
    inputSize: nat,
    policy: Policy)

  function Size(l: Ledger): nat {
    |l.epochs|
  }

  /** The three per-slot columns have one entry per slot, and every stored
      perturbation has the ledger's shape. */
  predicate Valid(l: Ledger) {
    && |l.losses| == |l.epochs|
    && |l.perts| == |l.epochs|
    && forall s :: 0 <= s < |l.perts| ==> Shaped(l.perts[s], l.maxSeqLength, l.inputSize)
  }

  /** Two ledgers have the same size and perturbation shape. */
  predicate SameShape(a: Ledger, b: Ledger) {
    Size(a) == Size(b) && a.maxSeqLength == b.maxSeqLength && a.inputSize == b.inputSize
  }

  /** What the tensor operations of `update` demand of an entry: parallel
      columns of equal length, distinct in-range slots, perturbations of the
      ledger's shape. */
  predicate Fits(l: Ledger, es: EpochSuccesses) {
    && |es.losses| == |es.batchIndices|
    && |es.perts| == |es.batchIndices|
    && Distinct(es.batchIndices)
    && InRange(es.batchIndices, Size(l))
    && forall k :: 0 <= k < |es.perts| ==> Shaped(es.perts[k], l.maxSeqLength, l.inputSize)
  }

  /** A slot has never been recorded: both sentinels are in place. */
  predicate Unrecorded(l: Ledger, s: int)
    requires Valid(l) && 0 <= s < Size(l)
  {
    l.epochs[s] == -1 && l.losses[s] == PosInf
  }

  /** `RecordedBatchExamples.__init__`: every slot holds epoch -1, loss +inf
      and an all-zero perturbation. */
  function Fresh(n: nat, maxSeqLength: nat, inputSize: nat, policy: Policy): (l: Ledger)
    ensures Valid(l) && Size(l) == n && l.policy == policy
    ensures l.maxSeqLength == maxSeqLength && l.inputSize == inputSize
    ensures forall s :: 0 <= s < n ==> Unrecorded(l, s)
    ensures forall s, t, f :: 0 <= s < n && 0 <= t < maxSeqLength && 0 <= f < inputSize ==>
              l.perts[s][t][f] == 0.0
  {
    Ledger(seq(n, _ => -1), seq(n, _ => PosInf), seq(n, _ => Zeros(maxSeqLength, inputSize)),
           maxSeqLength, inputSize, policy)
  }

  /** `loss_values_to_check`: the stored losses of the named slots, read
      before any slot is written. */
  function Gather(losses: seq<Loss>, idx: seq<int>): seq<Loss>
    requires InRange(idx, |losses|)
  {
    seq(|idx|, k requires 0 <= k < |idx| => losses[idx[k]])
  }

  /** `epoch_indices_to_copy_from`: the policy applied entry by entry. */
  function Comparison(policy: Policy, checked: seq<Loss>, newLosses: seq<Loss>): seq<bool>
    requires |checked| == |newLosses|
  {
    seq(|checked|, k requires 0 <= k < |checked| => Accepts(policy, checked[k], newLosses[k]))
  }

  /** Overwrite one slot's epoch, loss and perturbation together. */
  function Write(l: Ledger, s: int, epoch: int, loss: Loss, pert: Pert): Ledger
    requires Valid(l) && 0 <= s < Size(l)
  {
    l.(epochs := l.epochs[s := epoch], losses := l.losses[s := loss], perts := l.perts[s := pert])
  }

  /** The scatter of the first `k` entries whose mask bit is set. */
  function Scatter(l: Ledger, es: EpochSuccesses, mask: seq<bool>, k: nat): (r: Ledger)
    requires Valid(l) && Fits(l, es)
    requires |mask| == |es.batchIndices| && k <= |mask|
    ensures Valid(r) && SameShape(r, l) && r.policy == l.policy
    ensures forall j :: 0 <= j < k && mask[j] ==>
              && r.epochs[es.batchIndices[j]] == es.epochNum
              && r.losses[es.batchIndices[j]] == es.losses[j]
              && r.perts[es.batchIndices[j]] == es.perts[j]
    ensures forall s :: 0 <= s < Size(l) && (forall j :: 0 <= j < k && mask[j] ==> es.batchIndices[j] != s) ==>
              r.epochs[s] == l.epochs[s] && r.losses[s] == l.losses[s] && r.perts[s] == l.perts[s]
  {
    if k == 0 then l
    else
      var prev := Scatter(l, es, mask, k - 1);
      if mask[k - 1] then
        Write(prev, es.batchIndices[k - 1], es.epochNum, es.losses[k - 1], es.perts[k - 1])
      else prev
  }

  /** Entry `k` of `es` names slot `s` and passes the policy against the slot's
      stored loss. */
  predicate Selected(l: Ledger, es: EpochSuccesses, s: int)
    requires Valid(l) && Fits(l, es) && 0 <= s < Size(l)
  {
    exists k :: 0 <= k < |es.batchIndices| && es.batchIndices[k] == s && Accepts(l.policy, l.losses[s], es.losses[k])
  }

  /** `RecordedBatchExamples.update`: the slots whose entry passes the policy
      take epoch, loss and perturbation from that same entry; every other slot
      keeps all three fields. */
  function Update(l: Ledger, es: EpochSuccesses): (r: Ledger)
    requires Valid(l) && Fits(l, es)
    ensures Valid(r) && SameShape(r, l) && r.policy == l.policy
    ensures forall k :: 0 <= k < |es.batchIndices| && Accepts(l.policy, l.losses[es.batchIndices[k]], es.losses[k]) ==>
              && r.epochs[es.batchIndices[k]] == es.epochNum
              && r.losses[es.batchIndices[k]] == es.losses[k]
              && r.perts[es.batchIndices[k]] == es.perts[k]
    ensures forall s :: 0 <= s < Size(l) && !Selected(l, es, s) ==>
              r.epochs[s] == l.epochs[s] && r.losses[s] == l.losses[s] && r.perts[s] == l.perts[s]
  {
    var mask := Comparison(l.policy, Gather(l.losses, es.batchIndices), es.losses);
    Scatter(l, es, mask, |es.batchIndices|)
  }

  /** Every entry of a sequence of epochs fits the ledger. */
  predicate AllFit(l: Ledger, ess: seq<EpochSuccesses>) {
    forall i :: 0 <= i < |ess| ==> Fits(l, ess[i])
  }

  /** The ledger after feeding it the epochs of `ess` in order. */
  function Run(l: Ledger, ess: seq<EpochSuccesses>): (r: Ledger)
    requires Valid(l) && AllFit(l, ess)
    ensures Valid(r) && SameShape(r, l) && r.policy == l.policy
    decreases |ess|
  {
    if |ess| == 0 then l
    else Update(Run(l, ess[..|ess| - 1]), ess[|ess| - 1])
  }
}
