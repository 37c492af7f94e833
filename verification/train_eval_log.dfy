/** `TrainEvalLog`: an append-only log of per-epoch training or evaluation
    results, with access to its latest entry. */
module TrainEvalLogs {
  import opened Wrappers

  datatype TrainEpochResult = TrainEpochResult(loss: real)

  datatype EvalEpochResult = EvalEpochResult(
    validationLoss: real,
    accuracy: real,
    auc: real,
    precision: real,
    recall: real,
    f1: real)

  datatype TrainLogEntry = TrainLogEntry(epoch: int, result: TrainEpochResult)

  datatype EvalLogEntry = EvalLogEntry(epoch: int, result: EvalEpochResult)

  /** A log of entries of one kind (`TrainLog` holds `TrainLogEntry`,
      `EvalLog` holds `EvalLogEntry`), oldest first. */
  datatype Log<E> = Log(data: seq<E>)

  type TrainLog = Log<TrainLogEntry>

  type EvalLog = Log<EvalLogEntry>

  /** `__post_init__`: a log constructed without data starts empty; one
      constructed with data keeps it. */
  function PostInit<E>(data: Option<seq<E>>): (log: Log<E>)
    ensures data.None? ==> log.data == []
    ensures data.Some? ==> log.data == data.value
  {
    match data
    case None => Log([])
    case Some(d) => Log(d)
  }

  /** `update`: appends one entry at the end, keeping every earlier entry in
      place. */
  function Update<E>(log: Log<E>, entry: E): (r: Log<E>)
    ensures |r.data| == |log.data| + 1
    ensures r.data[|log.data|] == entry
    ensures r.data[..|log.data|] == log.data
  {
    Log(log.data + [entry])
  }

  /** `latest_entry`: nothing for an empty log, otherwise the last entry. */
  function LatestEntry<E>(log: Log<E>): (r: Option<E>)
    ensures r.None? <==> |log.data| == 0
    ensures r.Some? ==> r.value == log.data[|log.data| - 1]
  {
    if |log.data| == 0 then None else Some(log.data[|log.data| - 1])
  }

  /** A log constructed without data has no latest entry. */
  lemma FreshLogHasNoLatestEntry<E>()
    ensures LatestEntry(PostInit<E>(None)) == None
  {
  }

  /** Right after `update(e)`, the latest entry is `e`. */
  lemma LatestEntryAfterUpdate<E>(log: Log<E>, entry: E)
    ensures LatestEntry(Update(log, entry)) == Some(entry)
  {
  }

  /** The log after appending the entries of `es` one at a time. */
  function Replay<E>(log: Log<E>, es: seq<E>): Log<E>
    decreases |es|
  {
    if |es| == 0 then log else Update(Replay(log, es[..|es| - 1]), es[|es| - 1])
  }

  /** A sequence of updates appends exactly its entries, in order, after the
      existing ones, and the latest entry is then the last one appended. */
  lemma {:induction false} ReplayAppends<E>(log: Log<E>, es: seq<E>)
    ensures Replay(log, es).data == log.data + es
    ensures |es| > 0 ==> LatestEntry(Replay(log, es)) == Some(es[|es| - 1])
    ensures |es| == 0 ==> LatestEntry(Replay(log, es)) == LatestEntry(log)
    decreases |es|
  {
    if |es| > 0 {
      ReplayAppends(log, es[..|es| - 1]);
      assert es == es[..|es| - 1] + [es[|es| - 1]];
    }
  }

  /** Three training epochs logged into a fresh log: the log holds them in
      order and the latest entry is the third. */
  lemma TrainLogExample(e0: TrainLogEntry, e1: TrainLogEntry, e2: TrainLogEntry)
    requires e0 == TrainLogEntry(0, TrainEpochResult(0.9))
    requires e1 == TrainLogEntry(1, TrainEpochResult(0.7))
    requires e2 == TrainLogEntry(2, TrainEpochResult(0.8))
    ensures Replay(PostInit(None), [e0, e1, e2]).data == [e0, e1, e2]
    ensures LatestEntry(Replay(PostInit(None), [e0, e1, e2])) == Some(e2)
  {
    ReplayAppends(PostInit<TrainLogEntry>(None), [e0, e1, e2]);
  }
}
