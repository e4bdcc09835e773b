/**
 * The metrics collector (src/metrics/collector.py): records are buffered in
 * memory and handed to the repository, in order, only on a flush.
 *
 * The repository is a sink that keeps what it was given; its SQLite table,
 * and the clock that stamps a record, are not part of this model (the
 * timestamp is a parameter of `Record`).
 */
module MetricsCollector {
  /** `MetricRecord`. */
  datatype MetricRecord = MetricRecord(workspaceId: string, name: string, value: real, timestamp: int)

  /** `MetricsRepository`, as the records it has saved. */
  class Repository {
    var saved: seq<MetricRecord>

    constructor ()
      ensures saved == []
    {
      saved := [];
    }

    /** `save`: one more record. */
    method Save(metric: MetricRecord)
      modifies this
      ensures saved == old(saved) + [metric]
    {
      saved := saved + [metric];
    }
  }

  /** What a client does with a collector. */
  datatype Op = RecordOp(metric: MetricRecord) | FlushOp

  /** The repository's records and the buffer after one call. */
  function Step(saved: seq<MetricRecord>, buffer: seq<MetricRecord>, op: Op): (seq<MetricRecord>, seq<MetricRecord>)
  {
    match op
    case RecordOp(m) => (saved, buffer + [m])
    case FlushOp => (saved + buffer, [])
  }

  /** The repository's records and the buffer after a sequence of calls. */
  function Replay(saved: seq<MetricRecord>, buffer: seq<MetricRecord>, ops: seq<Op>): (seq<MetricRecord>, seq<MetricRecord>)
    decreases |ops|
  {
    if ops == [] then (saved, buffer)
    else
      var (s, b) := Replay(saved, buffer, ops[..|ops| - 1]);
      Step(s, b, ops[|ops| - 1])
  }

  /** The records in the order they were recorded. */
  function Recorded(ops: seq<Op>): seq<MetricRecord>
    decreases |ops|
  {
    if ops == [] then []
    else Recorded(ops[..|ops| - 1]) + (if ops[|ops| - 1].RecordOp? then [ops[|ops| - 1].metric] else [])
  }

  /** Nothing is lost and nothing is reordered: what the repository has,
      followed by what is still buffered, is everything recorded, in order;
      after a flush the buffer is empty. */
  lemma {:induction false} ReplayKeepsOrder(saved: seq<MetricRecord>, buffer: seq<MetricRecord>, ops: seq<Op>)
    ensures var (s, b) := Replay(saved, buffer, ops);
            s + b == saved + buffer + Recorded(ops)
    ensures ops != [] && ops[|ops| - 1].FlushOp? ==> Replay(saved, buffer, ops).1 == []
    decreases |ops|
  {
    if ops != [] {
      var front := ops[..|ops| - 1];
      ReplayKeepsOrder(saved, buffer, front);
      var (s, b) := Replay(saved, buffer, front);
      if ops[|ops| - 1].RecordOp? {
        assert s + (b + [ops[|ops| - 1].metric]) == (s + b) + [ops[|ops| - 1].metric];
      } else {
        assert s + b + [] == s + b;
      }
    }
  }

  /** Nothing reaches the repository before a flush. */
  lemma {:induction false} NoFlushNoSave(saved: seq<MetricRecord>, buffer: seq<MetricRecord>, ops: seq<Op>)
    requires forall k :: 0 <= k < |ops| ==> ops[k].RecordOp?
    ensures Replay(saved, buffer, ops).0 == saved
    decreases |ops|
  {
    if ops != [] {
      NoFlushNoSave(saved, buffer, ops[..|ops| - 1]);
    }
  }

  /** `MetricsCollector`: the repository it flushes to and its buffer. */
  class Collector {
    const repo: Repository
    var buffer: seq<MetricRecord>

    constructor (repository: Repository)
      ensures repo == repository && buffer == []
    {
      repo := repository;
      buffer := [];
    }

    /** `record`: one record at the end of the buffer; the repository is not
        touched. */
    method Record(workspaceId: string, metricName: string, value: real, now: int)
      modifies this
      ensures repo.saved == old(repo.saved)
      ensures (repo.saved, buffer) == Step(repo.saved, old(buffer), RecordOp(MetricRecord(workspaceId, metricName, value, now)))
    {
      buffer := buffer + [MetricRecord(workspaceId, metricName, value, now)];
    }

    /** `flush_to_db`: every buffered record saved in buffer order, then the
        buffer cleared. */
    method FlushToDb()
      modifies this, repo
      ensures (repo.saved, buffer) == Step(old(repo.saved), old(buffer), FlushOp)
    {
      var i := 0;
      while i < |buffer|
        invariant 0 <= i <= |buffer|
        invariant buffer == old(buffer)
        invariant repo.saved == old(repo.saved) + buffer[..i]
      {
        assert buffer[..i + 1] == buffer[..i] + [buffer[i]];
        repo.Save(buffer[i]);
        i := i + 1;
      }
      assert buffer[..i] == buffer;
      buffer := [];
    }
  }
}
