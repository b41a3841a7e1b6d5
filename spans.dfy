/**
 * A span as the tracer sees it: tag writes, timestamped logs and a terminal finish.
 * Besides the tag and log lists it keeps a ghost journal of every call, in order.
 */
module Spans {
  import opened Wrappers

  type Tag = (string, string)
  type LogEntry = (int, string)

  /** One call made on a span. */
  datatype SpanOp = SetTag(key: string, value: string) | Log(time: int, event: string) | Finish

  /** The tag writes in a journal, in order. */
  function TagWrites(ops: seq<SpanOp>): seq<Tag>
    decreases |ops|
  {
    if ops == [] then []
    else
      TagWrites(ops[..|ops| - 1]) +
      match ops[|ops| - 1]
      case SetTag(k, v) => [(k, v)]
      case _ => []
  }

  /** The log writes in a journal, in order. */
  function LogWrites(ops: seq<SpanOp>): seq<LogEntry>
    decreases |ops|
  {
    if ops == [] then []
    else
      LogWrites(ops[..|ops| - 1]) +
      match ops[|ops| - 1]
      case Log(t, e) => [(t, e)]
      case _ => []
  }

  /** The calls that write `tags`, one after the other. */
  function TagOps(tags: seq<Tag>): (ops: seq<SpanOp>) {
    seq(|tags|, i requires 0 <= i < |tags| => SetTag(tags[i].0, tags[i].1))
  }

  /** The calls that write `logs`, one after the other. */
  function LogOps(logs: seq<LogEntry>): (ops: seq<SpanOp>) {
    seq(|logs|, i requires 0 <= i < |logs| => Log(logs[i].0, logs[i].1))
  }

  /** The value a reader of the span sees for `key`: the last write wins. */
  function LastValue(tags: seq<Tag>, key: string): Option<string>
    decreases |tags|
  {
    if tags == [] then None
    else if tags[|tags| - 1].0 == key then Some(tags[|tags| - 1].1)
    else LastValue(tags[..|tags| - 1], key)
  }

  /** Writes made later shadow earlier ones. */
  lemma {:induction false} LastValueAppend(a: seq<Tag>, b: seq<Tag>, key: string)
    ensures LastValue(a + b, key) == if LastValue(b, key).Some? then LastValue(b, key) else LastValue(a, key)
    decreases |b|
  {
    if b == [] {
      assert a + b == a;
    } else {
      assert (a + b)[..|a + b| - 1] == a + b[..|b| - 1];
      assert (a + b)[|a + b| - 1] == b[|b| - 1];
      LastValueAppend(a, b[..|b| - 1], key);
    }
  }

  /** A finish, if any, is the last call. */
  ghost predicate FinishOnlyLast(ops: seq<SpanOp>) {
    forall i :: 0 <= i < |ops| && ops[i] == Finish ==> i == |ops| - 1
  }

  lemma Assoc<T>(a: seq<T>, b: seq<T>, c: seq<T>)
    ensures a + (b + c) == (a + b) + c
  {
  }

  lemma {:induction false} TagWritesAppend(a: seq<SpanOp>, b: seq<SpanOp>)
    ensures TagWrites(a + b) == TagWrites(a) + TagWrites(b)
    decreases |b|
  {
    if b != [] {
      var b' := b[..|b| - 1];
      assert (a + b)[..|a + b| - 1] == a + b';
      assert (a + b)[|a + b| - 1] == b[|b| - 1];
      TagWritesAppend(a, b');
    } else {
      assert a + b == a;
    }
  }

  lemma {:induction false} LogWritesAppend(a: seq<SpanOp>, b: seq<SpanOp>)
    ensures LogWrites(a + b) == LogWrites(a) + LogWrites(b)
    decreases |b|
  {
    if b != [] {
      var b' := b[..|b| - 1];
      assert (a + b)[..|a + b| - 1] == a + b';
      assert (a + b)[|a + b| - 1] == b[|b| - 1];
      LogWritesAppend(a, b');
    } else {
      assert a + b == a;
    }
  }

  lemma TagOpsAppend(a: seq<Tag>, b: seq<Tag>)
    ensures TagOps(a + b) == TagOps(a) + TagOps(b)
  {
  }

  lemma LogOpsAppend(a: seq<LogEntry>, b: seq<LogEntry>)
    ensures LogOps(a + b) == LogOps(a) + LogOps(b)
  {
  }

  /** Writing tags one by one records exactly those tags and no log. */
  lemma {:induction false} TagOpsWrites(tags: seq<Tag>)
    ensures TagWrites(TagOps(tags)) == tags
    ensures LogWrites(TagOps(tags)) == []
    decreases |tags|
  {
    if tags != [] {
      var t := tags[..|tags| - 1];
      TagOpsWrites(t);
      assert TagOps(tags)[..|tags| - 1] == TagOps(t);
      assert tags == t + [tags[|tags| - 1]];
    }
  }

  /** Logging entries one by one records exactly those entries and no tag. */
  lemma {:induction false} LogOpsWrites(logs: seq<LogEntry>)
    ensures LogWrites(LogOps(logs)) == logs
    ensures TagWrites(LogOps(logs)) == []
    decreases |logs|
  {
    if logs != [] {
      var l := logs[..|logs| - 1];
      LogOpsWrites(l);
      assert LogOps(logs)[..|logs| - 1] == LogOps(l);
      assert logs == l + [logs[|logs| - 1]];
    }
  }

  class Span {
    /** The operation name the driver created the span with, and its start time. */
    const name: string
    const startTime: int
    var tags: seq<Tag>
    var logs: seq<LogEntry>
    var finished: bool
    /** Every call made on the span so far, in order. */
    ghost var history: seq<SpanOp>

    ghost predicate Valid()
      reads this
    {
      && (finished <==> Finish in history)
      && FinishOnlyLast(history)
    }

    constructor (name: string, startTime: int)
      ensures Valid()
      ensures this.name == name && this.startTime == startTime
      ensures tags == [] && logs == [] && !finished && history == []
    {
      this.name := name;
      this.startTime := startTime;
      tags, logs, finished := [], [], false;
      history := [];
    }

    method SetTag(key: string, value: string)
      requires Valid() && !finished
      modifies this
      ensures Valid() && !finished
      ensures tags == old(tags) + [(key, value)] && logs == old(logs)
      ensures history == old(history) + [SpanOp.SetTag(key, value)]
    {
      tags := tags + [(key, value)];
      history := history + [SpanOp.SetTag(key, value)];
      assert history[..|history| - 1] == old(history);
    }

    method Log(time: int, event: string)
      requires Valid() && !finished
      modifies this
      ensures Valid() && !finished
      ensures logs == old(logs) + [(time, event)] && tags == old(tags)
      ensures history == old(history) + [SpanOp.Log(time, event)]
    {
      logs := logs + [(time, event)];
      history := history + [SpanOp.Log(time, event)];
      assert history[..|history| - 1] == old(history);
    }

    /** Terminal: no call may follow. */
    method FinishSpan()
      requires Valid() && !finished
      modifies this
      ensures Valid() && finished
      ensures tags == old(tags) && logs == old(logs)
      ensures history == old(history) + [Finish]
    {
      finished := true;
      history := history + [Finish];
      assert history[..|history| - 1] == old(history);
    }
  }
}
