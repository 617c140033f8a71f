/** What the delta-metrics log promises, over every run: from any configuration and any files on disk,
    through any sequence of samples, rotations, path changes, toggles and limit changes, whatever the
    operating system answers. */
module Theorems {
  import opened Wrappers
  import opened CText
  import opened Metrics
  import opened Flatten
  import opened Encoder
  import opened Reader
  import opened Writer
  import opened Runs

  /** Replay. At any checkpoint or delta: if nothing written was lost, and the counters were clean, since
      the header of the file or the last checkpoint on a line of its own, then folding the reader over
      the lines gives the value of every counter of that sample that found memory in the flattener, and
      of every counter if the record is a checkpoint. */
  lemma Replay(w: State, i: nat)
    requires Reachable(w) && i < |w.log| && IsAnchor(w.log[i]) && Legible(w.log[..i + 1])
    ensures Agrees(ReadLog(w.log[..i + 1]), w.log[i].seen) && IsPart(w.log[i].seen, w.log[i].flat.metrics)
    ensures IsLine(w.log[i], Checkpoint) ==> Agrees(ReadLog(w.log[..i + 1]), w.log[i].flat.metrics)
  {
    ReachableGood(w);
    EventReplays(w.log, i);
    EventGood(w.log, i);
  }

  /** Range. At any such record everything the reader holds, counters that vanished from the samples
      included, is in 0..2^63-1, and a delta reads as differences in 1..2^63-1. */
  lemma ValuesInRange(w: State, i: nat)
    requires Reachable(w) && i < |w.log| && IsAnchor(w.log[i]) && Legible(w.log[..i + 1])
    ensures Bounded(ReadLog(w.log[..i + 1]))
    ensures IsLine(w.log[i], Delta) ==> Counts(w.log[i].text, w.log[i].flat.id.tsMs)
  {
    ReachableGood(w);
    EventReplays(w.log, i);
  }

  lemma EventReplays(log: Log, i: nat)
    requires GoodLog(log) && i < |log| && IsAnchor(log[i]) && Legible(log[..i + 1])
    ensures Agrees(ReadLog(log[..i + 1]), log[i].seen) && Bounded(ReadLog(log[..i + 1]))
    ensures IsLine(log[i], Checkpoint) ==> Agrees(ReadLog(log[..i + 1]), log[i].flat.metrics)
    ensures IsLine(log[i], Delta) ==> Counts(log[i].text, log[i].flat.id.tsMs)
  {
    EventGood(log, i);
    PrefixNext(log, i);
    LastReplays(log[..i], log[i]);
  }

  lemma PrefixNext(log: Log, i: nat)
    requires i < |log|
    ensures log[..i + 1] == log[..i] + [log[i]]
  {
  }

  lemma LastReplays(before: Log, e: Event)
    requires GoodEvent(before, e) && IsAnchor(e) && Legible(before + [e])
    ensures Agrees(ReadLog(before + [e]), e.seen) && Bounded(ReadLog(before + [e]))
    ensures IsLine(e, Checkpoint) ==> Agrees(ReadLog(before + [e]), e.flat.metrics)
    ensures IsLine(e, Delta) ==> Counts(e.text, e.flat.id.tsMs)
  {
    SnocRead(before, e);
  }

  lemma EventGood(log: Log, i: nat)
    requires GoodLog(log) && i < |log|
    ensures GoodEvent(log[..i], log[i])
  {
    assert GoodAt(log, i);
  }

  /** The sample is appended in delta mode without an error, to a log of which nothing was lost. */
  predicate AppendsCleanly(w: State, sample: string, mem: Memory, env: AppendEnv) {
    w.cfg.deltaMetrics && var after := Append(w, sample, mem, env); !after.error && Legible(after.log)
  }

  /** The counter found memory in the flattener, or the sample was written as a checkpoint. */
  ghost predicate Arrives(log: Log, path: string) {
    log != [] && IsAnchor(log[|log| - 1]) && (IsLine(log[|log| - 1], Checkpoint) || Has(log[|log| - 1].seen, path))
  }

  /** Replay after an append. Whatever the run before it: when a sample is appended in delta mode
      without an error, the reader then knows every counter of that very sample that found memory in
      the flattener, and every counter at all if the sample went as a checkpoint. */
  lemma AppendReplays(w: State, sample: string, mem: Memory, env: AppendEnv)
    requires Reachable(w) && AppendsCleanly(w, sample, mem, env)
    ensures FlatSample(sample).Some?
    ensures var log, all := Append(w, sample, mem, env).log, FlatSample(sample).value;
      && Agrees(ReadLog(log), Seen(all, mem).metrics)
      && forall m :: m in all.metrics && Arrives(log, m.path) ==>
           m.path in ReadLog(log) && ReadLog(log)[m.path] == m.value
  {
    ReachableGood(w);
    StepGood(w, DoAppend(sample, mem, env));
    AppendedRecord(w, sample, mem, env);
    LastArrives(Append(w, sample, mem, env).log, sample, mem);
  }

  lemma LastArrives(log: Log, sample: string, mem: Memory)
    requires GoodLog(log) && Legible(log) && FlatSample(sample).Some? && EndsWith(log, sample, mem)
    ensures var all := FlatSample(sample).value;
      && Agrees(ReadLog(log), Seen(all, mem).metrics)
      && forall m :: m in all.metrics && Arrives(log, m.path) ==>
           m.path in ReadLog(log) && ReadLog(log)[m.path] == m.value
  {
    var all := FlatSample(sample).value;
    LastEventReplays(log);
    FlatSampleSound(sample);
    SeenSound(all, mem);
    forall m | m in all.metrics && Has(Seen(all, mem).metrics, m.path) ensures m in Seen(all, mem).metrics {
      PartValue(Seen(all, mem).metrics, all.metrics, m);
    }
  }

  lemma LastEventReplays(log: Log)
    requires GoodLog(log) && log != [] && IsAnchor(log[|log| - 1]) && Legible(log)
    ensures Agrees(ReadLog(log), log[|log| - 1].seen)
    ensures IsLine(log[|log| - 1], Checkpoint) ==> Agrees(ReadLog(log), log[|log| - 1].flat.metrics)
  {
    WholeLog(log);
    EventReplays(log, |log| - 1);
  }

  lemma WholeLog(log: Log)
    ensures log[..|log|] == log
  {
  }

  lemma WrittenRecord(w: State, line: Event, e: AppendEnv)
    requires line.Line? && !WriteRecord(w, line, e).error
    ensures WriteRecord(w, line, e).log == w.log + [line]
  {
  }

  predicate EndsWith(log: Log, sample: string, mem: Memory)
    requires FlatSample(sample).Some?
  {
    var all := FlatSample(sample).value;
    log != [] && IsAnchor(log[|log| - 1]) && log[|log| - 1].flat == all && log[|log| - 1].seen == Seen(all, mem).metrics
  }

  /** A successful append in delta mode ends the log with the record of its sample. */
  lemma AppendedRecord(w: State, sample: string, mem: Memory, e: AppendEnv)
    requires w.cfg.deltaMetrics && !Append(w, sample, mem, e).error
    ensures FlatSample(sample).Some? && EndsWith(Append(w, sample, mem, e).log, sample, mem)
  {
    AppendInDeltaMode(w, sample, mem, e);
    AppendedDelta(Prepare(w, |sample|, e), sample, mem, e);
  }

  lemma AppendInDeltaMode(w: State, sample: string, mem: Memory, e: AppendEnv)
    requires w.cfg.deltaMetrics && !Append(w, sample, mem, e).error
    ensures Append(w, sample, mem, e) == AppendDelta(Prepare(w, |sample|, e), sample, mem, e)
  {
    RotateError(w, e.rotation);
  }

  lemma AppendedDelta(w: State, sample: string, mem: Memory, e: AppendEnv)
    requires !AppendDelta(w, sample, mem, e).error
    ensures FlatSample(sample).Some? && EndsWith(AppendDelta(w, sample, mem, e).log, sample, mem)
  {
    var interval := w.cfg.checkpointIntervalMs;
    var (enc, out) := Encode(w.enc, interval, sample, mem).value;
    var all := FlatSample(sample).value;
    var seen := Seen(all, mem).metrics;
    var record := Line(if out.checkpoint then Checkpoint else Delta, out.record, all, seen, interval);
    if out.event.None? {
      RecordEnds(w.(enc := enc), record, e, sample, mem);
    } else {
      var restart := Line(Restart, out.event.value, all, seen, interval);
      RecordEnds(Write(w.(enc := enc), restart, e.eventWrite), record, e, sample, mem);
    }
  }

  lemma RecordEnds(w: State, record: Event, e: AppendEnv, sample: string, mem: Memory)
    requires FlatSample(sample).Some? && IsAnchor(record) && !WriteRecord(w, record, e).error
    requires record.flat == FlatSample(sample).value && record.seen == Seen(FlatSample(sample).value, mem).metrics
    ensures EndsWith(WriteRecord(w, record, e).log, sample, mem)
  {
    WrittenRecord(w, record, e);
  }

  /** A sample the flattener rejects, or whose records find no memory, is not written, and leaves the
      table, the identity and the last checkpoint time of the encoder alone; only a rotation before it
      may have asked for a checkpoint. */
  lemma RejectedSample(w: State, sample: string, mem: Memory, e: AppendEnv)
    requires w.cfg.deltaMetrics && (FlatSample(sample).None? || !mem.built)
    ensures var after := Append(w, sample, mem, e);
      && after.error
      && (after.enc == w.enc || after.enc == w.enc.(needCheckpoint := true))
      && (!ShouldRotate(w, |sample|, e.now) ==> after == w.(error := true))
      && (after.log == w.log || after.log == w.log + HeaderEvents(w.cfg, e.rotation))
  {
    RotateShape(w, e.rotation);
    RotateError(w, e.rotation);
    var ready := Prepare(w, |sample|, e);
    if Prepared(w, |sample|, e) {
      RejectedDelta(ready, sample, mem, e);
    }
  }

  lemma RejectedDelta(w: State, sample: string, mem: Memory, e: AppendEnv)
    requires FlatSample(sample).None? || !mem.built
    ensures AppendDelta(w, sample, mem, e) == w.(error := true)
  {
  }

  /** Segments. From a checkpoint or delta on, through everything that does not end its segment (deltas,
      written or lost, failed flushes, headers after which retention failed), the process is the same,
      its uptime does not decrease, and the counters the encoder sees only vanish or grow. */
  lemma Segments(w: State, i: nat, j: nat)
    requires Reachable(w) && i < j < |w.log| && IsAnchor(w.log[i]) && IsLine(w.log[j], Delta)
    requires forall k :: i < k < j ==> Extends(w.log[k])
    ensures Follows(SeenFlat(w.log[i]), SeenFlat(w.log[j]))
  {
    ReachableGood(w);
    SegmentFollows(w.log, i, j);
  }

  /** Back from a delta over the records of its segment. */
  lemma {:induction false} SegmentFollows(log: Log, i: nat, j: nat)
    requires GoodLog(log) && i < j < |log| && IsAnchor(log[i]) && IsLine(log[j], Delta)
    requires forall k :: i < k < j ==> Extends(log[k])
    ensures Follows(SeenFlat(log[i]), SeenFlat(log[j]))
    decreases j
  {
    EventGood(log, j);
    var a := AnchorIndex(log, i, j);
    if i < a {
      SegmentFollows(log, i, a);
      FollowsTransitive(SeenFlat(log[i]), SeenFlat(log[a]), SeenFlat(log[j]));
    }
  }

  lemma {:induction false} AnchorIndex(log: Log, i: nat, j: nat) returns (a: nat)
    requires i < j <= |log| && IsAnchor(log[i]) && forall k :: i < k < j ==> Extends(log[k])
    ensures i <= a < j && LastAnchor(log[..j]) == Some(log[a]) && (i < a ==> IsLine(log[a], Delta))
    decreases j
  {
    assert log[..j][..j - 1] == log[..j - 1] && log[..j][j - 1] == log[j - 1];
    if IsAnchor(log[j - 1]) {
      a := j - 1;
    } else {
      a := AnchorIndex(log, i, j - 1);
    }
  }

  lemma FollowsTransitive(a: Flat, b: Flat, c: Flat)
    requires Follows(a, b) && Follows(b, c)
    ensures Follows(a, c)
  {
    forall m | m in c.metrics ensures Get(a.metrics, m.path).Some? && Get(a.metrics, m.path).value <= m.value {
      GetHas(b.metrics, m.path);
    }
  }

  /** Where deltas and restarts come. A delta directly follows a checkpoint or a delta; a restart does
      too, and is itself directly followed by a checkpoint. The exceptions are a failed write, and the
      header of a file after which retention failed. */
  lemma RecordOrder(w: State, i: nat)
    requires Reachable(w) && i < |w.log|
    ensures var log := w.log;
      && (IsLine(log[i], Delta) || IsLine(log[i], Restart) ==> i > 0 && MayContinue(log[i - 1]))
      && (IsLine(log[i], Restart) ==> i + 1 < |log| && (IsLine(log[i + 1], Checkpoint) || log[i + 1].Broken?))
  {
    ReachableGood(w);
    EventOrder(w.log, i);
    if i + 1 < |w.log| {
      EventOrder(w.log, i + 1);
    }
  }

  lemma EventOrder(log: Log, i: nat)
    requires GoodLog(log) && i < |log|
    ensures IsLine(log[i], Delta) || IsLine(log[i], Restart) ==> i > 0 && MayContinue(log[i - 1])
    ensures i > 0 && IsLine(log[i - 1], Restart) ==> IsLine(log[i], Checkpoint) || log[i].Broken?
  {
    EventGood(log, i);
    assert i > 0 ==> log[..i][i - 1] == log[i - 1];
  }

  /** The first record of a file, of a path and of a delta mode. After the header of a file opened with
      retention working, or after a reset, and nothing of delta mode since, the next thing of delta mode
      is a checkpoint, written or lost. */
  lemma FirstRecord(w: State, i: nat, j: nat)
    requires Reachable(w) && i < j < |w.log| && (IsStart(w.log[i]) || w.log[i].ResetMark?)
    requires (forall k :: i < k < j ==> Quiet(w.log[k])) && !Quiet(w.log[j])
    ensures IsKind(w.log[j], Checkpoint)
  {
    ReachableGood(w);
    EventGood(w.log, j);
    StaysPending(w.log, i, j);
    LoudKinds(w.log[j]);
  }

  lemma LoudKinds(e: Event)
    requires !Quiet(e)
    ensures IsKind(e, Checkpoint) || IsKind(e, Delta) || IsKind(e, Restart)
  {
    if e.Broken? {
      match e.lost.value
      case Checkpoint => assert IsKind(e, Checkpoint);
      case Delta => assert IsKind(e, Delta);
      case Restart => assert IsKind(e, Restart);
    }
  }

  lemma {:induction false} StaysPending(log: Log, i: nat, j: nat)
    requires i < j <= |log| && (IsStart(log[i]) || log[i].ResetMark?) && forall k :: i < k < j ==> Quiet(log[k])
    ensures Pending(log[..j])
    decreases j
  {
    assert log[..j][..j - 1] == log[..j - 1] && log[..j][j - 1] == log[j - 1];
    if i < j - 1 {
      StaysPending(log, i, j - 1);
    }
  }

  /** The checkpoint interval. Every delta counts from a checkpoint, back over the deltas before it, over
      failed flushes and over headers after which retention failed. If that checkpoint is on disk and
      the interval in force is positive, the delta is less than the interval younger than it. */
  lemma CheckpointInterval(w: State, i: nat)
    requires Reachable(w) && i < |w.log| && IsLine(w.log[i], Delta)
    ensures !Segment(w.log[..i]).Nowhere?
    ensures Segment(w.log[..i]).Written? && w.log[i].interval > 0 ==> InInterval(w.log[i], Segment(w.log[..i]).tsMs)
  {
    ReachableGood(w);
    EventInTime(w.log, i);
  }

  predicate InInterval(e: Event, checkpointMs: int)
    requires e.Line?
  {
    var age := e.flat.id.tsMs - checkpointMs;
    Wrap(age) < e.interval && (InRange(age) ==> age < e.interval)
  }

  lemma EventInTime(log: Log, i: nat)
    requires GoodLog(log) && i < |log| && IsLine(log[i], Delta)
    ensures !Segment(log[..i]).Nowhere?
    ensures Segment(log[..i]).Written? && log[i].interval > 0 ==> InInterval(log[i], Segment(log[..i]).tsMs)
  {
    EventGood(log, i);
    if Segment(log[..i]).Written? {
      WrapExact(log[i].flat.id.tsMs - Segment(log[..i]).tsMs);
    }
  }

  /** What `Segment` finds: from the checkpoint at `k`, nothing but deltas, written or lost, failed
      flushes and headers after which retention failed. */
  lemma {:induction false} SegmentStart(log: Log)
    requires Segment(log).Written?
    ensures exists k :: OpensSegment(log, k) && log[k].flat.id.tsMs == Segment(log).tsMs
  {
    var before, e := log[..|log| - 1], log[|log| - 1];
    if IsLine(e, Checkpoint) {
      assert OpensSegment(log, |log| - 1);
    } else {
      SegmentStart(before);
      var k :| OpensSegment(before, k) && before[k].flat.id.tsMs == Segment(before).tsMs;
      assert forall j :: k < j < |before| ==> log[j] == before[j];
      assert OpensSegment(log, k);
    }
  }

  predicate OpensSegment(log: Log, k: int) {
    0 <= k < |log| && IsLine(log[k], Checkpoint) && forall j :: k < j < |log| ==> Extends(log[j])
  }
}
