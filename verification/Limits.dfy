/** Where a promise of the documentation or a natural expectation ends: the exact conditions. */
module Limits {
  import opened Wrappers
  import opened CText
  import opened Metrics
  import opened Flatten
  import opened Encoder
  import opened Reader
  import opened Writer
  import opened Runs

  // ----- memory --------------------------------------------------------------------------------------------

  /** What moves the encoder: a sample, a rotation, a reset. */
  datatype Move = Sampled(flat: Flat, interval: int, mem: Memory) | Rotated | Restarted

  function Moved(st: DeltaState, move: Move): DeltaState {
    match move
    case Sampled(flat, interval, mem) => Advance(st, interval, Seen(flat, mem), mem.kept)
    case Rotated => st.(needCheckpoint := true)
    case Restarted => Reset(st)
  }

  function MovedAll(st: DeltaState, moves: seq<Move>): DeltaState {
    if moves == [] then st else Moved(MovedAll(st, moves[..|moves| - 1]), moves[|moves| - 1])
  }

  /** In no sample among the moves does the encoder see the counter: the sample lacks it or dropped it. */
  ghost predicate Lack(moves: seq<Move>, path: string) {
    forall move :: move in moves && move.Sampled? ==> !Has(Seen(move.flat, move.mem).metrics, path)
  }

  lemma {:induction false} AbsentStays(st: DeltaState, moves: seq<Move>, path: string)
    requires !Has(st.table, path) && Lack(moves, path)
    ensures !Has(MovedAll(st, moves).table, path)
  {
    if moves != [] {
      var init, last := moves[..|moves| - 1], moves[|moves| - 1];
      assert last in moves;
      AbsentStays(st, init, path);
      if last.Sampled? {
        PrefixLacks(Seen(last.flat, last.mem).metrics, last.mem.kept, path);
      }
    }
  }

  lemma PrefixLacks(metrics: seq<Metric>, kept: nat, path: string)
    requires !Has(metrics, path)
    ensures kept <= |metrics| ==> !Has(metrics[..kept], path)
  {
    if kept <= |metrics| {
      assert forall i :: 0 <= i < kept ==> metrics[..kept][i] == metrics[i];
    }
  }

  lemma AbsentForces(st: DeltaState, interval: int, flat: Flat, path: string)
    requires !Has(st.table, path) && Has(flat.metrics, path)
    ensures !EmitsDelta(st, interval, flat)
  {
    GetHas(st.table, path);
    var j :| 0 <= j < |flat.metrics| && flat.metrics[j].path == path;
    assert flat.metrics[j] in flat.metrics;
  }

  /** A counter that found no memory, in the flattener or in the table, is absent from the table, through
      samples in which the encoder does not see it, rotations and resets; so the next sample in which it
      does gets a checkpoint, whatever else it holds. */
  lemma LeftOutForcesCheckpoint(st: DeltaState, interval: int, flat: Flat, mem: Memory, moves: seq<Move>,
                                next: Flat, nextMem: Memory, nextInterval: int, path: string)
    requires !Has(Moved(st, Sampled(flat, interval, mem)).table, path) && Lack(moves, path)
    requires Has(Seen(next, nextMem).metrics, path)
    ensures !EmitsDelta(MovedAll(Moved(st, Sampled(flat, interval, mem)), moves), nextInterval, Seen(next, nextMem))
  {
    var left := Moved(st, Sampled(flat, interval, mem));
    AbsentStays(left, moves, path);
    AbsentForces(MovedAll(left, moves), nextInterval, Seen(next, nextMem), path);
  }

  /** That is the case of every counter dropped by the flattener, and of every one past what the table
      could keep. */
  lemma LeftOut(st: DeltaState, interval: int, flat: Flat, mem: Memory, path: string)
    requires Sound(flat)
    requires !Has(Seen(flat, mem).metrics, path) ||
             exists i :: mem.kept <= i < |Seen(flat, mem).metrics| && Seen(flat, mem).metrics[i].path == path
    ensures !Has(Moved(st, Sampled(flat, interval, mem)).table, path)
  {
    SeenSound(flat, mem);
    if !Has(Seen(flat, mem).metrics, path) {
      PrefixLacks(Seen(flat, mem).metrics, mem.kept, path);
    }
  }

  // ----- lost writes ----------------------------------------------------------------------------------------

  /** A sample that gets a delta, written or lost. */
  datatype Delivery = Delivery(flat: Flat, interval: int, mem: Memory, written: bool)

  function SeenIn(d: Delivery): Flat {
    Seen(d.flat, d.mem)
  }

  function EncodedAll(st: DeltaState, ds: seq<Delivery>): DeltaState {
    if ds == [] then st
    else
      var d := ds[|ds| - 1];
      Advance(EncodedAll(st, ds[..|ds| - 1]), d.interval, SeenIn(d), d.mem.kept)
  }

  /** Every delivery is a delta on clean counters, and the counter stays in the table. */
  ghost predicate Deltas(st: DeltaState, ds: seq<Delivery>, path: string) {
    ds == [] ||
    var init, d := ds[..|ds| - 1], ds[|ds| - 1];
    && Deltas(st, init, path) && Sound(d.flat) && Clean(SeenIn(d).metrics)
    && EmitsDelta(EncodedAll(st, init), d.interval, SeenIn(d)) && Has(EncodedAll(st, ds).table, path)
  }

  /** The reader folded over the deltas that were written. */
  function Delivered(values: Values, st: DeltaState, ds: seq<Delivery>, path: string): Values
    requires Deltas(st, ds, path)
  {
    if ds == [] then values
    else
      var init, d := ds[..|ds| - 1], ds[|ds| - 1];
      var before := Delivered(values, st, init, path);
      var diffs := Diffs(SeenIn(d).metrics, EncodedAll(st, init).table);
      if d.written then ReadLine(DeltaText(d.flat.id.tsMs, diffs), before) else before
  }

  function ValueIn(st: DeltaState, path: string): int {
    if Get(st.table, path).Some? then Get(st.table, path).value else 0
  }

  /** The sum of the differences that were lost. */
  function LostSum(st: DeltaState, ds: seq<Delivery>, path: string): int {
    if ds == [] then 0
    else
      var init := ds[..|ds| - 1];
      LostSum(st, init, path) +
      if ds[|ds| - 1].written then 0 else ValueIn(EncodedAll(st, ds), path) - ValueIn(EncodedAll(st, init), path)
  }

  /** Through any deltas of a segment, written or lost: what the reader is off by at the end is what it was
      off by at the start, plus the sum of the lost differences. So a reader that was right is right again
      exactly when they sum up to zero. */
  lemma {:induction false} LostDifferences(values: Values, st: DeltaState, ds: seq<Delivery>, path: string)
    requires Deltas(st, ds, path) && Clean(st.table) && Has(st.table, path)
    ensures var after := Current(Delivered(values, st, ds, path), path);
      && ValueIn(EncodedAll(st, ds), path) - after == ValueIn(st, path) - Current(values, path) + LostSum(st, ds, path)
      && (Current(values, path) == ValueIn(st, path) ==>
            (after == ValueIn(EncodedAll(st, ds), path) <==> LostSum(st, ds, path) == 0))
    ensures Clean(EncodedAll(st, ds).table)
  {
    if ds != [] {
      var init, d := ds[..|ds| - 1], ds[|ds| - 1];
      LostDifferences(values, st, init, path);
      OneDelivery(Delivered(values, st, init, path), EncodedAll(st, init), d, path);
    }
  }

  lemma OneDelivery(values: Values, st: DeltaState, d: Delivery, path: string)
    requires Sound(d.flat) && Clean(SeenIn(d).metrics) && Clean(st.table)
    requires EmitsDelta(st, d.interval, SeenIn(d)) && Has(Advance(st, d.interval, SeenIn(d), d.mem.kept).table, path)
    ensures var after := Advance(st, d.interval, SeenIn(d), d.mem.kept);
      && Clean(after.table)
      && Current(ReadLine(DeltaText(d.flat.id.tsMs, Diffs(SeenIn(d).metrics, st.table)), values), path) ==
         Current(values, path) + ValueIn(after, path) - ValueIn(st, path)
  {
    var seen := SeenIn(d);
    var table := Advance(st, d.interval, seen, d.mem.kept).table;
    SeenSound(d.flat, d.mem);
    GetHas(table, path);
    var m := Metric(path, Get(table, path).value);
    assert m in seen.metrics;
    DeltaShifts(st, seen, values, m);
  }

  // ----- the next record -------------------------------------------------------------------------------------

  /** In every reachable state, whatever rotations, toggles, limit changes, rejected samples and failures
      led there, and for every append that needs no rotation first and adds to the log: the first thing it
      adds is a checkpoint exactly when delta mode is on, its write succeeds, and a checkpoint is pending
      since the header or a reset, or the encoder would neither write a delta nor find a new process. */
  lemma NextIsCheckpoint(w: State, sample: string, mem: Memory, e: AppendEnv)
    requires Reachable(w) && !ShouldRotate(w, |sample|, e.now) && |Append(w, sample, mem, e).log| > |w.log|
    ensures var log := Append(w, sample, mem, e).log;
      log[..|w.log|] == w.log && (IsLine(log[|w.log|], Checkpoint) <==> CheckpointNext(w, sample, mem, e))
  {
    ReachableGood(w);
    if w.cfg.deltaMetrics {
      DeltaAdds(w, sample, mem, e);
      AppendsRecords(w, sample, mem, e);
      if Pending(w.log) {
        PendingForces(w, sample, mem);
      }
    } else {
      SnapshotAdds(w, sample, mem, e);
    }
  }

  predicate CheckpointNext(w: State, sample: string, mem: Memory, e: AppendEnv) {
    w.cfg.deltaMetrics && e.recordWrite.Whole? && FlatSample(sample).Some? &&
    var interval, id := w.cfg.checkpointIntervalMs, FlatSample(sample).value.id;
    Pending(w.log) || (!GetsDelta(w.enc, interval, sample, mem) && !Boundary(w.enc, interval, id))
  }

  lemma DeltaAdds(w: State, sample: string, mem: Memory, e: AppendEnv)
    requires w.cfg.deltaMetrics && !ShouldRotate(w, |sample|, e.now) && |Append(w, sample, mem, e).log| > |w.log|
    ensures FlatSample(sample).Some? && mem.built
  {
  }

  lemma PendingForces(w: State, sample: string, mem: Memory)
    requires Good(w) && FlatSample(sample).Some? && Pending(w.log)
    ensures var interval, id := w.cfg.checkpointIntervalMs, FlatSample(sample).value.id;
      !GetsDelta(w.enc, interval, sample, mem) && !Boundary(w.enc, interval, id)
  {
  }

  lemma SnapshotAdds(w: State, sample: string, mem: Memory, e: AppendEnv)
    requires !w.cfg.deltaMetrics && !ShouldRotate(w, |sample|, e.now) && |Append(w, sample, mem, e).log| > |w.log|
    ensures var log := Append(w, sample, mem, e).log;
      log[..|w.log|] == w.log && Quiet(log[|w.log|])
  {
    assert Append(w, sample, mem, e) == AppendSnapshot(w, sample, e);
    if ShouldRotate(w, |sample|, e.later) {
      RotateShape(w, e.second);
      WritesLine(Rotate(w, e.second), SnapshotLine(w, ""), e);
    } else {
      WritesLine(w, SnapshotLine(w, sample), e);
    }
  }

  /** What an append in delta mode adds to the log when no rotation is asked for. */
  function Recorded(w: State, sample: string, mem: Memory, e: AppendEnv): (events: Log)
    requires FlatSample(sample).Some?
    ensures events != []
  {
    var interval, id := w.cfg.checkpointIntervalMs, FlatSample(sample).value.id;
    var record := RecordOf(w.enc, interval, sample, mem);
    if !Boundary(w.enc, interval, id) then LineOrLoss(record, e)
    else if e.eventWrite.Part? then [Broken(Some(Restart))]
    else [RestartOf(w.enc, interval, sample, mem)] + LineOrLoss(record, e)
  }

  function LineOrLoss(line: Event, e: AppendEnv): (events: Log)
    requires line.Line?
    ensures events != []
  {
    if e.recordWrite.Part? then [Broken(Some(line.kind))] else if e.flushed then [line] else [line, Broken(None)]
  }

  lemma AppendsRecords(w: State, sample: string, mem: Memory, e: AppendEnv)
    requires w.cfg.deltaMetrics && FlatSample(sample).Some? && mem.built && !ShouldRotate(w, |sample|, e.now)
    ensures var after := Append(w, sample, mem, e);
      && after.log == w.log + Recorded(w, sample, mem, e)
      && after.enc == After(w.enc, w.cfg.checkpointIntervalMs, sample, mem)
      && after.open == w.open && after.openedMs == w.openedMs && after.cfg == w.cfg
  {
    assert Append(w, sample, mem, e) == AppendDelta(w, sample, mem, e);
    DeltaRecords(w, sample, mem, e);
  }

  lemma DeltaRecords(w: State, sample: string, mem: Memory, e: AppendEnv)
    requires FlatSample(sample).Some? && mem.built
    ensures var after := AppendDelta(w, sample, mem, e);
      && after.log == w.log + Recorded(w, sample, mem, e)
      && after.enc == After(w.enc, w.cfg.checkpointIntervalMs, sample, mem)
      && after.open == w.open && after.openedMs == w.openedMs && after.cfg == w.cfg
  {
    var interval := w.cfg.checkpointIntervalMs;
    var ready := w.(enc := After(w.enc, interval, sample, mem));
    var record := RecordOf(w.enc, interval, sample, mem);
    if !Boundary(w.enc, interval, FlatSample(sample).value.id) {
      WritesLine(ready, record, e);
    } else {
      WritesTwo(ready, RestartOf(w.enc, interval, sample, mem), record, e);
    }
  }

  lemma WritesTwo(w: State, restart: Event, record: Event, e: AppendEnv)
    requires IsLine(restart, Restart) && record.Line?
    ensures var written := Write(w, restart, e.eventWrite);
      var after := if e.eventWrite.Whole? then WriteRecord(written, record, e) else written;
      && after.log ==
         w.log + (if e.eventWrite.Part? then [Broken(Some(Restart))] else [restart] + LineOrLoss(record, e))
      && after.enc == w.enc && after.open == w.open && after.openedMs == w.openedMs && after.cfg == w.cfg
  {
    if e.eventWrite.Whole? {
      WritesLine(Write(w, restart, e.eventWrite), record, e);
      assert w.log + [restart] + LineOrLoss(record, e) == w.log + ([restart] + LineOrLoss(record, e));
    }
  }

  lemma WritesLine(w: State, line: Event, e: AppendEnv)
    requires line.Line?
    ensures var after := WriteRecord(w, line, e);
      && after.log == w.log + LineOrLoss(line, e)
      && after.enc == w.enc && after.open == w.open && after.openedMs == w.openedMs && after.cfg == w.cfg
  {
    assert w.log + [line] + [Broken(None)] == w.log + [line, Broken(None)];
  }

  // ----- differences -----------------------------------------------------------------------------------------

  /** For every counter that did not go down: the difference printed is the true one exactly when it fits
      a long long, which counters that are not negative always do. */
  lemma DifferenceExact(m: Metric, table: seq<Metric>)
    requires Get(table, m.path).Some? && Get(table, m.path).value <= m.value
    ensures var d := m.value - Get(table, m.path).value;
      (DiffOf(m, table) == if d == 0 then [] else [Metric(m.path, d)]) <==> InRange(d)
  {
    WrapExact(m.value - Get(table, m.path).value);
  }
}
