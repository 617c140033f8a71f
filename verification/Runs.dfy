/** What holds of the log over every run of the writer. */
module Runs {
  import opened Wrappers
  import opened CText
  import opened Metrics
  import opened Flatten
  import opened Encoder
  import opened Reader
  import opened Writer

  // ----- reading a log ---------------------------------------------------------------------------

  predicate IsLine(e: Event, kind: Kind) {
    e.Line? && e.kind == kind
  }

  /** A record that carries counters in delta mode. */
  predicate IsAnchor(e: Event) {
    IsLine(e, Checkpoint) || IsLine(e, Delta)
  }

  /** The header of a file whose opening went well, retention included. Reading can start there. */
  predicate IsStart(e: Event) {
    e.Opened? && e.swept
  }

  /** The last line of the file may lack its end, because a write or a flush failed there. */
  predicate Ragged(log: Log) {
    log != [] &&
    var e := log[|log| - 1];
    e.Broken? || (e.ResetMark? && Ragged(log[..|log| - 1]))
  }

  /** After this event a reader is right whatever it knew: a header opened well, or a checkpoint on a
      line of its own. */
  predicate Resyncs(log: Log, e: Event) {
    IsStart(e) || (IsLine(e, Checkpoint) && !Ragged(log))
  }

  /** No write and no flush failed since the reader could last start or resynchronise. */
  predicate Intact(log: Log) {
    log == [] ||
    var before, e := log[..|log| - 1], log[|log| - 1];
    Resyncs(before, e) || (!e.Broken? && Intact(before))
  }

  /** Every counter the encoder saw since then can be printed without escapes and is not negative. */
  predicate CleanLog(log: Log) {
    log == [] ||
    var before, e := log[..|log| - 1], log[|log| - 1];
    (e.Line? ==> Clean(e.flat.metrics)) && (Resyncs(before, e) || CleanLog(before))
  }

  predicate Legible(log: Log) {
    Intact(log) && CleanLog(log)
  }

  /** The reader folded over the lines of the log. It starts afresh, knowing nothing, at every start. */
  function ReadLog(log: Log): Values {
    if log == [] then map[]
    else
      var before, e := ReadLog(log[..|log| - 1]), log[|log| - 1];
      if e.Line? then ReadLine(e.text, before)
      else if IsStart(e) then map[]
      else before
  }

  /** The checkpoint a delta written next would count from: on disk, with its timestamp; or lost to a
      failed write. */
  datatype Origin = Written(tsMs: int) | Lost | Nowhere

  /** Back over deltas, written or lost, failed flushes and headers after which retention failed. */
  function Segment(log: Log): Origin {
    if log == [] then Nowhere
    else
      var before, e := log[..|log| - 1], log[|log| - 1];
      if IsLine(e, Checkpoint) then Written(e.flat.id.tsMs)
      else if e.Broken? && (e.lost == Some(Checkpoint) || e.lost == Some(Restart)) then Lost
      else if Extends(e) then Segment(before)
      else Nowhere
  }

  /** The segment goes on: its checkpoint is the one before. */
  predicate Extends(e: Event) {
    || IsLine(e, Delta)
    || (e.Broken? && (e.lost.None? || e.lost == Some(Delta)))
    || (e.Opened? && !IsStart(e))
  }

  /** The last record with counters before the end of the log, in the same segment. */
  function LastAnchor(log: Log): (a: Option<Event>)
    ensures a.Some? ==> IsAnchor(a.value)
  {
    if log == [] then None
    else
      var before, e := log[..|log| - 1], log[|log| - 1];
      if IsAnchor(e) then Some(e) else if Extends(e) then LastAnchor(before) else None
  }

  /** A checkpoint is pending: since the last header of a file opened well, or the last reset, nothing of
      delta mode was written or lost. So it is before anything was. */
  predicate Pending(log: Log) {
    log == [] ||
    var before, e := log[..|log| - 1], log[|log| - 1];
    IsStart(e) || e.ResetMark? || (Quiet(e) && Pending(before))
  }

  /** Not a record of delta mode, written or lost. */
  predicate Quiet(e: Event) {
    match e
    case Opened(_, _, _) => true
    case Line(kind, _, _, _, _) => kind == Snapshot
    case Broken(lost) => lost.None? || lost == Some(Snapshot)
    case ResetMark => true
  }

  predicate IsKind(e: Event, kind: Kind) {
    IsLine(e, kind) || (e.Broken? && e.lost == Some(kind))
  }

  /** What a delta or a restart may follow: a checkpoint or a delta; otherwise only something that
      went wrong, a failed write or the header of a file after which retention failed. */
  predicate MayContinue(e: Event) {
    IsAnchor(e) || e.Broken? || (e.Opened? && !IsStart(e))
  }

  /** The later sample is of the same process, not older by its uptime, has no counter the earlier
      one lacks, and no counter below its earlier value. */
  predicate Follows(before: Flat, after: Flat) {
    && after.id.runId == before.id.runId
    && after.id.processId == before.id.processId
    && after.id.uptime >= before.id.uptime
    && forall m :: m in after.metrics ==>
         Get(before.metrics, m.path).Some? && Get(before.metrics, m.path).value <= m.value
  }

  /** The sample of a record as the encoder saw it. */
  function SeenFlat(e: Event): Flat
    requires e.Line?
  {
    e.flat.(metrics := e.seen)
  }

  predicate InOrder(log: Log, e: Event) {
    && (IsLine(e, Delta) || IsLine(e, Restart) ==> log != [] && MayContinue(log[|log| - 1]))
    && (log != [] && IsLine(log[|log| - 1], Restart) ==> IsLine(e, Checkpoint) || e.Broken?)
    && (Pending(log) ==> !IsKind(e, Delta) && !IsKind(e, Restart))
  }

  predicate SameProcess(log: Log, e: Event) {
    IsLine(e, Delta) && LastAnchor(log).Some? ==> Follows(SeenFlat(LastAnchor(log).value), SeenFlat(e))
  }

  /** Read after the legible lines before it, the record gives the counters of its sample that the
      encoder saw, and all of them if it is a checkpoint; what the reader holds then is bounded, and so
      is every difference. */
  ghost predicate Replays(log: Log, e: Event) {
    IsAnchor(e) && Legible(log + [e]) ==>
      && Agrees(ReadLine(e.text, ReadLog(log)), e.seen)
      && (IsLine(e, Checkpoint) ==> Agrees(ReadLine(e.text, ReadLog(log)), e.flat.metrics))
      && Bounded(ReadLine(e.text, ReadLog(log)))
      && (IsLine(e, Delta) ==> Counts(e.text, e.flat.id.tsMs))
  }

  /** What the encoder saw is some of what the sample holds. */
  predicate Sees(e: Event) {
    IsAnchor(e) ==> IsPart(e.seen, e.flat.metrics)
  }

  /** What a checkpoint leaves with the reader does not depend on what the reader knew. */
  predicate Absolute(e: Event) {
    IsLine(e, Checkpoint) ==> ReadRecord(e.text).Load? || ReadRecord(e.text).Unreadable?
  }

  /** A delta counts from some checkpoint, and is less than the interval younger than it if it is on disk. */
  predicate InTime(log: Log, e: Event) {
    IsLine(e, Delta) ==>
      && !Segment(log).Nowhere?
      && (Segment(log).Written? && e.interval > 0 ==> Wrap(e.flat.id.tsMs - Segment(log).tsMs) < e.interval)
  }

  /** What is true of every event, given the events before it. */
  ghost predicate GoodEvent(log: Log, e: Event) {
    InOrder(log, e) && SameProcess(log, e) && Replays(log, e) && InTime(log, e) && Absolute(e) && Sees(e)
  }

  ghost predicate GoodAt(log: Log, i: nat)
    requires i < |log|
  {
    GoodEvent(log[..i], log[i])
  }

  ghost predicate GoodLog(log: Log) {
    forall i :: 0 <= i < |log| ==> GoodAt(log, i)
  }

  /** The encoder's last checkpoint time is that of the checkpoint on disk that the next delta would
      count from, and there is one, unless it was lost, whenever a delta can come. */
  predicate Timed(enc: DeltaState, log: Log) {
    && (Segment(log).Written? ==> enc.lastCheckpointMs == Segment(log).tsMs)
    && (!enc.needCheckpoint && enc.last.valid ==> !Segment(log).Nowhere?)
  }

  /** The encoder goes on from the last record of its segment, or from samples that followed it. */
  predicate Ahead(enc: DeltaState, log: Log) {
    LastAnchor(log).Some? ==> Goes(LastAnchor(log).value, enc)
  }

  predicate Goes(a: Event, enc: DeltaState)
    requires a.Line?
  {
    && enc.last.runId == a.flat.id.runId && enc.last.processId == a.flat.id.processId
    && enc.last.uptime >= a.flat.id.uptime
    && forall m :: m in enc.table ==> Get(a.seen, m.path).Some? && Get(a.seen, m.path).value <= m.value
  }

  /** Right after a record the encoder has the identity of its sample, and as many of the counters it saw
      as the table took. */
  predicate UpToDate(enc: DeltaState, log: Log) {
    log != [] && IsAnchor(log[|log| - 1]) ==> enc.last == log[|log| - 1].flat.id && enc.table <= log[|log| - 1].seen
  }

  /** What holds between encoder and log whatever was lost. */
  predicate Tied(enc: DeltaState, log: Log) {
    && Timed(enc, log) && Ahead(enc, log) && enc.needCheckpoint == Pending(log)
    && UpToDate(enc, log) && Distinct(enc.table)
  }

  /** What ties the encoder to the log. Unless a checkpoint is pending, the table is part of what a
      reader of the log knows; it is not all of it, since a counter that vanished from the samples
      stays with the reader. */
  ghost predicate Linked(enc: DeltaState, deltaMode: bool, log: Log) {
    && (!deltaMode ==> enc.table == [] && enc.needCheckpoint)
    && (!enc.needCheckpoint && enc.last.valid ==> log != [] && MayContinue(log[|log| - 1]))
    && (log != [] ==> !IsLine(log[|log| - 1], Restart))
    && (Legible(log) && !enc.needCheckpoint ==>
          Agrees(ReadLog(log), enc.table) && Clean(enc.table) && Bounded(ReadLog(log)))
    && Tied(enc, log)
  }

  ghost predicate Ok(enc: DeltaState, deltaMode: bool, log: Log) {
    GoodLog(log) && Linked(enc, deltaMode, log)
  }

  // ----- one event more --------------------------------------------------------------------------

  lemma Snoc(log: Log, e: Event)
    ensures (log + [e])[..|log|] == log && (log + [e])[|log|] == e
    ensures Intact(log + [e]) == (Resyncs(log, e) || (!e.Broken? && Intact(log)))
    ensures CleanLog(log + [e]) == ((e.Line? ==> Clean(e.flat.metrics)) && (Resyncs(log, e) || CleanLog(log)))
    ensures ReadLog(log + [e]) ==
            if e.Line? then ReadLine(e.text, ReadLog(log)) else if IsStart(e) then map[] else ReadLog(log)
  {
    SnocIntact(log, e);
    SnocClean(log, e);
    SnocRead(log, e);
  }

  lemma SnocRead(log: Log, e: Event)
    ensures ReadLog(log + [e]) ==
            if e.Line? then ReadLine(e.text, ReadLog(log)) else if IsStart(e) then map[] else ReadLog(log)
  {
    assert (log + [e])[..|log|] == log;
  }

  function Segmented(log: Log, e: Event): Origin {
    if IsLine(e, Checkpoint) then Written(e.flat.id.tsMs)
    else if e.Broken? && (e.lost == Some(Checkpoint) || e.lost == Some(Restart)) then Lost
    else if Extends(e) then Segment(log)
    else Nowhere
  }

  /** The checkpoint, the last record and the pending checkpoint, one event later. */
  lemma SnocTied(log: Log, e: Event)
    ensures Segment(log + [e]) == Segmented(log, e)
    ensures LastAnchor(log + [e]) == if IsAnchor(e) then Some(e) else if Extends(e) then LastAnchor(log) else None
    ensures Pending(log + [e]) == (IsStart(e) || e.ResetMark? || (Quiet(e) && Pending(log)))
  {
    assert (log + [e])[..|log|] == log;
  }

  lemma SnocIntact(log: Log, e: Event)
    ensures Intact(log + [e]) == (Resyncs(log, e) || (!e.Broken? && Intact(log)))
  {
    assert (log + [e])[..|log|] == log;
  }

  lemma SnocClean(log: Log, e: Event)
    ensures CleanLog(log + [e]) == ((e.Line? ==> Clean(e.flat.metrics)) && (Resyncs(log, e) || CleanLog(log)))
  {
    assert (log + [e])[..|log|] == log;
  }

  lemma GoodSnoc(log: Log, e: Event)
    requires GoodLog(log) && GoodEvent(log, e)
    ensures GoodLog(log + [e])
  {
    var next := log + [e];
    forall i | 0 <= i < |next| ensures GoodAt(next, i) {
      if i < |log| {
        assert GoodAt(log, i);
        assert next[..i] == log[..i];
      } else {
        assert next[..i] == log;
      }
    }
  }

  lemma OpenedOk(enc: DeltaState, deltaMode: bool, log: Log, e: Event)
    requires Ok(enc, deltaMode, log) && e.Opened?
    ensures Ok(if e.swept then enc.(needCheckpoint := true) else enc, deltaMode, log + [e])
  {
    GoodSnoc(log, e);
    Snoc(log, e);
    SnocTied(log, e);
  }

  /** Whatever the encoder has become, once a write failed no more is claimed than this. */
  lemma BrokenOk(enc: DeltaState, deltaMode: bool, log: Log, e: Event)
    requires e.Broken? && GoodLog(log) && (!deltaMode ==> enc.table == [] && enc.needCheckpoint)
    requires Pending(log) ==> e.lost != Some(Delta) && e.lost != Some(Restart)
    requires Tied(enc, log + [e])
    ensures Ok(enc, deltaMode, log + [e])
  {
    GoodSnoc(log, e);
    Snoc(log, e);
  }

  lemma FlushOk(enc: DeltaState, deltaMode: bool, log: Log)
    requires Ok(enc, deltaMode, log)
    ensures Ok(enc, deltaMode, log + [Broken(None)])
  {
    SnocTied(log, Broken(None));
    BrokenOk(enc, deltaMode, log, Broken(None));
  }

  lemma ResetOk(enc: DeltaState, deltaMode: bool, log: Log, newMode: bool)
    requires Ok(enc, deltaMode, log)
    ensures Ok(Reset(enc), newMode, log + [ResetMark])
  {
    GoodSnoc(log, ResetMark);
    Snoc(log, ResetMark);
    SnocTied(log, ResetMark);
  }

  lemma SnapshotOk(enc: DeltaState, log: Log, e: Event)
    requires Ok(enc, false, log) && IsLine(e, Snapshot)
    ensures Ok(enc, false, log + [e])
  {
    GoodSnoc(log, e);
    Snoc(log, e);
    SnocTied(log, e);
  }

  // ----- the records of one sample in delta mode ----------------------------------------------------

  function RecordOf(enc: DeltaState, interval: int, sample: string, mem: Memory): Event
    requires FlatSample(sample).Some?
  {
    var all := FlatSample(sample).value;
    var out := EncodeFlat(enc, interval, sample, Seen(all, mem));
    Line(if out.checkpoint then Checkpoint else Delta, out.record, all, Seen(all, mem).metrics, interval)
  }

  predicate GetsDelta(enc: DeltaState, interval: int, sample: string, mem: Memory)
    requires FlatSample(sample).Some?
  {
    EmitsDelta(enc, interval, Seen(FlatSample(sample).value, mem))
  }

  function After(enc: DeltaState, interval: int, sample: string, mem: Memory): DeltaState
    requires FlatSample(sample).Some?
  {
    Advance(enc, interval, Seen(FlatSample(sample).value, mem), mem.kept)
  }

  /** A sample that gets a delta follows the record that the encoder goes on from. */
  lemma DeltaFollows(enc: DeltaState, interval: int, a: Event, after: Flat)
    requires a.Line? && Goes(a, enc) && EmitsDelta(enc, interval, after)
    ensures Follows(SeenFlat(a), after)
  {
    forall m | m in after.metrics ensures Get(a.seen, m.path).Some? && Get(a.seen, m.path).value <= m.value {
      GetHas(enc.table, m.path);
    }
  }

  /** Reading a record that is legible after the log gives its sample, and bounded values. */
  lemma RecordReads(enc: DeltaState, log: Log, interval: int, sample: string, mem: Memory)
    requires FlatSample(sample).Some? && mem.built
    requires GetsDelta(enc, interval, sample, mem) ==> Linked(enc, true, log)
    requires Legible(log + [RecordOf(enc, interval, sample, mem)])
    ensures var e := RecordOf(enc, interval, sample, mem);
      var values, table := ReadLine(e.text, ReadLog(log)), After(enc, interval, sample, mem).table;
      && Agrees(values, e.seen) && (IsLine(e, Checkpoint) ==> Agrees(values, e.flat.metrics))
      && Agrees(values, table) && Clean(table)
      && Bounded(values) && (IsLine(e, Delta) ==> Counts(e.text, e.flat.id.tsMs))
  {
    Snoc(log, RecordOf(enc, interval, sample, mem));
    EncodeReplays(enc, interval, sample, mem, ReadLog(log));
    EncodeBounded(enc, interval, sample, mem, ReadLog(log));
  }

  lemma RecordFollows(enc: DeltaState, log: Log, interval: int, sample: string, mem: Memory)
    requires Tied(enc, log) && FlatSample(sample).Some?
    ensures SameProcess(log, RecordOf(enc, interval, sample, mem))
  {
    if GetsDelta(enc, interval, sample, mem) && LastAnchor(log).Some? {
      DeltaFollows(enc, interval, LastAnchor(log).value, Seen(FlatSample(sample).value, mem));
    }
  }

  lemma RecordReplays(enc: DeltaState, log: Log, interval: int, sample: string, mem: Memory)
    requires Linked(enc, true, log) && FlatSample(sample).Some? && mem.built
    ensures Replays(log, RecordOf(enc, interval, sample, mem))
  {
    if Legible(log + [RecordOf(enc, interval, sample, mem)]) {
      RecordReads(enc, log, interval, sample, mem);
    }
  }

  lemma RecordAbsolute(enc: DeltaState, interval: int, sample: string, mem: Memory)
    requires FlatSample(sample).Some?
    ensures Absolute(RecordOf(enc, interval, sample, mem)) && Sees(RecordOf(enc, interval, sample, mem))
  {
    CheckpointReads(sample);
    FlatSampleSound(sample);
    SeenSound(FlatSample(sample).value, mem);
  }

  lemma RecordGood(enc: DeltaState, log: Log, interval: int, sample: string, mem: Memory)
    requires Linked(enc, true, log) && FlatSample(sample).Some? && mem.built
    ensures GoodEvent(log, RecordOf(enc, interval, sample, mem))
  {
    RecordFollows(enc, log, interval, sample, mem);
    RecordReplays(enc, log, interval, sample, mem);
    RecordAbsolute(enc, interval, sample, mem);
  }

  /** The encoder goes on from the record it has just made. */
  lemma RecordGoes(enc: DeltaState, interval: int, sample: string, mem: Memory)
    requires FlatSample(sample).Some?
    ensures Goes(RecordOf(enc, interval, sample, mem), After(enc, interval, sample, mem))
  {
    var all := FlatSample(sample).value;
    var seen, after := Seen(all, mem).metrics, After(enc, interval, sample, mem);
    FlatSampleSound(sample);
    SeenSound(all, mem);
    forall m | m in after.table ensures Get(seen, m.path) == Some(m.value) {
      var i :| 0 <= i < |after.table| && after.table[i] == m;
      assert seen[i] == m;
      GetAt(seen, i);
    }
  }

  lemma RecordTied(enc: DeltaState, log: Log, interval: int, sample: string, mem: Memory)
    requires FlatSample(sample).Some?
    requires GetsDelta(enc, interval, sample, mem) ==> Tied(enc, log)
    ensures Tied(After(enc, interval, sample, mem), log + [RecordOf(enc, interval, sample, mem)])
  {
    SnocTied(log, RecordOf(enc, interval, sample, mem));
    RecordGoes(enc, interval, sample, mem);
    RecordUpToDate(enc, log, interval, sample, mem);
  }

  lemma RecordUpToDate(enc: DeltaState, log: Log, interval: int, sample: string, mem: Memory)
    requires FlatSample(sample).Some?
    ensures var after := After(enc, interval, sample, mem);
      UpToDate(after, log + [RecordOf(enc, interval, sample, mem)]) && Distinct(after.table)
  {
    FlatSampleSound(sample);
    SeenSound(FlatSample(sample).value, mem);
  }

  lemma RecordLinked(enc: DeltaState, log: Log, interval: int, sample: string, mem: Memory)
    requires FlatSample(sample).Some? && mem.built
    requires GetsDelta(enc, interval, sample, mem) ==> Linked(enc, true, log)
    ensures Linked(After(enc, interval, sample, mem), true, log + [RecordOf(enc, interval, sample, mem)])
  {
    var e := RecordOf(enc, interval, sample, mem);
    RecordTied(enc, log, interval, sample, mem);
    Snoc(log, e);
    if Legible(log + [e]) {
      RecordReads(enc, log, interval, sample, mem);
    }
  }

  /** A sample whose record is written without a restart before it. */
  lemma RecordOk(enc: DeltaState, log: Log, interval: int, sample: string, mem: Memory)
    requires Ok(enc, true, log) && FlatSample(sample).Some? && mem.built
    ensures Ok(After(enc, interval, sample, mem), true, log + [RecordOf(enc, interval, sample, mem)])
    ensures SameProcess(log, RecordOf(enc, interval, sample, mem))
    ensures Pending(log) ==> !IsLine(RecordOf(enc, interval, sample, mem), Delta)
  {
    RecordGood(enc, log, interval, sample, mem);
    RecordLinked(enc, log, interval, sample, mem);
    GoodSnoc(log, RecordOf(enc, interval, sample, mem));
  }

  function RestartOf(enc: DeltaState, interval: int, sample: string, mem: Memory): Event
    requires FlatSample(sample).Some? && Boundary(enc, interval, FlatSample(sample).value.id)
  {
    var all := FlatSample(sample).value;
    var text := RestartText(all.id, Discontinuity(enc.last, all.id).value);
    Line(Restart, text, all, Seen(all, mem).metrics, interval)
  }

  lemma RestartGood(enc: DeltaState, log: Log, interval: int, sample: string, mem: Memory)
    requires Ok(enc, true, log) && FlatSample(sample).Some? && Boundary(enc, interval, FlatSample(sample).value.id)
    ensures GoodLog(log + [RestartOf(enc, interval, sample, mem)]) && !Pending(log)
  {
    GoodSnoc(log, RestartOf(enc, interval, sample, mem));
  }

  /** A sample that starts a new segment: a restart, then a checkpoint. */
  lemma RestartOk(enc: DeltaState, log: Log, interval: int, sample: string, mem: Memory)
    requires Ok(enc, true, log) && FlatSample(sample).Some? && mem.built
    requires Boundary(enc, interval, FlatSample(sample).value.id)
    ensures var restarted := log + [RestartOf(enc, interval, sample, mem)];
      && GoodLog(restarted) && !Pending(log)
      && Ok(After(enc, interval, sample, mem), true, restarted + [RecordOf(enc, interval, sample, mem)])
  {
    var restarted := log + [RestartOf(enc, interval, sample, mem)];
    var e := RecordOf(enc, interval, sample, mem);
    RestartGood(enc, log, interval, sample, mem);
    RecordAbsolute(enc, interval, sample, mem);
    RecordLinked(enc, restarted, interval, sample, mem);
    if Legible(restarted + [e]) {
      RecordReads(enc, restarted, interval, sample, mem);
    }
    GoodSnoc(restarted, e);
  }

  // ----- every step keeps it -----------------------------------------------------------------------

  ghost predicate Good(w: State) {
    Ok(w.enc, w.cfg.deltaMetrics, w.log)
  }

  /** What a rotation does to the encoder and the log. */
  lemma RotateShape(w: State, r: RotateEnv)
    ensures Rotate(w, r).cfg == w.cfg
    ensures !CanOpen(w.cfg, r) ==> Rotate(w, r).enc == w.enc && Rotate(w, r).log == w.log
    ensures CanOpen(w.cfg, r) ==>
              && Rotate(w, r).enc == (if SweepOk(w.cfg, r.sweep) then w.enc.(needCheckpoint := true) else w.enc)
              && Rotate(w, r).log == w.log + HeaderEvents(w.cfg, r)
  {
  }

  lemma RotateGood(w: State, r: RotateEnv)
    requires Good(w)
    ensures Good(Rotate(w, r)) && Rotate(w, r).cfg == w.cfg
  {
    RotateShape(w, r);
    if CanOpen(w.cfg, r) {
      var header := Opened(NextFile(w.cfg, r), Header(w.cfg, r), SweepOk(w.cfg, r.sweep));
      OpenedOk(w.enc, w.cfg.deltaMetrics, w.log, header);
      FlushOk(Rotate(w, r).enc, w.cfg.deltaMetrics, w.log + [header]);
      assert w.log + [header] + [Broken(None)] == w.log + ([header] + [Broken(None)]);
      assert [header] + [] == [header];
    }
  }

  /** Losing a record leaves the encoder tied to what is on disk. */
  lemma LostTied(enc: DeltaState, log: Log, line: Event)
    requires line.Line? && line.kind != Restart && Tied(enc, log + [line]) && SameProcess(log, line)
    ensures Tied(enc, log + [Broken(Some(line.kind))])
  {
    SnocTied(log, line);
    SnocTied(log, Broken(Some(line.kind)));
    if line.kind == Delta && LastAnchor(log).Some? {
      GoesThrough(LastAnchor(log).value, line, enc);
    }
  }

  lemma GoesThrough(a: Event, line: Event, enc: DeltaState)
    requires a.Line? && line.Line? && Follows(SeenFlat(a), SeenFlat(line)) && Goes(line, enc)
    ensures Goes(a, enc)
  {
    forall m | m in enc.table ensures Get(a.seen, m.path).Some? && Get(a.seen, m.path).value <= m.value {
      GetHas(line.seen, m.path);
    }
  }

  /** Writing a line after which the state would be good, and what follows it. */
  lemma WriteRecordGood(w: State, line: Event, e: AppendEnv)
    requires line.Line? && line.kind != Restart && GoodLog(w.log) && Ok(w.enc, w.cfg.deltaMetrics, w.log + [line])
    requires SameProcess(w.log, line) && (Pending(w.log) ==> line.kind != Delta)
    requires !w.cfg.deltaMetrics ==> w.enc.table == [] && w.enc.needCheckpoint
    ensures Good(WriteRecord(w, line, e)) && WriteRecord(w, line, e).cfg == w.cfg
  {
    if e.recordWrite.Whole? {
      var written := Write(w, line, e.recordWrite);
      if !e.flushed {
        FlushOk(w.enc, w.cfg.deltaMetrics, w.log + [line]);
      }
    } else {
      LostTied(w.enc, w.log, line);
      BrokenOk(w.enc, w.cfg.deltaMetrics, w.log, Broken(Some(line.kind)));
    }
  }

  lemma AppendDeltaGood(w: State, sample: string, mem: Memory, e: AppendEnv)
    requires Good(w) && w.cfg.deltaMetrics
    ensures Good(AppendDelta(w, sample, mem, e)) && AppendDelta(w, sample, mem, e).cfg == w.cfg
  {
    var interval := w.cfg.checkpointIntervalMs;
    if FlatSample(sample).Some? && mem.built {
      var ready := w.(enc := After(w.enc, interval, sample, mem));
      var record := RecordOf(w.enc, interval, sample, mem);
      if !Boundary(w.enc, interval, FlatSample(sample).value.id) {
        RecordOk(w.enc, w.log, interval, sample, mem);
        WriteRecordGood(ready, record, e);
      } else {
        RestartOk(w.enc, w.log, interval, sample, mem);
        RestartedGood(ready, RestartOf(w.enc, interval, sample, mem), record, e);
      }
    }
  }

  /** Writing a restart and then the checkpoint, after which the state would be good. */
  lemma RestartedGood(w: State, restart: Event, record: Event, e: AppendEnv)
    requires w.cfg.deltaMetrics && IsLine(restart, Restart) && IsLine(record, Checkpoint)
    requires GoodLog(w.log) && GoodLog(w.log + [restart]) && Ok(w.enc, true, w.log + [restart] + [record])
    requires !Pending(w.log)
    ensures Good(Write(w, restart, e.eventWrite)) || e.eventWrite.Whole?
    ensures e.eventWrite.Whole? ==>
              var after := WriteRecord(Write(w, restart, e.eventWrite), record, e); Good(after) && after.cfg == w.cfg
  {
    if e.eventWrite.Whole? {
      WriteRecordGood(Write(w, restart, e.eventWrite), record, e);
    } else {
      SnocTied(w.log, Broken(Some(Restart)));
      SnocTied(w.log + [restart], record);
      BrokenOk(w.enc, true, w.log, Broken(Some(Restart)));
    }
  }

  lemma AppendSnapshotGood(w: State, sample: string, e: AppendEnv)
    requires Good(w) && !w.cfg.deltaMetrics
    ensures Good(AppendSnapshot(w, sample, e)) && AppendSnapshot(w, sample, e).cfg == w.cfg
  {
    if !ShouldRotate(w, |sample|, e.later) {
      SnapshotOk(w.enc, w.log, SnapshotLine(w, sample));
      WriteRecordGood(w, SnapshotLine(w, sample), e);
    } else {
      RotateGood(w, e.second);
      var next := Rotate(w, e.second);
      SnapshotOk(next.enc, next.log, SnapshotLine(w, ""));
      WriteRecordGood(next, SnapshotLine(w, ""), e);
    }
  }

  lemma StepGood(w: State, op: Op)
    requires Good(w)
    ensures Good(Step(w, op))
  {
    match op
    case DoAppend(sample, mem, env) => AppendGood(w, sample, mem, env);
    case DoRotate(rotation) => RotateGood(w, rotation);
    case DoFlush(ok) => FlushGood(w, ok);
    case SetPath(path, rotation) =>
      ResetGood(w, w.cfg.(path := path));
      RotateGood(ResetSegment(w.(cfg := w.cfg.(path := path))), rotation);
    case SetDeltaMetrics(on) => ResetGood(w, w.cfg.(deltaMetrics := on));
    case _ =>
  }

  lemma FlushGood(w: State, ok: bool)
    requires Good(w)
    ensures Good(FlushOut(w, ok))
  {
    FlushOk(w.enc, w.cfg.deltaMetrics, w.log);
  }

  lemma AppendGood(w: State, sample: string, mem: Memory, e: AppendEnv)
    requires Good(w)
    ensures Good(Append(w, sample, mem, e))
  {
    RotateGood(w, e.rotation);
    var ready := Prepare(w, |sample|, e);
    if w.cfg.deltaMetrics {
      AppendDeltaGood(ready, sample, mem, e);
    } else {
      AppendSnapshotGood(ready, sample, e);
    }
  }

  lemma ResetGood(w: State, cfg: Config)
    requires Good(w)
    ensures Good(ResetSegment(w.(cfg := cfg)))
  {
    ResetOk(w.enc, w.cfg.deltaMetrics, w.log, cfg.deltaMetrics);
  }

  lemma StartGood(cfg: Config, disk: Disk)
    ensures Good(Start(cfg, disk))
  {
  }

  /** In every reachable state the log is good and the encoder is tied to it. */
  lemma ReachableGood(w: State)
    requires Reachable(w)
    ensures Good(w)
  {
    var cfg, disk, ops :| w == Run(Start(cfg, disk), ops);
    RunGood(cfg, disk, ops);
  }

  lemma {:induction false} RunGood(cfg: Config, disk: Disk, ops: seq<Op>)
    ensures Good(Run(Start(cfg, disk), ops))
  {
    if ops == [] {
      StartGood(cfg, disk);
    } else {
      RunGood(cfg, disk, ops[..|ops| - 1]);
      StepGood(Run(Start(cfg, disk), ops[..|ops| - 1]), ops[|ops| - 1]);
    }
  }
}
