/** The commands and the appends as a whole: what they set, when they report an error, and what is then in the
    file, in plain figures and file names. */
module Commands {
  import opened Wrappers
  import opened CText
  import opened Flatten
  import opened Encoder
  import opened Writer
  import opened Runs
  import opened Opening
  import Decision
  import Files
  import Limits

  // ----- what the commands set ----------------------------------------------------------------------------------

  /** The module as it is loaded. */
  lemma Defaults(disk: Disk)
    ensures var w := Start(DEFAULT_CONFIG, disk);
      && w.cfg.path == "./diagnostic.data" && !w.cfg.deltaMetrics && w.cfg.checkpointIntervalMs == 60000
      && w.cfg.maxFileBytes == 67108864 && w.cfg.maxDirBytes == 536870912 && w.cfg.rotationIntervalSec == 3600
      && !w.open && w.disk == disk && w.enc.needCheckpoint && w.enc.table == [] && !w.enc.last.valid && w.log == []
  {
  }

  /** Every limit has its own command and its own unit, a least value, and moves nothing else. */
  lemma LimitCommands(w: State, n: int)
    ensures Step(w, SetCheckpointInterval(n)) == if n < 1000 then w else w.(cfg := w.cfg.(checkpointIntervalMs := n))
    ensures Step(w, SetMaxFileMb(n)) == if n < 1 then w else w.(cfg := w.cfg.(maxFileBytes := 1048576 * n))
    ensures Step(w, SetMaxDirMb(n)) == if n < 1 then w else w.(cfg := w.cfg.(maxDirBytes := 1048576 * n))
    ensures Step(w, SetRotationInterval(n)) == if n < 1 then w else w.(cfg := w.cfg.(rotationIntervalSec := n))
  {
  }

  /** What the encoder forgets at a path change and at a toggle of delta mode: everything but the time of the
      last checkpoint. */
  predicate Forgot(after: DeltaState, before: DeltaState) {
    && after.table == [] && after.last == Identity(0, 0, 0, "", "", false) && after.needCheckpoint
    && after.lastCheckpointMs == before.lastCheckpointMs
  }

  /** The toggle leaves the open file open. */
  lemma ToggleCommand(w: State, on: bool)
    ensures var after := Step(w, SetDeltaMetrics(on));
      && after.cfg == w.cfg.(deltaMetrics := on) && Forgot(after.enc, w.enc) && after.log == w.log + [ResetMark]
      && after == w.(cfg := after.cfg, enc := after.enc, log := after.log)
  {
  }

  /** A flush of a closed file is nothing; one that fails is an error, and is told in the log. */
  lemma FlushCommand(w: State, ok: bool)
    ensures Step(w, DoFlush(ok)) == if w.open && !ok then w.(error := true, log := w.log + [Broken(None)]) else w
  {
  }

  /** A new path is taken over even when nothing can be opened under it; if a file can be, it is open, with its
      header. A path that is too long is refused. */
  lemma PathCommand(w: State, path: string, r: RotateEnv)
    ensures var after, moved := Step(w, SetPath(path, r)), w.(cfg := w.cfg.(path := path));
      if |path| >= 4096 then after == w
      else
        && after.cfg == moved.cfg && Forgot(after.enc, w.enc) && w.log + [ResetMark] <= after.log
        && (Opens(moved, r) ==> StartsFile(moved, r, after)) && (!Opens(moved, r) ==> !after.open && after.error)
  {
    if |path| < 4096 {
      PathMoves(ResetSegment(w.(cfg := w.cfg.(path := path))), r);
    }
  }

  lemma PathMoves(w: State, r: RotateEnv)
    requires w.enc.needCheckpoint
    ensures var after := Rotate(w, r);
      && after.cfg == w.cfg && after.enc == w.enc && w.log <= after.log
      && (Opens(w, r) ==> StartsFile(w, r, after)) && (!Opens(w, r) ==> !after.open && after.error)
  {
    if !Opens(w, r) {
      RotationFails(w, r);
    } else if w.cfg.maxDirBytes <= 0 || r.sweep.listed {
      RotationOpens(w, r);
    } else {
      RotationUnswept(w, r);
    }
  }

  // ----- the error of an append ---------------------------------------------------------------------------------

  /** The file is missing, full with this sample, or too old. */
  predicate NeedsFile(w: State, len: nat, now: int) {
    || !w.open
    || (w.cfg.maxFileBytes > 0 && w.bytes + len + 1 >= w.cfg.maxFileBytes)
    || (w.cfg.rotationIntervalSec > 0 && now - w.openedMs >= w.cfg.rotationIntervalSec * 1000)
  }

  predicate CanSweep(w: State, s: SweepEnv) {
    w.cfg.maxDirBytes <= 0 || s.listed
  }

  /** No file has to be opened, no checkpoint is asked for, and the sample is of another process. */
  predicate NeedsRestart(w: State, len: nat, id: Identity, e: AppendEnv) {
    !NeedsFile(w, len, e.now) && !Decision.Asked(w, id.tsMs) && Decision.Restarted(w.enc.last, id)
  }

  /** Everything an append in delta mode needs: a file, a sample that can be read, memory for its records, and
      every write, flush and retention run it asks for. A restart is written only into the file at hand. */
  predicate DeltaSucceeds(w: State, sample: string, mem: Memory, e: AppendEnv) {
    && (NeedsFile(w, |sample|, e.now) ==> Opens(w, e.rotation) && CanSweep(w, e.rotation.sweep))
    && FlatSample(sample).Some? && mem.built && e.recordWrite.Whole? && e.flushed && CanSweep(w, e.sweep)
    && (NeedsRestart(w, |sample|, FlatSample(sample).value.id, e) ==> e.eventWrite.Whole?)
  }

  lemma RotatesOk(w: State, r: RotateEnv)
    ensures RotateOk(w.cfg, r) <==> Opens(w, r) && CanSweep(w, r.sweep)
  {
    JoinsMetrics(w, r);
  }

  /** In every reachable state, an append in delta mode reports an error exactly when something it needs fails. */
  lemma DeltaErrors(w: State, sample: string, mem: Memory, e: AppendEnv)
    requires Reachable(w) && w.cfg.deltaMetrics
    ensures !Append(w, sample, mem, e).error <==> DeltaSucceeds(w, sample, mem, e)
  {
    Decision.ReachableTied(w);
    RotatesOk(w, e.rotation);
    RotateError(w, e.rotation);
    if Prepared(w, |sample|, e) {
      AppendError(w, Prepare(w, |sample|, e), sample, mem, e);
      PreparedBoundary(w, sample, mem, e);
    }
  }

  lemma AppendError(w: State, ready: State, sample: string, mem: Memory, e: AppendEnv)
    requires ready.cfg == w.cfg
    ensures var id := if FlatSample(sample).Some? then FlatSample(sample).value.id else NO_IDENTITY;
      !AppendDelta(ready, sample, mem, e).error <==>
      && FlatSample(sample).Some? && mem.built && e.recordWrite.Whole? && e.flushed && CanSweep(w, e.sweep)
      && (Boundary(ready.enc, w.cfg.checkpointIntervalMs, id) ==> e.eventWrite.Whole?)
  {
  }

  /** After a rotation a checkpoint is pending, so there is no restart. */
  lemma PreparedBoundary(w: State, sample: string, mem: Memory, e: AppendEnv)
    requires Tied(w.enc, w.log) && Prepared(w, |sample|, e)
    ensures FlatSample(sample).Some? ==>
              var id := FlatSample(sample).value.id;
              Boundary(Prepare(w, |sample|, e).enc, w.cfg.checkpointIntervalMs, id) <==>
              NeedsRestart(w, |sample|, id, e)
  {
    if FlatSample(sample).Some? && !ShouldRotate(w, |sample|, e.now) {
      Decision.Choice(w.enc, w.cfg.checkpointIntervalMs, FlatSample(sample).value);
    }
  }

  // ----- what is then in the file -------------------------------------------------------------------------------

  /** The records of the log, each with a newline. */
  function Text(added: Log): string {
    if added == [] then ""
    else
      var e := added[|added| - 1];
      Text(added[..|added| - 1]) + if e.Line? then e.text + "\n" else ""
  }

  lemma TextSnoc(added: Log, e: Event)
    requires e.Line?
    ensures Text(added + [e]) == Text(added) + (e.text + "\n")
  {
    assert (added + [e])[..|added|] == added;
  }

  /** The file has the text appended, and is counted as that much longer. */
  predicate Grows(w: State, after: State, text: string) {
    && after.file == w.file && after.open == w.open && after.file in after.disk
    && after.disk[after.file] == (if w.file in w.disk then w.disk[w.file] else "") + text
    && after.bytes == w.bytes + |text|
  }

  lemma WriteGrows(w: State, line: Event)
    requires line.Line?
    ensures Grows(w, Write(w, line, Whole), line.text + "\n")
  {
  }

  /** A write that fails leaves a part of its line behind the rest, which is not counted, an error, and a note in
      the log of what was lost. */
  lemma TornWrite(w: State, line: Event, part: string)
    requires line.Line?
    ensures var after := Write(w, line, Part(part));
      && after.error && after.log == w.log + [Broken(Some(line.kind))] && after.bytes == w.bytes && after.enc == w.enc
      && after.disk == w.disk[w.file := (if w.file in w.disk then w.disk[w.file] else "") + part]
  {
  }

  lemma RecordGrows(w: State, line: Event, e: AppendEnv)
    requires line.Line? && e.recordWrite.Whole? && e.flushed
    ensures Grows(w, WriteRecord(w, line, e), line.text + "\n")
  {
    WriteGrows(w, line);
    Files.EnforceSparesOpen(Write(w, line, Whole), e.sweep);
  }

  lemma GrowsTwice(w: State, u: State, after: State, text: string, more: string)
    requires Grows(w, u, text) && Grows(u, after, more)
    ensures Grows(w, after, text + more)
  {
    Regroup(if w.file in w.disk then w.disk[w.file] else "", text, more);
  }

  /** In every state, an append in delta mode with no rotation and no failure puts its records at the end of the
      open file, a line each, and nothing else. */
  lemma RecordsInFile(w: State, sample: string, mem: Memory, e: AppendEnv)
    requires w.cfg.deltaMetrics && Decision.Plainly(w, sample, e) && FlatSample(sample).Some? && mem.built
    ensures w.log <= Append(w, sample, mem, e).log
    ensures Grows(w, Append(w, sample, mem, e), Text(Append(w, sample, mem, e).log[|w.log|..]))
  {
    var ms := w.cfg.checkpointIntervalMs;
    var ready := w.(enc := After(w.enc, ms, sample, mem));
    var record := RecordOf(w.enc, ms, sample, mem);
    Limits.AppendsRecords(w, sample, mem, e);
    AddedPart(w.log, Limits.Recorded(w, sample, mem, e));
    if !Boundary(w.enc, ms, FlatSample(sample).value.id) {
      RecordGrows(ready, record, e);
      OneText(record);
      assert Limits.Recorded(w, sample, mem, e) == [record];
    } else {
      TwoGrow(ready, RestartOf(w.enc, ms, sample, mem), record, e);
      assert Limits.Recorded(w, sample, mem, e) == [RestartOf(w.enc, ms, sample, mem)] + [record];
    }
  }

  lemma AddedPart(log: Log, added: Log)
    ensures (log + added)[|log|..] == added && log <= log + added
  {
  }

  lemma OneText(line: Event)
    requires line.Line?
    ensures Text([line]) == line.text + "\n"
  {
    assert [] + [line] == [line];
    TextSnoc([], line);
  }

  lemma TwoGrow(w: State, restart: Event, record: Event, e: AppendEnv)
    requires restart.Line? && record.Line? && e.recordWrite.Whole? && e.flushed
    ensures Grows(w, WriteRecord(Write(w, restart, Whole), record, e), Text([restart] + [record]))
  {
    var restarted := Write(w, restart, Whole);
    WriteGrows(w, restart);
    RecordGrows(restarted, record, e);
    GrowsTwice(w, restarted, WriteRecord(restarted, record, e), restart.text + "\n", record.text + "\n");
    OneText(restart);
    TextSnoc([restart], record);
  }
}
