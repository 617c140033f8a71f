/** The writer of src/writer.c, the file handling of src/rotation.c and the configuration commands of
    src/ftdc.c that move it, as a state machine. What the operating system answers comes in with each
    operation. The log keeps what was written, in order, and what tore it. */
module Writer {
  import opened Wrappers
  import opened Metrics
  import opened Flatten
  import opened Encoder
  import opened Rotation
  import opened Metadata

  const MAGIC := "VKFTDC1\n"

  datatype Config = Config(
    path: string, deltaMetrics: bool, checkpointIntervalMs: int,
    maxFileBytes: int, maxDirBytes: int, rotationIntervalSec: int)

  datatype Kind = Snapshot | Checkpoint | Delta | Restart

  datatype Event =
    /** A header was written to `file`; `swept` tells whether the retention run after it succeeded. */
    | Opened(file: string, header: string, swept: bool)
    /** A record and its newline. `flat` is what the sample holds, `seen` the counters of it that the
        encoder saw, `interval` the checkpoint interval in force. */
    | Line(kind: Kind, text: string, flat: Flat, seen: seq<Metric>, interval: int)
    /** Writing a record of the kind `lost` failed, or, without a kind, a flush did. */
    | Broken(lost: Option<Kind>)
    /** The segment was reset by a path change or a toggle of delta mode. */
    | ResetMark

  type Log = seq<Event>

  type Disk = map<string, string>

  datatype State = State(
    cfg: Config, open: bool, file: string, bytes: int, openedMs: int, error: bool,
    enc: DeltaState, disk: Disk, log: Log)

  // ----- answers of the operating system ----------------------------------------------------------

  /** One retention run: whether opendir() succeeds and its entries find memory, what it lists, which files
      unlink() refuses. */
  datatype SweepEnv = SweepEnv(listed: bool, entries: seq<DirEntry>, stuck: set<string>)

  /** One rotation. `torn` is what of the header reaches the file when writing it fails; `flushed` tells
      whether flushing it works, which the code does not look at; `createdMs` and `config` are the clock
      and the answer to CONFIG GET that its metadata line is printed from. */
  datatype RotateEnv = RotateEnv(
    stamp: string, dirOk: bool, openOk: bool, headerOk: bool, torn: string, flushed: bool,
    createdMs: int, config: Option<Reply>, openedMs: int, sidecar: Option<string>, sweep: SweepEnv)

  /** One line: written whole, or a part of it and an error. */
  datatype WriteEnv = Whole | Part(text: string)

  /** One append: two clock readings, the rotations they may cause, the outcome of the writes. */
  datatype AppendEnv = AppendEnv(
    now: int, rotation: RotateEnv, later: int, second: RotateEnv,
    eventWrite: WriteEnv, recordWrite: WriteEnv, flushed: bool, sweep: SweepEnv)

  // ----- files -----------------------------------------------------------------------------------

  function MetricsName(stamp: string): string {
    "metrics." + stamp + ".vkftdc"
  }

  function MetadataName(stamp: string): string {
    "metadata." + stamp + ".json"
  }

  function Contents(disk: Disk, file: string): string {
    if file in disk then disk[file] else ""
  }

  /** Appending to a file opened with "ab". */
  function Extend(disk: Disk, file: string, text: string): Disk {
    disk[file := Contents(disk, file) + text]
  }

  /** ftdc_writer_close() */
  function Close(w: State): State {
    w.(open := false, file := "", bytes := 0, openedMs := 0)
  }

  predicate SweepOk(cfg: Config, s: SweepEnv) {
    cfg.maxDirBytes <= 0 || s.listed
  }

  /** ftdc_rotation_enforce_retention() */
  function Enforce(w: State, s: SweepEnv): State {
    if w.cfg.maxDirBytes <= 0 || !s.listed then w
    else w.(disk := w.disk - Paths(Victims(w.cfg.path, s.entries, w.cfg.maxDirBytes, w.file, s.stuck)))
  }

  /** The full name of the next file; retention and the open file are compared by it. */
  function NextFile(cfg: Config, r: RotateEnv): string {
    JoinPath(cfg.path, MetricsName(r.stamp))
  }

  predicate CanOpen(cfg: Config, r: RotateEnv) {
    r.dirOk && cfg.path != "" && |NextFile(cfg, r)| < PATH_MAX && r.openOk && r.headerOk
  }

  predicate RotateOk(cfg: Config, r: RotateEnv) {
    CanOpen(cfg, r) && SweepOk(cfg, r.sweep)
  }

  /** The magic and the metadata line. */
  function Header(cfg: Config, r: RotateEnv): string {
    MAGIC + MetadataText(cfg.deltaMetrics, r.createdMs, r.config) + "\n"
  }

  /** What a header leaves in the log. */
  function HeaderEvents(cfg: Config, r: RotateEnv): Log {
    [Opened(NextFile(cfg, r), Header(cfg, r), SweepOk(cfg, r.sweep))] + if r.flushed then [] else [Broken(None)]
  }

  /** ftdc_rotation_open_next_file() up to the header, when every call succeeds. */
  function Open(w: State, r: RotateEnv): State {
    var file := NextFile(w.cfg, r);
    var header := Header(w.cfg, r);
    var disk := Extend(w.disk, file, header);
    w.(open := true, file := file, bytes := |disk[file]|, openedMs := r.openedMs,
       disk := if r.sidecar.None? then disk else disk[JoinPath(w.cfg.path, MetadataName(r.stamp)) := r.sidecar.value],
       log := w.log + HeaderEvents(w.cfg, r))
  }

  /** What is left when a file could not be opened: no open file, perhaps its name, perhaps a part of
      its header. */
  function FailOpen(w: State, r: RotateEnv): State {
    var file := NextFile(w.cfg, r);
    if !r.dirOk || w.cfg.path == "" then w
    else if |file| >= PATH_MAX then w.(file := Truncate(file, PATH_MAX))
    else if !r.openOk then w.(file := file)
    else w.(file := file, disk := Extend(w.disk, file, r.torn))
  }

  /** ftdc_writer_rotate() */
  function Rotate(w: State, r: RotateEnv): State {
    var closed := Close(w);
    if !CanOpen(w.cfg, r) then FailOpen(closed, r).(error := true)
    else
      var swept := Enforce(Open(closed, r), r.sweep);
      if SweepOk(w.cfg, r.sweep) then swept.(enc := swept.enc.(needCheckpoint := true), error := false)
      else swept.(error := true)
  }

  /** A rotation reports an error exactly when the directory, the file, its header or retention fails. */
  lemma RotateError(w: State, r: RotateEnv)
    ensures Rotate(w, r).error <==> !RotateOk(w.cfg, r)
    ensures Rotate(w, r).cfg == w.cfg
  {
  }

  /** ftdc_rotation_should_rotate() */
  predicate ShouldRotate(w: State, len: nat, now: int) {
    || !w.open
    || (w.cfg.maxFileBytes > 0 && w.bytes + len + 1 >= w.cfg.maxFileBytes)
    || (w.cfg.rotationIntervalSec > 0 && now - w.openedMs >= w.cfg.rotationIntervalSec * 1000)
  }

  // ----- appending -------------------------------------------------------------------------------

  /** append_line() */
  function Write(w: State, line: Event, o: WriteEnv): State
    requires line.Line?
  {
    if o.Whole? then
      w.(disk := Extend(w.disk, w.file, line.text + "\n"), bytes := w.bytes + |line.text| + 1, log := w.log + [line])
    else
      w.(disk := Extend(w.disk, w.file, o.text), error := true, log := w.log + [Broken(Some(line.kind))])
  }

  /** From fflush() to the end of ftdc_writer_append_sample(). */
  function Finish(w: State, e: AppendEnv): State {
    if !e.flushed then w.(error := true, log := w.log + [Broken(None)])
    else Enforce(w, e.sweep).(error := !SweepOk(w.cfg, e.sweep))
  }

  function WriteRecord(w: State, line: Event, e: AppendEnv): State
    requires line.Line?
  {
    var written := Write(w, line, e.recordWrite);
    if e.recordWrite.Whole? then Finish(written, e) else written
  }

  /** Writing what the encoder made of a sample: the restart record, if any, then the record. */
  function WriteEncoded(w: State, out: Encoded, flat: Flat, seen: seq<Metric>, interval: int, e: AppendEnv): State {
    var record := Line(if out.checkpoint then Checkpoint else Delta, out.record, flat, seen, interval);
    if out.event.None? then WriteRecord(w, record, e)
    else
      var restarted := Write(w, Line(Restart, out.event.value, flat, seen, interval), e.eventWrite);
      if e.eventWrite.Whole? then WriteRecord(restarted, record, e) else restarted
  }

  /** ftdc_writer_append_sample() in delta mode, with a file open. */
  function AppendDelta(w: State, sample: string, mem: Memory, e: AppendEnv): State {
    var interval := w.cfg.checkpointIntervalMs;
    var encoded := Encode(w.enc, interval, sample, mem);
    if encoded.None? then w.(error := true)
    else
      var all := FlatSample(sample).value;
      WriteEncoded(w.(enc := encoded.value.0), encoded.value.1, all, Seen(all, mem).metrics, interval, e)
  }

  /** A sample as it is, in snapshot mode. */
  function SnapshotLine(w: State, text: string): Event {
    Line(Snapshot, text, EMPTY_FLAT, [], w.cfg.checkpointIntervalMs)
  }

  /** ftdc_writer_append_sample() in snapshot mode, with a file open. When the second test asks for a
      rotation the sample has been freed before the line is written, and the line is empty. */
  function AppendSnapshot(w: State, sample: string, e: AppendEnv): State {
    if !ShouldRotate(w, |sample|, e.later) then WriteRecord(w, SnapshotLine(w, sample), e)
    else if !RotateOk(w.cfg, e.second) then Rotate(w, e.second)
    else WriteRecord(Rotate(w, e.second), SnapshotLine(w, ""), e)
  }

  /** The rotation before a sample is encoded, if one is asked for. */
  function Prepare(w: State, len: nat, e: AppendEnv): State {
    if ShouldRotate(w, len, e.now) then Rotate(w, e.rotation) else w
  }

  predicate Prepared(w: State, len: nat, e: AppendEnv) {
    ShouldRotate(w, len, e.now) ==> RotateOk(w.cfg, e.rotation)
  }

  /** ftdc_writer_append_sample() */
  function Append(w: State, sample: string, mem: Memory, e: AppendEnv): State {
    var ready := Prepare(w, |sample|, e);
    if !Prepared(w, |sample|, e) then ready
    else if w.cfg.deltaMetrics then AppendDelta(ready, sample, mem, e)
    else if !mem.built then ready.(error := true)
    else AppendSnapshot(ready, sample, e)
  }

  /** ftdc_writer_flush() */
  function FlushOut(w: State, ok: bool): State {
    if !w.open || ok then w else w.(error := true, log := w.log + [Broken(None)])
  }

  // ----- commands --------------------------------------------------------------------------------

  function ResetSegment(w: State): State {
    w.(enc := Reset(w.enc), log := w.log + [ResetMark])
  }

  datatype Op =
    | DoAppend(sample: string, mem: Memory, env: AppendEnv)
    | DoRotate(rotation: RotateEnv)
    | DoFlush(ok: bool)
    | SetPath(path: string, rotation: RotateEnv)
    | SetDeltaMetrics(on: bool)
    | SetCheckpointInterval(ms: int)
    | SetMaxFileMb(mb: int)
    | SetMaxDirMb(mb: int)
    | SetRotationInterval(sec: int)

  const MEGABYTE := 1024 * 1024

  function SetLimit(w: State, cfg: Config, accepted: bool): State {
    if accepted then w.(cfg := cfg) else w
  }

  /** One command, or one firing of the timer. */
  function Step(w: State, op: Op): State {
    match op
    case DoAppend(sample, mem, env) => Append(w, sample, mem, env)
    case DoRotate(rotation) => Rotate(w, rotation)
    case DoFlush(ok) => FlushOut(w, ok)
    case SetPath(path, rotation) =>
      if |path| >= PATH_MAX then w else Rotate(ResetSegment(w.(cfg := w.cfg.(path := path))), rotation)
    case SetDeltaMetrics(on) => ResetSegment(w.(cfg := w.cfg.(deltaMetrics := on)))
    case SetCheckpointInterval(ms) => SetLimit(w, w.cfg.(checkpointIntervalMs := ms), ms >= 1000)
    case SetMaxFileMb(mb) => SetLimit(w, w.cfg.(maxFileBytes := mb * MEGABYTE), mb >= 1)
    case SetMaxDirMb(mb) => SetLimit(w, w.cfg.(maxDirBytes := mb * MEGABYTE), mb >= 1)
    case SetRotationInterval(sec) => SetLimit(w, w.cfg.(rotationIntervalSec := sec), sec >= 1)
  }

  /** The configuration g_ftdc starts with. */
  const DEFAULT_CONFIG := Config("./diagnostic.data", false, 60000, 64 * MEGABYTE, 512 * MEGABYTE, 3600)

  /** The module as it is loaded: any configuration, any files on disk, nothing open. */
  function Start(cfg: Config, disk: Disk): State {
    State(cfg, false, "", 0, 0, false, INITIAL_STATE, disk, [])
  }

  function Run(w: State, ops: seq<Op>): State
    decreases |ops|, 1
  {
    if ops == [] then w else RunLast(w, ops)
  }

  /** The run up to its last operation, then that one. */
  function RunLast(w: State, ops: seq<Op>): State
    requires ops != []
    decreases |ops|, 0
  {
    Step(Run(w, ops[..|ops| - 1]), ops[|ops| - 1])
  }

  /** A state the module gets to, from some configuration and some files on disk, by some operations. */
  ghost predicate Reachable(w: State) {
    exists cfg, disk, ops :: w == Run(Start(cfg, disk), ops)
  }
}
