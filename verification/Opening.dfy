/** What a rotation opens, and what becomes of the other files. */
module Opening {
  import opened Wrappers
  import opened Metrics
  import opened Flatten
  import opened Metadata
  import opened Encoder
  import opened Rotation
  import opened Writer
  import opened Oldest

  // ----- the file a rotation opens ----------------------------------------------------------------------------

  /** The metrics file of a rotation, named by its stamp. */
  function FileFor(w: State, stamp: string): string {
    w.cfg.path + "/metrics." + stamp + ".vkftdc"
  }

  /** The metadata file beside it. */
  function SidecarFor(w: State, stamp: string): string {
    w.cfg.path + "/metadata." + stamp + ".json"
  }

  function HeaderFor(w: State, r: RotateEnv): string {
    "VKFTDC1\n" + MetadataText(w.cfg.deltaMetrics, r.createdMs, r.config) + "\n"
  }

  /** The directory and the file can be had, and the header is written. */
  predicate Opens(w: State, r: RotateEnv) {
    r.dirOk && w.cfg.path != "" && |FileFor(w, r.stamp)| < 4096 && r.openOk && r.headerOk
  }

  lemma JoinsMetrics(w: State, r: RotateEnv)
    ensures NextFile(w.cfg, r) == FileFor(w, r.stamp)
    ensures Opens(w, r) <==> CanOpen(w.cfg, r)
  {
    assert w.cfg.path + "/" + ("metrics." + r.stamp + ".vkftdc") == FileFor(w, r.stamp);
  }

  lemma JoinsSidecar(w: State, r: RotateEnv)
    ensures JoinPath(w.cfg.path, MetadataName(r.stamp)) == SidecarFor(w, r.stamp)
  {
    assert w.cfg.path + "/" + ("metadata." + r.stamp + ".json") == SidecarFor(w, r.stamp);
  }

  /** The file is on the disk with the old contents of its name, if there were any, and the header behind. */
  predicate StartsFile(w: State, r: RotateEnv, after: State) {
    var file := FileFor(w, r.stamp);
    && after.open && after.file == file && file in after.disk
    && after.disk[file] == (if file in w.disk then w.disk[file] else "") + HeaderFor(w, r)
    && after.bytes == |after.disk[file]| && after.openedMs == r.openedMs
  }

  /** A file of the module that retention may take after the new one was opened. */
  ghost predicate MayBeTaken(w: State, r: RotateEnv, path: string) {
    exists e :: MayGo(w.(file := FileFor(w, r.stamp)), r.sweep, e) && path == PathOf(w, e)
  }

  /** Neither the new file nor, if it is written, the one beside it. */
  predicate IsOther(w: State, r: RotateEnv, path: string) {
    path != FileFor(w, r.stamp) && (r.sidecar.None? || path != SidecarFor(w, r.stamp))
  }

  /** Every other file stays as it is, but for what retention takes, and none comes up. */
  ghost predicate LeavesOthers(w: State, r: RotateEnv, disk: Disk) {
    forall path :: IsOther(w, r, path) ==>
      if path in w.disk then (path in disk && disk[path] == w.disk[path]) || (path !in disk && MayBeTaken(w, r, path))
      else path !in disk
  }

  lemma OpenStarts(w: State, r: RotateEnv)
    requires Opens(w, r)
    ensures var after := Open(w, r);
      && StartsFile(w, r, after) && after.cfg == w.cfg && after.enc == w.enc
      && after.log == w.log + HeaderEvents(w.cfg, r)
      && (forall path :: IsOther(w, r, path) ==>
            (path in w.disk <==> path in after.disk) && (path in w.disk ==> after.disk[path] == w.disk[path]))
  {
    JoinsMetrics(w, r);
    JoinsSidecar(w, r);
    NoSidecar(w, r.stamp, r.stamp);
  }

  /** Retention after the opening leaves the new file alone, and takes only what it may. */
  lemma SweptOthers(w: State, r: RotateEnv, begun: State)
    requires begun.cfg == w.cfg && StartsFile(w, r, begun)
    requires forall path :: IsOther(w, r, path) ==>
               (path in w.disk <==> path in begun.disk) && (path in w.disk ==> begun.disk[path] == w.disk[path])
    ensures StartsFile(w, r, Enforce(begun, r.sweep)) && LeavesOthers(w, r, Enforce(begun, r.sweep).disk)
  {
    var after := Enforce(begun, r.sweep);
    OnlyOurs(begun, r.sweep);
    SparesOpen(begun, r.sweep);
    forall path | IsOther(w, r, path) && path in w.disk && path !in after.disk ensures MayBeTaken(w, r, path) {
      assert path in begun.disk;
      var e :| MayGo(begun, r.sweep, e) && path == PathOf(begun, e);
      assert MayGo(w.(file := FileFor(w, r.stamp)), r.sweep, e);
    }
  }

  lemma SparesOpen(w: State, s: SweepEnv)
    ensures w.file in w.disk ==> w.file in Enforce(w, s).disk && Enforce(w, s).disk[w.file] == w.disk[w.file]
  {
    OnlyOurs(w, s);
  }

  /** A rotation that works opens a file of its own, named by its stamp: its contents are just the header,
      behind whatever that name already held. Of all other files only the metadata file of the same stamp
      changes, and retention may remove some of the module's. The encoder is asked for a checkpoint. */
  lemma RotationOpens(w: State, r: RotateEnv)
    requires Opens(w, r) && (w.cfg.maxDirBytes <= 0 || r.sweep.listed)
    ensures var after := Rotate(w, r);
      && !after.error && StartsFile(w, r, after) && LeavesOthers(w, r, after.disk)
      && (FileFor(w, r.stamp) !in w.disk ==> after.disk[FileFor(w, r.stamp)] == HeaderFor(w, r))
      && after.cfg == w.cfg && after.enc == w.enc.(needCheckpoint := true)
      && after.log == w.log + [Opened(FileFor(w, r.stamp), HeaderFor(w, r), true)] +
                      if r.flushed then [] else [Broken(None)]
  {
    JoinsMetrics(w, r);
    OpenStarts(Close(w), r);
    SweptOthers(Close(w), r, Open(Close(w), r));
    ClosedOthers(w, r, Rotate(w, r).disk);
    RotateLog(w, r);
  }

  lemma RotateLog(w: State, r: RotateEnv)
    requires Opens(w, r)
    ensures w.log + HeaderEvents(w.cfg, r) ==
            w.log + [Opened(FileFor(w, r.stamp), HeaderFor(w, r), w.cfg.maxDirBytes <= 0 || r.sweep.listed)] +
            if r.flushed then [] else [Broken(None)]
  {
    JoinsMetrics(w, r);
  }

  lemma ClosedOthers(w: State, r: RotateEnv, disk: Disk)
    requires LeavesOthers(Close(w), r, disk)
    ensures LeavesOthers(w, r, disk)
  {
    forall path | MayBeTaken(Close(w), r, path) ensures MayBeTaken(w, r, path) {
      var c := Close(w);
      var e :| MayGo(c.(file := FileFor(c, r.stamp)), r.sweep, e) && path == PathOf(c, e);
      assert MayGo(w.(file := FileFor(w, r.stamp)), r.sweep, e);
    }
    assert forall path :: IsOther(w, r, path) <==> IsOther(Close(w), r, path);
  }

  /** What a rotation leaves that does not get to open a file: nothing open, an error, the encoder and the log
      as they were, and on the disk at most a part of the header at the end of the file it was to open. */
  lemma RotationFails(w: State, r: RotateEnv)
    requires !Opens(w, r)
    ensures var after, file := Rotate(w, r), FileFor(w, r.stamp);
      && !after.open && after.error && after.bytes == 0 && after.openedMs == 0
      && after.cfg == w.cfg && after.enc == w.enc && after.log == w.log
      && after.file == (if !r.dirOk || w.cfg.path == "" then "" else if |file| >= 4096 then file[..4095] else file)
      && (after.disk == w.disk ||
          (r.dirOk && w.cfg.path != "" && |file| < 4096 && r.openOk && !r.headerOk &&
           after.disk == w.disk[file := (if file in w.disk then w.disk[file] else "") + r.torn]))
  {
    JoinsMetrics(w, r);
  }

  /** When the file was opened and only retention failed: the file is open, with its header, and the encoder is
      not asked for a checkpoint. */
  lemma RotationUnswept(w: State, r: RotateEnv)
    requires Opens(w, r) && w.cfg.maxDirBytes > 0 && !r.sweep.listed
    ensures var after := Rotate(w, r);
      && after.error && StartsFile(w, r, after) && LeavesOthers(w, r, after.disk)
      && after.cfg == w.cfg && after.enc == w.enc
      && after.log == w.log + [Opened(FileFor(w, r.stamp), HeaderFor(w, r), false)] +
                      if r.flushed then [] else [Broken(None)]
  {
    JoinsMetrics(w, r);
    OpenStarts(Close(w), r);
    SweptOthers(Close(w), r, Open(Close(w), r));
    ClosedOthers(w, r, Rotate(w, r).disk);
    RotateLog(w, r);
  }

  /** Under one path, rotations with different stamps open different files, and neither opens a metadata file. */
  lemma StampsSeparate(w: State, v: State, r: RotateEnv, q: RotateEnv)
    requires w.cfg.path == v.cfg.path && Opens(w, r) && Opens(v, q)
    ensures Rotate(w, r).file == Rotate(v, q).file <==> r.stamp == q.stamp
    ensures Rotate(w, r).file != SidecarFor(v, q.stamp)
  {
    JoinsMetrics(w, r);
    JoinsMetrics(v, q);
    StampOf(w, r.stamp);
    StampOf(v, q.stamp);
    NoSidecar(w, r.stamp, q.stamp);
  }

  lemma StampOf(w: State, stamp: string)
    ensures var k, file := |w.cfg.path + "/metrics."|, FileFor(w, stamp);
      |file| == k + |stamp| + 7 && file[k..|file| - 7] == stamp
  {
  }

  lemma NoSidecar(w: State, stamp: string, other: string)
    ensures FileFor(w, stamp) != SidecarFor(w, other)
  {
    var k := |w.cfg.path|;
    assert FileFor(w, stamp)[k + 4] == 'r' && SidecarFor(w, other)[k + 4] == 'a';
  }

  // ----- closed files over a run ------------------------------------------------------------------------------

  /** A path with a name like those the module gives. */
  ghost predicate Named(dir: string, path: string) {
    exists name: string :: path == dir + "/" + name && ("metrics." <= name || "metadata." <= name)
  }

  /** Every file but the touched ones is as it was, or went and had a name of the module; none comes up. */
  ghost predicate Keeps(before: Disk, after: Disk, touched: set<string>, dir: string) {
    forall path :: path !in touched ==>
      if path in before then (path in after && after[path] == before[path]) || (path !in after && Named(dir, path))
      else path !in after
  }

  lemma KeepsThrough(a: Disk, b: Disk, c: Disk, touched: set<string>, more: set<string>, dir: string)
    requires Keeps(a, b, touched, dir) && Keeps(b, c, more, dir)
    ensures Keeps(a, c, touched + more, dir)
  {
  }

  lemma MayGoNamed(w: State, s: SweepEnv, e: DirEntry)
    requires MayGo(w, s, e)
    ensures Named(w.cfg.path, PathOf(w, e))
  {
    assert PathOf(w, e) == w.cfg.path + "/" + e.name;
  }

  lemma EnforceKeeps(w: State, s: SweepEnv)
    ensures Keeps(w.disk, Enforce(w, s).disk, {}, w.cfg.path) && Enforce(w, s).cfg == w.cfg
  {
    OnlyOurs(w, s);
    forall path | path in w.disk && path !in Enforce(w, s).disk ensures Named(w.cfg.path, path) {
      var e :| MayGo(w, s, e) && path == PathOf(w, e);
      MayGoNamed(w, s, e);
    }
  }

  function Names(w: State, r: RotateEnv): set<string> {
    {FileFor(w, r.stamp), SidecarFor(w, r.stamp)}
  }

  lemma OthersKept(w: State, r: RotateEnv, disk: Disk)
    requires LeavesOthers(w, r, disk)
    ensures Keeps(w.disk, disk, Names(w, r), w.cfg.path)
  {
    forall path | MayBeTaken(w, r, path) ensures Named(w.cfg.path, path) {
      var e :| MayGo(w.(file := FileFor(w, r.stamp)), r.sweep, e) && path == PathOf(w, e);
      MayGoNamed(w.(file := FileFor(w, r.stamp)), r.sweep, e);
    }
  }

  lemma RotateKeeps(w: State, r: RotateEnv)
    ensures Keeps(w.disk, Rotate(w, r).disk, Names(w, r), w.cfg.path) && Rotate(w, r).cfg == w.cfg
    ensures Rotate(w, r).open ==> Rotate(w, r).file == FileFor(w, r.stamp)
  {
    if !Opens(w, r) {
      RotationFails(w, r);
    } else if w.cfg.maxDirBytes <= 0 || r.sweep.listed {
      RotationOpens(w, r);
      OthersKept(w, r, Rotate(w, r).disk);
    } else {
      RotationUnswept(w, r);
      OthersKept(w, r, Rotate(w, r).disk);
    }
  }

  lemma RecordKeeps(w: State, line: Event, e: AppendEnv)
    requires line.Line?
    ensures Keeps(w.disk, WriteRecord(w, line, e).disk, {w.file}, w.cfg.path)
    ensures WriteRecord(w, line, e).cfg == w.cfg
  {
    var written := Write(w, line, e.recordWrite);
    EnforceKeeps(written, e.sweep);
    assert Keeps(w.disk, written.disk, {w.file}, w.cfg.path);
  }

  lemma EncodedKeeps(w: State, out: Encoded, flat: Flat, seen: seq<Metric>, interval: int, e: AppendEnv)
    ensures Keeps(w.disk, WriteEncoded(w, out, flat, seen, interval, e).disk, {w.file}, w.cfg.path)
    ensures WriteEncoded(w, out, flat, seen, interval, e).cfg == w.cfg
  {
    var record := Line(if out.checkpoint then Checkpoint else Delta, out.record, flat, seen, interval);
    if out.event.None? {
      RecordKeeps(w, record, e);
    } else {
      var restarted := Write(w, Line(Restart, out.event.value, flat, seen, interval), e.eventWrite);
      RecordKeeps(restarted, record, e);
      assert Keeps(w.disk, restarted.disk, {w.file}, w.cfg.path);
      KeepsThrough(w.disk, restarted.disk, WriteRecord(restarted, record, e).disk, {w.file}, {w.file}, w.cfg.path);
    }
  }

  lemma DeltaKeeps(w: State, sample: string, mem: Memory, e: AppendEnv)
    ensures Keeps(w.disk, AppendDelta(w, sample, mem, e).disk, {w.file}, w.cfg.path)
    ensures AppendDelta(w, sample, mem, e).cfg == w.cfg
  {
    var interval := w.cfg.checkpointIntervalMs;
    var encoded := Encode(w.enc, interval, sample, mem);
    if encoded.Some? {
      var all := FlatSample(sample).value;
      EncodedKeeps(w.(enc := encoded.value.0), encoded.value.1, all, Seen(all, mem).metrics, interval, e);
    }
  }

  lemma SnapshotKeeps(w: State, sample: string, e: AppendEnv)
    ensures Keeps(w.disk, AppendSnapshot(w, sample, e).disk, {w.file} + Names(w, e.second), w.cfg.path)
    ensures AppendSnapshot(w, sample, e).cfg == w.cfg
  {
    RecordKeeps(w, SnapshotLine(w, sample), e);
    RotateKeeps(w, e.second);
    if RotateOk(w.cfg, e.second) {
      var next := Rotate(w, e.second);
      RecordKeeps(next, SnapshotLine(w, ""), e);
      KeepsThrough(w.disk, next.disk, WriteRecord(next, SnapshotLine(w, ""), e).disk, Names(w, e.second), {next.file},
                   w.cfg.path);
    }
  }

  /** The open file, and those a rotation of the operation would open. */
  function Touched(w: State, op: Op): set<string> {
    match op
    case DoAppend(_, _, e) => {w.file} + Names(w, e.rotation) + Names(w, e.second)
    case DoRotate(r) => Names(w, r)
    case SetPath(path, r) => Names(w.(cfg := w.cfg.(path := path)), r)
    case _ => {}
  }

  lemma AppendKeeps(w: State, sample: string, mem: Memory, e: AppendEnv)
    ensures Keeps(w.disk, Append(w, sample, mem, e).disk, Touched(w, DoAppend(sample, mem, e)), w.cfg.path)
    ensures Append(w, sample, mem, e).cfg == w.cfg
  {
    var ready := Prepare(w, |sample|, e);
    RotateKeeps(w, e.rotation);
    PreparedFile(w, |sample|, e);
    DeltaKeeps(ready, sample, mem, e);
    SnapshotKeeps(ready, sample, e);
    assert Names(ready, e.second) == Names(w, e.second);
    if Prepared(w, |sample|, e) {
      KeepsThrough(w.disk, ready.disk, Append(w, sample, mem, e).disk, Names(w, e.rotation),
                   {ready.file} + Names(w, e.second), w.cfg.path);
    }
  }

  lemma PreparedFile(w: State, len: nat, e: AppendEnv)
    ensures Prepared(w, len, e) ==>
              Prepare(w, len, e).file == w.file || Prepare(w, len, e).file == FileFor(w, e.rotation.stamp)
    ensures Prepare(w, len, e).cfg == w.cfg
  {
    JoinsMetrics(w, e.rotation);
  }

  /** One operation, in any state: every file but the open one and those it opens stays as it is, or is removed
      and had a name of the module; and no other file comes up. */
  lemma StepKeeps(w: State, op: Op)
    ensures Keeps(w.disk, Step(w, op).disk, Touched(w, op), Step(w, op).cfg.path)
  {
    match op
    case DoAppend(sample, mem, e) => AppendKeeps(w, sample, mem, e);
    case DoRotate(r) => RotateKeeps(w, r);
    case SetPath(path, r) => PathKeeps(w, path, r);
    case _ => StaysOnDisk(w, op);
  }

  lemma PathKeeps(w: State, path: string, r: RotateEnv)
    ensures Keeps(w.disk, Step(w, SetPath(path, r)).disk, Touched(w, SetPath(path, r)),
                  Step(w, SetPath(path, r)).cfg.path)
  {
    var moved := w.(cfg := w.cfg.(path := path));
    RotateKeeps(ResetSegment(moved), r);
    assert Names(ResetSegment(moved), r) == Names(moved, r);
  }

  lemma StaysOnDisk(w: State, op: Op)
    requires !op.DoAppend? && !op.DoRotate? && !op.SetPath?
    ensures Step(w, op).disk == w.disk
  {
  }

  ghost predicate NeverTouched(w: State, ops: seq<Op>, path: string) {
    forall i :: 0 <= i < |ops| ==> path !in Touched(Run(w, ops[..i]), ops[i])
  }

  /** Over every run, from any state: a file that is not the open one, whose name no later rotation opens, keeps
      its contents to the byte for as long as it is there, and does not come back once it is gone. */
  lemma {:induction false} ClosedFilesStay(w: State, ops: seq<Op>, path: string)
    requires NeverTouched(w, ops, path)
    ensures var after := Run(w, ops).disk;
      path in after ==> path in w.disk && after[path] == w.disk[path]
  {
    if ops != [] {
      var init, op := ops[..|ops| - 1], ops[|ops| - 1];
      forall i | 0 <= i < |init| ensures path !in Touched(Run(w, init[..i]), init[i]) {
        assert init[..i] == ops[..i];
      }
      ClosedFilesStay(w, init, path);
      StepKeeps(Run(w, init), op);
      RunSnoc(w, ops);
    }
  }

  lemma RunSnoc(w: State, ops: seq<Op>)
    requires ops != []
    ensures Run(w, ops) == Step(Run(w, ops[..|ops| - 1]), ops[|ops| - 1])
  {
  }
}
