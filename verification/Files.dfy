/** What holds of the files over every run of the writer: where the open file is, what is in it, and
    how its size is counted. */
module Files {
  import opened Wrappers
  import opened CText
  import opened Metrics
  import opened Flatten
  import opened Encoder
  import opened Rotation
  import opened Writer
  import opened Runs

  // ----- the open file according to the log ----------------------------------------------------------

  /** The text the log has for the open file, from its last header on. */
  function BlockText(log: Log): string {
    if log == [] then ""
    else
      var before, e := log[..|log| - 1], log[|log| - 1];
      match e
      case Opened(_, header, _) => header
      case Line(_, text, _, _, _) => BlockText(before) + text + "\n"
      case _ => BlockText(before)
  }

  /** Nothing was torn since the last header. */
  predicate Untorn(log: Log) {
    if log == [] then false
    else
      var e := log[|log| - 1];
      e.Opened? || (!e.Broken? && Untorn(log[..|log| - 1]))
  }

  predicate HasSuffix(s: string, suffix: string) {
    |suffix| <= |s| && s[|s| - |suffix|..] == suffix
  }

  /** A metrics file of the directory `path`. */
  predicate Under(path: string, file: string) {
    HasPrefix(file, JoinPath(path, "metrics.")) && |file| < PATH_MAX
  }

  /** Since the last header there was a checkpoint on a line of its own, and nothing failed since. */
  predicate Based(log: Log) {
    log != [] &&
    var before, e := log[..|log| - 1], log[|log| - 1];
    (IsLine(e, Checkpoint) && !Ragged(before)) || (!e.Broken? && !e.Opened? && Based(before))
  }

  /** The records from that checkpoint on. */
  function TailLines(log: Log): seq<string> {
    if log == [] then []
    else
      var before, e := log[..|log| - 1], log[|log| - 1];
      if IsLine(e, Checkpoint) && !Ragged(before) then [e.text]
      else if e.Line? then TailLines(before) + [e.text]
      else TailLines(before)
  }

  predicate Ended(text: string) {
    text == "" || text[|text| - 1] == '\n'
  }

  predicate EndsIn(lines: seq<string>, tail: seq<string>) {
    |tail| <= |lines| && lines[|lines| - |tail|..] == tail
  }

  /** Split at its newlines, garbage and older blocks included, the file ends in these records. */
  predicate Reads(log: Log, text: string) {
    (!Ragged(log) ==> Ended(text)) && (Based(log) ==> EndsIn(Lines(text), TailLines(log)))
  }

  /** While a file is open: its name is in the configured directory and the file is there; unless
      something was torn, its size is counted exactly and it ends with what the log says; and whatever
      was torn, its lines end in the records since a checkpoint, if these are on one line each. */
  ghost predicate Tracked(w: State) {
    w.open ==>
      && Under(w.cfg.path, w.file)
      && w.file in w.disk
      && (Untorn(w.log) ==> w.bytes == |w.disk[w.file]| && HasSuffix(w.disk[w.file], BlockText(w.log)))
      && (Framed(w.log) ==> Reads(w.log, w.disk[w.file]))
  }

  // ----- the pieces keep it --------------------------------------------------------------------------

  lemma LogSnoc(log: Log, e: Event)
    ensures BlockText(log + [e]) ==
            if e.Opened? then e.header else if e.Line? then BlockText(log) + e.text + "\n" else BlockText(log)
    ensures Untorn(log + [e]) == (e.Opened? || (!e.Broken? && Untorn(log)))
  {
    assert (log + [e])[..|log|] == log;
  }

  lemma TailSnoc(log: Log, e: Event)
    ensures Ragged(log + [e]) == (e.Broken? || (e.ResetMark? && Ragged(log)))
    ensures Based(log + [e]) == ((IsLine(e, Checkpoint) && !Ragged(log)) || (!e.Broken? && !e.Opened? && Based(log)))
    ensures TailLines(log + [e]) ==
            if IsLine(e, Checkpoint) && !Ragged(log) then [e.text]
            else if e.Line? then TailLines(log) + [e.text]
            else TailLines(log)
  {
    assert (log + [e])[..|log|] == log;
  }

  lemma {:induction false} BasedNotRagged(log: Log)
    requires Based(log)
    ensures !Ragged(log)
  {
    if log[|log| - 1].ResetMark? {
      BasedNotRagged(log[..|log| - 1]);
    }
  }

  lemma ReadsOpened(log: Log, e: Event, text: string)
    requires e.Opened? && Ended(text)
    ensures Reads(log + [e], text)
  {
    TailSnoc(log, e);
  }

  lemma ReadsBroken(log: Log, e: Event, text: string)
    requires e.Broken?
    ensures Reads(log + [e], text)
  {
    TailSnoc(log, e);
  }

  lemma ReadsReset(log: Log, text: string)
    requires Reads(log, text)
    ensures Reads(log + [ResetMark], text)
  {
    TailSnoc(log, ResetMark);
  }

  lemma ReadsLine(log: Log, line: Event, text: string)
    requires Reads(log, text) && line.Line? && OneLine(line.text)
    ensures Reads(log + [line], text + (line.text + "\n"))
  {
    TailSnoc(log, line);
    if !Ragged(log) {
      LinesSnoc(text, line.text);
    }
    if Based(log) {
      BasedNotRagged(log);
      EndsInSnoc(Lines(text), TailLines(log), line.text);
    }
  }

  lemma EndsInSnoc(lines: seq<string>, tail: seq<string>, line: string)
    requires EndsIn(lines, tail)
    ensures EndsIn(lines + [line], tail + [line])
  {
  }

  lemma FramedBefore(log: Log, e: Event)
    requires Framed(log + [e])
    ensures Framed(log) && (e.Line? ==> OneLine(e.text))
  {
    assert e in log + [e];
    assert forall x :: x in log ==> x in log + [e];
  }

  lemma NextFileUnder(cfg: Config, r: RotateEnv)
    requires |NextFile(cfg, r)| < PATH_MAX
    ensures Under(cfg.path, NextFile(cfg, r))
    ensures NextFile(cfg, r) != JoinPath(cfg.path, MetadataName(r.stamp))
  {
    var head := JoinPath(cfg.path, "metrics.");
    assert NextFile(cfg, r) == head + (r.stamp + ".vkftdc");
    var k := |cfg.path| + 1;
    assert NextFile(cfg, r)[k + 3] == 'r';
    assert JoinPath(cfg.path, MetadataName(r.stamp))[k + 3] == 'a';
  }

  /** For every state and every retention run: the open file, and every file but the ones listed in
      the directory, stays as it is. */
  lemma EnforceSparesOpen(w: State, s: SweepEnv)
    ensures w.file in w.disk ==> w.file in Enforce(w, s).disk && Enforce(w, s).disk[w.file] == w.disk[w.file]
    ensures Enforce(w, s) == w.(disk := Enforce(w, s).disk)
  {
    VictimsSpareCurrent(w.cfg.path, s.entries, w.cfg.maxDirBytes, w.file, s.stuck);
  }

  lemma EnforceTracked(w: State, s: SweepEnv)
    requires Tracked(w)
    ensures Tracked(Enforce(w, s)) && Tracked(Enforce(w, s).(error := !SweepOk(w.cfg, s)))
  {
    EnforceSparesOpen(w, s);
  }

  lemma OpenTracked(w: State, r: RotateEnv)
    requires |NextFile(w.cfg, r)| < PATH_MAX
    ensures Tracked(Open(w, r))
  {
    var e := Opened(NextFile(w.cfg, r), Header(w.cfg, r), SweepOk(w.cfg, r.sweep));
    NextFileUnder(w.cfg, r);
    OpenOnDisk(w, r);
    HeaderLog(w, r, e);
    SuffixOfAppended(Contents(w.disk, NextFile(w.cfg, r)), Header(w.cfg, r));
    HeaderReads(w.log, e, Contents(w.disk, NextFile(w.cfg, r)) + Header(w.cfg, r));
  }

  lemma OpenOnDisk(w: State, r: RotateEnv)
    requires |NextFile(w.cfg, r)| < PATH_MAX
    ensures var after, text := Open(w, r), Contents(w.disk, NextFile(w.cfg, r)) + Header(w.cfg, r);
      && after.cfg == w.cfg && after.file == NextFile(w.cfg, r) && after.log == w.log + HeaderEvents(w.cfg, r)
      && after.file in after.disk && after.disk[after.file] == text && after.bytes == |text| && Ended(text)
  {
    NextFileUnder(w.cfg, r);
  }

  lemma HeaderReads(log: Log, e: Event, text: string)
    requires e.Opened? && Ended(text)
    ensures Reads(log + [e], text) && Reads(log + [e] + [Broken(None)], text)
    ensures Untorn(log + [e]) && BlockText(log + [e]) == e.header && !Untorn(log + [e] + [Broken(None)])
  {
    LogSnoc(log, e);
    LogSnoc(log + [e], Broken(None));
    ReadsOpened(log, e, text);
    ReadsBroken(log + [e], Broken(None), text);
  }

  lemma HeaderLog(w: State, r: RotateEnv, e: Event)
    requires e == Opened(NextFile(w.cfg, r), Header(w.cfg, r), SweepOk(w.cfg, r.sweep))
    ensures w.log + HeaderEvents(w.cfg, r) == if r.flushed then w.log + [e] else w.log + [e] + [Broken(None)]
  {
    assert w.log + [e] + [Broken(None)] == w.log + ([e] + [Broken(None)]);
    assert [e] + [] == [e];
  }

  lemma SuffixOfAppended(s: string, t: string)
    ensures HasSuffix(s + t, t)
  {
  }

  lemma SuffixExtended(s: string, t: string, u: string)
    requires HasSuffix(s, t)
    ensures HasSuffix(s + u, t + u)
  {
    assert s == s[..|s| - |t|] + t;
    assert s + u == s[..|s| - |t|] + (t + u);
  }

  lemma RotateTracked(w: State, r: RotateEnv)
    ensures Tracked(Rotate(w, r)) && Rotate(w, r).cfg == w.cfg
    ensures RotateOk(w.cfg, r) ==> Rotate(w, r).open
  {
    if CanOpen(w.cfg, r) {
      OpenTracked(Close(w), r);
      EnforceTracked(Open(Close(w), r), r.sweep);
    }
  }

  lemma WriteTracked(w: State, line: Event, o: WriteEnv)
    requires Tracked(w) && line.Line? && w.open
    ensures Tracked(Write(w, line, o))
  {
    if o.Whole? {
      WholeTracked(w, line);
    } else {
      BrokenTracked(w.(disk := Extend(w.disk, w.file, o.text), error := true), Broken(Some(line.kind)));
    }
  }

  lemma WholeTracked(w: State, line: Event)
    requires Tracked(w) && line.Line? && w.open
    ensures Tracked(Write(w, line, Whole))
  {
    LogSnoc(w.log, line);
    if Untorn(w.log) {
      SuffixExtended(w.disk[w.file], BlockText(w.log), line.text + "\n");
      assert BlockText(w.log) + (line.text + "\n") == BlockText(w.log) + line.text + "\n";
    }
    if Framed(w.log + [line]) {
      FramedBefore(w.log, line);
      ReadsLine(w.log, line, w.disk[w.file]);
    }
  }

  /** After a failed write or flush, whatever it left in the file. */
  lemma BrokenTracked(w: State, e: Event)
    requires w.open && Under(w.cfg.path, w.file) && w.file in w.disk && e.Broken?
    ensures Tracked(w.(log := w.log + [e]))
  {
    LogSnoc(w.log, e);
    ReadsBroken(w.log, e, w.disk[w.file]);
  }

  lemma WriteRecordTracked(w: State, line: Event, e: AppendEnv)
    requires Tracked(w) && line.Line? && w.open
    ensures Tracked(WriteRecord(w, line, e))
  {
    WriteTracked(w, line, e.recordWrite);
    var written := Write(w, line, e.recordWrite);
    if e.recordWrite.Whole? {
      BrokenTracked(written.(error := true), Broken(None));
      EnforceTracked(written, e.sweep);
    }
  }

  lemma WriteEncodedTracked(w: State, out: Encoded, flat: Flat, seen: seq<Metric>, interval: int, e: AppendEnv)
    requires Tracked(w) && w.open
    ensures Tracked(WriteEncoded(w, out, flat, seen, interval, e))
  {
    var record := Line(if out.checkpoint then Checkpoint else Delta, out.record, flat, seen, interval);
    if out.event.None? {
      WriteRecordTracked(w, record, e);
    } else {
      var restart := Line(Restart, out.event.value, flat, seen, interval);
      WriteTracked(w, restart, e.eventWrite);
      if e.eventWrite.Whole? {
        WriteRecordTracked(Write(w, restart, e.eventWrite), record, e);
      }
    }
  }

  lemma AppendDeltaTracked(w: State, sample: string, mem: Memory, e: AppendEnv)
    requires Tracked(w) && w.open
    ensures Tracked(AppendDelta(w, sample, mem, e))
  {
    var encoded := Encode(w.enc, w.cfg.checkpointIntervalMs, sample, mem);
    if encoded.Some? {
      var all, interval := FlatSample(sample).value, w.cfg.checkpointIntervalMs;
      var ready := w.(enc := encoded.value.0);
      WriteEncodedTracked(ready, encoded.value.1, all, Seen(all, mem).metrics, interval, e);
    }
  }

  lemma AppendSnapshotTracked(w: State, sample: string, e: AppendEnv)
    requires Tracked(w) && w.open
    ensures Tracked(AppendSnapshot(w, sample, e))
  {
    if !ShouldRotate(w, |sample|, e.later) {
      WriteRecordTracked(w, SnapshotLine(w, sample), e);
    } else {
      RotateTracked(w, e.second);
      if RotateOk(w.cfg, e.second) {
        WriteRecordTracked(Rotate(w, e.second), SnapshotLine(w, ""), e);
      }
    }
  }

  lemma StepTracked(w: State, op: Op)
    requires Tracked(w)
    ensures Tracked(Step(w, op))
  {
    match op
    case DoAppend(sample, mem, env) =>
      RotateTracked(w, env.rotation);
      if Prepared(w, |sample|, env) {
        var ready := Prepare(w, |sample|, env);
        AppendDeltaTracked(ready, sample, mem, env);
        AppendSnapshotTracked(ready, sample, env);
      }
    case DoRotate(rotation) => RotateTracked(w, rotation);
    case DoFlush(ok) =>
      if w.open {
        BrokenTracked(w.(error := true), Broken(None));
      }
    case SetPath(path, rotation) => RotateTracked(ResetSegment(w.(cfg := w.cfg.(path := path))), rotation);
    case SetDeltaMetrics(on) => ResetTracked(w.(cfg := w.cfg.(deltaMetrics := on)));
    case _ =>
  }

  lemma ResetTracked(w: State)
    requires Tracked(w)
    ensures Tracked(ResetSegment(w))
  {
    LogSnoc(w.log, ResetMark);
    if w.open && Framed(w.log + [ResetMark]) {
      FramedBefore(w.log, ResetMark);
      ReadsReset(w.log, w.disk[w.file]);
    }
  }

  /** In every reachable state: an open file lies under the configured path, whatever path changes and failed
      rotations came before, is still on disk, is counted to its exact size unless a write was torn,
      and ends with the header and the lines the log has for it. */
  lemma ReachableTracked(w: State)
    requires Reachable(w)
    ensures Tracked(w)
  {
    var cfg, disk, ops :| w == Run(Start(cfg, disk), ops);
    RunTracked(cfg, disk, ops);
  }

  lemma {:induction false} RunTracked(cfg: Config, disk: Disk, ops: seq<Op>)
    ensures Tracked(Run(Start(cfg, disk), ops))
  {
    if ops != [] {
      RunTracked(cfg, disk, ops[..|ops| - 1]);
      StepTracked(Run(Start(cfg, disk), ops[..|ops| - 1]), ops[|ops| - 1]);
    }
  }

  // ----- framing --------------------------------------------------------------------------------------

  /** The newline-terminated lines of a text. */
  function Lines(s: string): seq<string>
    decreases |s|
  {
    if LineLength(s) == |s| then [] else [s[..LineLength(s)]] + Lines(AfterLine(s))
  }

  function AfterLine(s: string): (rest: string)
    requires LineLength(s) < |s|
    ensures |rest| < |s|
  {
    s[LineLength(s) + 1..]
  }

  function LineLength(s: string): (k: nat)
    ensures k <= |s|
  {
    if s == "" || s[0] == '\n' then 0 else 1 + LineLength(s[1..])
  }

  predicate OneLine(s: string) {
    '\n' !in s
  }

  lemma {:induction false} LineLengthOf(line: string, rest: string)
    requires OneLine(line)
    ensures LineLength(line + "\n" + rest) == |line|
  {
    var s := line + "\n" + rest;
    if line != "" {
      assert s[0] == line[0] && line[0] in line;
      assert s[1..] == line[1..] + "\n" + rest;
      LineLengthOf(line[1..], rest);
    }
  }

  lemma FirstLine(line: string, rest: string)
    requires OneLine(line)
    ensures Lines(line + "\n" + rest) == [line] + Lines(rest)
  {
    var s := line + "\n" + rest;
    LineLengthOf(line, rest);
    assert s[..|line|] == line && s[|line| + 1..] == rest;
  }

  /** Lines ended before a place are the same whatever follows it. */
  lemma {:induction false} LinesConcat(a: string, b: string)
    requires Ended(a)
    ensures Lines(a + b) == Lines(a) + Lines(b)
    decreases |a|
  {
    if a == "" {
      assert a + b == b;
    } else {
      LineEnds(a);
      LineKept(a, b);
      LinesConcat(AfterLine(a), b);
    }
  }

  lemma {:induction false} LineEnds(a: string)
    requires a != "" && Ended(a)
    ensures LineLength(a) < |a| && Ended(AfterLine(a))
  {
    if a[0] != '\n' {
      LineEnds(a[1..]);
      assert AfterLine(a[1..]) == AfterLine(a);
    }
  }

  lemma LineKept(a: string, b: string)
    requires LineLength(a) < |a|
    ensures LineLength(a + b) == LineLength(a)
    ensures (a + b)[..LineLength(a)] == a[..LineLength(a)] && AfterLine(a + b) == AfterLine(a) + b
  {
    LineLengthKept(a, b);
  }

  lemma {:induction false} LineLengthKept(a: string, b: string)
    requires LineLength(a) < |a|
    ensures LineLength(a + b) == LineLength(a)
  {
    assert (a + b)[0] == a[0];
    if a[0] != '\n' {
      assert (a + b)[1..] == a[1..] + b;
      LineLengthKept(a[1..], b);
    }
  }

  lemma LinesSnoc(text: string, line: string)
    requires Ended(text) && OneLine(line)
    ensures Lines(text + (line + "\n")) == Lines(text) + [line]
  {
    LinesConcat(text, line + "\n");
    assert line + "\n" + "" == line + "\n";
    FirstLine(line, "");
  }

  /** The text that puts the lines one after the other. */
  function Unlines(lines: seq<string>): string {
    if lines == [] then "" else Unlines(lines[..|lines| - 1]) + lines[|lines| - 1] + "\n"
  }

  lemma {:induction false} UnlinesFront(lines: seq<string>)
    requires lines != []
    ensures Unlines(lines) == lines[0] + "\n" + Unlines(lines[1..])
  {
    if |lines| == 1 {
      assert lines[..0] == [] && lines[1..] == [];
    } else {
      var init, last := lines[..|lines| - 1], lines[|lines| - 1];
      UnlinesFront(init);
      assert lines[1..] == init[1..] + [last];
      UnlinesLast(init[1..], last);
      var first, middle := lines[0] + "\n", Unlines(init[1..]);
      Regroup(first, middle, last);
      Regroup(first, middle + last, "\n");
    }
  }

  lemma UnlinesLast(init: seq<string>, last: string)
    ensures Unlines(init + [last]) == Unlines(init) + last + "\n"
  {
    assert (init + [last])[..|init|] == init;
  }

  lemma {:induction false} LinesOfUnlines(lines: seq<string>)
    requires forall line :: line in lines ==> OneLine(line)
    ensures Lines(Unlines(lines)) == lines
  {
    if lines != [] {
      UnlinesFront(lines);
      FirstLine(lines[0], Unlines(lines[1..]));
      LinesOfUnlines(lines[1..]);
    }
  }

  /** The magic, the metadata and the records since the last header. */
  function BlockLines(log: Log): seq<string> {
    if log == [] then []
    else
      var before, e := log[..|log| - 1], log[|log| - 1];
      match e
      case Opened(_, header, _) => Lines(header)
      case Line(_, text, _, _, _) => BlockLines(before) + [text]
      case _ => BlockLines(before)
  }

  lemma HeaderLines(metadata: string)
    requires OneLine(metadata)
    ensures Lines(MAGIC + metadata + "\n") == ["VKFTDC1", metadata]
    ensures MAGIC + metadata + "\n" == Unlines(["VKFTDC1", metadata])
  {
    assert OneLine("VKFTDC1");
    assert MAGIC + metadata + "\n" == "VKFTDC1" + "\n" + (metadata + "\n" + "");
    FirstLine("VKFTDC1", metadata + "\n" + "");
    FirstLine(metadata, "");
    HeaderUnlines(metadata);
  }

  lemma HeaderUnlines(metadata: string)
    ensures Unlines(["VKFTDC1", metadata]) == MAGIC + metadata + "\n"
  {
    UnlinesLast([], "VKFTDC1");
    UnlinesLast(["VKFTDC1"], metadata);
    assert [] + ["VKFTDC1"] == ["VKFTDC1"] && ["VKFTDC1"] + [metadata] == ["VKFTDC1", metadata];
    assert Unlines(["VKFTDC1"]) == MAGIC;
  }

  /** Every header since the start is the magic and one line of metadata, every record one line. */
  ghost predicate Framed(log: Log) {
    forall e :: e in log ==>
      && (e.Opened? ==> exists metadata :: OneLine(metadata) && e.header == MAGIC + metadata + "\n")
      && (e.Line? ==> OneLine(e.text))
  }

  /** Splitting a block at its newlines gives back the magic, the metadata and the records, each whole
      and in the order they were appended. */
  lemma {:induction false} BlockSplits(log: Log)
    requires Framed(log) && Untorn(log)
    ensures BlockText(log) == Unlines(BlockLines(log))
    ensures forall line :: line in BlockLines(log) ==> OneLine(line)
    ensures Lines(BlockText(log)) == BlockLines(log)
  {
    var before, e := log[..|log| - 1], log[|log| - 1];
    assert e in log;
    if e.Opened? {
      var metadata :| OneLine(metadata) && e.header == MAGIC + metadata + "\n";
      HeaderLines(metadata);
    } else {
      BlockSplits(before);
      if e.Line? {
        var lines := BlockLines(before) + [e.text];
        assert lines[..|lines| - 1] == BlockLines(before);
      }
    }
    LinesOfUnlines(BlockLines(log));
  }

  // ----- the size of the directory ----------------------------------------------------------------------

  /** The path of a file of the directory with a name like those the module gives. */
  ghost predicate IsModulePath(dir: string, path: string) {
    exists name: string :: IsModuleFile(DirEntry(name, true, 0, 0)) && path == JoinPath(dir, name) && |path| < PATH_MAX
  }

  /** These are the module's files of the directory, with their sizes. */
  ghost predicate AreFiles(disk: Disk, dir: string, files: seq<RetentionFile>) {
    && DistinctPaths(files)
    && (forall f :: f in files ==> f.path in disk && f.size == |disk[f.path]|)
    && (forall path :: path in disk && IsModulePath(dir, path) ==> exists f :: f in files && f.path == path)
  }

  /** The module's files are within the limit, or only the open file and ones that cannot be unlinked are
      there. */
  ghost predicate DirectoryBounded(w: State, stuck: set<string>) {
    exists files: seq<RetentionFile> :: AreFiles(w.disk, w.cfg.path, files) &&
      (TotalSize(files) <= w.cfg.maxDirBytes || forall f :: f in files ==> f.path == w.file || f.path in stuck)
  }

  /** What the directory listed is what there is. */
  ghost predicate Truthful(w: State, s: SweepEnv) {
    s.listed && AreFiles(w.disk, w.cfg.path, Candidates(w.cfg.path, s.entries))
  }

  /** For every state and truthful listing: retention bounds the directory. */
  lemma EnforceBounds(w: State, s: SweepEnv)
    requires w.cfg.maxDirBytes > 0 && Truthful(w, s)
    ensures DirectoryBounded(Enforce(w, s), s.stuck)
  {
    var listed := Candidates(w.cfg.path, s.entries);
    var files := Sort(listed);
    var gone := Paths(Victims(w.cfg.path, s.entries, w.cfg.maxDirBytes, w.file, s.stuck));
    SortedFiles(w.disk, w.cfg.path, listed);
    SortKeepsTotal(listed);
    SweptBounds(files, TotalSize(files), w.cfg.maxDirBytes, w.file, s.stuck);
    FilesLeft(w.disk, w.cfg.path, files, gone);
    assert AreFiles(Enforce(w, s).disk, w.cfg.path, Left(files, gone));
  }

  lemma SortedFiles(disk: Disk, dir: string, files: seq<RetentionFile>)
    requires AreFiles(disk, dir, files)
    ensures AreFiles(disk, dir, Sort(files))
  {
    var sorted := Sort(files);
    SortSorts(files);
    forall f | f in sorted ensures f in files {
      assert f in multiset(sorted);
    }
    forall f | f in files ensures f in sorted {
      assert f in multiset(files);
    }
    SortDistinct(files);
  }

  lemma FilesLeft(disk: Disk, dir: string, files: seq<RetentionFile>, gone: set<string>)
    requires AreFiles(disk, dir, files)
    ensures AreFiles(disk - gone, dir, Left(files, gone))
  {
    LeftAre(files, gone);
    LeftDistinct(files, gone);
  }

  /** Whatever the state, after an append without an error the last thing was a retention run, and if its
      listing was truthful the directory is bounded. `u` is the state at that run. */
  lemma AppendBounds(w: State, sample: string, mem: Memory, e: AppendEnv) returns (u: State)
    requires w.cfg.maxDirBytes > 0 && !Append(w, sample, mem, e).error
    ensures u.cfg == w.cfg && Append(w, sample, mem, e) == Enforce(u, e.sweep).(error := false)
    ensures Truthful(u, e.sweep) ==> DirectoryBounded(Append(w, sample, mem, e), e.sweep.stuck)
  {
    u := BeforeSweep(w, sample, mem, e);
    if Truthful(u, e.sweep) {
      EnforceBounds(u, e.sweep);
      SameDirectory(Enforce(u, e.sweep), Append(w, sample, mem, e), e.sweep.stuck);
    }
  }

  lemma SameDirectory(u: State, w: State, stuck: set<string>)
    requires DirectoryBounded(u, stuck) && w.disk == u.disk && w.cfg == u.cfg && w.file == u.file
    ensures DirectoryBounded(w, stuck)
  {
  }

  /** And so it is after a rotation without an error. */
  lemma RotateBounds(w: State, r: RotateEnv)
    requires w.cfg.maxDirBytes > 0 && RotateOk(w.cfg, r) && Truthful(Open(Close(w), r), r.sweep)
    ensures DirectoryBounded(Rotate(w, r), r.sweep.stuck)
  {
    EnforceBounds(Open(Close(w), r), r.sweep);
    SameDirectory(Enforce(Open(Close(w), r), r.sweep), Rotate(w, r), r.sweep.stuck);
  }

  lemma BeforeSweep(w: State, sample: string, mem: Memory, e: AppendEnv) returns (u: State)
    requires !Append(w, sample, mem, e).error
    ensures u.cfg == w.cfg && Append(w, sample, mem, e) == Enforce(u, e.sweep).(error := false)
  {
    RotateError(w, e.rotation);
    var ready := Prepare(w, |sample|, e);
    if w.cfg.deltaMetrics {
      var (enc, out) := Encode(ready.enc, w.cfg.checkpointIntervalMs, sample, mem).value;
      var all, interval := FlatSample(sample).value, w.cfg.checkpointIntervalMs;
      var seen := Seen(all, mem).metrics;
      var record := Line(if out.checkpoint then Checkpoint else Delta, out.record, all, seen, interval);
      var start := ready.(enc := enc);
      if out.event.None? {
        u := RecordSweep(start, record, e);
      } else {
        u := RecordSweep(Write(start, Line(Restart, out.event.value, all, seen, interval), e.eventWrite), record, e);
      }
    } else if ShouldRotate(ready, |sample|, e.later) {
      RotateError(ready, e.second);
      u := RecordSweep(Rotate(ready, e.second), SnapshotLine(w, ""), e);
    } else {
      u := RecordSweep(ready, SnapshotLine(w, sample), e);
    }
  }

  lemma RecordSweep(w: State, line: Event, e: AppendEnv) returns (u: State)
    requires line.Line? && !WriteRecord(w, line, e).error
    ensures u.cfg == w.cfg && WriteRecord(w, line, e) == Enforce(u, e.sweep).(error := false)
  {
    u := Write(w, line, e.recordWrite);
  }

  // ----- the rotation test ----------------------------------------------------------------------------

  /** In every reachable state in which nothing is torn: no rotation is asked for exactly when a file is
      open that is not too old and that, with the line written to it, is below the limit. */
  lemma TestPredictsSize(w: State, line: Event, now: int)
    requires Reachable(w) && Untorn(w.log) && line.Line?
    ensures !ShouldRotate(w, |line.text|, now) <==>
            && w.open
            && (w.cfg.maxFileBytes > 0 ==> |Write(w, line, Whole).disk[w.file]| < w.cfg.maxFileBytes)
            && (w.cfg.rotationIntervalSec > 0 ==> now < w.openedMs + w.cfg.rotationIntervalSec * 1000)
  {
    ReachableTracked(w);
  }

  // ----- snapshot mode --------------------------------------------------------------------------------

  /** The size of the file a rotation opens, with its header. */
  function NextSize(w: State, r: RotateEnv): nat {
    |Contents(w.disk, NextFile(w.cfg, r))| + |Header(w.cfg, r)|
  }

  // The file the sample is written to, after the rotation before it if one is asked for.
  function SizeBefore(w: State, len: nat, e: AppendEnv): int {
    if ShouldRotate(w, len, e.now) then NextSize(w, e.rotation) else w.bytes
  }

  function OpenedBefore(w: State, len: nat, e: AppendEnv): int {
    if ShouldRotate(w, len, e.now) then e.rotation.openedMs else w.openedMs
  }

  /** The sample fits the limit there, and the file is not too old at the second clock reading. */
  predicate Fits(w: State, len: nat, e: AppendEnv) {
    && (w.cfg.maxFileBytes > 0 ==> SizeBefore(w, len, e) + len + 1 < w.cfg.maxFileBytes)
    && (w.cfg.rotationIntervalSec > 0 ==> e.later - OpenedBefore(w, len, e) < w.cfg.rotationIntervalSec * 1000)
  }

  /** With one clock reading per append, a sample that needs no rotation fits, and one that does has to
      fit behind the header of the new file. */
  lemma FitsWithOneClock(w: State, len: nat, e: AppendEnv)
    requires e.now == e.later == e.rotation.openedMs
    ensures Fits(w, len, e) <==>
            || !ShouldRotate(w, len, e.now)
            || w.cfg.maxFileBytes <= 0
            || NextSize(w, e.rotation) + len + 1 < w.cfg.maxFileBytes
  {
  }

  lemma RotatedSize(w: State, r: RotateEnv)
    requires RotateOk(w.cfg, r)
    ensures var after := Rotate(w, r);
      && after.open && after.openedMs == r.openedMs && after.bytes == NextSize(w, r) && after.cfg == w.cfg
      && after.log == w.log + HeaderEvents(w.cfg, r)
  {
  }

  /** The second rotation test asks for a rotation exactly when the sample does not fit. */
  lemma SecondTest(w: State, len: nat, e: AppendEnv)
    requires Prepared(w, len, e)
    ensures ShouldRotate(Prepare(w, len, e), len, e.later) <==> !Fits(w, len, e)
  {
    if ShouldRotate(w, len, e.now) {
      RotatedSize(w, e.rotation);
    }
  }

  /** The header of the rotation before the sample, if one is asked for. */
  function HeaderBefore(w: State, len: nat, e: AppendEnv): Log {
    if ShouldRotate(w, len, e.now) then HeaderEvents(w.cfg, e.rotation) else []
  }

  /** What a snapshot append does when it succeeds. */
  predicate SnapshotKept(w: State, sample: string, e: AppendEnv, after: State) {
    var fits := Fits(w, |sample|, e);
    && after.log != [] && after.log[|after.log| - 1] == SnapshotLine(w, if fits then sample else "")
    && (fits ==>
          && after.log == w.log + HeaderBefore(w, |sample|, e) + [SnapshotLine(w, sample)]
          && after.bytes == SizeBefore(w, |sample|, e) + |sample| + 1
          && (w.cfg.maxFileBytes > 0 ==> after.bytes < w.cfg.maxFileBytes))
  }

  /** Everything the append asks the operating system for succeeds. */
  predicate Succeeds(w: State, len: nat, e: AppendEnv) {
    && Prepared(w, len, e) && (!Fits(w, len, e) ==> RotateOk(w.cfg, e.second))
    && e.recordWrite.Whole? && e.flushed && SweepOk(w.cfg, e.sweep)
  }

  /** In every reachable state in snapshot mode an append reports an error exactly when a call or the copy of
      the sample fails; otherwise it adds one line. The line is the sample, verbatim, exactly when the sample fits; then
      nothing else but the header before it is added, the line is counted in full and the file stays
      below the limit. If it does not fit, the sample is lost: the line is empty. Either way the file
      ends with the line and has the counted size, unless something in it was torn. */
  lemma SnapshotAppends(w: State, sample: string, mem: Memory, e: AppendEnv)
    requires Reachable(w) && !w.cfg.deltaMetrics
    ensures var after := Append(w, sample, mem, e);
      && (!after.error <==> mem.built && Succeeds(w, |sample|, e))
      && (!after.error ==> SnapshotKept(w, sample, e, after) && FileEndsWith(after, after.log[|after.log| - 1]))
  {
    ReachableTracked(w);
    StepTracked(w, DoAppend(sample, mem, e));
    RotateError(w, e.rotation);
    var after := Append(w, sample, mem, e);
    if Prepared(w, |sample|, e) && mem.built {
      assert after == AppendSnapshot(Prepare(w, |sample|, e), sample, e);
      SnapshotError(w, sample, e);
      if !after.error {
        SnapshotFrom(w, sample, e);
        LastLineOnDisk(after);
      }
    }
  }

  lemma SnapshotError(w: State, sample: string, e: AppendEnv)
    requires Prepared(w, |sample|, e)
    ensures AppendSnapshot(Prepare(w, |sample|, e), sample, e).error <==> !Succeeds(w, |sample|, e)
  {
    var ready := Prepare(w, |sample|, e);
    PreparedOpen(w, |sample|, e);
    SecondTest(w, |sample|, e);
    RotateError(ready, e.second);
    RecordError(ready, SnapshotLine(w, sample), e);
    RecordError(Rotate(ready, e.second), SnapshotLine(w, ""), e);
  }

  lemma RecordError(w: State, line: Event, e: AppendEnv)
    requires line.Line?
    ensures WriteRecord(w, line, e).error <==> !(e.recordWrite.Whole? && e.flushed && SweepOk(w.cfg, e.sweep))
  {
  }

  lemma SnapshotFrom(w: State, sample: string, e: AppendEnv)
    requires Prepared(w, |sample|, e) && !AppendSnapshot(Prepare(w, |sample|, e), sample, e).error
    ensures var after := AppendSnapshot(Prepare(w, |sample|, e), sample, e);
      SnapshotKept(w, sample, e, after) && after.open
  {
    var ready := Prepare(w, |sample|, e);
    PreparedOpen(w, |sample|, e);
    SecondTest(w, |sample|, e);
    if Fits(w, |sample|, e) {
      SnapshotWritten(ready, SnapshotLine(w, sample), e);
    } else {
      RotateError(ready, e.second);
      RotatedSize(ready, e.second);
      SnapshotWritten(Rotate(ready, e.second), SnapshotLine(w, ""), e);
    }
  }

  lemma PreparedOpen(w: State, len: nat, e: AppendEnv)
    requires Prepared(w, len, e)
    ensures var ready := Prepare(w, len, e);
      && ready.open && ready.cfg == w.cfg && ready.bytes == SizeBefore(w, len, e)
      && ready.log == w.log + HeaderBefore(w, len, e)
  {
    if ShouldRotate(w, len, e.now) {
      RotatedSize(w, e.rotation);
    } else {
      assert w.log + [] == w.log;
    }
  }

  lemma SnapshotWritten(w: State, line: Event, e: AppendEnv)
    requires line.Line? && w.open && !WriteRecord(w, line, e).error
    ensures var after := WriteRecord(w, line, e);
      after.open && after.log == w.log + [line] && after.bytes == w.bytes + |line.text| + 1
  {
  }

  /** The open file has the counted size and ends with the line, unless something was torn. */
  predicate FileEndsWith(w: State, line: Event)
    requires line.Line?
  {
    w.open && w.file in w.disk &&
    (Untorn(w.log) ==> w.bytes == |w.disk[w.file]| && HasSuffix(w.disk[w.file], line.text + "\n"))
  }

  lemma LastLineOnDisk(w: State)
    requires Tracked(w) && w.open && w.log != [] && w.log[|w.log| - 1].Line?
    ensures FileEndsWith(w, w.log[|w.log| - 1])
  {
    if Untorn(w.log) {
      var before, line := w.log[..|w.log| - 1], w.log[|w.log| - 1];
      assert BlockText(w.log) == BlockText(before) + line.text + "\n";
      SuffixOfSuffix(w.disk[w.file], BlockText(before), line.text + "\n");
    }
  }

  lemma SuffixOfSuffix(s: string, t: string, u: string)
    requires HasSuffix(s, t + u)
    ensures HasSuffix(s, u)
  {
    assert s[|s| - |u|..] == s[|s| - |t + u|..][|t|..];
  }
}
