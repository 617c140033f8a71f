/** Line framing: no record of a collector-built sample holds a newline, in any mode. */
module Framing {
  import opened Wrappers
  import opened CText
  import opened Json
  import opened Metrics
  import opened Flatten
  import opened FlattenJson
  import opened Collector
  import opened Sample
  import opened Payload
  import opened Encoder
  import opened Writer
  import opened Files
  import opened Metadata
  import EndToEnd

  lemma OneLineConcat(a: string, b: string)
    ensures OneLine(a + b) <==> OneLine(a) && OneLine(b)
  {
    assert forall c :: c in a + b <==> c in a || c in b;
  }

  // ----- records -------------------------------------------------------------------------------------------

  /** What the delta and restart records print of a sample, unescaped. */
  predicate TidyFlat(flat: Flat) {
    && (forall m :: m in flat.metrics ==> OneLine(m.path))
    && OneLine(flat.id.runId) && OneLine(flat.id.role)
  }

  /** A sample that, printed whole or as a delta or restart, stays on one line. */
  predicate TidySample(sample: string) {
    OneLine(sample) && (FlatSample(sample).Some? ==> TidyFlat(FlatSample(sample).value))
  }

  lemma {:induction false} IntTextOneLine(n: int)
    ensures OneLine(IntText(n))
  {
    var ds := NatText(if n < 0 then -n else n);
    assert OneLine(ds);
    OneLineConcat("-", ds);
  }

  lemma {:induction false} MoreDiffsOneLine(diffs: seq<Metric>)
    requires forall d :: d in diffs ==> OneLine(d.path)
    ensures OneLine(MoreDiffsText(diffs))
  {
    if diffs != [] {
      assert diffs[0] in diffs;
      DiffOneLine(diffs[0]);
      MoreDiffsOneLine(diffs[1..]);
      OneLineConcat(",", DiffText(diffs[0]));
      OneLineConcat("," + DiffText(diffs[0]), MoreDiffsText(diffs[1..]));
    }
  }

  lemma DiffOneLine(d: Metric)
    requires OneLine(d.path)
    ensures OneLine(DiffText(d))
  {
    IntTextOneLine(d.value);
    OneLineConcat("\"", d.path);
    OneLineConcat("\"" + d.path, "\":");
    OneLineConcat("\"" + d.path + "\":", IntText(d.value));
  }

  lemma {:induction false} DiffsKeepPaths(metrics: seq<Metric>, table: seq<Metric>)
    requires Continues(metrics, table) && forall m :: m in metrics ==> OneLine(m.path)
    ensures forall d :: d in Diffs(metrics, table) ==> OneLine(d.path)
  {
    if metrics != [] {
      assert metrics[0] in metrics;
      DiffsKeepPaths(metrics[1..], table);
    }
  }

  lemma DiffsOneLine(diffs: seq<Metric>)
    requires forall d :: d in diffs ==> OneLine(d.path)
    ensures OneLine(DiffsText(diffs))
  {
    if diffs != [] {
      assert diffs[0] in diffs;
      DiffOneLine(diffs[0]);
      MoreDiffsOneLine(diffs[1..]);
      OneLineConcat(DiffText(diffs[0]), MoreDiffsText(diffs[1..]));
    }
  }

  lemma DeltaStartOneLine(tsMs: int)
    ensures OneLine(DeltaStart(tsMs))
  {
    IntTextOneLine(tsMs);
    assert OneLine(DELTA_HEAD) && OneLine(DELTA_MIDDLE);
    OneLineConcat(DELTA_HEAD, IntText(tsMs));
    OneLineConcat(DELTA_HEAD + IntText(tsMs), DELTA_MIDDLE);
  }

  lemma DeltaOneLine(tsMs: int, diffs: seq<Metric>)
    requires forall d :: d in diffs ==> OneLine(d.path)
    ensures OneLine(DeltaText(tsMs, diffs))
  {
    DeltaStartOneLine(tsMs);
    DiffsOneLine(diffs);
    assert OneLine("}}");
    OneLineConcat(DeltaStart(tsMs), DiffsText(diffs));
    OneLineConcat(DeltaStart(tsMs) + DiffsText(diffs), "}}");
  }

  lemma FieldOneLine(before: string, name: string, text: string)
    requires OneLine(before) && OneLine(name) && OneLine(text)
    ensures OneLine(before + TextField(name, text))
  {
    OneLineConcat(",\"", name);
    OneLineConcat(",\"" + name, "\":\"");
    OneLineConcat(",\"" + name + "\":\"", text);
    OneLineConcat(",\"" + name + "\":\"" + text, "\"");
    OneLineConcat(before, TextField(name, text));
  }

  lemma RestartOneLine(id: Identity, reason: string)
    requires OneLine(id.runId) && OneLine(id.role) && OneLine(reason)
    ensures OneLine(RestartText(id, reason))
  {
    IntTextOneLine(id.tsMs);
    IntTextOneLine(id.processId);
    var start := RESTART_HEAD + IntText(id.tsMs) + ",\"process_id\":" + IntText(id.processId);
    OneLineConcat(RESTART_HEAD, IntText(id.tsMs));
    OneLineConcat(RESTART_HEAD + IntText(id.tsMs), ",\"process_id\":");
    OneLineConcat(RESTART_HEAD + IntText(id.tsMs) + ",\"process_id\":", IntText(id.processId));
    var named := start + TextField("run_id", id.runId) + TextField("role", id.role);
    FieldOneLine(start, "run_id", id.runId);
    FieldOneLine(start + TextField("run_id", id.runId), "role", id.role);
    FieldOneLine(named, "reason", reason);
    OneLineConcat(named + TextField("reason", reason), "}");
  }

  lemma RecordsOneLine(st: DeltaState, interval: int, sample: string, mem: Memory)
    requires TidySample(sample) && FlatSample(sample).Some? && sample != ""
    ensures var out := EncodeFlat(st, interval, sample, Seen(FlatSample(sample).value, mem));
      OneLine(out.record) && (out.event.Some? ==> OneLine(out.event.value))
  {
    var all := FlatSample(sample).value;
    var flat := Seen(all, mem);
    FlatSampleSound(sample);
    SeenSound(all, mem);
    if EmitsDelta(st, interval, flat) {
      DiffsKeepPaths(flat.metrics, st.table);
      DeltaOneLine(flat.id.tsMs, Diffs(flat.metrics, st.table));
    } else {
      SpliceOneLine(sample);
      if Boundary(st, interval, flat.id) {
        RestartOneLine(flat.id, Discontinuity(st.last, flat.id).value);
      }
    }
  }

  lemma SpliceOneLine(sample: string)
    requires OneLine(sample) && sample != ""
    ensures OneLine(CheckpointText(sample))
  {
    assert sample == sample[..1] + sample[1..];
    OneLineConcat(sample[..1], sample[1..]);
    assert OneLine(CHECKPOINT_HEAD);
    OneLineConcat(CHECKPOINT_HEAD, sample[1..]);
  }

  // ----- runs ----------------------------------------------------------------------------------------------

  predicate TidyOp(op: Op) {
    match op
    case DoAppend(sample, _, _) => TidySample(sample)
    case _ => true
  }

  lemma FramedSnoc(log: Log, e: Event)
    requires Framed(log)
    requires e.Opened? ==> exists metadata :: OneLine(metadata) && e.header == MAGIC + metadata + "\n"
    requires e.Line? ==> OneLine(e.text)
    ensures Framed(log + [e])
  {
  }

  lemma RotateFramed(w: State, r: RotateEnv)
    requires Framed(w.log)
    ensures Framed(Rotate(w, r).log) && Rotate(w, r).cfg == w.cfg
  {
    if CanOpen(w.cfg, r) {
      MetadataOneLine(w.cfg.deltaMetrics, r.createdMs, r.config);
      var header := Opened(NextFile(w.cfg, r), Header(w.cfg, r), SweepOk(w.cfg, r.sweep));
      FramedSnoc(w.log, header);
      FramedSnoc(w.log + [header], Broken(None));
      assert w.log + [header] + [Broken(None)] == w.log + ([header] + [Broken(None)]);
      assert [header] + [] == [header];
    }
  }

  lemma WriteRecordFramed(w: State, line: Event, e: AppendEnv)
    requires Framed(w.log) && line.Line? && OneLine(line.text)
    ensures Framed(WriteRecord(w, line, e).log)
  {
    FramedSnoc(w.log, line);
    FramedSnoc(w.log, Broken(Some(line.kind)));
    FramedSnoc(w.log + [line], Broken(None));
  }

  lemma WriteEncodedFramed(w: State, out: Encoded, flat: Flat, seen: seq<Metric>, interval: int, e: AppendEnv)
    requires Framed(w.log) && OneLine(out.record) && (out.event.Some? ==> OneLine(out.event.value))
    ensures Framed(WriteEncoded(w, out, flat, seen, interval, e).log)
  {
    var record := Line(if out.checkpoint then Checkpoint else Delta, out.record, flat, seen, interval);
    if out.event.None? {
      WriteRecordFramed(w, record, e);
    } else {
      var restart := Line(Restart, out.event.value, flat, seen, interval);
      FramedSnoc(w.log, restart);
      FramedSnoc(w.log, Broken(Some(Restart)));
      if e.eventWrite.Whole? {
        WriteRecordFramed(Write(w, restart, e.eventWrite), record, e);
      }
    }
  }

  lemma AppendDeltaFramed(w: State, sample: string, mem: Memory, e: AppendEnv)
    requires Framed(w.log) && TidySample(sample)
    ensures Framed(AppendDelta(w, sample, mem, e).log)
  {
    var interval := w.cfg.checkpointIntervalMs;
    if FlatSample(sample).Some? && mem.built {
      var (enc, out) := Encode(w.enc, interval, sample, mem).value;
      var all := FlatSample(sample).value;
      RecordsOneLine(w.enc, interval, sample, mem);
      WriteEncodedFramed(w.(enc := enc), out, all, Seen(all, mem).metrics, interval, e);
    }
  }

  lemma AppendSnapshotFramed(w: State, sample: string, e: AppendEnv)
    requires Framed(w.log) && TidySample(sample)
    ensures Framed(AppendSnapshot(w, sample, e).log)
  {
    RotateFramed(w, e.second);
    WriteRecordFramed(w, SnapshotLine(w, sample), e);
    WriteRecordFramed(Rotate(w, e.second), SnapshotLine(w, ""), e);
  }

  lemma StepFramed(w: State, op: Op)
    requires Framed(w.log) && TidyOp(op)
    ensures Framed(Step(w, op).log)
  {
    match op
    case DoAppend(sample, mem, env) =>
      RotateFramed(w, env.rotation);
      AppendDeltaFramed(Prepare(w, |sample|, env), sample, mem, env);
      AppendSnapshotFramed(Prepare(w, |sample|, env), sample, env);
    case DoRotate(rotation) => RotateFramed(w, rotation);
    case DoFlush(ok) => FramedSnoc(w.log, Broken(None));
    case SetPath(path, rotation) =>
      FramedSnoc(w.log, ResetMark);
      RotateFramed(ResetSegment(w.(cfg := w.cfg.(path := path))), rotation);
    case SetDeltaMetrics(on) => FramedSnoc(w.log, ResetMark);
    case _ =>
  }

  lemma {:induction false} RunFramed(cfg: Config, disk: Disk, ops: seq<Op>)
    requires forall op :: op in ops ==> TidyOp(op)
    ensures Framed(Run(Start(cfg, disk), ops).log)
  {
    if ops != [] {
      RunFramed(cfg, disk, ops[..|ops| - 1]);
      assert ops[|ops| - 1] in ops;
      StepFramed(Run(Start(cfg, disk), ops[..|ops| - 1]), ops[|ops| - 1]);
    }
  }

  /** A state the module gets to on tidy samples. */
  ghost predicate TidilyReachable(w: State) {
    exists cfg, disk, ops :: (forall op :: op in ops ==> TidyOp(op)) && w == Run(Start(cfg, disk), ops)
  }

  lemma TidyFramed(w: State)
    requires TidilyReachable(w)
    ensures Reachable(w) && Framed(w.log)
  {
    var cfg, disk, ops :| (forall op :: op in ops ==> TidyOp(op)) && w == Run(Start(cfg, disk), ops);
    RunFramed(cfg, disk, ops);
  }

  /** For every run on tidy samples, in any mix of modes: while a file is open and nothing in it was
      torn, it ends with a block that splits at its newlines into the magic, the metadata and exactly
      the records appended since, in order. */
  lemma OpenFileSplits(w: State)
    requires TidilyReachable(w) && w.open && Untorn(w.log)
    ensures w.file in w.disk && HasSuffix(w.disk[w.file], BlockText(w.log))
    ensures Lines(BlockText(w.log)) == BlockLines(w.log)
  {
    TidyFramed(w);
    ReachableTracked(w);
    BlockSplits(w.log);
  }

  // ----- collector-built samples are tidy -----------------------------------------------------------------------

  lemma {:induction false} EscapeOneLine(s: string)
    ensures OneLine(Escape(s))
  {
    if s != "" {
      EscapeCharOneLine(s[0]);
      EscapeOneLine(s[1..]);
      OneLineConcat(EscapeChar(s[0]), Escape(s[1..]));
    }
  }

  lemma EscapeCharOneLine(c: char)
    ensures OneLine(EscapeChar(c))
  {
    if c < ' ' && c != '\n' && c != '\r' && c != '\t' {
      assert "0123456789abcdef"[c as int / 16] != '\n' && "0123456789abcdef"[c as int % 16] != '\n';
    }
  }

  lemma QuoteOneLine(s: string)
    ensures OneLine(Quote(s))
  {
    EscapeOneLine(s);
    OneLineConcat("\"", Escape(s));
    OneLineConcat("\"" + Escape(s), "\"");
  }

  lemma NumeralOneLine(t: string)
    requires IsNumber(t) || IsNumeral(t)
    ensures OneLine(t)
  {
    if IsNumber(t) {
      var u := Magnitude(t);
      TailOneLine(u[DigitRun(u)..]);
      SplitAt(u, DigitRun(u), "");
      assert u == u[..DigitRun(u)] + u[DigitRun(u)..];
      OneLineConcat(u[..DigitRun(u)], u[DigitRun(u)..]);
    } else {
      var u := DropSign(t);
      if '\n' in u {
        var i :| 0 <= i < |u| && u[i] == '\n';
        StrayCharacter(u, i);
      }
    }
  }

  lemma TailOneLine(s: string)
    requires IsNumeralTail(s)
    ensures OneLine(s)
  {
    if Peek(s) == '.' {
      var k := 1 + DigitRun(s[1..]);
      assert s == "." + (s[1..][..k - 1] + s[k..]);
      ExponentOneLine(s[k..]);
      OneLineConcat(s[1..][..k - 1], s[k..]);
      OneLineConcat(".", s[1..][..k - 1] + s[k..]);
    } else {
      ExponentOneLine(s);
    }
  }

  lemma ExponentOneLine(s: string)
    requires IsExponent(s)
    ensures OneLine(s)
  {
    if s != "" {
      assert OneLine(DropSign(s[1..]));
      assert s == s[..1] + s[1..];
    }
  }

  /** Every number in the value is printed on one line. */
  predicate NumbersOneLine(j: Json)
    decreases j
  {
    match j
    case Num(t) => OneLine(t)
    case Arr(items) => forall v :: v in items ==> NumbersOneLine(v)
    case Obj(members) => forall m :: m in members ==> NumbersOneLine(m.value)
    case _ => true
  }

  lemma {:induction false} PrintableNumbers(j: Json)
    requires Printable(j)
    ensures NumbersOneLine(j)
    decreases j
  {
    match j
    case Num(t) => NumeralOneLine(t);
    case Arr(items) =>
      forall v | v in items ensures NumbersOneLine(v) {
        PrintableNumbers(v);
      }
    case Obj(members) =>
      forall m | m in members ensures NumbersOneLine(m.value) {
        PrintableNumbers(m.value);
      }
    case _ =>
  }

  /** Whatever JSON is printed has no raw newline but in its numbers. */
  lemma {:induction false} PrintOneLine(j: Json)
    requires NumbersOneLine(j)
    ensures OneLine(Print(j))
    decreases j, 0
  {
    match j
    case Str(s) => QuoteOneLine(s);
    case Arr(items) =>
      ItemsOneLine(items);
      OneLineConcat("[", PrintItems(items));
      OneLineConcat("[" + PrintItems(items), "]");
    case Obj(members) =>
      MembersOneLine(members);
      OneLineConcat("{", PrintMembers(members));
      OneLineConcat("{" + PrintMembers(members), "}");
    case _ =>
  }

  lemma {:induction false} ItemsOneLine(items: seq<Json>)
    requires forall v :: v in items ==> NumbersOneLine(v)
    ensures OneLine(PrintItems(items))
    decreases items, 1
  {
    if items != [] {
      PrintOneLine(items[0]);
      ItemsOneLine(items[1..]);
      OneLineConcat(Print(items[0]), ",");
      OneLineConcat(Print(items[0]) + ",", PrintItems(items[1..]));
    }
  }

  lemma {:induction false} MembersOneLine(members: seq<Member>)
    requires forall m :: m in members ==> NumbersOneLine(m.value)
    ensures OneLine(PrintMembers(members))
    decreases members, 1
  {
    if members != [] {
      var m := members[0];
      QuoteOneLine(m.key);
      PrintOneLine(m.value);
      OneLineConcat(Quote(m.key), ":");
      OneLineConcat(Quote(m.key) + ":", Print(m.value));
      MembersOneLine(members[1..]);
      OneLineConcat(PrintMember(m), ",");
      OneLineConcat(PrintMember(m) + ",", PrintMembers(members[1..]));
    }
  }

  // ----- the metadata line --------------------------------------------------------------------------------------

  lemma {:induction false} ReplyNumbers(reply: Reply)
    ensures NumbersOneLine(ReplyJson(reply))
    decreases reply, 0
  {
    match reply
    case IntegerReply(n) => IntTextOneLine(n);
    case MapReply(entries) => EntryNumbers(entries);
    case ArrayReply(elements) =>
      if IsPairList(elements) {
        PairNumbers(elements);
      } else {
        ElementNumbers(elements);
      }
    case _ =>
  }

  lemma {:induction false} EntryNumbers(entries: seq<Entry>)
    ensures forall m :: m in EntryMembers(entries) ==> NumbersOneLine(m.value)
    decreases entries, 1
  {
    if entries != [] {
      ReplyNumbers(entries[0].value);
      EntryNumbers(entries[1..]);
    }
  }

  lemma {:induction false} PairNumbers(elements: seq<Reply>)
    requires IsPairList(elements)
    ensures forall m :: m in PairMembers(elements) ==> NumbersOneLine(m.value)
    decreases elements, 1
  {
    if elements != [] {
      ReplyNumbers(elements[1]);
      PairNumbers(elements[2..]);
    }
  }

  lemma {:induction false} ElementNumbers(elements: seq<Reply>)
    ensures forall v :: v in ElementItems(elements) ==> NumbersOneLine(v)
    decreases elements, 1
  {
    if elements != [] {
      ReplyNumbers(elements[0]);
      ElementNumbers(elements[1..]);
    }
  }

  /** Whatever the server answers to CONFIG GET, the metadata is one line. */
  lemma MetadataOneLine(deltaMode: bool, createdMs: int, config: Option<Reply>)
    ensures OneLine(MetadataText(deltaMode, createdMs, config))
  {
    IntTextOneLine(if deltaMode then FORMAT_DELTA else FORMAT_SNAPSHOT);
    IntTextOneLine(METADATA_VERSION);
    ModeNumbers(createdMs, config);
    PrintOneLine(MetadataJson(deltaMode, createdMs, config));
  }

  lemma ModeNumbers(createdMs: int, config: Option<Reply>)
    ensures forall m :: m in AfterMode(createdMs, config) ==> NumbersOneLine(m.value)
  {
    IntTextOneLine(createdMs);
    if config.Some? {
      ReplyNumbers(config.value);
    }
  }

  // ----- and so are their paths and identity strings ----------------------------------------------------------

  /** All keys and strings are on one line. */
  predicate OneLined(j: Json)
    decreases j
  {
    match j
    case Str(s) => OneLine(s)
    case Obj(members) => forall m :: m in members ==> OneLine(m.key) && OneLined(m.value)
    case _ => true
  }

  predicate OneLinedLeaf(leaf: Leaf) {
    OneLine(leaf.path) && (leaf.TextLeaf? ==> OneLine(leaf.text))
  }

  lemma {:induction false} OneLinedLeaves(j: Json, path: string)
    requires OneLine(path) && OneLined(j)
    ensures forall leaf :: leaf in Leaves(j, path) ==> OneLinedLeaf(leaf)
    decreases j, 0
  {
    if j.Obj? {
      OneLinedMemberLeaves(j.members, path);
    }
  }

  lemma {:induction false} OneLinedMemberLeaves(members: seq<Member>, path: string)
    requires OneLine(path) && forall m :: m in members ==> OneLine(m.key) && OneLined(m.value)
    ensures forall leaf :: leaf in MemberLeaves(members, path) ==> OneLinedLeaf(leaf)
    decreases members, 1
  {
    if members != [] {
      var m := members[0];
      assert m in members;
      OneLineConcat(path, ".");
      OneLineConcat(path + ".", m.key);
      OneLinedLeaves(m.value, Join(path, m.key));
      OneLinedMemberLeaves(members[1..], path);
    }
  }

  lemma {:induction false} ValueOneLined(raw: string)
    requires OneLine(raw)
    ensures OneLined(ValueOf(raw))
    decreases |raw|, 1
  {
    TrimLacks(raw, '\n');
    if IsCompound(Trim(raw)) {
      SplitLacks(Trim(raw), ',', '\n');
      PairsOneLined(Split(Trim(raw), ','), |raw|);
    }
  }

  lemma {:induction false} PairsOneLined(tokens: seq<string>, size: nat)
    requires forall token :: token in tokens ==> OneLine(token)
    ensures forall m :: m in PairsOf(tokens, size) ==> OneLine(m.key) && OneLined(m.value)
    decreases size, 0, |tokens|
  {
    if tokens != [] {
      assert tokens[0] in tokens;
      if PairMember(tokens[0], size) != [] {
        PairLacks(tokens[0], '\n');
        ValueOneLined(Pair(tokens[0]).value.1);
      }
      PairsOneLined(tokens[1..], size);
    }
  }

  lemma {:induction false} StripOneLine(s: string)
    requires OneLine(s)
    ensures OneLine(StripReturns(s))
  {
    if s != "" && (s[|s| - 1] == '\r' || s[|s| - 1] == '\n') {
      SliceLacks(s, 0, |s| - 1, '\n');
      StripOneLine(s[..|s| - 1]);
    }
  }

  lemma {:induction false} LinesOneLined(lines: seq<string>)
    requires forall line :: line in lines ==> OneLine(line)
    ensures forall m :: m in LineMembers(lines) ==> OneLine(m.key) && OneLined(m.value)
  {
    if lines != [] {
      var line := lines[0];
      assert line in lines;
      LinesOneLined(lines[1..]);
      if LineMember(line) != [] {
        var c := Find(line, ':');
        SliceLacks(line, 0, c, '\n');
        SliceLacks(line, c + 1, |line|, '\n');
        StripOneLine(line[c + 1..]);
        ValueOneLined(StripReturns(line[c + 1..]));
      }
    }
  }

  lemma InfoOneLined(payload: string)
    ensures OneLined(InfoOf(payload))
  {
    SplitLacks(payload, '\n', '\n');
    LinesOneLined(Split(payload, '\n'));
  }

  lemma SectionNamesOneLine()
    ensures forall name :: name in SECTIONS ==> OneLine(name)
  {
  }

  /** All but the offsets of replicas are at fixed paths. */
  lemma FixedPaths(path: string)
    requires Monotonic(path) && !HasPrefix(path, SLAVE_PREFIX)
    ensures OneLine(path)
  {
  }

  lemma SlaveSection(path: string)
    requires HasPrefix(path, SLAVE_PREFIX)
    ensures HasPrefix(path, EndToEnd.SectionPath(SECTIONS[5]) + ".")
  {
    assert EndToEnd.SectionPath(SECTIONS[5]) + "." == "valkey.info.replication.";
    assert path[..24] == path[..|SLAVE_PREFIX|][..24];
  }

  lemma {:induction false} LastIntLeaf(leaves: seq<Leaf>, path: string)
    requires LastInt(leaves, path).Some?
    ensures exists leaf :: leaf in leaves && leaf.path == path
  {
    var last := leaves[|leaves| - 1];
    if !(last.IntLeaf? && last.path == path) {
      LastIntLeaf(leaves[..|leaves| - 1], path);
    }
  }

  lemma SectionOneLined(a: Answers, k: nat)
    requires EndToEnd.Sane(a) && k < |SECTIONS|
    ensures var leaves := LinesLeaves(Split(a.sections[k], '\n'), EndToEnd.SectionPath(SECTIONS[k]));
      forall leaf :: leaf in leaves ==> OneLinedLeaf(leaf)
  {
    var base := EndToEnd.SectionPath(SECTIONS[k]);
    SectionNamesOneLine();
    assert SECTIONS[k] in SECTIONS;
    OneLineConcat("valkey.info.", SECTIONS[k]);
    InfoLeaves(Split(a.sections[k], '\n'), base);
    InfoOneLined(a.sections[k]);
    OneLinedLeaves(InfoOf(a.sections[k]), base);
  }

  /** A counter at a path of a section comes from a line of that section. */
  lemma CounterOneLine(a: Answers, k: nat, path: string)
    requires EndToEnd.Sane(a) && k < |SECTIONS| && HasPrefix(path, EndToEnd.SectionPath(SECTIONS[k]) + ".")
    requires FlatSample(Print(SampleOf(a))).Some? && Get(FlatSample(Print(SampleOf(a))).value.metrics, path).Some?
    ensures OneLine(path)
  {
    var leaves := LinesLeaves(Split(a.sections[k], '\n'), EndToEnd.SectionPath(SECTIONS[k]));
    EndToEnd.CollectedMetric(a, k, path);
    LastIntLeaf(leaves, path);
    SectionOneLined(a, k);
  }

  lemma CountersOneLine(a: Answers)
    requires EndToEnd.Sane(a) && FlatSample(Print(SampleOf(a))).Some?
    ensures forall m :: m in FlatSample(Print(SampleOf(a))).value.metrics ==> OneLine(m.path)
  {
    var all := FlatSample(Print(SampleOf(a))).value;
    FlatSampleSound(Print(SampleOf(a)));
    forall m | m in all.metrics ensures OneLine(m.path) {
      var i :| 0 <= i < |all.metrics| && all.metrics[i] == m;
      GetAt(all.metrics, i);
      if HasPrefix(m.path, SLAVE_PREFIX) {
        SlaveSection(m.path);
        CounterOneLine(a, 5, m.path);
      } else {
        FixedPaths(m.path);
      }
    }
  }

  lemma {:induction false} LastTextOneLine(leaves: seq<Leaf>, path: string)
    requires forall leaf :: leaf in leaves ==> OneLinedLeaf(leaf)
    ensures LastText(leaves, path).Some? ==> OneLine(LastText(leaves, path).value)
  {
    if leaves != [] {
      assert leaves[|leaves| - 1] in leaves;
      LastTextOneLine(leaves[..|leaves| - 1], path);
    }
  }

  /** A string of the identity comes from a line of its section. */
  lemma IdentityOneLine(a: Answers, k: nat, path: string)
    requires EndToEnd.Sane(a) && k < |SECTIONS| && HasPrefix(path, EndToEnd.SectionPath(SECTIONS[k]) + ".")
    ensures LastText(Leaves(SampleOf(a), ""), path).Some? ==> OneLine(LastText(Leaves(SampleOf(a), ""), path).value)
  {
    var leaves := LinesLeaves(Split(a.sections[k], '\n'), EndToEnd.SectionPath(SECTIONS[k]));
    EndToEnd.SampleLeaves(a, k, path);
    EndToEnd.LastAt(Leaves(SampleOf(a), ""), path);
    EndToEnd.LastAt(leaves, path);
    SectionOneLined(a, k);
    LastTextOneLine(leaves, path);
  }

  lemma TruncateOneLine(s: string, size: nat)
    requires size > 0 && OneLine(s)
    ensures OneLine(Truncate(s, size))
  {
    if |s| >= size {
      SliceLacks(s, 0, size - 1, '\n');
    }
  }

  lemma IdentityPaths()
    ensures HasPrefix(RUN_ID_PATH, EndToEnd.SectionPath(SECTIONS[0]) + ".")
    ensures HasPrefix(ROLE_PATH, EndToEnd.SectionPath(SECTIONS[5]) + ".")
  {
    assert EndToEnd.SectionPath(SECTIONS[0]) + "." == "valkey.info.server.";
    assert EndToEnd.SectionPath(SECTIONS[5]) + "." == "valkey.info.replication.";
    assert RUN_ID_PATH[..19] == "valkey.info.server.";
    assert ROLE_PATH[..24] == "valkey.info.replication.";
  }

  /** For every sample the collector builds, from any INFO text: whole, as a delta and as a restart it
      stays on one line. INFO is split at newlines before anything is decoded. */
  lemma CollectedIsTidy(a: Answers)
    requires EndToEnd.Sane(a)
    ensures TidySample(Print(SampleOf(a)))
  {
    var j := SampleOf(a);
    EndToEnd.SamplePrintable(a);
    PrintableNumbers(j);
    PrintOneLine(j);
    if FlatSample(Print(j)).Some? {
      CountersOneLine(a);
      CollectedIdentity(a);
    }
  }

  lemma CollectedIdentity(a: Answers)
    requires EndToEnd.Sane(a) && FlatSample(Print(SampleOf(a))).Some?
    ensures var id := FlatSample(Print(SampleOf(a))).value.id; OneLine(id.runId) && OneLine(id.role)
  {
    var j := SampleOf(a);
    EndToEnd.SamplePrintable(a);
    assert Print(j) + "" == Print(j);
    SampleFlattens(j, "");
    IdentityPaths();
    IdentityOneLine(a, 0, RUN_ID_PATH);
    IdentityOneLine(a, 5, ROLE_PATH);
    NotedIdentity(Leaves(j, ""));
    TruncateOneLine(Or(LastText(Leaves(j, ""), RUN_ID_PATH), ""), RUN_ID_SIZE);
    TruncateOneLine(Or(LastText(Leaves(j, ""), ROLE_PATH), ""), ROLE_SIZE);
  }

  /** The samples of the run are ones the collector builds. */
  ghost predicate CollectedOp(op: Op) {
    op.DoAppend? ==> exists a :: EndToEnd.Sane(a) && op.sample == Print(SampleOf(a))
  }

  /** So a run of the module on collected samples is a tidy run. */
  lemma CollectedRuns(cfg: Config, disk: Disk, ops: seq<Op>)
    requires forall op :: op in ops ==> CollectedOp(op)
    ensures TidilyReachable(Run(Start(cfg, disk), ops))
  {
    forall op | op in ops ensures TidyOp(op) {
      if op.DoAppend? {
        var a :| EndToEnd.Sane(a) && op.sample == Print(SampleOf(a));
        CollectedIsTidy(a);
      }
    }
  }
}
