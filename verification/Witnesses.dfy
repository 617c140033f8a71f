/** The inputs and the runs that show where the promises end. */
module Witnesses {
  import opened Wrappers
  import opened CText
  import opened JsonText
  import opened Json
  import opened Metrics
  import opened Flatten
  import opened FlattenJson
  import opened Collector
  import opened Sample
  import opened Encoder
  import opened Reader
  import opened Writer
  import opened Runs
  import opened Files
  import opened Limits
  import EndToEnd

  // ----- small samples ----------------------------------------------------------------------------------------

  /** An object of integers. A key with dots has the path of nested objects. */
  function CountersJson(fields: seq<Metric>): Json {
    Obj(FieldMembers(fields))
  }

  function FieldMembers(fields: seq<Metric>): seq<Member> {
    if fields == [] then []
    else [Member(fields[0].path, Num(IntText(fields[0].value)))] + FieldMembers(fields[1..])
  }

  function FieldLeaves(fields: seq<Metric>): seq<Leaf> {
    if fields == [] then [] else [IntLeaf(fields[0].path, fields[0].value)] + FieldLeaves(fields[1..])
  }

  predicate IsField(field: Metric) {
    Plain(field.path) && |field.path| < KEY_SIZE && InRange(field.value)
  }

  predicate IsCounter(m: Member) {
    m.value.Num? && IsNumber(m.value.numeral) && MemberAccepted(m, "")
  }

  lemma FieldAccepted(field: Metric)
    requires IsField(field)
    ensures var m := Member(field.path, Num(IntText(field.value)));
      IsCounter(m) && Leaves(m.value, Join("", m.key)) == [IntLeaf(field.path, field.value)]
  {
    IntTextNumeral(field.value);
    NumberAccepted(field.path, IntText(field.value));
  }

  lemma NumberAccepted(key: string, numeral: string)
    requires Plain(key) && |key| < KEY_SIZE && IsNumber(numeral)
    ensures IsCounter(Member(key, Num(numeral))) && Join("", key) == key
  {
  }

  lemma {:induction false} FieldsAccepted(fields: seq<Metric>)
    requires forall field :: field in fields ==> IsField(field)
    ensures forall m :: m in FieldMembers(fields) ==> IsCounter(m)
    ensures MemberLeaves(FieldMembers(fields), "") == FieldLeaves(fields)
  {
    if fields != [] {
      assert fields[0] in fields;
      FieldAccepted(fields[0]);
      FieldsAccepted(fields[1..]);
      var m, more := Member(fields[0].path, Num(IntText(fields[0].value))), FieldMembers(fields[1..]);
      assert ([m] + more)[1..] == more;
    }
  }

  function SampleText(fields: seq<Metric>): string {
    Print(CountersJson(fields))
  }

  lemma FieldsFlatten(fields: seq<Metric>)
    requires forall field :: field in fields ==> IsField(field)
    ensures FlatSample(SampleText(fields)) == Some(NoteAll(EMPTY_FLAT, FieldLeaves(fields)))
  {
    FieldsAccepted(fields);
    assert SampleText(fields) + "" == SampleText(fields);
    SampleFlattens(CountersJson(fields), "");
  }

  const COUNTER := "valkey.info.stats.expired_keys"
  const FIRST_ID := NO_IDENTITY.(tsMs := 1, valid := true)

  // {"ts_ms":1}, the same with a counter, and a sample of another process
  const TINY := [Metric("ts_ms", 1)]
  const OTHER_PROCESS := [Metric(PROCESS_ID_PATH, 1)]

  function Counting(n: int): seq<Metric> {
    [Metric("ts_ms", 1), Metric(COUNTER, n)]
  }

  lemma FieldNames()
    ensures Plain("ts_ms") && Plain(PROCESS_ID_PATH) && Plain(COUNTER)
  {
  }

  lemma CounterName()
    ensures Raw(COUNTER)
  {
  }

  lemma TinyFlattens()
    ensures FlatSample(SampleText(TINY)) == Some(Flat(FIRST_ID, []))
  {
    FieldNames();
    FieldsFlatten(TINY);
    assert FieldLeaves(TINY) == [IntLeaf("ts_ms", 1)];
    NoteOne(EMPTY_FLAT, IntLeaf("ts_ms", 1));
  }

  lemma OtherProcessFlattens()
    ensures FlatSample(SampleText(OTHER_PROCESS)) == Some(Flat(NO_IDENTITY.(processId := 1, valid := true), []))
  {
    FieldNames();
    FieldsFlatten(OTHER_PROCESS);
    assert FieldLeaves(OTHER_PROCESS) == [IntLeaf(PROCESS_ID_PATH, 1)];
    NoteOne(EMPTY_FLAT, IntLeaf(PROCESS_ID_PATH, 1));
  }

  lemma CountingFlattens(n: int)
    requires InRange(n)
    ensures FlatSample(SampleText(Counting(n))) == Some(Flat(FIRST_ID, [Metric(COUNTER, n)]))
  {
    FieldNames();
    FieldsFlatten(Counting(n));
    var ts, counter := IntLeaf("ts_ms", 1), IntLeaf(COUNTER, n);
    assert Counting(n)[1..] == [Metric(COUNTER, n)] && [Metric(COUNTER, n)][1..] == [];
    assert FieldLeaves([Metric(COUNTER, n)]) == [counter];
    assert FieldLeaves(Counting(n)) == [ts] + [counter];
    NoteAllConcat(EMPTY_FLAT, [ts], [counter]);
    NoteOne(EMPTY_FLAT, ts);
    NoteOne(Flat(FIRST_ID, []), counter);
  }

  // ----- runs that show it ------------------------------------------------------------------------------------

  // Loaded with "delta-metrics yes max-file-mb 0".
  const CONFIG := DEFAULT_CONFIG.(deltaMetrics := true, maxFileBytes := 0)
  const LISTED := SweepEnv(true, [], {})
  const NOT_LISTED := SweepEnv(false, [], {})

  function Turn(stamp: string, sweep: SweepEnv): RotateEnv {
    RotateEnv(stamp, true, true, true, "", true, 0, None, 0, None, sweep)
  }

  const FINE := AppendEnv(0, Turn("a", LISTED), 0, Turn("b", LISTED), Whole, Whole, true, LISTED)
  const LOSING := FINE.(recordWrite := Part(""))
  const ALL := Memory(true, None, 1)

  lemma NextStep(w: State, ops: seq<Op>, op: Op)
    ensures Run(w, ops + [op]) == Step(Run(w, ops), op)
  {
    assert (ops + [op])[..|ops|] == ops;
  }

  lemma FirstStep(w: State, op: Op)
    ensures Run(w, [op]) == Step(w, op)
  {
    NextStep(w, [], op);
    assert [] + [op] == [op];
  }

  // The state after the first step is passed as `next`, so that each step is looked at on its own.
  lemma TwoSteps(w: State, a: Op, b: Op, next: State)
    requires Run(w, [a]) == next
    ensures Run(w, [a, b]) == Step(next, b)
  {
    NextStep(w, [a], b);
    assert [a] + [b] == [a, b];
  }

  lemma ThreeSteps(w: State, a: Op, b: Op, c: Op, next: State)
    requires Run(w, [a, b]) == next
    ensures Run(w, [a, b, c]) == Step(next, c)
  {
    NextStep(w, [a, b], c);
    assert [a, b] + [c] == [a, b, c];
  }

  /** A file is open that needs no rotation at time 0. */
  predicate Still(w: State) {
    w.open && w.openedMs == 0 && w.cfg == CONFIG
  }

  lemma StillAppends(w: State, sample: string, mem: Memory, e: AppendEnv)
    requires Still(w) && FlatSample(sample).Some? && mem.built && (e == FINE || e == LOSING)
    ensures var after := Append(w, sample, mem, e);
      && Still(after) && after.log == w.log + Recorded(w, sample, mem, e)
      && after.enc == After(w.enc, 60000, sample, mem)
  {
    AppendsRecords(w, sample, mem, e);
  }

  const START := Start(CONFIG, map[])
  const FIRST_OPENED := Opened(NextFile(CONFIG, Turn("a", LISTED)), Header(CONFIG, Turn("a", LISTED)), true)

  lemma FirstAppend(sample: string, e: AppendEnv)
    requires FlatSample(sample).Some? && (e == FINE || e == LOSING)
    ensures var after := Append(START, sample, ALL, e);
      && Still(after) && after.enc == After(INITIAL_STATE, 60000, sample, ALL)
      && after.log == [FIRST_OPENED] + LineOrLoss(RecordOf(INITIAL_STATE, 60000, sample, ALL), e)
  {
    var turned := Rotate(START, Turn("a", LISTED));
    FirstTurn();
    StillAppends(turned, sample, ALL, e);
    assert Append(START, sample, ALL, e) == Append(turned, sample, ALL, e);
  }

  lemma FirstTurn()
    ensures var turned := Rotate(START, Turn("a", LISTED));
      Still(turned) && turned.log == [FIRST_OPENED] && turned.enc == INITIAL_STATE
  {
    RotateShape(START, Turn("a", LISTED));
    RotatedSize(START, Turn("a", LISTED));
    assert [FIRST_OPENED] + [] == [FIRST_OPENED];
  }

  lemma LaterTurn(w: State)
    requires Still(w)
    ensures var turned := Rotate(w, Turn("c", NOT_LISTED));
      && Still(turned) && turned.enc == w.enc
      && |turned.log| == |w.log| + 1 && turned.log[..|w.log|] == w.log && turned.log[|w.log|].Opened?
  {
    RotateShape(w, Turn("c", NOT_LISTED));
  }

  // The encoder after the tiny sample, and what it makes of the next.
  const AFTER_TINY := DeltaState([], FIRST_ID, false, 1)

  lemma AfterTiny()
    ensures Advance(INITIAL_STATE, 60000, Flat(FIRST_ID, []), 1) == AFTER_TINY
    ensures Advance(AFTER_TINY, 60000, Flat(FIRST_ID, []), 1) == AFTER_TINY
    ensures EmitsDelta(AFTER_TINY, 60000, Flat(FIRST_ID, []))
    ensures Boundary(AFTER_TINY, 60000, NO_IDENTITY.(processId := 1, valid := true))
  {
  }

  /** A state that a run from START gets to by one append of the tiny sample. */
  predicate AtTiny(w: State, e: AppendEnv) {
    && w == Run(START, [DoAppend(SampleText(TINY), ALL, e)])
    && Still(w) && w.enc == AFTER_TINY && |w.log| == 2 && w.log[0] == FIRST_OPENED
    && (if e.recordWrite.Whole? then IsLine(w.log[1], Checkpoint) else w.log[1] == Broken(Some(Checkpoint)))
  }

  lemma ReachTiny(e: AppendEnv) returns (w: State)
    requires e == FINE || e == LOSING
    ensures AtTiny(w, e)
  {
    var sample := SampleText(TINY);
    TinyFlattens();
    AfterTiny();
    w := ReachFirst(sample, e);
    FirstKind(sample);
    FirstLog(RecordOf(INITIAL_STATE, 60000, sample, ALL), e);
  }

  lemma FirstLog(record: Event, e: AppendEnv)
    requires IsLine(record, Checkpoint) && (e == FINE || e == LOSING)
    ensures var log := [FIRST_OPENED] + LineOrLoss(record, e);
      && |log| == 2 && log[0] == FIRST_OPENED
      && (if e.recordWrite.Whole? then IsLine(log[1], Checkpoint) else log[1] == Broken(Some(Checkpoint)))
  {
  }

  /** The state after the first append of a run. */
  lemma ReachFirst(sample: string, e: AppendEnv) returns (w: State)
    requires FlatSample(sample).Some? && (e == FINE || e == LOSING)
    ensures w == Run(START, [DoAppend(sample, ALL, e)]) && Still(w) && w.enc == After(INITIAL_STATE, 60000, sample, ALL)
    ensures w.log == [FIRST_OPENED] + LineOrLoss(RecordOf(INITIAL_STATE, 60000, sample, ALL), e)
  {
    FirstAppend(sample, e);
    w := Append(START, sample, ALL, e);
    FirstStep(START, DoAppend(sample, ALL, e));
  }

  lemma FirstKind(sample: string)
    requires FlatSample(sample).Some?
    ensures IsLine(RecordOf(INITIAL_STATE, 60000, sample, ALL), Checkpoint)
  {
  }

  lemma TurnTiny(w: State) returns (turned: State)
    requires AtTiny(w, FINE)
    ensures turned == Run(START, [DoAppend(SampleText(TINY), ALL, FINE), DoRotate(Turn("c", NOT_LISTED))])
    ensures Still(turned) && turned.enc == AFTER_TINY && |turned.log| == 3 && turned.log[2].Opened?
  {
    LaterTurn(w);
    turned := Rotate(w, Turn("c", NOT_LISTED));
    TwoSteps(START, DoAppend(SampleText(TINY), ALL, FINE), DoRotate(Turn("c", NOT_LISTED)), w);
  }

  /** "The first record in every new file is always a checkpoint" fails when retention does: a sample, a
      rotation whose retention cannot list the directory, and the same sample again. The new file starts
      with a delta. */
  lemma FirstRecordCanBeDelta()
    ensures var sample := SampleText(TINY);
      var ops := [DoAppend(sample, ALL, FINE), DoRotate(Turn("c", NOT_LISTED)), DoAppend(sample, ALL, FINE)];
      var log := Run(START, ops).log;
      |log| == 4 && log[2].Opened? && IsLine(log[3], Delta)
  {
    var sample := SampleText(TINY);
    var w := ReachTiny(FINE);
    var turned := TurnTiny(w);
    var append := DoAppend(sample, ALL, FINE);
    ThreeSteps(START, append, DoRotate(Turn("c", NOT_LISTED)), append, turned);
    TinyAgain(turned);
  }

  lemma TinyAgain(w: State)
    requires Still(w) && w.enc == AFTER_TINY
    ensures var log := Append(w, SampleText(TINY), ALL, FINE).log;
      |log| == |w.log| + 1 && log[..|w.log|] == w.log && IsLine(log[|w.log|], Delta)
  {
    TinyFlattens();
    AfterTiny();
    StillAppends(w, SampleText(TINY), ALL, FINE);
  }

  /** It fails, too, when a process boundary comes first: the file starts with a restart record. */
  lemma FirstRecordCanBeRestart()
    ensures var ops := [DoAppend(SampleText(TINY), ALL, FINE), DoRotate(Turn("c", NOT_LISTED)),
                        DoAppend(SampleText(OTHER_PROCESS), ALL, FINE)];
      var log := Run(START, ops).log;
      |log| == 5 && log[2].Opened? && IsLine(log[3], Restart) && IsLine(log[4], Checkpoint)
  {
    var w := ReachTiny(FINE);
    var turned := TurnTiny(w);
    ThreeSteps(START, DoAppend(SampleText(TINY), ALL, FINE), DoRotate(Turn("c", NOT_LISTED)),
               DoAppend(SampleText(OTHER_PROCESS), ALL, FINE), turned);
    OtherAfterTiny(turned);
  }

  lemma OtherAfterTiny(w: State)
    requires Still(w) && w.enc == AFTER_TINY
    ensures var log := Append(w, SampleText(OTHER_PROCESS), ALL, FINE).log;
      && |log| == |w.log| + 2 && log[..|w.log|] == w.log
      && IsLine(log[|w.log|], Restart) && IsLine(log[|w.log| + 1], Checkpoint)
  {
    OtherProcessFlattens();
    AfterTiny();
    StillAppends(w, SampleText(OTHER_PROCESS), ALL, FINE);
  }

  /** And when the write of the checkpoint is lost, with retention working: the encoder goes on with
      deltas, so a delta is the first record of the file. */
  lemma FirstRecordCanBeLost()
    ensures var sample := SampleText(TINY);
      var log := Run(START, [DoAppend(sample, ALL, LOSING), DoAppend(sample, ALL, FINE)]).log;
      |log| == 3 && IsStart(log[0]) && log[1] == Broken(Some(Checkpoint)) && IsLine(log[2], Delta)
  {
    var sample := SampleText(TINY);
    var w := ReachTiny(LOSING);
    TwoSteps(START, DoAppend(sample, ALL, LOSING), DoAppend(sample, ALL, FINE), w);
    TinyAgain(w);
    assert IsStart(w.log[0]);
  }

  /** And when delta mode is switched off after the rotation, with everything working: the toggle does not
      rotate, so a raw sample is the first record of a file opened in delta mode. */
  lemma FirstRecordCanBeRaw(sample: string)
    ensures var ops := [DoRotate(Turn("a", LISTED)), SetDeltaMetrics(false), DoAppend(sample, ALL, FINE)];
      Run(START, ops).log == [FIRST_OPENED] + [ResetMark] + [SnapshotLine(START, sample)]
  {
    var off := SwitchedOff();
    ThreeSteps(START, DoRotate(Turn("a", LISTED)), SetDeltaMetrics(false), DoAppend(sample, ALL, FINE), off);
    RawAppend(off, sample);
  }

  lemma Turned() returns (turned: State)
    ensures turned == Run(START, [DoRotate(Turn("a", LISTED))]) && Still(turned) && turned.log == [FIRST_OPENED]
  {
    FirstTurn();
    turned := Rotate(START, Turn("a", LISTED));
    FirstStep(START, DoRotate(Turn("a", LISTED)));
  }

  lemma SwitchedOff() returns (off: State)
    ensures off == Run(START, [DoRotate(Turn("a", LISTED)), SetDeltaMetrics(false)])
    ensures off.open && off.openedMs == 0 && off.cfg == CONFIG.(deltaMetrics := false)
    ensures off.log == [FIRST_OPENED] + [ResetMark]
  {
    var turned := Turned();
    off := Step(turned, SetDeltaMetrics(false));
    SwitchOff(turned);
    TwoSteps(START, DoRotate(Turn("a", LISTED)), SetDeltaMetrics(false), turned);
  }

  lemma SwitchOff(w: State)
    requires Still(w)
    ensures var off := Step(w, SetDeltaMetrics(false));
      off.open && off.openedMs == 0 && off.cfg == CONFIG.(deltaMetrics := false) && off.log == w.log + [ResetMark]
  {
  }

  lemma RawAppend(w: State, sample: string)
    requires w.open && w.openedMs == 0 && w.cfg == CONFIG.(deltaMetrics := false)
    ensures Append(w, sample, ALL, FINE).log == w.log + [SnapshotLine(w, sample)]
  {
    assert Append(w, sample, ALL, FINE) == AppendSnapshot(w, sample, FINE);
    WritesLine(w, SnapshotLine(w, sample), FINE);
  }

  // ----- a lost write --------------------------------------------------------------------------------------------

  function Counted(n: int): DeltaState {
    DeltaState([Metric(COUNTER, n)], FIRST_ID, false, 1)
  }

  lemma CountedNext(n: int, m: int)
    requires 0 <= n <= m <= LLONG_MAX
    ensures Clean([Metric(COUNTER, n)]) && Clean([Metric(COUNTER, m)])
    ensures EmitsDelta(Counted(n), 60000, Flat(FIRST_ID, [Metric(COUNTER, m)]))
    ensures Advance(Counted(n), 60000, Flat(FIRST_ID, [Metric(COUNTER, m)]), 1) == Counted(m)
  {
    CounterName();
    assert [Metric(COUNTER, m)][..1] == [Metric(COUNTER, m)];
  }

  /** One more sample, whose record is written or lost. */
  lemma CountOn(w: State, n: int, m: int, e: AppendEnv) returns (after: State)
    requires Still(w) && w.enc == Counted(n) && 0 <= n <= m <= LLONG_MAX && (e == FINE || e == LOSING)
    ensures after == Append(w, SampleText(Counting(m)), ALL, e) && Still(after) && after.enc == Counted(m)
    ensures Current(ReadLog(after.log), COUNTER) == Current(ReadLog(w.log), COUNTER) + if e == FINE then m - n else 0
  {
    var sample := SampleText(Counting(m));
    CountingFlattens(m);
    CountedNext(n, m);
    FlatSampleSound(sample);
    StillAppends(w, sample, ALL, e);
    after := Append(w, sample, ALL, e);
    var record := RecordOf(w.enc, 60000, sample, ALL);
    SnocRead(w.log, if e == FINE then record else Broken(Some(Delta)));
    DeltaShifts(w.enc, FlatSample(sample).value, ReadLog(w.log), Metric(COUNTER, m));
  }

  lemma CountFirst(n: int) returns (w: State)
    requires 0 <= n <= LLONG_MAX
    ensures w == Run(START, [DoAppend(SampleText(Counting(n)), ALL, FINE)]) && Still(w) && w.enc == Counted(n)
    ensures Current(ReadLog(w.log), COUNTER) == n
  {
    var sample := SampleText(Counting(n));
    CountingFlattens(n);
    w := ReachFirst(sample, FINE);
    FirstCounted(n);
    FirstRead([FIRST_OPENED], sample, n);
  }

  lemma FirstCounted(n: int)
    ensures Advance(INITIAL_STATE, 60000, Flat(FIRST_ID, [Metric(COUNTER, n)]), 1) == Counted(n)
  {
    assert [Metric(COUNTER, n)][..1] == [Metric(COUNTER, n)];
  }

  lemma FirstRead(before: Log, sample: string, n: int)
    requires 0 <= n <= LLONG_MAX && FlatSample(sample) == Some(Flat(FIRST_ID, [Metric(COUNTER, n)]))
    ensures Current(ReadLog(before + [RecordOf(INITIAL_STATE, 60000, sample, ALL)]), COUNTER) == n
  {
    CounterName();
    SnocRead(before, RecordOf(INITIAL_STATE, 60000, sample, ALL));
    EncodeReplays(INITIAL_STATE, 60000, sample, ALL, ReadLog(before));
    assert Metric(COUNTER, n) in FlatSample(sample).value.metrics;
  }

  /** A run that breaks replay when a write is lost: a counter is 1, then 2 in a delta that is lost, then
      3. The reader ends with 2. */
  lemma LostWriteStays()
    ensures var ops := [DoAppend(SampleText(Counting(1)), ALL, FINE), DoAppend(SampleText(Counting(2)), ALL, LOSING),
                        DoAppend(SampleText(Counting(3)), ALL, FINE)];
      Current(ReadLog(Run(START, ops).log), COUNTER) == 2
    ensures FlatSample(SampleText(Counting(3))) == Some(Flat(FIRST_ID, [Metric(COUNTER, 3)]))
  {
    CountingFlattens(3);
    var a, b, c := DoAppend(SampleText(Counting(1)), ALL, FINE), DoAppend(SampleText(Counting(2)), ALL, LOSING),
      DoAppend(SampleText(Counting(3)), ALL, FINE);
    var one := CountFirst(1);
    var two := CountOn(one, 1, 2, LOSING);
    TwoSteps(START, a, b, one);
    var three := CountOn(two, 2, 3, FINE);
    ThreeSteps(START, a, b, c, two);
  }

  // ----- a counter without memory ------------------------------------------------------------------------------------

  const DROPPING := Memory(true, Some([]), 1)

  /** A run that breaks replay when realloc fails in the flattener: a counter is 1, then 2 in a sample whose
      counter finds no memory. A delta without differences is written, without an error; the encoder
      forgets the counter, and the reader still has 1. */
  lemma DroppedCounterStays()
    ensures var first, second := SampleText(Counting(1)), SampleText(Counting(2));
      var ops := [DoAppend(first, ALL, FINE), DoAppend(second, DROPPING, FINE)];
      var w := Run(START, ops);
      && !w.error && w.enc.table == [] && w.log != [] && IsLine(w.log[|w.log| - 1], Delta)
      && Current(ReadLog(w.log), COUNTER) == 1
    ensures FlatSample(SampleText(Counting(2))) == Some(Flat(FIRST_ID, [Metric(COUNTER, 2)]))
  {
    CountingFlattens(2);
    var one := CountFirst(1);
    var first, second := SampleText(Counting(1)), SampleText(Counting(2));
    TwoSteps(START, DoAppend(first, ALL, FINE), DoAppend(second, DROPPING, FINE), one);
    DropOn(one, 1, 2);
  }

  lemma DropOn(w: State, n: int, m: int)
    requires Still(w) && w.enc == Counted(n) && 0 <= n <= m <= LLONG_MAX
    ensures var after := Append(w, SampleText(Counting(m)), DROPPING, FINE);
      && !after.error && after.enc.table == [] && after.log != [] && IsLine(after.log[|after.log| - 1], Delta)
      && Current(ReadLog(after.log), COUNTER) == Current(ReadLog(w.log), COUNTER)
  {
    var sample := SampleText(Counting(m));
    CountingFlattens(m);
    StillAppends(w, sample, DROPPING, FINE);
    FineAppend(w, sample, DROPPING);
    DroppedRecord(sample, n, m);
    var record := RecordOf(w.enc, 60000, sample, DROPPING);
    assert Recorded(w, sample, DROPPING, FINE) == [record];
    DroppedRead(w.log, record, n);
  }

  lemma DroppedRecord(sample: string, n: int, m: int)
    requires FlatSample(sample) == Some(Flat(FIRST_ID, [Metric(COUNTER, m)]))
    ensures var record := RecordOf(Counted(n), 60000, sample, DROPPING);
      IsLine(record, Delta) && record.text == DeltaText(1, Diffs([], Counted(n).table))
    ensures !Boundary(Counted(n), 60000, FIRST_ID) && After(Counted(n), 60000, sample, DROPPING).table == []
  {
    assert Seen(FlatSample(sample).value, DROPPING) == Flat(FIRST_ID, []);
  }

  lemma DroppedRead(before: Log, record: Event, n: int)
    requires record.Line? && record.text == DeltaText(1, Diffs([], Counted(n).table)) && 0 <= n <= LLONG_MAX
    ensures Current(ReadLog(before + [record]), COUNTER) == Current(ReadLog(before), COUNTER)
  {
    CounterName();
    SnocRead(before, record);
    DeltaSpares(Counted(n), Flat(FIRST_ID, []), ReadLog(before), COUNTER);
  }

  lemma FineAppend(w: State, sample: string, mem: Memory)
    requires Still(w) && FlatSample(sample).Some? && mem.built
    ensures !Append(w, sample, mem, FINE).error
  {
  }

  // ----- snapshot mode ---------------------------------------------------------------------------------------------

  // The least limit the command accepts.
  const SMALL := CONFIG.(deltaMetrics := false, maxFileBytes := MEGABYTE)

  /** A run that loses a sample without an error: one of a megabyte or more, with max-file-mb 1. The file
      gets an empty line. */
  lemma SnapshotCanBeLost(sample: string)
    requires |sample| >= MEGABYTE
    ensures var w := Run(Start(SMALL, map[]), [DoAppend(sample, ALL, FINE)]);
      !w.error && w.log != [] && w.log[|w.log| - 1] == SnapshotLine(Start(SMALL, map[]), "")
  {
    var start := Start(SMALL, map[]);
    FirstStep(start, DoAppend(sample, ALL, FINE));
    SmallTurns();
    LostSnapshot(start, sample);
  }

  lemma SmallTurns()
    ensures RotateOk(SMALL, FINE.rotation) && RotateOk(SMALL, FINE.second)
  {
  }

  lemma LostSnapshot(w: State, sample: string)
    requires w.cfg == SMALL && !w.open && |sample| >= MEGABYTE
    requires RotateOk(SMALL, FINE.rotation) && RotateOk(SMALL, FINE.second)
    ensures var after := Append(w, sample, ALL, FINE);
      !after.error && after.log != [] && after.log[|after.log| - 1] == SnapshotLine(w, "")
  {
    assert Prepared(w, |sample|, FINE) && !Fits(w, |sample|, FINE);
    assert Append(w, sample, ALL, FINE) == AppendSnapshot(Prepare(w, |sample|, FINE), sample, FINE);
    SnapshotError(w, sample, FINE);
    SnapshotFrom(w, sample, FINE);
  }

  // ----- an object without members -----------------------------------------------------------------------------------

  /** The flattener accepts {}, and rejects its checkpoint record. */
  lemma EmptyObject()
    ensures FlatSample("{}") == Some(EMPTY_FLAT) && FlatSample(CheckpointText("{}")) == None
  {
    assert "{}"[1..] == "}" && "}"[1..] == "";
    assert SkipWs("{}") == "{}" && SkipWs("}") == "}";
    CheckpointSplice("{}");
  }

  // ----- paths and differences ------------------------------------------------------------------------------------

  /** The path of the replication offset of the replica `name`. */
  function OffsetPath(name: string): string {
    SLAVE_PREFIX + name + ".offset"
  }

  lemma OffsetMonotonic(name: string)
    ensures Monotonic(OffsetPath(name)) && ('"' in name ==> !Raw(OffsetPath(name)))
  {
    var path := OffsetPath(name);
    assert path[..|SLAVE_PREFIX|] == SLAVE_PREFIX && path[|path| - 7..] == ".offset";
    if '"' in name {
      var i :| 0 <= i < |name| && name[i] == '"';
      assert path[|SLAVE_PREFIX| + i] == '"';
    }
  }

  /** A monotonic path can hold a quote, and its delta then does not read back. */
  lemma QuotedPath(name: string, tsMs: int)
    requires '"' in name && InRange(tsMs)
    ensures Monotonic(OffsetPath(name))
    ensures ReadRecord(DeltaText(tsMs, [Metric(OffsetPath(name), 1)])) != Add(tsMs, [Metric(OffsetPath(name), 1)])
  {
    OffsetMonotonic(name);
    assert Metric(OffsetPath(name), 1) in [Metric(OffsetPath(name), 1)];
    DeltaReadsExactly(tsMs, [Metric(OffsetPath(name), 1)]);
  }

  const REPLICATION := 5

  function OffsetValue(n: int, lag: int): string {
    ("offset" + "=" + IntText(n)) + "," + ("lag" + "=" + IntText(lag))
  }

  /** INFO can get it there: a line slaveNAME:offset=N,lag=M in the replication section is a counter at that
      path, quotes in the name or not. */
  lemma QuotedInfo(a: Answers, name: string, n: int, lag: int)
    requires EndToEnd.Sane(a) && FlatSample(Print(SampleOf(a))).Some? && InRange(n)
    requires ':' !in name && '.' !in name && '\n' !in name
    requires a.sections[REPLICATION] == "slave" + name + ":" + OffsetValue(n, lag)
    ensures Get(FlatSample(Print(SampleOf(a))).value.metrics, OffsetPath(name)) == Some(n)
  {
    OffsetMonotonic(name);
    OffsetAt(a, name, n, lag);
    EndToEnd.DecidedMetric(a, REPLICATION, 0, OffsetPath(name), n);
  }

  lemma OffsetAt(a: Answers, name: string, n: int, lag: int)
    requires |a.sections| == |SECTIONS| && InRange(n) && ':' !in name && '.' !in name && '\n' !in name
    requires a.sections[REPLICATION] == "slave" + name + ":" + OffsetValue(n, lag)
    ensures EndToEnd.Decides(a, REPLICATION, 0, OffsetPath(name), n)
  {
    var key, raw := "slave" + name, OffsetValue(n, lag);
    var token, last := "offset" + "=" + IntText(n), "lag" + "=" + IntText(lag);
    OffsetKey(name);
    TwoPairs("offset", n, "lag", lag);
    NoNewline(key, raw);
    SplitNever(key + ":" + raw, '\n');
    OffsetChild(name);
    EndToEnd.PairDecides(a, REPLICATION, 0, key, raw, [], token, [last], "offset", OffsetPath(name), n);
  }

  lemma OffsetChild(name: string)
    ensures OffsetPath(name) == EndToEnd.SectionPath(SECTIONS[REPLICATION]) + "." + ("slave" + name) + "." + "offset"
  {
    assert SLAVE_PREFIX == EndToEnd.SectionPath(SECTIONS[REPLICATION]) + "." + "slave";
    assert ".offset" == "." + "offset";
  }

  lemma OffsetKey(name: string)
    requires ':' !in name && '.' !in name
    ensures IsKey("slave" + name) && EndToEnd.NoDot("slave" + name)
  {
  }

  lemma NoNewline(key: string, raw: string)
    requires '\n' !in key && '\n' !in raw
    ensures '\n' !in key + ":" + raw
  {
  }

  // Neither a comma, nor an equals sign, nor a newline.
  lemma IntTextPlain(n: int)
    ensures var s := IntText(n); Solid(s) && ',' !in s && '=' !in s && '\n' !in s
  {
    IntTextShape(n);
    var ds := NatText(if n < 0 then -n else n);
    assert forall c :: c in ds ==> IsDigit(c);
  }

  lemma SolidText(s: string)
    requires Solid(s)
    ensures Trim(StripReturns(s)) == s
  {
    TrimSolid(s);
  }

  lemma TwoTokens(first: string, last: string)
    requires Solid(first) && Solid(last) && ',' !in first && ',' !in last && '\n' !in first && '\n' !in last
    ensures var raw := first + "," + last;
      Solid(raw) && '\n' !in raw && Split(raw, ',') == [] + ([first] + [last])
  {
    var raw := first + "," + last;
    assert raw[..|first|] == first && raw[|first| + 1..] == last;
    SplitOnce(raw, ',', |first|);
    assert [first, last] == [] + ([first] + [last]);
    SolidEnds(first, last);
  }

  lemma SolidEnds(first: string, last: string)
    requires Solid(first) && Solid(last) && '\n' !in first && '\n' !in last
    ensures Solid(first + "," + last) && '\n' !in first + "," + last
  {
  }

  lemma CountToken(name: string, n: int)
    requires Solid(name) && ',' !in name && '=' !in name && '\n' !in name
    ensures var token := name + "=" + IntText(n);
      Solid(token) && ',' !in token && '\n' !in token && Pair(token) == Some((name, IntText(n)))
  {
    IntTextPlain(n);
    PlainPair(name, IntText(n));
  }

  lemma OtherName(token: string, other: string, value: string, name: string)
    requires Pair(token) == Some((other, value)) && other != name && !HasPrefix(other, name + ".")
    ensures EndToEnd.LastOfName([token], name)
  {
  }

  lemma Compound(value: string, first: string, last: string)
    requires Split(value, ',') == [] + ([first] + [last]) && Pair(first).Some? && Pair(last).Some?
    ensures IsCompound(value)
  {
  }

  /** A compound value of two integers. */
  lemma TwoPairs(name: string, n: int, other: string, m: int)
    requires Solid(name) && ',' !in name && '=' !in name && '\n' !in name
    requires Solid(other) && ',' !in other && '=' !in other && '\n' !in other
    requires name != other && !HasPrefix(other, name + ".")
    ensures var first, last := name + "=" + IntText(n), other + "=" + IntText(m);
      var raw := first + "," + last;
      && Trim(StripReturns(raw)) == raw && '\n' !in raw && IsCompound(raw)
      && Split(raw, ',') == [] + ([first] + [last])
      && Pair(first) == Some((name, IntText(n))) && EndToEnd.LastOfName([last], name)
  {
    var first, last := name + "=" + IntText(n), other + "=" + IntText(m);
    CountToken(name, n);
    CountToken(other, m);
    TwoTokens(first, last);
    SolidText(first + "," + last);
    OtherName(last, other, IntText(m), name);
    Compound(first + "," + last, first, last);
  }
}
