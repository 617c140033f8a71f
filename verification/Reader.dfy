/** A reader of the record lines, as the file format describes them: a checkpoint (or a raw sample)
    loads absolute values, a delta adds differences, a restart changes nothing. The repository ships
    no reader; this is the specification the encoder is held against. */
module Reader {
  import opened Wrappers
  import opened CText
  import opened JsonText
  import opened Metrics
  import opened Flatten
  import opened Encoder

  type Values = map<string, int>

  datatype Record = Load(metrics: seq<Metric>) | Add(tsMs: int, diffs: seq<Metric>) | NoChange | Unreadable

  // ----- from text to record -------------------------------------------------------------------

  /** `"path":integer`, separated by commas, up to the closing brace. */
  function ReadDiffs(s: string): (r: Option<seq<Metric>>)
    decreases |s|
  {
    var (path, s1) :- ScanString(s);
    if Peek(s1) != ':' then None
    else
      var (value, s2) :- Strtoll(s1[1..]);
      if Peek(s2) == '}' then Some([Metric(path, value)])
      else if Peek(s2) == ',' then
        var more :- ReadDiffs(s2[1..]);
        Some([Metric(path, value)] + more)
      else None
  }

  function ReadDelta(line: string): Option<Record> {
    if !HasPrefix(line, DELTA_HEAD) then None
    else
      var (tsMs, s) :- Strtoll(line[|DELTA_HEAD|..]);
      if !HasPrefix(s, DELTA_MIDDLE) then None
      else
        var body := s[|DELTA_MIDDLE|..];
        if Peek(body) == '}' then Some(Add(tsMs, []))
        else
          var diffs :- ReadDiffs(body);
          Some(Add(tsMs, diffs))
  }

  function ReadRecord(line: string): Record {
    if HasPrefix(line, RESTART_HEAD) then NoChange
    else if HasPrefix(line, DELTA_HEAD) then
      if ReadDelta(line).Some? then ReadDelta(line).value else Unreadable
    else if FlatSample(line).Some? then Load(FlatSample(line).value.metrics)
    else Unreadable
  }

  // ----- from record to values -----------------------------------------------------------------

  function Loaded(metrics: seq<Metric>): Values {
    if metrics == [] then map[]
    else Loaded(metrics[..|metrics| - 1])[metrics[|metrics| - 1].path := metrics[|metrics| - 1].value]
  }

  function Current(values: Values, path: string): int {
    if path in values then values[path] else 0
  }

  function Added(values: Values, diffs: seq<Metric>): Values
    decreases diffs
  {
    if diffs == [] then values
    else Added(values[diffs[0].path := Current(values, diffs[0].path) + diffs[0].value], diffs[1..])
  }

  /** A line that cannot be read leaves the reader without any value it could be wrong about. */
  function Apply(record: Record, values: Values): Values {
    match record
    case Load(metrics) => Loaded(metrics)
    case Add(_, diffs) => Added(values, diffs)
    case NoChange => values
    case Unreadable => map[]
  }

  function ReadLine(line: string, values: Values): Values {
    Apply(ReadRecord(line), values)
  }

  // ----- the text of a record reads back ---------------------------------------------------------

  /** Printable without escapes, and with values a long long can count up to. */
  predicate Clean(metrics: seq<Metric>) {
    forall m :: m in metrics ==> Raw(m.path) && 0 <= m.value <= LLONG_MAX
  }

  lemma {:induction false} DiffsRead(diffs: seq<Metric>, rest: string)
    requires diffs != [] && forall d :: d in diffs ==> Raw(d.path) && InRange(d.value)
    ensures ReadDiffs(DiffsText(diffs) + ("}" + rest)) == Some(diffs)
    decreases diffs
  {
    var d, next := diffs[0], diffs[1..];
    assert d in diffs && diffs == [d] + next;
    var more := if next == [] then "}" + rest else "," + (DiffsText(next) + ("}" + rest));
    DiffsTextSplit(d, next, "}" + rest);
    OneDiffReads(d, more);
    if next != [] {
      assert more[1..] == DiffsText(next) + ("}" + rest);
      DiffsRead(next, rest);
      assert ReadDiffs(DiffText(d) + more) == Some([d] + next);
    } else {
      assert [d] == diffs;
    }
    assert DiffsText(diffs) + ("}" + rest) == DiffText(d) + more;
  }

  lemma DiffsTextSplit(d: Metric, next: seq<Metric>, rest: string)
    ensures DiffsText([d] + next) + rest == DiffText(d) + if next == [] then rest else "," + (DiffsText(next) + rest)
  {
    MoreDiffsStep(d, next);
    Regroup(DiffText(d), MoreDiffsText(next), rest);
    if next == [] {
      assert "" + rest == rest;
    } else {
      MoreDiffsAre(next);
      Regroup(",", DiffsText(next), rest);
    }
  }

  lemma MoreDiffsAre(diffs: seq<Metric>)
    requires diffs != []
    ensures MoreDiffsText(diffs) == "," + DiffsText(diffs)
  {
    Regroup(",", DiffText(diffs[0]), MoreDiffsText(diffs[1..]));
  }

  lemma OneDiffReads(d: Metric, more: string)
    requires Raw(d.path) && InRange(d.value) && (Peek(more) == '}' || Peek(more) == ',')
    ensures ReadDiffs(DiffText(d) + more) ==
            if Peek(more) == '}' then Some([d])
            else if ReadDiffs(more[1..]).Some? then Some([d] + ReadDiffs(more[1..]).value)
            else None
  {
    var number := IntText(d.value) + more;
    DiffTextSplit(d, more);
    RawString(d.path, ":" + number);
    StrtollIntText(d.value, more);
  }

  lemma DiffTextSplit(d: Metric, more: string)
    ensures DiffText(d) + more == "\"" + (d.path + "\"" + (":" + (IntText(d.value) + more)))
    ensures ("\"" + (d.path + "\"" + (":" + (IntText(d.value) + more))))[1..] ==
            d.path + "\"" + (":" + (IntText(d.value) + more))
    ensures (":" + (IntText(d.value) + more))[1..] == IntText(d.value) + more
  {
    var number := IntText(d.value);
    assert "\":" == "\"" + ":";
    Regroup("\"" + d.path + "\":", number, more);
    Regroup("\"" + d.path, "\"", ":");
    Regroup("\"" + d.path + "\"", ":", number + more);
    Regroup("\"" + d.path, "\"", ":" + (number + more));
    Regroup("\"", d.path, "\"" + (":" + (number + more)));
    Regroup(d.path, "\"", ":" + (number + more));
  }

  lemma PrefixOf(head: string, tail: string)
    ensures HasPrefix(head + tail, head) && (head + tail)[|head|..] == tail
  {
  }

  lemma HeadsDiffer(a: string, b: string, c: string)
    ensures !HasPrefix(DELTA_HEAD + a, RESTART_HEAD)
    ensures !HasPrefix(CHECKPOINT_HEAD + b, RESTART_HEAD) && !HasPrefix(CHECKPOINT_HEAD + b, DELTA_HEAD)
    ensures HasPrefix(RESTART_HEAD + c, RESTART_HEAD)
  {
    assert (DELTA_HEAD + a)[16] == 'd' && (CHECKPOINT_HEAD + b)[16] == 'c' && RESTART_HEAD[16] == 'r';
    assert DELTA_HEAD[16] == 'd';
    PrefixOf(RESTART_HEAD, c);
  }

  /** For every timestamp and every list of differences that needs no escaping, the delta line reads
      back as it was meant. */
  lemma DeltaReads(tsMs: int, diffs: seq<Metric>)
    requires InRange(tsMs) && forall d :: d in diffs ==> Raw(d.path) && InRange(d.value)
    ensures ReadRecord(DeltaText(tsMs, diffs)) == Add(tsMs, diffs)
  {
    DeltaLineReads(tsMs, diffs);
    BodyReads(diffs);
  }

  /** A delta line is read as far as its differences can be. */
  lemma DeltaLineReads(tsMs: int, diffs: seq<Metric>)
    requires InRange(tsMs)
    ensures var body := DiffsText(diffs) + "}}";
      ReadRecord(DeltaText(tsMs, diffs)) ==
      if Peek(body) == '}' then Add(tsMs, [])
      else if ReadDiffs(body).Some? then Add(tsMs, ReadDiffs(body).value)
      else Unreadable
  {
    var body := DiffsText(diffs) + "}}";
    var number := IntText(tsMs) + (DELTA_MIDDLE + body);
    DeltaTextSplit(tsMs, diffs);
    HeadsDiffer(number, "", "");
    assert Strtoll(number) == Some((tsMs, DELTA_MIDDLE + body)) by {
      assert Peek(DELTA_MIDDLE + body) == ',';
      StrtollIntText(tsMs, DELTA_MIDDLE + body);
    }
    DeltaLine(number, tsMs, body);
  }

  lemma DeltaLine(number: string, tsMs: int, body: string)
    requires Strtoll(number) == Some((tsMs, DELTA_MIDDLE + body))
    ensures HasPrefix(DELTA_HEAD + number, DELTA_HEAD)
    ensures ReadDelta(DELTA_HEAD + number) ==
            if Peek(body) == '}' then Some(Add(tsMs, []))
            else if ReadDiffs(body).Some? then Some(Add(tsMs, ReadDiffs(body).value))
            else None
  {
    PrefixOf(DELTA_HEAD, number);
    PrefixOf(DELTA_MIDDLE, body);
  }

  lemma DeltaTextSplit(tsMs: int, diffs: seq<Metric>)
    ensures DeltaText(tsMs, diffs) == DELTA_HEAD + (IntText(tsMs) + (DELTA_MIDDLE + (DiffsText(diffs) + "}}")))
  {
    var ts, text := IntText(tsMs), DiffsText(diffs);
    Regroup(DELTA_HEAD + ts + DELTA_MIDDLE, text, "}}");
    Regroup(DELTA_HEAD + ts, DELTA_MIDDLE, text + "}}");
    Regroup(DELTA_HEAD, ts, DELTA_MIDDLE + (text + "}}"));
  }

  lemma BodyReads(diffs: seq<Metric>)
    requires forall d :: d in diffs ==> Raw(d.path) && InRange(d.value)
    ensures var body := DiffsText(diffs) + "}}";
      if diffs == [] then Peek(body) == '}' else Peek(body) == '"' && ReadDiffs(body) == Some(diffs)
  {
    if diffs != [] {
      assert "}}" == "}" + "}";
      DiffsRead(diffs, "}");
    }
  }

  lemma CheckpointReads(sample: string)
    requires FlatSample(sample).Some?
    ensures ReadRecord(CheckpointText(sample)) ==
            if HasMember(sample) then Load(FlatSample(sample).value.metrics) else Unreadable
  {
    CheckpointSplice(sample);
    HeadsDiffer("", sample[1..], "");
  }

  lemma RestartReads(id: Identity, reason: string)
    ensures ReadRecord(RestartText(id, reason)) == NoChange
  {
    var tail := IntText(id.tsMs) + ",\"process_id\":" + IntText(id.processId) +
      TextField("run_id", id.runId) + TextField("role", id.role) + TextField("reason", reason) + "}";
    assert RestartText(id, reason) == RESTART_HEAD + tail;
    HeadsDiffer("", "", tail);
  }

  // ----- replay -----------------------------------------------------------------------------------

  /** The values hold what the metrics say; they may hold more. */
  ghost predicate Agrees(values: Values, metrics: seq<Metric>) {
    forall m :: m in metrics ==> m.path in values && values[m.path] == m.value
  }

  lemma {:induction false} LoadedAgrees(metrics: seq<Metric>)
    requires Distinct(metrics)
    ensures Agrees(Loaded(metrics), metrics)
    ensures forall path :: path in Loaded(metrics) ==> Has(metrics, path)
  {
    if metrics != [] {
      var init, last := metrics[..|metrics| - 1], metrics[|metrics| - 1];
      LoadedAgrees(init);
      forall path | path in Loaded(metrics) ensures Has(metrics, path) {
        if path == last.path {
          assert metrics[|metrics| - 1].path == path;
        } else {
          var i :| 0 <= i < |init| && init[i].path == path;
          assert metrics[i].path == path;
        }
      }
    }
  }

  lemma {:induction false} AddedElsewhere(values: Values, diffs: seq<Metric>, path: string)
    requires !Has(diffs, path)
    ensures Current(Added(values, diffs), path) == Current(values, path)
    ensures path in Added(values, diffs) <==> path in values
    decreases diffs
  {
    if diffs != [] {
      assert diffs[0].path != path;
      AddedElsewhere(values[diffs[0].path := Current(values, diffs[0].path) + diffs[0].value], diffs[1..], path);
    }
  }

  lemma {:induction false} DiffPaths(metrics: seq<Metric>, table: seq<Metric>, path: string)
    requires Continues(metrics, table) && forall m :: m in metrics ==> m.path != path
    ensures !Has(Diffs(metrics, table), path)
  {
    if metrics != [] {
      assert metrics[0] in metrics;
      DiffPaths(metrics[1..], table, path);
    }
  }

  /** For every values the reader may hold and every counter of the sample: a delta moves the reader's
      value by just what the counter moved since the table. So the reader is right after the delta
      exactly when it held the table's value before; a difference that was lost on the way to the
      file stays missing in every delta after it. */
  lemma {:induction false} DiffsShift(values: Values, metrics: seq<Metric>, table: seq<Metric>, m: Metric)
    requires Distinct(metrics) && Clean(metrics) && Clean(table) && Continues(metrics, table) && m in metrics
    ensures var after := Current(Added(values, Diffs(metrics, table)), m.path);
      && after == Current(values, m.path) + m.value - Get(table, m.path).value
      && (after == m.value <==> Current(values, m.path) == Get(table, m.path).value)
    decreases metrics
  {
    var head, more := metrics[0], metrics[1..];
    assert head in metrics && metrics == [head] + more;
    var next := if DiffOf(head, table) == [] then values
      else values[head.path := Current(values, head.path) + DiffOf(head, table)[0].value];
    DistinctHead(metrics);
    OneDiffAdds(values, head, table, Diffs(more, table));
    if m in more {
      DiffsShift(next, more, table, m);
    } else {
      DiffPaths(more, table, head.path);
      AddedElsewhere(next, Diffs(more, table), head.path);
    }
  }

  /** So it is with the delta as it is written and read. */
  lemma DeltaShifts(st: DeltaState, flat: Flat, values: Values, m: Metric)
    requires Sound(flat) && Clean(flat.metrics) && Clean(st.table) && Continues(flat.metrics, st.table)
    requires m in flat.metrics
    ensures Current(ReadLine(DeltaText(flat.id.tsMs, Diffs(flat.metrics, st.table)), values), m.path) ==
            Current(values, m.path) + m.value - Get(st.table, m.path).value
  {
    DiffsInRange(flat.metrics, st.table);
    DeltaReads(flat.id.tsMs, Diffs(flat.metrics, st.table));
    DiffsShift(values, flat.metrics, st.table, m);
  }

  /** And a delta leaves alone what it has no counter for. */
  lemma DeltaSpares(st: DeltaState, flat: Flat, values: Values, path: string)
    requires Sound(flat) && Clean(flat.metrics) && Clean(st.table) && Continues(flat.metrics, st.table)
    requires !Has(flat.metrics, path)
    ensures var after := ReadLine(DeltaText(flat.id.tsMs, Diffs(flat.metrics, st.table)), values);
      (path in after <==> path in values) && (path in values ==> after[path] == values[path])
  {
    var diffs := Diffs(flat.metrics, st.table);
    DiffsInRange(flat.metrics, st.table);
    DeltaReads(flat.id.tsMs, diffs);
    forall m | m in flat.metrics ensures m.path != path {
      var i :| 0 <= i < |flat.metrics| && flat.metrics[i] == m;
      assert flat.metrics[i].path != path;
    }
    DiffPaths(flat.metrics, st.table, path);
    AddedElsewhere(values, diffs, path);
  }

  lemma OneDiffAdds(values: Values, m: Metric, table: seq<Metric>, rest: seq<Metric>)
    requires Get(table, m.path).Some? && Get(table, m.path).value <= m.value <= LLONG_MAX && Clean(table)
    ensures var next := if DiffOf(m, table) == [] then values
        else values[m.path := Current(values, m.path) + DiffOf(m, table)[0].value];
      && Added(values, DiffOf(m, table) + rest) == Added(next, rest)
      && Current(next, m.path) == Current(values, m.path) + m.value - Get(table, m.path).value
  {
    GetHas(table, m.path);
    assert 0 <= Get(table, m.path).value;
    if DiffOf(m, table) == [] {
      assert DiffOf(m, table) + rest == rest;
    } else {
      assert (DiffOf(m, table) + rest)[1..] == rest;
    }
  }

  /** For every step of the encoder on a sample of clean counters: reading what was written turns any
      values that hold the old table, or any values at all when a checkpoint is written, into values
      that hold every counter of the sample that found memory in the flattener, hence also the new
      table, however many of them found memory there. A checkpoint gives the other counters, too. */
  lemma EncodeReplays(st: DeltaState, interval: int, sample: string, mem: Memory, values: Values)
    requires Encode(st, interval, sample, mem).Some? && Clean(FlatSample(sample).value.metrics)
    requires EmitsDelta(st, interval, Seen(FlatSample(sample).value, mem)) ==>
               Agrees(values, st.table) && Clean(st.table)
    ensures var (next, encoded) := Encode(st, interval, sample, mem).value;
      var all, after := FlatSample(sample).value, ReadLine(encoded.record, values);
      && (encoded.event.Some? ==> ReadRecord(encoded.event.value) == NoChange)
      && Agrees(after, Seen(all, mem).metrics) && (encoded.checkpoint ==> Agrees(after, all.metrics))
      && Agrees(after, next.table) && Clean(next.table)
  {
    var all := FlatSample(sample).value;
    var flat := Seen(all, mem);
    FlatSampleSound(sample);
    SeenSound(all, mem);
    if EmitsDelta(st, interval, flat) {
      DeltaReplays(st, flat, values);
    } else {
      CheckpointGives(sample, values);
      if Boundary(st, interval, flat.id) {
        RestartReads(flat.id, Discontinuity(st.last, flat.id).value);
      }
    }
  }

  /** Reading a checkpoint gives every counter of its sample, whatever was known before. */
  lemma CheckpointGives(sample: string, values: Values)
    requires FlatSample(sample).Some?
    ensures Agrees(ReadLine(CheckpointText(sample), values), FlatSample(sample).value.metrics)
  {
    FlatSampleSound(sample);
    CheckpointReads(sample);
    LoadedAgrees(FlatSample(sample).value.metrics);
    if !HasMember(sample) {
      assert FlatSample(sample).value.metrics == [];
    }
  }

  /** For every delta on clean counters: the reader is right about the whole sample afterwards exactly
      when it already was about the counters that found no memory in the flattener. */
  lemma DroppedCounters(st: DeltaState, all: Flat, mem: Memory, values: Values)
    requires Sound(all) && Clean(all.metrics) && Agrees(values, st.table) && Clean(st.table)
    requires Continues(Seen(all, mem).metrics, st.table)
    ensures var seen := Seen(all, mem).metrics;
      var after := ReadLine(DeltaText(all.id.tsMs, Diffs(seen, st.table)), values);
      Agrees(after, all.metrics) <==>
      forall m :: m in all.metrics && !Has(seen, m.path) ==> m.path in values && values[m.path] == m.value
  {
    var seen := Seen(all, mem);
    SeenSound(all, mem);
    DeltaReplays(st, seen, values);
    var after := ReadLine(DeltaText(all.id.tsMs, Diffs(seen.metrics, st.table)), values);
    forall m | m in all.metrics && !Has(seen.metrics, m.path)
      ensures (m.path in after <==> m.path in values) && (m.path in values ==> after[m.path] == values[m.path])
    {
      DeltaSpares(st, seen, values, m.path);
    }
    forall m | m in all.metrics && Has(seen.metrics, m.path) ensures m in seen.metrics {
      PartValue(seen.metrics, all.metrics, m);
    }
  }

  lemma PartValue(part: seq<Metric>, all: seq<Metric>, m: Metric)
    requires IsPart(part, all) && Distinct(all) && m in all && Has(part, m.path)
    ensures m in part
  {
    var i :| 0 <= i < |part| && part[i].path == m.path;
    assert part[i] in all;
  }

  /** The values are counts a long long can hold. */
  ghost predicate Bounded(values: Values) {
    forall path :: path in values ==> 0 <= values[path] <= LLONG_MAX
  }

  lemma {:induction false} LoadedBounded(metrics: seq<Metric>)
    requires Clean(metrics)
    ensures Bounded(Loaded(metrics))
  {
    if metrics != [] {
      assert metrics[|metrics| - 1] in metrics;
      LoadedBounded(metrics[..|metrics| - 1]);
    }
  }

  /** And so is everything the reader holds then, counters that vanished from the samples included,
      and every difference that was written. */
  lemma EncodeBounded(st: DeltaState, interval: int, sample: string, mem: Memory, values: Values)
    requires FlatSample(sample).Some? && Clean(FlatSample(sample).value.metrics)
    requires EmitsDelta(st, interval, Seen(FlatSample(sample).value, mem)) ==>
               Agrees(values, st.table) && Clean(st.table) && Bounded(values)
    ensures var flat := Seen(FlatSample(sample).value, mem);
      var record := EncodeFlat(st, interval, sample, flat).record;
      Bounded(ReadLine(record, values)) && (EmitsDelta(st, interval, flat) ==> Counts(record, flat.id.tsMs))
  {
    var all := FlatSample(sample).value;
    var flat := Seen(all, mem);
    FlatSampleSound(sample);
    SeenSound(all, mem);
    if EmitsDelta(st, interval, flat) {
      DeltaCounts(st, flat);
      DeltaBounded(st, flat, values);
    } else {
      CheckpointReads(sample);
      LoadedBounded(all.metrics);
    }
  }

  /** The line reads as differences of 1..2^63-1 at the given time. */
  predicate Counts(line: string, tsMs: int) {
    && ReadRecord(line).Add? && ReadRecord(line).tsMs == tsMs
    && forall d :: d in ReadRecord(line).diffs ==> 0 < d.value <= LLONG_MAX
  }

  lemma DeltaCounts(st: DeltaState, flat: Flat)
    requires Sound(flat) && Clean(st.table) && Clean(flat.metrics) && Continues(flat.metrics, st.table)
    ensures Counts(DeltaText(flat.id.tsMs, Diffs(flat.metrics, st.table)), flat.id.tsMs)
  {
    DiffsInRange(flat.metrics, st.table);
    DeltaReads(flat.id.tsMs, Diffs(flat.metrics, st.table));
  }

  lemma DeltaBounded(st: DeltaState, flat: Flat, values: Values)
    requires Agrees(values, st.table) && Clean(st.table) && Bounded(values)
    requires Sound(flat) && Clean(flat.metrics) && Continues(flat.metrics, st.table)
    ensures Bounded(ReadLine(DeltaText(flat.id.tsMs, Diffs(flat.metrics, st.table)), values))
  {
    var diffs := Diffs(flat.metrics, st.table);
    DiffsInRange(flat.metrics, st.table);
    DeltaReads(flat.id.tsMs, diffs);
    var after := Added(values, diffs);
    forall path | path in after ensures 0 <= after[path] <= LLONG_MAX {
      if m :| m in flat.metrics && m.path == path {
        GetHas(st.table, path);
        DiffsShift(values, flat.metrics, st.table, m);
      } else {
        DiffPaths(flat.metrics, st.table, path);
        AddedElsewhere(values, diffs, path);
      }
    }
  }

  lemma DeltaReplays(st: DeltaState, flat: Flat, values: Values)
    requires Agrees(values, st.table) && Clean(st.table)
    requires Sound(flat) && Clean(flat.metrics) && InRange(flat.id.tsMs) && Continues(flat.metrics, st.table)
    ensures Agrees(ReadLine(DeltaText(flat.id.tsMs, Diffs(flat.metrics, st.table)), values), flat.metrics)
  {
    DiffsInRange(flat.metrics, st.table);
    DeltaReads(flat.id.tsMs, Diffs(flat.metrics, st.table));
    var after := Added(values, Diffs(flat.metrics, st.table));
    forall m | m in flat.metrics ensures m.path in after && after[m.path] == m.value {
      GetHas(st.table, m.path);
      DiffsShift(values, flat.metrics, st.table, m);
      AddedKeeps(values, Diffs(flat.metrics, st.table), m.path);
    }
  }

  lemma {:induction false} AddedKeeps(values: Values, diffs: seq<Metric>, path: string)
    requires path in values
    ensures path in Added(values, diffs)
    decreases diffs
  {
    if diffs != [] {
      AddedKeeps(values[diffs[0].path := Current(values, diffs[0].path) + diffs[0].value], diffs[1..], path);
    }
  }

  /** With clean counters on both sides no difference wraps around, and none is zero. */
  lemma {:induction false} DiffsInRange(metrics: seq<Metric>, table: seq<Metric>)
    requires Continues(metrics, table) && Clean(metrics) && Clean(table)
    ensures forall d :: d in Diffs(metrics, table) ==> Raw(d.path) && 0 < d.value <= LLONG_MAX
  {
    if metrics != [] {
      assert metrics[0] in metrics;
      OneDiffInRange(metrics[0], table);
      DiffsInRange(metrics[1..], table);
    }
  }

  lemma OneDiffInRange(m: Metric, table: seq<Metric>)
    requires Get(table, m.path).Some? && Get(table, m.path).value <= m.value <= LLONG_MAX
    requires Clean(table) && Raw(m.path)
    ensures forall d :: d in DiffOf(m, table) ==> d.path == m.path && 0 < d.value <= LLONG_MAX
  {
    GetHas(table, m.path);
    assert 0 <= Get(table, m.path).value;
  }

  // ----- paths that would need escaping --------------------------------------------------------------

  function Backslashes(s: string): nat {
    if Peek(s) == '\\' then 1 + Backslashes(s[1..]) else 0
  }

  /** Of the backslashes a literal starts with, at most half are left after decoding. */
  lemma {:induction false} DecodingHalves(s: string)
    ensures StringBody(s).Some? ==> 2 * Backslashes(StringBody(s).value.0) <= Backslashes(s)
  {
    if Peek(s) == '\\' && StringBody(s).Some? && s[1] == '\\' {
      var body := StringBody(s[2..]).value.0;
      assert ("\\" + body)[1..] == body && s[1..][1..] == s[2..];
      DecodingHalves(s[2..]);
    }
  }

  lemma {:induction false} BackslashesEnd(s: string, rest: string)
    ensures Backslashes(s + "\"" + rest) == Backslashes(s)
  {
    if s == "" {
      assert s + "\"" + rest == "\"" + rest;
    } else {
      assert (s + "\"" + rest)[1..] == s[1..] + "\"" + rest;
      BackslashesEnd(s[1..], rest);
    }
  }

  /** For every text put between quotes as it is, whatever follows: the scanner gives it back exactly
      when it needed no escaping. */
  lemma {:induction false} UnescapedScans(text: string, rest: string)
    ensures (StringBody(text + "\"" + rest).Some? && StringBody(text + "\"" + rest).value.0 == text) <==> Raw(text)
  {
    var s := text + "\"" + rest;
    if Raw(text) {
      RawString(text, rest);
    } else if text[0] == '\\' {
      DecodingHalves(s);
      BackslashesEnd(text, rest);
    } else if text[0] != '"' && text[0] != NUL {
      assert s[1..] == text[1..] + "\"" + rest;
      UnescapedScans(text[1..], rest);
      assert text == [text[0]] + text[1..];
      if StringBody(s[1..]).Some? {
        assert ([text[0]] + StringBody(s[1..]).value.0)[1..] == StringBody(s[1..]).value.0;
      }
    }
  }

  /** For every list of 64-bit differences: the delta line reads back as it was meant exactly when no
      path in it holds a quote or a backslash. */
  lemma DeltaReadsExactly(tsMs: int, diffs: seq<Metric>)
    requires InRange(tsMs) && forall d :: d in diffs ==> InRange(d.value)
    ensures ReadRecord(DeltaText(tsMs, diffs)) == Add(tsMs, diffs) <==> forall d :: d in diffs ==> Raw(d.path)
  {
    DeltaLineReads(tsMs, diffs);
    if forall d :: d in diffs ==> Raw(d.path) {
      BodyReads(diffs);
    } else {
      var body := DiffsText(diffs) + "}}";
      assert Peek(body) == '"';
      if ReadDiffs(body) == Some(diffs) {
        assert "}}" == "}" + "}";
        DiffsAreRaw(diffs, "}");
      }
    }
  }

  lemma {:induction false} DiffsAreRaw(diffs: seq<Metric>, rest: string)
    requires diffs != [] && forall d :: d in diffs ==> InRange(d.value)
    requires ReadDiffs(DiffsText(diffs) + ("}" + rest)) == Some(diffs)
    ensures forall d :: d in diffs ==> Raw(d.path)
    decreases diffs
  {
    var d, next := diffs[0], diffs[1..];
    assert d in diffs && diffs == [d] + next;
    var more := if next == [] then "}" + rest else "," + (DiffsText(next) + ("}" + rest));
    DiffsTextSplit(d, next, "}" + rest);
    FirstDiffIsRaw(d, more);
    OneDiffReads(d, more);
    if next != [] {
      assert more[1..] == DiffsText(next) + ("}" + rest);
      assert ReadDiffs(more[1..]).value == next;
      DiffsAreRaw(next, rest);
    }
  }

  lemma FirstDiffIsRaw(d: Metric, more: string)
    requires var r := ReadDiffs(DiffText(d) + more); r.Some? && r.value != [] && r.value[0].path == d.path
    ensures Raw(d.path)
  {
    var tail := ":" + (IntText(d.value) + more);
    DiffTextSplit(d, more);
    UnescapedScans(d.path, tail);
  }
}
