/** The delta encoder of src/delta.c: checkpoint, restart and checkpoint, or delta. */
module Encoder {
  import opened Wrappers
  import opened CText
  import opened Metrics
  import opened Flatten
  import opened FlatParser
  import opened Buffers

  /** What the encoder remembers from one sample to the next. */
  datatype DeltaState = DeltaState(
    table: seq<Metric>, last: Identity, needCheckpoint: bool, lastCheckpointMs: int)

  datatype Encoded = Encoded(record: string, event: Option<string>, checkpoint: bool)

  const INITIAL_STATE := DeltaState([], NO_IDENTITY, true, 0)

  /** ftdc_delta_reset_segment() */
  function Reset(st: DeltaState): DeltaState {
    st.(table := [], last := NO_IDENTITY, needCheckpoint := true)
  }

  // ----- the records ---------------------------------------------------------------------------

  const DELTA_HEAD := "{\"sample_kind\":\"delta\",\"ts_ms\":"
  const DELTA_MIDDLE := ",\"deltas\":{"
  const RESTART_HEAD := "{\"sample_kind\":\"restart\",\"ts_ms\":"

  /** A string field, printed as it is. */
  function TextField(name: string, text: string): string {
    ",\"" + name + "\":\"" + text + "\""
  }

  function RestartText(id: Identity, reason: string): string {
    RESTART_HEAD + IntText(id.tsMs) + ",\"process_id\":" + IntText(id.processId) +
    TextField("run_id", id.runId) + TextField("role", id.role) + TextField("reason", reason) + "}"
  }

  function DiffText(d: Metric): string {
    "\"" + d.path + "\":" + IntText(d.value)
  }

  function MoreDiffsText(diffs: seq<Metric>): string {
    if diffs == [] then "" else "," + DiffText(diffs[0]) + MoreDiffsText(diffs[1..])
  }

  function DiffsText(diffs: seq<Metric>): string {
    if diffs == [] then "" else DiffText(diffs[0]) + MoreDiffsText(diffs[1..])
  }

  /** The diffs still to be printed, with a comma before the first unless nothing came before it. */
  function PendingText(first: bool, diffs: seq<Metric>): string {
    if first then DiffsText(diffs) else MoreDiffsText(diffs)
  }

  lemma MoreDiffsStep(d: Metric, rest: seq<Metric>)
    ensures MoreDiffsText([d] + rest) == "," + DiffText(d) + MoreDiffsText(rest)
    ensures DiffsText([d] + rest) == DiffText(d) + MoreDiffsText(rest)
  {
    var all := [d] + rest;
    assert all[0] == d && all[1..] == rest;
  }

  lemma PendingAppends(before: string, first: bool, d: Metric, rest: seq<Metric>)
    ensures before + PendingText(first, [d] + rest) ==
            before + ((if first then "" else ",") + DiffText(d)) + PendingText(false, rest)
  {
    var text := if first then DiffText(d) else "," + DiffText(d);
    MoreDiffsStep(d, rest);
    Regroup(before, text, MoreDiffsText(rest));
    assert text == (if first then "" else ",") + DiffText(d);
  }

  function DeltaStart(tsMs: int): string {
    DELTA_HEAD + IntText(tsMs) + DELTA_MIDDLE
  }

  function DeltaText(tsMs: int, diffs: seq<Metric>): string {
    DeltaStart(tsMs) + DiffsText(diffs) + "}}"
  }

  // ----- the decision --------------------------------------------------------------------------

  /** Every metric was in the table before, with a value that is not larger. */
  predicate Continues(metrics: seq<Metric>, table: seq<Metric>) {
    forall m :: m in metrics ==> Get(table, m.path).Some? && Get(table, m.path).value <= m.value
  }

  /** What is written for a metric: its difference, taken in 64 bits, unless it is zero. */
  function DiffOf(m: Metric, table: seq<Metric>): seq<Metric>
    requires Get(table, m.path).Some?
  {
    var diff := Wrap(m.value - Get(table, m.path).value);
    if diff == 0 then [] else [Metric(m.path, diff)]
  }

  function Diffs(metrics: seq<Metric>, table: seq<Metric>): seq<Metric>
    requires Continues(metrics, table)
  {
    if metrics == [] then []
    else
      assert metrics[0] in metrics;
      DiffOf(metrics[0], table) + Diffs(metrics[1..], table)
  }

  lemma NoDiff(m: Metric, table: seq<Metric>, rest: seq<Metric>)
    requires Get(table, m.path).Some? && Wrap(m.value - Get(table, m.path).value) == 0
    ensures DiffOf(m, table) + rest == rest
  {
  }

  lemma OneDiff(m: Metric, table: seq<Metric>, rest: seq<Metric>)
    requires Get(table, m.path).Some? && Wrap(m.value - Get(table, m.path).value) != 0
    ensures DiffOf(m, table) + rest == [Metric(m.path, Wrap(m.value - Get(table, m.path).value))] + rest
  {
  }

  lemma DiffsNext(metrics: seq<Metric>, i: nat, table: seq<Metric>)
    requires i < |metrics| && Continues(metrics[i..], table)
    ensures Get(table, metrics[i].path).Some? && Continues(metrics[i + 1..], table)
    ensures Diffs(metrics[i..], table) == DiffOf(metrics[i], table) + Diffs(metrics[i + 1..], table)
  {
    var here := metrics[i..];
    assert here[0] in here && here[1..] == metrics[i + 1..];
    assert forall m :: m in here[1..] ==> m in here;
  }

  /** What is printed from metric `i` on. */
  function TextFrom(first: bool, metrics: seq<Metric>, i: nat, table: seq<Metric>): string
    requires i <= |metrics| && Continues(metrics[i..], table)
  {
    PendingText(first, Diffs(metrics[i..], table))
  }

  lemma TextStarts(before: string, metrics: seq<Metric>, table: seq<Metric>)
    requires Continues(metrics, table)
    ensures Continues(metrics[0..], table)
    ensures before + TextFrom(true, metrics, 0, table) == before + DiffsText(Diffs(metrics, table))
  {
    assert metrics[0..] == metrics;
  }

  lemma TextEnds(before: string, first: bool, metrics: seq<Metric>, table: seq<Metric>)
    ensures Continues(metrics[|metrics|..], table)
    ensures before + TextFrom(first, metrics, |metrics|, table) == before
  {
    assert TextFrom(first, metrics, |metrics|, table) == "";
  }

  /** discontinuity_reason() */
  function Discontinuity(previous: Identity, id: Identity): Option<string> {
    if !previous.valid then None
    else if previous.runId != id.runId then Some("run_id_changed")
    else if previous.processId != id.processId then Some("process_id_changed")
    else if id.uptime < previous.uptime then Some("uptime_decreased")
    else None
  }

  predicate Due(st: DeltaState, interval: int, tsMs: int) {
    interval > 0 && Wrap(tsMs - st.lastCheckpointMs) >= interval
  }

  predicate Forced(st: DeltaState, interval: int, id: Identity) {
    st.needCheckpoint || !st.last.valid || Due(st, interval, id.tsMs)
  }

  predicate Boundary(st: DeltaState, interval: int, id: Identity) {
    !Forced(st, interval, id) && Discontinuity(st.last, id).Some?
  }

  predicate EmitsDelta(st: DeltaState, interval: int, flat: Flat) {
    && !Forced(st, interval, flat.id)
    && Discontinuity(st.last, flat.id).None?
    && Continues(flat.metrics, st.table)
  }

  function EncodeFlat(st: DeltaState, interval: int, sample: string, flat: Flat): Encoded
    requires sample != ""
  {
    if EmitsDelta(st, interval, flat) then
      Encoded(DeltaText(flat.id.tsMs, Diffs(flat.metrics, st.table)), None, false)
    else
      Encoded(
        CheckpointText(sample),
        if Boundary(st, interval, flat.id)
        then Some(RestartText(flat.id, Discontinuity(st.last, flat.id).value)) else None,
        true)
  }

  /** The state after a sample of which the first `kept` metrics found memory. */
  function Advance(st: DeltaState, interval: int, flat: Flat, kept: nat): DeltaState {
    var table := if kept <= |flat.metrics| then flat.metrics[..kept] else flat.metrics;
    if EmitsDelta(st, interval, flat) then st.(table := table, last := flat.id)
    else DeltaState(table, flat.id, false, flat.id.tsMs)
  }

  /** What of a sample finds memory: its records (in snapshot mode, its copy), the counters the flattener keeps
      (all of them, or a part), and how many of those the table takes. */
  datatype Memory = Memory(built: bool, found: Option<seq<Metric>>, kept: nat)

  /** What the encoder sees of a sample. A counter that found no memory in the flattener is dropped. */
  function Seen(all: Flat, mem: Memory): Flat {
    if mem.found.Some? && IsPart(mem.found.value, all.metrics) then all.(metrics := mem.found.value) else all
  }

  lemma SeenSound(all: Flat, mem: Memory)
    requires Sound(all)
    ensures Sound(Seen(all, mem)) && IsPart(Seen(all, mem).metrics, all.metrics)
  {
  }

  /** ftdc_delta_encode_sample() in delta mode; None is VALKEYMODULE_ERR. */
  function Encode(st: DeltaState, interval: int, sample: string, mem: Memory): Option<(DeltaState, Encoded)> {
    var all :- FlatSample(sample);
    if !mem.built then None
    else Some((Advance(st, interval, Seen(all, mem), mem.kept), EncodeFlat(st, interval, sample, Seen(all, mem))))
  }

  // ----- the encoder in place --------------------------------------------------------------------

  class DeltaEncoder {
    const table: MetricTable
    var last: Identity
    var needCheckpoint: bool
    var lastCheckpointMs: int

    ghost predicate Valid()
      reads this, table
    {
      table.Valid()
    }

    ghost function State(): DeltaState
      reads this, table, table.items
      requires Valid()
    {
      DeltaState(table.Contents(), last, needCheckpoint, lastCheckpointMs)
    }

    constructor ()
      ensures Valid() && fresh(table) && fresh(table.items) && State() == INITIAL_STATE
    {
      table := new MetricTable();
      last := NO_IDENTITY;
      needCheckpoint := true;
      lastCheckpointMs := 0;
    }

    method MarkCheckpointRequired()
      requires Valid()
      modifies this
      ensures Valid() && State() == old(State()).(needCheckpoint := true)
    {
      needCheckpoint := true;
    }

    method ResetSegment()
      requires Valid()
      modifies this, table
      ensures Valid() && fresh(table.items) && State() == Reset(old(State()))
    {
      table.Release();
      last := NO_IDENTITY;
      needCheckpoint := true;
    }

    /** The loop that looks for a metric that is new or went down. */
    method CheckContinues(metrics: seq<Metric>) returns (ok: bool)
      requires Valid()
      ensures ok == Continues(metrics, table.Contents())
    {
      var i := 0;
      while i < |metrics|
        invariant i <= |metrics| && Continues(metrics[..i], table.Contents())
      {
        var previous := table.Lookup(metrics[i].path);
        if previous.None? || metrics[i].value < previous.value {
          assert metrics[i] in metrics;
          return false;
        }
        assert metrics[..i + 1] == metrics[..i] + [metrics[i]];
        i := i + 1;
      }
      assert metrics[..i] == metrics;
      return true;
    }

    /** build_delta_json() */
    method BuildDelta(tsMs: int, metrics: seq<Metric>) returns (text: string)
      requires Valid() && Continues(metrics, table.Contents())
      ensures text == DeltaText(tsMs, Diffs(metrics, table.Contents()))
    {
      var buf := new Buffer(256);
      var start := DeltaStart(tsMs);
      buf.Append(start);
      assert buf.Contents() == start;
      AppendDiffs(buf, metrics);
      buf.Append("}}");
      text := buf.data[..buf.len];
    }

    method AppendDiffs(buf: Buffer, metrics: seq<Metric>)
      requires Valid() && buf.Valid() && Continues(metrics, table.Contents())
      modifies buf, buf.data
      ensures buf.Valid() && (buf.data == old(buf.data) || fresh(buf.data))
      ensures buf.Contents() == old(buf.Contents()) + DiffsText(Diffs(metrics, table.Contents()))
    {
      var first, i := true, 0;
      ghost var items := table.Contents();
      ghost var whole := buf.Contents() + DiffsText(Diffs(metrics, items));
      TextStarts(buf.Contents(), metrics, items);
      while i < |metrics|
        invariant i <= |metrics| && Continues(metrics[i..], items)
        invariant buf.Valid() && (buf.data == old(buf.data) || fresh(buf.data))
        invariant buf.Contents() + TextFrom(first, metrics, i, items) == whole
      {
        first := AppendNextDiff(buf, first, metrics, i, items);
        i := i + 1;
      }
      TextEnds(buf.Contents(), first, metrics, items);
    }

    /** The body of the loop. */
    method AppendNextDiff(buf: Buffer, first: bool, metrics: seq<Metric>, i: nat, ghost items: seq<Metric>)
      returns (stillFirst: bool)
      requires Valid() && buf.Valid() && items == table.Contents() && i < |metrics| && Continues(metrics[i..], items)
      modifies buf, buf.data
      ensures buf.Valid() && (buf.data == old(buf.data) || fresh(buf.data))
      ensures Continues(metrics[i + 1..], items)
      ensures buf.Contents() + TextFrom(stillFirst, metrics, i + 1, items) ==
              old(buf.Contents()) + TextFrom(first, metrics, i, items)
    {
      DiffsNext(metrics, i, items);
      stillFirst := AppendDiff(buf, first, metrics[i], Diffs(metrics[i + 1..], items));
    }

    /** The difference of one metric, and whether the next would still be the first. */
    method AppendDiff(buf: Buffer, first: bool, m: Metric, ghost rest: seq<Metric>) returns (stillFirst: bool)
      requires Valid() && buf.Valid() && Get(table.Contents(), m.path).Some?
      modifies buf, buf.data
      ensures buf.Valid() && (buf.data == old(buf.data) || fresh(buf.data))
      ensures buf.Contents() + PendingText(stillFirst, rest) ==
              old(buf.Contents()) + PendingText(first, DiffOf(m, table.Contents()) + rest)
    {
      var previous := table.Lookup(m.path);
      var diff := Wrap(m.value - previous.value);
      if diff == 0 {
        NoDiff(m, table.Contents(), rest);
        return first;
      }
      OneDiff(m, table.Contents(), rest);
      AppendOneDiff(buf, first, Metric(m.path, diff), rest);
      return false;
    }

    method AppendOneDiff(buf: Buffer, first: bool, d: Metric, ghost rest: seq<Metric>)
      requires buf.Valid()
      modifies buf, buf.data
      ensures buf.Valid() && (buf.data == old(buf.data) || fresh(buf.data))
      ensures buf.Contents() + PendingText(false, rest) == old(buf.Contents()) + PendingText(first, [d] + rest)
    {
      PendingAppends(buf.Contents(), first, d, rest);
      buf.Append((if first then "" else ",") + DiffText(d));
    }

    /** Whether a checkpoint is due, and the restart record to write before it. */
    method Decide(flat: Flat, interval: int) returns (force: bool, event: Option<string>)
      requires Valid()
      ensures force == !EmitsDelta(State(), interval, flat)
      ensures event == if Boundary(State(), interval, flat.id)
                       then Some(RestartText(flat.id, Discontinuity(last, flat.id).value)) else None
    {
      force, event := needCheckpoint || !last.valid, None;
      if !force && interval > 0 && Wrap(flat.id.tsMs - lastCheckpointMs) >= interval {
        force := true;
      }
      if !force {
        var reason := Discontinuity(last, flat.id);
        if reason.Some? {
          event := Some(RestartText(flat.id, reason.value));
          force := true;
        }
      }
      if !force {
        var ok := CheckContinues(flat.metrics);
        force := !ok;
      }
    }

    /** ftdc_delta_encode_sample() in delta mode. `answers` is what realloc answers the flattener, `built`
        whether the records find memory, `growths` how often the table can grow after that. */
    method EncodeSample(sample: string, interval: int, answers: seq<bool>, built: bool, growths: nat)
      returns (encoded: Option<Encoded>, ghost mem: Memory)
      requires Valid()
      modifies this, table, table.items
      ensures Valid() && (table.items == old(table.items) || fresh(table.items))
      ensures Encode(old(State()), interval, sample, mem) ==
              if encoded.None? then None else Some((State(), encoded.value))
      ensures encoded.None? ==> State() == old(State())
      ensures encoded.None? <==> FlatSample(sample).None? || !built
      ensures mem.built == built
      ensures encoded.Some? ==>
                var all := FlatSample(sample).value;
                var seen := Seen(all, mem);
                && (Refusals(answers) == 0 ==> seen == all) && |all.metrics| <= |seen.metrics| + Refusals(answers)
                && mem.kept == Min(|seen.metrics|, Grown(old(table.items.Length), growths))
    {
      mem := Memory(built, None, 0);
      var parsed := ParseFlatSample(sample, answers);
      if parsed.None? || !built {
        return None, mem;
      }
      var flat := parsed.value;
      mem := Memory(built, Some(flat.metrics), 0);
      FlatSampleSound(sample);
      SeenSound(FlatSample(sample).value, mem);
      assert Seen(FlatSample(sample).value, mem) == flat;
      var force, event := Decide(flat, interval);
      var record, kept;
      if force {
        record := CheckpointText(sample);
        kept := table.ReplaceAll(flat.metrics, growths);
        lastCheckpointMs := flat.id.tsMs;
        needCheckpoint := false;
      } else {
        record := BuildDelta(flat.id.tsMs, flat.metrics);
        kept := table.ReplaceAll(flat.metrics, growths);
      }
      last := flat.id;
      mem := Memory(built, Some(flat.metrics), kept);
      encoded := Some(Encoded(record, event, force));
    }
  }
}
