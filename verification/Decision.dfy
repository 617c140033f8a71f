/** What an append in delta mode writes, sample by sample, without the functions the encoder decides with:
    when it is a delta, when a checkpoint, when a restart and a checkpoint, and their text. */
module Decision {
  import opened Wrappers
  import opened CText
  import opened Metrics
  import opened Flatten
  import opened Encoder
  import opened Writer
  import opened Runs
  import Limits

  // ----- the texts ------------------------------------------------------------------------------------------

  function CheckpointOf(sample: string): string
    requires sample != ""
  {
    "{\"sample_kind\":\"checkpoint\"," + sample[1..]
  }

  function RestartFor(id: Identity, reason: string): string {
    "{\"sample_kind\":\"restart\",\"ts_ms\":" + IntText(id.tsMs) + ",\"process_id\":" + IntText(id.processId) +
    ",\"run_id\":\"" + id.runId + "\",\"role\":\"" + id.role + "\",\"reason\":\"" + reason + "\"}"
  }

  /** The counters, and how much each moved, comma-separated. */
  function Listed(diffs: seq<Metric>): string {
    if diffs == [] then ""
    else if |diffs| == 1 then "\"" + diffs[0].path + "\":" + IntText(diffs[0].value)
    else Listed(diffs[..|diffs| - 1]) + ",\"" + diffs[|diffs| - 1].path + "\":" + IntText(diffs[|diffs| - 1].value)
  }

  function DeltaFor(id: Identity, diffs: seq<Metric>): string {
    "{\"sample_kind\":\"delta\",\"ts_ms\":" + IntText(id.tsMs) + ",\"deltas\":{" + Listed(diffs) + "}}"
  }

  lemma SampleNotEmpty(sample: string)
    requires FlatSample(sample).Some?
    ensures sample != ""
  {
  }

  lemma RestartLiteral(id: Identity, reason: string)
    ensures RestartText(id, reason) == RestartFor(id, reason)
  {
    var head :=
      "{\"sample_kind\":\"restart\",\"ts_ms\":" + IntText(id.tsMs) + ",\"process_id\":" + IntText(id.processId);
    FieldLiteral(head, "run_id", ",\"run_id\":\"", id.runId);
    var withRun := head + ",\"run_id\":\"" + id.runId;
    FieldLiteral(withRun + "\"", "role", ",\"role\":\"", id.role);
    CloseField(withRun, ",\"role\":\"", "\",\"role\":\"", id.role);
    var withRole := withRun + "\",\"role\":\"" + id.role;
    FieldLiteral(withRole + "\"", "reason", ",\"reason\":\"", reason);
    CloseField(withRole, ",\"reason\":\"", "\",\"reason\":\"", reason);
    Regroup(withRole + "\",\"reason\":\"" + reason, "\"", "}");
  }

  lemma FieldLiteral(head: string, name: string, opening: string, text: string)
    requires opening == ",\"" + name + "\":\""
    ensures head + TextField(name, text) == head + opening + text + "\""
  {
    Regroup(opening, text, "\"");
    Regroup(head, opening, text + "\"");
    Regroup(head + opening, text, "\"");
  }

  lemma CloseField(head: string, opening: string, closed: string, text: string)
    requires closed == "\"" + opening
    ensures head + "\"" + opening + text == head + closed + text
  {
    Regroup(head, "\"", opening);
  }

  lemma {:induction false} ListedLiteral(diffs: seq<Metric>)
    ensures DiffsText(diffs) == Listed(diffs)
  {
    if |diffs| == 1 {
      OneListed(diffs[0]);
      assert diffs == [diffs[0]];
    } else if |diffs| > 1 {
      var init, last := diffs[..|diffs| - 1], diffs[|diffs| - 1];
      assert diffs == init + [last];
      ListedLiteral(init);
      DiffsTextSnoc(init, last);
      Regroup(Listed(init), ",\"", last.path);
      assert "," + "\"" == ",\"";
      SnocLiteral(Listed(init), last);
    }
  }

  lemma OneListed(d: Metric)
    ensures DiffsText([d]) == "\"" + d.path + "\":" + IntText(d.value)
  {
    assert [d][1..] == [];
    assert DiffText(d) + "" == DiffText(d);
  }

  lemma SnocLiteral(before: string, d: Metric)
    ensures before + ("," + DiffText(d)) == before + ",\"" + d.path + "\":" + IntText(d.value)
  {
    Regroup("\"" + d.path, "\":", IntText(d.value));
    Regroup("\"", d.path, "\":" + IntText(d.value));
    Regroup(",", "\"", d.path + ("\":" + IntText(d.value)));
    assert "," + "\"" == ",\"";
    Regroup(before, ",\"", d.path + ("\":" + IntText(d.value)));
    Regroup(before + ",\"", d.path, "\":" + IntText(d.value));
    Regroup(before + ",\"" + d.path, "\":", IntText(d.value));
  }

  lemma {:induction false} MoreSnoc(diffs: seq<Metric>, d: Metric)
    ensures MoreDiffsText(diffs + [d]) == MoreDiffsText(diffs) + ("," + DiffText(d))
  {
    if diffs == [] {
      assert diffs + [d] == [d] + [];
      MoreDiffsStep(d, []);
    } else {
      assert diffs == [diffs[0]] + diffs[1..] && diffs + [d] == [diffs[0]] + (diffs[1..] + [d]);
      MoreDiffsStep(diffs[0], diffs[1..] + [d]);
      MoreSnoc(diffs[1..], d);
      Regroup("," + DiffText(diffs[0]), MoreDiffsText(diffs[1..]), "," + DiffText(d));
    }
  }

  lemma DiffsTextSnoc(diffs: seq<Metric>, d: Metric)
    requires diffs != []
    ensures DiffsText(diffs + [d]) == DiffsText(diffs) + ("," + DiffText(d))
  {
    assert diffs == [diffs[0]] + diffs[1..] && diffs + [d] == [diffs[0]] + (diffs[1..] + [d]);
    MoreDiffsStep(diffs[0], diffs[1..] + [d]);
    MoreDiffsStep(diffs[0], diffs[1..]);
    MoreSnoc(diffs[1..], d);
    Regroup(DiffText(diffs[0]), MoreDiffsText(diffs[1..]), "," + DiffText(d));
  }

  lemma DeltaLiteral(id: Identity, diffs: seq<Metric>)
    ensures DeltaText(id.tsMs, diffs) == DeltaFor(id, diffs)
  {
    ListedLiteral(diffs);
  }

  // ----- the differences ------------------------------------------------------------------------------------

  /** Every counter is among the old ones, with a value that is not smaller. */
  predicate Covered(before: seq<Metric>, counters: seq<Metric>) {
    forall m :: m in counters ==> exists p :: p in before && p.path == m.path && p.value <= m.value
  }

  /** By how much the counter moved from an old value, in 64 bits, if it moved. */
  predicate Moved(d: Metric, before: seq<Metric>, counters: seq<Metric>) {
    d.value != 0 && exists m, p :: m in counters && p in before && Between(d, p, m)
  }

  predicate Between(d: Metric, p: Metric, m: Metric) {
    m.path == p.path == d.path && d.value == Wrap(m.value - p.value)
  }

  predicate OneBeforeOther(path: string, other: string, counters: seq<Metric>) {
    exists a, b :: 0 <= a < b < |counters| && counters[a].path == path && counters[b].path == other
  }

  /** Just the counters that moved, in the order of the sample. */
  ghost predicate Differences(diffs: seq<Metric>, before: seq<Metric>, counters: seq<Metric>) {
    && (forall d :: d in diffs <==> Moved(d, before, counters))
    && (forall i, j :: 0 <= i < j < |diffs| ==> OneBeforeOther(diffs[i].path, diffs[j].path, counters))
  }

  lemma OldValue(before: seq<Metric>, p: Metric)
    requires Distinct(before) && p in before
    ensures Get(before, p.path) == Some(p.value)
  {
    var i :| 0 <= i < |before| && before[i] == p;
    GetAt(before, i);
  }

  lemma CoveredContinues(before: seq<Metric>, counters: seq<Metric>)
    requires Distinct(before)
    ensures Covered(before, counters) <==> Continues(counters, before)
  {
    forall m | m in counters
      ensures (exists p :: p in before && p.path == m.path && p.value <= m.value) <==>
              Get(before, m.path).Some? && Get(before, m.path).value <= m.value
    {
      GetHas(before, m.path);
      forall p | p in before && p.path == m.path ensures Get(before, m.path) == Some(p.value) {
        OldValue(before, p);
      }
    }
  }

  lemma DiffOfMoved(m: Metric, before: seq<Metric>, d: Metric)
    requires Distinct(before) && Get(before, m.path).Some?
    ensures d in DiffOf(m, before) <==> Moved(d, before, [m])
  {
    GetHas(before, m.path);
    var p := Metric(m.path, Get(before, m.path).value);
    if d in DiffOf(m, before) {
      assert m in [m] && p in before && Between(d, p, m);
    }
    if Moved(d, before, [m]) {
      var x, q :| x in [m] && q in before && Between(d, q, x);
      OldValue(before, q);
    }
  }

  lemma MovedConcat(d: Metric, before: seq<Metric>, m: Metric, more: seq<Metric>)
    ensures Moved(d, before, [m] + more) <==> Moved(d, before, [m]) || Moved(d, before, more)
  {
    assert forall x :: x in [m] + more <==> x in [m] || x in more;
  }

  lemma OrderConcat(first: seq<Metric>, others: seq<Metric>, m: Metric, more: seq<Metric>)
    requires |first| <= 1 && forall d :: d in first ==> d.path == m.path
    requires forall d :: d in others ==> exists k :: 0 <= k < |more| && more[k].path == d.path
    requires forall i, j :: 0 <= i < j < |others| ==> OneBeforeOther(others[i].path, others[j].path, more)
    ensures var all := first + others;
      forall i, j :: 0 <= i < j < |all| ==> OneBeforeOther(all[i].path, all[j].path, [m] + more)
  {
    var all, metrics := first + others, [m] + more;
    forall i, j | 0 <= i < j < |all| ensures OneBeforeOther(all[i].path, all[j].path, metrics) {
      assert all[j] == others[j - |first|];
      if i < |first| {
        var k :| 0 <= k < |more| && more[k].path == all[j].path;
        assert metrics[0].path == all[i].path && metrics[k + 1].path == all[j].path;
      } else {
        assert all[i] == others[i - |first|];
        var a, b :| 0 <= a < b < |more| && more[a].path == all[i].path && more[b].path == all[j].path;
        assert metrics[a + 1].path == all[i].path && metrics[b + 1].path == all[j].path;
      }
    }
  }

  /** For every table and sample a delta can be written for: what is written are just the differences. */
  lemma {:induction false} DiffsMoved(counters: seq<Metric>, before: seq<Metric>)
    requires Distinct(before) && Continues(counters, before)
    ensures Differences(Diffs(counters, before), before, counters)
  {
    if counters != [] {
      var m, more := counters[0], counters[1..];
      assert counters == [m] + more && m in counters;
      DiffsMoved(more, before);
      forall d ensures d in Diffs(counters, before) <==> Moved(d, before, counters) {
        DiffOfMoved(m, before, d);
        MovedConcat(d, before, m, more);
      }
      forall d | d in Diffs(more, before) ensures exists k :: 0 <= k < |more| && more[k].path == d.path {
        assert Moved(d, before, more);
      }
      OrderConcat(DiffOf(m, before), Diffs(more, before), m, more);
    }
  }

  // ----- what is written --------------------------------------------------------------------------------------

  /** No rotation is asked for, and every write and flush works. */
  predicate Plainly(w: State, sample: string, e: AppendEnv) {
    Stays(w, sample, e) && e.eventWrite.Whole? && e.recordWrite.Whole? && e.flushed
  }

  /** No rotation is asked for; whatever the writes and flushes do. */
  predicate Stays(w: State, sample: string, e: AppendEnv) {
    && w.open
    && (w.cfg.maxFileBytes > 0 ==> w.bytes + |sample| + 1 < w.cfg.maxFileBytes)
    && (w.cfg.rotationIntervalSec > 0 ==> e.now - w.openedMs < w.cfg.rotationIntervalSec * 1000)
  }

  /** What is written of a sample: its record, and a restart before it if there is a reason. */
  ghost predicate Writes(added: Log, sample: string, all: Flat, seen: seq<Metric>, reason: Option<string>, ms: int)
    requires sample != ""
  {
    var checkpoint := Line(Checkpoint, CheckpointOf(sample), all, seen, ms);
    added ==
    if reason.None? then [checkpoint] else [Line(Restart, RestartFor(all.id, reason.value), all, seen, ms), checkpoint]
  }

  /** A delta: the record of the differences. */
  ghost predicate WritesDelta(added: Log, all: Flat, seen: seq<Metric>, table: seq<Metric>, ms: int) {
    exists diffs ::
      Differences(diffs, table, seen) && added == [Line(Delta, DeltaFor(all.id, diffs), all, seen, ms)]
  }

  lemma CheckpointWritten(w: State, sample: string, mem: Memory, e: AppendEnv)
    requires w.cfg.deltaMetrics && Plainly(w, sample, e) && FlatSample(sample).Some? && mem.built
    requires !GetsDelta(w.enc, w.cfg.checkpointIntervalMs, sample, mem)
    ensures var all, ms := FlatSample(sample).value, w.cfg.checkpointIntervalMs;
      var reason := if Boundary(w.enc, ms, all.id) then Discontinuity(w.enc.last, all.id) else None;
      var added := Limits.Recorded(w, sample, mem, e);
      sample != "" && Writes(added, sample, all, Seen(all, mem).metrics, reason, ms)
  {
    SampleNotEmpty(sample);
    var all, ms := FlatSample(sample).value, w.cfg.checkpointIntervalMs;
    if Boundary(w.enc, ms, all.id) {
      RestartLiteral(all.id, Discontinuity(w.enc.last, all.id).value);
    }
  }

  lemma DeltaWritten(w: State, sample: string, mem: Memory, e: AppendEnv)
    requires w.cfg.deltaMetrics && Plainly(w, sample, e) && FlatSample(sample).Some? && mem.built
    requires GetsDelta(w.enc, w.cfg.checkpointIntervalMs, sample, mem) && Distinct(w.enc.table)
    ensures var all, ms := FlatSample(sample).value, w.cfg.checkpointIntervalMs;
      WritesDelta(Limits.Recorded(w, sample, mem, e), all, Seen(all, mem).metrics, w.enc.table, ms)
  {
    var all := FlatSample(sample).value;
    var diffs := Diffs(Seen(all, mem).metrics, w.enc.table);
    SampleNotEmpty(sample);
    DiffsMoved(Seen(all, mem).metrics, w.enc.table);
    DeltaLiteral(all.id, diffs);
  }

  /** A checkpoint is asked for: none was written yet in this file or since a reset, nothing is known of the
      process, or the last one is as old as the interval. */
  predicate Asked(w: State, tsMs: int) {
    || Pending(w.log) || !w.enc.last.valid
    || (w.cfg.checkpointIntervalMs > 0 && Wrap(tsMs - w.enc.lastCheckpointMs) >= w.cfg.checkpointIntervalMs)
  }

  predicate Restarted(last: Identity, id: Identity) {
    last.runId != id.runId || last.processId != id.processId || id.uptime < last.uptime
  }

  /** What of a sample is written, given what was asked for. */
  ghost predicate Decided(added: Log, asked: bool, enc: DeltaState, sample: string, all: Flat, seen: seq<Metric>,
                          ms: int)
    requires sample != ""
  {
    var id, last := all.id, enc.last;
    if asked then Writes(added, sample, all, seen, None, ms)
    else if last.runId != id.runId then Writes(added, sample, all, seen, Some("run_id_changed"), ms)
    else if last.processId != id.processId then Writes(added, sample, all, seen, Some("process_id_changed"), ms)
    else if id.uptime < last.uptime then Writes(added, sample, all, seen, Some("uptime_decreased"), ms)
    else if Covered(enc.table, seen) then WritesDelta(added, all, seen, enc.table, ms)
    else Writes(added, sample, all, seen, None, ms)
  }

  /** What the encoder knows after a sample. */
  predicate Knows(after: DeltaState, asked: bool, enc: DeltaState, all: Flat, seen: seq<Metric>, kept: nat) {
    && after.last == all.id && !after.needCheckpoint && after.table == seen[..Min(|seen|, kept)]
    && after.lastCheckpointMs ==
       if !asked && !Restarted(enc.last, all.id) && Covered(enc.table, seen) then enc.lastCheckpointMs else all.id.tsMs
  }

  lemma Choice(enc: DeltaState, ms: int, flat: Flat)
    requires Distinct(enc.table)
    ensures var late := ms > 0 && Wrap(flat.id.tsMs - enc.lastCheckpointMs) >= ms;
      var asked := enc.needCheckpoint || !enc.last.valid || late;
      && (EmitsDelta(enc, ms, flat) <==> !asked && !Restarted(enc.last, flat.id) && Covered(enc.table, flat.metrics))
      && (Boundary(enc, ms, flat.id) <==> !asked && Restarted(enc.last, flat.id))
      && (!asked && Restarted(enc.last, flat.id) ==>
            Discontinuity(enc.last, flat.id) ==
            if enc.last.runId != flat.id.runId then Some("run_id_changed")
            else if enc.last.processId != flat.id.processId then Some("process_id_changed")
            else Some("uptime_decreased"))
  {
    CoveredContinues(enc.table, flat.metrics);
  }

  lemma Chosen(w: State, sample: string, mem: Memory, e: AppendEnv)
    requires Tied(w.enc, w.log) && w.cfg.deltaMetrics && Plainly(w, sample, e) && FlatSample(sample).Some? && mem.built
    ensures sample != ""
    ensures var added, all := Limits.Recorded(w, sample, mem, e), FlatSample(sample).value;
      var seen, ms := Seen(all, mem).metrics, w.cfg.checkpointIntervalMs;
      Decided(added, Asked(w, all.id.tsMs), w.enc, sample, all, seen, ms)
  {
    var all, ms := FlatSample(sample).value, w.cfg.checkpointIntervalMs;
    var added, seen, asked := Limits.Recorded(w, sample, mem, e), Seen(all, mem).metrics, Asked(w, all.id.tsMs);
    SampleNotEmpty(sample);
    Choice(w.enc, ms, Seen(all, mem));
    if GetsDelta(w.enc, ms, sample, mem) {
      DeltaWritten(w, sample, mem, e);
      DecidedDelta(added, asked, w.enc, sample, all, seen, ms);
    } else {
      CheckpointWritten(w, sample, mem, e);
      DecidedOther(added, asked, w.enc, sample, all, seen, ms,
                   if Boundary(w.enc, ms, all.id) then Discontinuity(w.enc.last, all.id) else None);
    }
  }

  lemma DecidedDelta(added: Log, asked: bool, enc: DeltaState, sample: string, all: Flat, seen: seq<Metric>, ms: int)
    requires sample != "" && !asked && !Restarted(enc.last, all.id) && Covered(enc.table, seen)
    requires WritesDelta(added, all, seen, enc.table, ms)
    ensures Decided(added, asked, enc, sample, all, seen, ms)
  {
  }

  lemma DecidedOther(added: Log, asked: bool, enc: DeltaState, sample: string, all: Flat, seen: seq<Metric>, ms: int,
                     reason: Option<string>)
    requires sample != "" && Writes(added, sample, all, seen, reason, ms)
    requires asked || Restarted(enc.last, all.id) || !Covered(enc.table, seen)
    requires asked || !Restarted(enc.last, all.id) ==> reason == None
    requires !asked && Restarted(enc.last, all.id) ==>
               reason == if enc.last.runId != all.id.runId then Some("run_id_changed")
                         else if enc.last.processId != all.id.processId then Some("process_id_changed")
                         else Some("uptime_decreased")
    ensures Decided(added, asked, enc, sample, all, seen, ms)
  {
  }

  lemma KnowsAfter(w: State, sample: string, mem: Memory)
    requires Tied(w.enc, w.log) && FlatSample(sample).Some?
    ensures var all := FlatSample(sample).value;
      Knows(After(w.enc, w.cfg.checkpointIntervalMs, sample, mem), Asked(w, all.id.tsMs), w.enc, all,
            Seen(all, mem).metrics, mem.kept)
  {
    Choice(w.enc, w.cfg.checkpointIntervalMs, Seen(FlatSample(sample).value, mem));
  }

  /** In every reachable state, for every sample that is appended in delta mode with no rotation and no
      failure. If a checkpoint is asked for, it is written. Otherwise, if the sample is of another process
      than the one before, a restart with the reason and a checkpoint are. Otherwise, if every counter was
      there before and did not go down, a delta is, and it holds just what moved; if not, a checkpoint is.
      The encoder then has the sample's identity and the counters its table took, nothing is pending, and the
      time of the last checkpoint has moved exactly with a checkpoint. */
  lemma WhatIsWritten(w: State, sample: string, mem: Memory, e: AppendEnv)
    requires Reachable(w) && w.cfg.deltaMetrics && Plainly(w, sample, e) && FlatSample(sample).Some? && mem.built
    ensures sample != "" && w.log <= Append(w, sample, mem, e).log
    ensures var after, all := Append(w, sample, mem, e), FlatSample(sample).value;
      var asked, seen := Asked(w, all.id.tsMs), Seen(all, mem).metrics;
      && Decided(after.log[|w.log|..], asked, w.enc, sample, all, seen, w.cfg.checkpointIntervalMs)
      && Knows(after.enc, asked, w.enc, all, seen, mem.kept)
  {
    ReachableTied(w);
    AppendWrites(w, sample, mem, e);
  }

  lemma ReachableTied(w: State)
    requires Reachable(w)
    ensures Tied(w.enc, w.log)
  {
    ReachableGood(w);
  }

  lemma AppendWrites(w: State, sample: string, mem: Memory, e: AppendEnv)
    requires Tied(w.enc, w.log)
    requires w.cfg.deltaMetrics && Plainly(w, sample, e) && FlatSample(sample).Some? && mem.built
    ensures sample != "" && w.log <= Append(w, sample, mem, e).log
    ensures var after, all := Append(w, sample, mem, e), FlatSample(sample).value;
      var asked, seen := Asked(w, all.id.tsMs), Seen(all, mem).metrics;
      && Decided(after.log[|w.log|..], asked, w.enc, sample, all, seen, w.cfg.checkpointIntervalMs)
      && Knows(after.enc, asked, w.enc, all, seen, mem.kept)
  {
    Limits.AppendsRecords(w, sample, mem, e);
    Chosen(w, sample, mem, e);
    KnowsAfter(w, sample, mem);
  }

  /** The encoder goes on as if its records had been written, whatever the writes and flushes do. */
  lemma EncoderGoesOn(w: State, sample: string, mem: Memory, e: AppendEnv)
    requires Reachable(w) && w.cfg.deltaMetrics && Stays(w, sample, e) && FlatSample(sample).Some? && mem.built
    ensures var after, all := Append(w, sample, mem, e), FlatSample(sample).value;
      Knows(after.enc, Asked(w, all.id.tsMs), w.enc, all, Seen(all, mem).metrics, mem.kept)
  {
    ReachableTied(w);
    EncoderAfter(w, sample, mem, e);
  }

  lemma EncoderAfter(w: State, sample: string, mem: Memory, e: AppendEnv)
    requires Tied(w.enc, w.log)
    requires w.cfg.deltaMetrics && Stays(w, sample, e) && FlatSample(sample).Some? && mem.built
    ensures var after, all := Append(w, sample, mem, e), FlatSample(sample).value;
      Knows(after.enc, Asked(w, all.id.tsMs), w.enc, all, Seen(all, mem).metrics, mem.kept)
  {
    Limits.AppendsRecords(w, sample, mem, e);
    KnowsAfter(w, sample, mem);
  }

  /** The steady case, told by the log alone. The log ends in a checkpoint or delta of the same process, all of
      whose counters the table took; no counter is new or went down; the last checkpoint on disk is younger
      than the interval. Then one delta is written, and nothing else. */
  lemma SteadyDelta(w: State, sample: string, mem: Memory, e: AppendEnv, a: Event)
    requires Reachable(w) && w.cfg.deltaMetrics && Plainly(w, sample, e) && FlatSample(sample).Some? && mem.built
    requires w.log != [] && a == w.log[|w.log| - 1] && a.Line? && (a.kind == Checkpoint || a.kind == Delta)
    requires var all, ms := FlatSample(sample).value, w.cfg.checkpointIntervalMs;
      && a.flat.id.valid && all.id.runId == a.flat.id.runId && all.id.processId == a.flat.id.processId
      && all.id.uptime >= a.flat.id.uptime
      && w.enc.table == a.seen && Covered(a.seen, Seen(all, mem).metrics)
      && Segment(w.log).Written? && (ms <= 0 || Wrap(all.id.tsMs - Segment(w.log).tsMs) < ms)
    ensures w.log <= Append(w, sample, mem, e).log
    ensures var all := FlatSample(sample).value;
      WritesDelta(
        Append(w, sample, mem, e).log[|w.log|..], all, Seen(all, mem).metrics, a.seen, w.cfg.checkpointIntervalMs)
  {
    ReachableTied(w);
    SteadyFrom(w, sample, mem, e, a);
  }

  lemma SteadyFrom(w: State, sample: string, mem: Memory, e: AppendEnv, a: Event)
    requires Tied(w.enc, w.log)
    requires w.cfg.deltaMetrics && Plainly(w, sample, e) && FlatSample(sample).Some? && mem.built
    requires w.log != [] && a == w.log[|w.log| - 1] && IsAnchor(a) && a.flat.id.valid && w.enc.table == a.seen
    requires Segment(w.log).Written? && Covered(a.seen, Seen(FlatSample(sample).value, mem).metrics)
    requires var id, ms := FlatSample(sample).value.id, w.cfg.checkpointIntervalMs;
      !Restarted(a.flat.id, id) && (ms <= 0 || Wrap(id.tsMs - Segment(w.log).tsMs) < ms)
    ensures w.log <= Append(w, sample, mem, e).log
    ensures var all := FlatSample(sample).value;
      WritesDelta(
        Append(w, sample, mem, e).log[|w.log|..], all, Seen(all, mem).metrics, a.seen, w.cfg.checkpointIntervalMs)
  {
    var all := FlatSample(sample).value;
    AfterAnchor(w.enc, w.log, a);
    NotAsked(w, a.flat.id, all.id.tsMs, Segment(w.log).tsMs);
    AppendsDelta(w, sample, mem, e, all);
  }

  lemma NotAsked(w: State, id: Identity, tsMs: int, checkpointMs: int)
    requires id.valid && w.enc.last == id && !Pending(w.log) && w.enc.lastCheckpointMs == checkpointMs
    requires w.cfg.checkpointIntervalMs <= 0 || Wrap(tsMs - checkpointMs) < w.cfg.checkpointIntervalMs
    ensures !Asked(w, tsMs)
  {
  }

  lemma AppendsDelta(w: State, sample: string, mem: Memory, e: AppendEnv, all: Flat)
    requires Tied(w.enc, w.log)
    requires w.cfg.deltaMetrics && Plainly(w, sample, e) && FlatSample(sample) == Some(all) && mem.built
    requires !Asked(w, all.id.tsMs) && !Restarted(w.enc.last, all.id) && Covered(w.enc.table, Seen(all, mem).metrics)
    ensures w.log <= Append(w, sample, mem, e).log
    ensures WritesDelta(Append(w, sample, mem, e).log[|w.log|..], all, Seen(all, mem).metrics, w.enc.table,
                        w.cfg.checkpointIntervalMs)
  {
    Limits.AppendsRecords(w, sample, mem, e);
    Choice(w.enc, w.cfg.checkpointIntervalMs, Seen(all, mem));
    DeltaWritten(w, sample, mem, e);
  }

  lemma AfterAnchor(enc: DeltaState, log: Log, a: Event)
    requires Tied(enc, log) && log != [] && a == log[|log| - 1] && IsAnchor(a)
    ensures enc.last == a.flat.id && !Pending(log)
    ensures Segment(log).Written? ==> enc.lastCheckpointMs == Segment(log).tsMs
  {
  }

  // ----- the cadence -----------------------------------------------------------------------------------------

  /** One sample of a steady run: it is appended plainly, finds memory throughout, and is of a known process. */
  predicate Regular(w: State, op: Op) {
    && op.DoAppend? && w.cfg.deltaMetrics && Plainly(w, op.sample, op.env)
    && op.mem.built && op.mem.found.None?
    && FlatSample(op.sample).Some? && FlatSample(op.sample).value.id.valid
    && op.mem.kept >= |FlatSample(op.sample).value.metrics|
  }

  /** The later sample is of the same process, and no counter is new or went down. */
  predicate GoesOn(op: Op, next: Op)
    requires op.DoAppend? && next.DoAppend? && FlatSample(op.sample).Some? && FlatSample(next.sample).Some?
  {
    var a, b := FlatSample(op.sample).value, FlatSample(next.sample).value;
    && b.id.runId == a.id.runId && b.id.processId == a.id.processId && b.id.uptime >= a.id.uptime
    && Covered(a.metrics, b.metrics)
  }

  predicate Steady(w: State, ops: seq<Op>) {
    ops == [] ||
    var init, op := ops[..|ops| - 1], ops[|ops| - 1];
    && Steady(w, init) && Regular(Run(w, init), op)
    && (init != [] ==> GoesOn(init[|init| - 1], op))
  }

  function TimeOf(op: Op): int {
    if op.DoAppend? && FlatSample(op.sample).Some? then FlatSample(op.sample).value.id.tsMs else 0
  }

  function Times(ops: seq<Op>): seq<int> {
    if ops == [] then [] else Times(ops[..|ops| - 1]) + [TimeOf(ops[|ops| - 1])]
  }

  /** The time of the last checkpoint: the first sample gets one, then each that is as old as the interval. */
  function LastCheckpoint(times: seq<int>, ms: int): int
    decreases |times|, 0
  {
    if times == [] then 0
    else if GetsCheckpoint(times[..|times| - 1], times[|times| - 1], ms) then times[|times| - 1]
    else LastCheckpoint(times[..|times| - 1], ms)
  }

  predicate GetsCheckpoint(before: seq<int>, tsMs: int, ms: int)
    decreases |before|, 1
  {
    before == [] || (ms > 0 && Wrap(tsMs - LastCheckpoint(before, ms)) >= ms)
  }

  /** The kinds of the records. */
  function Kinds(times: seq<int>, ms: int): seq<Kind> {
    if times == [] then []
    else
      var before, tsMs := times[..|times| - 1], times[|times| - 1];
      Kinds(before, ms) + [if GetsCheckpoint(before, tsMs, ms) then Checkpoint else Delta]
  }

  function KindsOf(lines: Log): seq<Kind>
    requires forall e :: e in lines ==> e.Line?
  {
    if lines == [] then [] else KindsOf(lines[..|lines| - 1]) + [lines[|lines| - 1].kind]
  }

  ghost predicate Adds(w: State, after: State, kinds: seq<Kind>) {
    && w.log <= after.log && after.cfg == w.cfg
    && (forall e :: e in after.log[|w.log|..] ==> e.Line?) && KindsOf(after.log[|w.log|..]) == kinds
  }

  /** Over every steady run from the opening of a file: each sample adds one line; the first is a checkpoint,
      and each later one a checkpoint exactly when the interval has passed since the last, else a delta. */
  lemma Cadence(w: State, ops: seq<Op>)
    requires Reachable(w) && Pending(w.log) && Steady(w, ops)
    ensures Adds(w, Run(w, ops), Kinds(Times(ops), w.cfg.checkpointIntervalMs))
  {
    ReachableGood(w);
    CadenceFrom(w, ops);
  }

  lemma {:induction false} CadenceFrom(w: State, ops: seq<Op>)
    requires Good(w) && Pending(w.log) && Steady(w, ops)
    ensures Good(Run(w, ops)) && Adds(w, Run(w, ops), Kinds(Times(ops), w.cfg.checkpointIntervalMs))
    ensures ops != [] ==> LeftBy(Run(w, ops), ops[|ops| - 1], LastCheckpoint(Times(ops), w.cfg.checkpointIntervalMs))
  {
    if ops == [] {
      assert w.log[|w.log|..] == [];
    } else {
      var init, op := ops[..|ops| - 1], ops[|ops| - 1];
      CadenceFrom(w, init);
      LastOp(w, ops);
      StepGood(Run(w, init), op);
      ResumesReady(Run(w, init), init, op, w.cfg.checkpointIntervalMs);
      NextRecord(Run(w, init), op, FlatSample(op.sample).value, Times(init));
      CadenceNext(w, Run(w, init), Run(w, ops), init, op);
    }
  }

  /** The sample before, if there is one, and its checkpoint. */
  predicate Resumes(u: State, init: seq<Op>, op: Op, ms: int) {
    && u.cfg.checkpointIntervalMs == ms && op.DoAppend? && FlatSample(op.sample).Some?
    && if init == [] then Pending(u.log)
       else LeftBy(u, init[|init| - 1], LastCheckpoint(Times(init), ms)) && GoesOn(init[|init| - 1], op)
  }

  lemma ResumesReady(u: State, init: seq<Op>, op: Op, ms: int)
    requires Resumes(u, init, op, ms)
    ensures Ready(u, FlatSample(op.sample).value, Times(init))
  {
    TimesEmpty(init);
  }

  lemma TimesEmpty(ops: seq<Op>)
    ensures Times(ops) == [] <==> ops == []
  {
  }

  lemma CadenceNext(w: State, u: State, after: State, init: seq<Op>, op: Op)
    requires var before, ms := Times(init), w.cfg.checkpointIntervalMs;
      var asked := GetsCheckpoint(before, TimeOf(op), ms);
      && Adds(w, u, Kinds(before, ms)) && AddsLine(u, after, if asked then Checkpoint else Delta)
      && LeftBy(after, op, if asked then TimeOf(op) else LastCheckpoint(before, ms))
    ensures var times, ms := Times(init + [op]), w.cfg.checkpointIntervalMs;
      Adds(w, after, Kinds(times, ms)) && LeftBy(after, op, LastCheckpoint(times, ms))
  {
    var before, ms := Times(init), w.cfg.checkpointIntervalMs;
    assert (init + [op])[..|init|] == init;
    TimesSnoc(before, TimeOf(op), ms);
    AddsOne(w, u, after, Kinds(before, ms), if GetsCheckpoint(before, TimeOf(op), ms) then Checkpoint else Delta);
  }

  lemma TimesSnoc(before: seq<int>, tsMs: int, ms: int)
    ensures var times := before + [tsMs];
      && Kinds(times, ms) == Kinds(before, ms) + [if GetsCheckpoint(before, tsMs, ms) then Checkpoint else Delta]
      && LastCheckpoint(times, ms) == if GetsCheckpoint(before, tsMs, ms) then tsMs else LastCheckpoint(before, ms)
  {
    assert (before + [tsMs])[..|before|] == before;
  }

  lemma LastOp(w: State, ops: seq<Op>)
    requires ops != [] && Steady(w, ops)
    ensures var init, op := ops[..|ops| - 1], ops[|ops| - 1];
      && ops == init + [op] && Steady(w, init) && Regular(Run(w, init), op) && Run(w, ops) == Step(Run(w, init), op)
      && (init != [] ==> GoesOn(init[|init| - 1], op))
  {
  }

  /** The encoder has the sample of this operation, and counts from a checkpoint of this time. */
  predicate LeftBy(w: State, op: Op, checkpointMs: int) {
    && op.DoAppend? && FlatSample(op.sample).Some? && FlatSample(op.sample).value.id.valid && !Pending(w.log)
    && w.enc.last == FlatSample(op.sample).value.id && w.enc.table == FlatSample(op.sample).value.metrics
    && w.enc.lastCheckpointMs == checkpointMs
  }

  predicate AddsLine(w: State, after: State, kind: Kind) {
    && after.cfg == w.cfg && |after.log| == |w.log| + 1 && w.log <= after.log
    && after.log[|w.log|].Line? && after.log[|w.log|].kind == kind
  }

  /** The sample is the first since a checkpoint came to be pending, or goes on from the one before. */
  predicate Ready(w: State, flat: Flat, before: seq<int>) {
    if before == [] then Pending(w.log)
    else
      && !Pending(w.log) && w.enc.last.valid
      && w.enc.lastCheckpointMs == LastCheckpoint(before, w.cfg.checkpointIntervalMs)
      && !Restarted(w.enc.last, flat.id) && Covered(w.enc.table, flat.metrics)
  }

  lemma NextRecord(w: State, op: Op, flat: Flat, before: seq<int>)
    requires Tied(w.enc, w.log) && Regular(w, op) && FlatSample(op.sample) == Some(flat) && Ready(w, flat, before)
    ensures var ms := w.cfg.checkpointIntervalMs;
      var asked := GetsCheckpoint(before, flat.id.tsMs, ms);
      && AddsLine(w, Step(w, op), if asked then Checkpoint else Delta)
      && LeftBy(Step(w, op), op, if asked then flat.id.tsMs else LastCheckpoint(before, ms))
  {
    ReadyChoice(w, op, flat, before);
    NextLine(w, op, flat);
    EncoderAfterRegular(w, op, flat);
  }

  lemma ReadyChoice(w: State, op: Op, flat: Flat, before: seq<int>)
    requires Tied(w.enc, w.log) && Regular(w, op) && FlatSample(op.sample) == Some(flat) && Ready(w, flat, before)
    ensures var ms := w.cfg.checkpointIntervalMs;
      var asked := GetsCheckpoint(before, flat.id.tsMs, ms);
      && Seen(flat, op.mem) == flat
      && EmitsDelta(w.enc, ms, flat) == !asked && !Boundary(w.enc, ms, flat.id)
      && (!asked ==> w.enc.lastCheckpointMs == LastCheckpoint(before, ms) && !w.enc.needCheckpoint)
  {
    Choice(w.enc, w.cfg.checkpointIntervalMs, flat);
  }

  lemma NextLine(w: State, op: Op, flat: Flat)
    requires Regular(w, op) && FlatSample(op.sample) == Some(flat) && Seen(flat, op.mem) == flat
    requires !Boundary(w.enc, w.cfg.checkpointIntervalMs, flat.id)
    ensures AddsLine(
              w, Step(w, op), if EmitsDelta(w.enc, w.cfg.checkpointIntervalMs, flat) then Delta else Checkpoint)
    ensures !Pending(Step(w, op).log)
  {
    var record := RecordOf(w.enc, w.cfg.checkpointIntervalMs, op.sample, op.mem);
    Limits.AppendsRecords(w, op.sample, op.mem, op.env);
    SnocTied(w.log, record);
    OneRecorded(w, op, flat);
  }

  lemma EncoderAfterRegular(w: State, op: Op, flat: Flat)
    requires Regular(w, op) && FlatSample(op.sample) == Some(flat) && Seen(flat, op.mem) == flat
    ensures var enc := Step(w, op).enc;
      && enc.last == flat.id && enc.table == flat.metrics
      && enc.lastCheckpointMs ==
         if EmitsDelta(w.enc, w.cfg.checkpointIntervalMs, flat) then w.enc.lastCheckpointMs else flat.id.tsMs
  {
    Limits.AppendsRecords(w, op.sample, op.mem, op.env);
  }

  lemma OneRecorded(w: State, op: Op, flat: Flat)
    requires Regular(w, op) && FlatSample(op.sample) == Some(flat)
    requires !Boundary(w.enc, w.cfg.checkpointIntervalMs, flat.id)
    ensures Limits.Recorded(w, op.sample, op.mem, op.env) ==
            [RecordOf(w.enc, w.cfg.checkpointIntervalMs, op.sample, op.mem)]
  {
  }

  lemma AddsOne(w: State, u: State, after: State, kinds: seq<Kind>, kind: Kind)
    requires Adds(w, u, kinds) && AddsLine(u, after, kind)
    ensures Adds(w, after, kinds + [kind])
  {
    var before, lines := u.log[|w.log|..], after.log[|w.log|..];
    assert lines == before + [after.log[|u.log|]];
    assert lines[..|lines| - 1] == before;
  }
}
