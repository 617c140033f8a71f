/** The module's state as src/ftdc.h has it, updated in place by src/writer.c, src/rotation.c and the
    commands of src/ftdc.c. Every method computes the function of Writer it names. */
module FtdcWriter {
  import opened Wrappers
  import opened Metrics
  import opened Flatten
  import opened FlatParser
  import opened Encoder
  import opened Rotation
  import opened Metadata
  import opened Writer

  /** What realloc answers the flattener, whether the records find memory, how often the table can grow. */
  datatype Allocations = Allocations(answers: seq<bool>, built: bool, growths: nat)

  /** What these answers amount to: no more counters are dropped than there were refusals. */
  ghost predicate Answers(sample: string, mem: Memory, a: Allocations) {
    && mem.built == a.built
    && (FlatSample(sample).Some? ==>
          var all := FlatSample(sample).value;
          && (Refusals(a.answers) == 0 ==> Seen(all, mem) == all)
          && |all.metrics| <= |Seen(all, mem).metrics| + Refusals(a.answers))
  }

  class FtdcState {
    var cfg: Config
    var open: bool
    var file: string
    var bytes: int
    var openedMs: int
    var error: bool
    var disk: Disk
    ghost var log: Log
    const delta: DeltaEncoder

    ghost predicate Valid()
      reads this, delta, delta.table
    {
      delta.Valid()
    }

    ghost function Value(): State
      reads this, delta, delta.table, delta.table.items
      requires Valid()
    {
      State(cfg, open, file, bytes, openedMs, error, delta.State(), disk, log)
    }

    /** The loaded module. */
    constructor (cfg: Config, disk: Disk)
      ensures Valid() && fresh(delta) && fresh(delta.table) && fresh(delta.table.items)
      ensures Value() == Start(cfg, disk)
    {
      this.cfg, this.disk := cfg, disk;
      log := [];
      open, file, bytes, openedMs, error := false, "", 0, 0, false;
      delta := new DeltaEncoder();
    }

    method CloseFile()
      requires Valid()
      modifies this
      ensures Valid() && Value() == Close(old(Value()))
    {
      open := false;
      file := "";
      bytes := 0;
      openedMs := 0;
    }

    method EnforceLimit(s: SweepEnv) returns (ok: bool)
      requires Valid()
      modifies this
      ensures Valid() && Value() == Enforce(old(Value()), s) && ok == SweepOk(cfg, s)
    {
      if cfg.maxDirBytes <= 0 {
        return true;
      }
      if !s.listed {
        return false;
      }
      var removed := EnforceRetention(cfg.path, s.entries, cfg.maxDirBytes, file, s.stuck);
      disk := disk - Paths(removed);
      return true;
    }

    /** ftdc_rotation_prepare_dir() and ftdc_rotation_open_next_file() */
    method OpenNextFile(r: RotateEnv) returns (ok: bool)
      requires Valid()
      modifies this
      ensures Valid() && ok == CanOpen(cfg, r)
      ensures Value() == if ok then Open(old(Value()), r) else FailOpen(old(Value()), r)
    {
      if !r.dirOk || cfg.path == "" {
        return false;
      }
      var name := JoinPath(cfg.path, MetricsName(r.stamp));
      file := Truncate(name, PATH_MAX);
      if |name| >= PATH_MAX || !r.openOk {
        return false;
      }
      if !r.headerOk {
        disk := Extend(disk, file, r.torn);
        return false;
      }
      WriteHeader(r);
      return true;
    }

    /** The header of the file just opened, its size, and the sidecar file. */
    method WriteHeader(r: RotateEnv)
      requires Valid() && file == NextFile(cfg, r)
      modifies this
      ensures Valid() && Value() == Open(old(Value()), r)
    {
      open := true;
      var metadata := WriteMetadata(cfg.deltaMetrics, r.createdMs, r.config);
      var header := MAGIC + metadata + "\n";
      disk := Extend(disk, file, header);
      bytes := |disk[file]|;
      openedMs := r.openedMs;
      log := log + HeaderEvents(cfg, r);
      if r.sidecar.Some? {
        disk := disk[JoinPath(cfg.path, MetadataName(r.stamp)) := r.sidecar.value];
      }
    }

    method RotateFile(r: RotateEnv) returns (ok: bool)
      requires Valid()
      modifies this, delta
      ensures Valid() && Value() == Rotate(old(Value()), r)
      ensures ok == RotateOk(old(cfg), r) == !error
    {
      CloseFile();
      ok := OpenNextFile(r);
      if !ok {
        error := true;
        return false;
      }
      ok := EnforceLimit(r.sweep);
      if !ok {
        error := true;
        return;
      }
      delta.MarkCheckpointRequired();
      error := false;
    }

    method TestRotation(len: nat, now: int) returns (rotate: bool)
      requires Valid()
      ensures rotate == ShouldRotate(Value(), len, now)
    {
      if !open {
        return true;
      }
      if cfg.maxFileBytes > 0 && bytes + len + 1 >= cfg.maxFileBytes {
        return true;
      }
      if cfg.rotationIntervalSec > 0 && now - openedMs >= cfg.rotationIntervalSec * 1000 {
        return true;
      }
      return false;
    }

    /** append_line() */
    method AppendLine(text: string, o: WriteEnv, ghost line: Event) returns (ok: bool)
      requires Valid() && line.Line? && line.text == text
      modifies this
      ensures Valid() && Value() == Write(old(Value()), line, o) && ok == o.Whole?
    {
      if o.Part? {
        disk := Extend(disk, file, o.text);
        log := log + [Broken(Some(line.kind))];
        error := true;
        return false;
      }
      disk := Extend(disk, file, text + "\n");
      log := log + [line];
      bytes := bytes + |text| + 1;
      return true;
    }

    method AppendRecord(text: string, e: AppendEnv, ghost line: Event) returns (ok: bool)
      requires Valid() && line.Line? && line.text == text
      modifies this
      ensures Valid() && Value() == WriteRecord(old(Value()), line, e) && ok == !error
    {
      ok := AppendLine(text, e.recordWrite, line);
      if !ok {
        return;
      }
      if !e.flushed {
        error := true;
        log := log + [Broken(None)];
        return false;
      }
      ok := EnforceLimit(e.sweep);
      error := !ok;
    }

    method AppendRecords(out: Encoded, e: AppendEnv, ghost flat: Flat, ghost seen: seq<Metric>, ghost interval: int)
      returns (ok: bool)
      requires Valid()
      modifies this
      ensures Valid() && Value() == WriteEncoded(old(Value()), out, flat, seen, interval, e) && ok == !error
    {
      if out.event.Some? {
        ok := AppendLine(out.event.value, e.eventWrite, Line(Restart, out.event.value, flat, seen, interval));
        if !ok {
          return;
        }
      }
      ghost var kind := if out.checkpoint then Checkpoint else Delta;
      ok := AppendRecord(out.record, e, Line(kind, out.record, flat, seen, interval));
    }

    /** The delta half of ftdc_writer_append_sample(), from the encoder on. */
    method AppendEncoded(sample: string, e: AppendEnv, a: Allocations) returns (ok: bool, ghost mem: Memory)
      requires Valid()
      modifies this, delta, delta.table, delta.table.items
      ensures Valid() && (delta.table.items == old(delta.table.items) || fresh(delta.table.items))
      ensures Value() == AppendDelta(old(Value()), sample, mem, e) && ok == !error && Answers(sample, mem, a)
    {
      var interval, encoded := cfg.checkpointIntervalMs, None;
      encoded, mem := delta.EncodeSample(sample, interval, a.answers, a.built, a.growths);
      if encoded.None? {
        error := true;
        return false, Memory(a.built, None, 0);
      }
      ghost var all := FlatSample(sample).value;
      ok := AppendRecords(encoded.value, e, all, Seen(all, mem).metrics, interval);
    }

    /** The snapshot half of ftdc_writer_append_sample(), from the second rotation test on. */
    method AppendRaw(sample: string, e: AppendEnv) returns (ok: bool)
      requires Valid()
      modifies this, delta
      ensures Valid() && Value() == AppendSnapshot(old(Value()), sample, e) && ok == !error
    {
      var record := sample;
      var rotate := TestRotation(|sample|, e.later);
      if rotate {
        record := "";
        ok := RotateFile(e.second);
        if !ok {
          return;
        }
      }
      ok := AppendRecord(record, e, SnapshotLine(Value(), record));
    }

    method AppendSample(sample: string, e: AppendEnv, a: Allocations) returns (ok: bool, ghost mem: Memory)
      requires Valid()
      modifies this, delta, delta.table, delta.table.items
      ensures Valid() && (delta.table.items == old(delta.table.items) || fresh(delta.table.items))
      ensures Value() == Append(old(Value()), sample, mem, e) && ok == !error && Answers(sample, mem, a)
    {
      mem := Memory(a.built, None, 0);
      var rotate := TestRotation(|sample|, e.now);
      if rotate {
        ok := RotateFile(e.rotation);
        if !ok {
          return;
        }
      }
      if cfg.deltaMetrics {
        ok, mem := AppendEncoded(sample, e, a);
      } else if !a.built {
        error := true;
        ok := false;
      } else {
        ok := AppendRaw(sample, e);
      }
    }

    method FlushFile(flushed: bool) returns (ok: bool)
      requires Valid()
      modifies this
      ensures Valid() && Value() == FlushOut(old(Value()), flushed) && ok == (!open || flushed)
    {
      if !open {
        return true;
      }
      if !flushed {
        error := true;
        log := log + [Broken(None)];
      }
      return flushed;
    }

    method Reset()
      requires Valid()
      modifies this, delta, delta.table
      ensures Valid() && fresh(delta.table.items) && Value() == ResetSegment(old(Value()))
    {
      delta.ResetSegment();
      log := log + [ResetMark];
    }

    /** FTDC.CONFIG SET path */
    method ConfigPath(path: string, r: RotateEnv)
      requires Valid()
      modifies this, delta, delta.table
      ensures Valid() && Value() == Step(old(Value()), SetPath(path, r))
    {
      if |path| >= PATH_MAX {
        return;
      }
      cfg := cfg.(path := path);
      Reset();
      var ok := RotateFile(r);
    }

    /** FTDC.CONFIG SET delta-metrics */
    method ConfigDeltaMetrics(on: bool)
      requires Valid()
      modifies this, delta, delta.table
      ensures Valid() && Value() == Step(old(Value()), SetDeltaMetrics(on))
    {
      cfg := cfg.(deltaMetrics := on);
      Reset();
    }

    /** FTDC.CONFIG SET of the limits: a value below the least one is refused. */
    method ConfigLimit(op: Op) returns (ok: bool)
      requires Valid()
      requires op.SetCheckpointInterval? || op.SetMaxFileMb? || op.SetMaxDirMb? || op.SetRotationInterval?
      modifies this
      ensures Valid() && Value() == Step(old(Value()), op)
      ensures ok <==> match op
                      case SetCheckpointInterval(ms) => ms >= 1000
                      case SetMaxFileMb(mb) => mb >= 1
                      case SetMaxDirMb(mb) => mb >= 1
                      case SetRotationInterval(sec) => sec >= 1
                      case _ => false
    {
      match op {
        case SetCheckpointInterval(ms) =>
          ok := ms >= 1000;
          if ok {
            cfg := cfg.(checkpointIntervalMs := ms);
          }
        case SetMaxFileMb(mb) =>
          ok := mb >= 1;
          if ok {
            cfg := cfg.(maxFileBytes := mb * MEGABYTE);
          }
        case SetMaxDirMb(mb) =>
          ok := mb >= 1;
          if ok {
            cfg := cfg.(maxDirBytes := mb * MEGABYTE);
          }
        case SetRotationInterval(sec) =>
          ok := sec >= 1;
          if ok {
            cfg := cfg.(rotationIntervalSec := sec);
          }
      }
    }
  }
}
