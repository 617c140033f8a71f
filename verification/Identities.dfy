/** The identity of a collected sample: the clock and the lines of INFO it comes from. */
module Identities {
  import opened Wrappers
  import opened CText
  import opened Json
  import opened Metrics
  import opened Flatten
  import opened FlattenJson
  import opened Collector
  import opened Sample
  import opened EndToEnd
  import opened Counters

  // ----- a line with a text -------------------------------------------------------------------------------

  /** A text the collector prints as a string: no yes or no, no numeral, no list of fields, and without white
      space around it. */
  predicate IsText(text: string) {
    Solid(text) && text != "yes" && text != "no" && !IsNumeral(text) && !IsCompound(text)
  }

  /** `key:text` is one text leaf. */
  lemma TextLine(key: string, text: string, end: string, path: string)
    requires IsKey(key) && IsText(text) && (end == "" || end == "\r")
    ensures LineLeaves(key + ":" + (text + end), path) == [TextLeaf(Join(path, key), text)]
  {
    CutKey(key, text + end);
    EndStripped(text, end);
    OneMemberLeaves(Member(key, Str(text)), path);
  }

  lemma {:induction false} LastTextConcat(a: seq<Leaf>, b: seq<Leaf>, path: string)
    ensures LastText(a + b, path) == if LastText(b, path).Some? then LastText(b, path) else LastText(a, path)
    decreases |b|
  {
    if b == [] {
      assert a + b == a;
    } else {
      assert (a + b)[..|a + b| - 1] == a + b[..|b| - 1];
      LastTextConcat(a, b[..|b| - 1], path);
    }
  }

  lemma {:induction false} NoText(leaves: seq<Leaf>, path: string)
    requires forall leaf :: leaf in leaves ==> leaf.path != path
    ensures LastText(leaves, path) == None
  {
    LastAt(leaves, path);
    AtNowhere(leaves, path);
  }

  /** The last line with a leaf at a path decides about the text there. */
  lemma {:induction false} LastTextLine(lines: seq<string>, i: nat, base: string, path: string)
    requires i < |lines| && LastText(LineLeaves(lines[i], base), path).Some?
    requires LastText(LinesLeaves(lines[i + 1..], base), path) == None
    ensures LastText(LinesLeaves(lines, base), path) == LastText(LineLeaves(lines[i], base), path)
    decreases i
  {
    var more := lines[1..];
    LastTextConcat(LineLeaves(lines[0], base), LinesLeaves(more, base), path);
    if i > 0 {
      assert more[i..] == lines[i + 1..];
      LastTextLine(more, i - 1, base, path);
    }
  }

  // ----- the last leaf of the sample ------------------------------------------------------------------------

  lemma SampleText(a: Answers, k: nat, base: string, i: nat, key: string, text: string)
    requires |a.sections| == |SECTIONS| && Base(k, base) && PlainName(key) && IsText(text)
    requires LastLineIs(a.sections[k], i, key, text)
    ensures LastText(Leaves(SampleOf(a), ""), base + "." + key) == Some(text)
  {
    var lines, path := Split(a.sections[k], '\n'), base + "." + key;
    var end := LineShape(lines, i, key, text);
    TextLine(key, text, end, base);
    OtherLines(lines[i + 1..], key, base, path);
    NoText(LinesLeaves(lines[i + 1..], base), path);
    LastTextLine(lines, i, base, path);
    SampleLeaves(a, k, path);
    LastAt(Leaves(SampleOf(a), ""), path);
    LastAt(LinesLeaves(lines, base), path);
  }

  lemma SampleInt(a: Answers, k: nat, base: string, i: nat, key: string, n: int)
    requires |a.sections| == |SECTIONS| && Base(k, base) && PlainName(key) && InRange(n)
    requires LastLineIs(a.sections[k], i, key, IntText(n))
    ensures LastInt(Leaves(SampleOf(a), ""), base + "." + key) == Some(n)
  {
    var lines, path := Split(a.sections[k], '\n'), base + "." + key;
    var end := LineShape(lines, i, key, IntText(n));
    CounterDecides(a, k, i, key, end, path, n);
    LastLine(lines, i, base, path);
    SampleLeaves(a, k, path);
    LastAt(Leaves(SampleOf(a), ""), path);
    LastAt(LinesLeaves(lines, base), path);
  }

  lemma SampleClock(a: Answers)
    requires |a.sections| == |SECTIONS| && InRange(a.tsMs)
    ensures LastInt(Leaves(SampleOf(a), ""), "ts_ms") == Some(a.tsMs)
  {
    var clock := Member("ts_ms", Num(IntText(a.tsMs)));
    TopPaths();
    ClockApart();
    OnlyFirst(clock, ValkeyMember(a), Member("host", a.host), "", "ts_ms");
    ClockLeaf(a.tsMs);
    LastAt(Leaves(SampleOf(a), ""), "ts_ms");
  }

  lemma ClockLeaf(n: int)
    requires InRange(n)
    ensures At(Leaves(Num(IntText(n)), "ts_ms"), "ts_ms") == [IntLeaf("ts_ms", n)]
    ensures LastInt([IntLeaf("ts_ms", n)], "ts_ms") == Some(n)
  {
    IntTextNumeral(n);
  }

  lemma ClockApart()
    ensures !Below("ts_ms", "valkey") && !Below("ts_ms", "host")
  {
    var clock := "ts_ms";
    assert clock[0] == 't';
    assert !HasPrefix(clock, "host.") && clock != "host";
  }

  // ----- the identity -----------------------------------------------------------------------------------------

  function IdentityOf(a: Answers): Identity
    requires |a.sections| == 9 && FlatSample(Print(SampleOf(a))).Some?
  {
    FlatSample(Print(SampleOf(a))).value.id
  }

  /** The identity, by the last leaves of the sample. */
  lemma NotedOf(a: Answers)
    requires Collected(a) && FlatSample(Print(SampleOf(a))).Some?
    ensures var id, leaves := IdentityOf(a), Leaves(SampleOf(a), "");
      && id.tsMs == Or(LastInt(leaves, "ts_ms"), 0)
      && id.processId == Or(LastInt(leaves, "valkey.info.server.process_id"), 0)
      && id.uptime == Or(LastInt(leaves, "valkey.info.server.uptime_in_seconds"), 0)
      && id.runId == Truncate(Or(LastText(leaves, "valkey.info.server.run_id"), ""), 128)
      && id.role == Truncate(Or(LastText(leaves, "valkey.info.replication.role"), ""), 32)
      && (LastInt(leaves, "ts_ms").Some? ==> id.valid)
  {
    CollectedSane(a);
    SamplePrintable(a);
    assert Print(SampleOf(a)) + "" == Print(SampleOf(a));
    SampleFlattens(SampleOf(a), "");
    NotedIdentity(Leaves(SampleOf(a), ""));
  }

  /** The clock of the server in milliseconds, as it is. */
  lemma CollectedClock(a: Answers)
    requires Collected(a) && InRange(a.tsMs) && FlatSample(Print(SampleOf(a))).Some?
    ensures IdentityOf(a).tsMs == a.tsMs && IdentityOf(a).valid
  {
    CollectedSane(a);
    SampleClock(a);
    NotedOf(a);
  }

  lemma CollectedProcess(a: Answers, i: nat, n: int)
    requires Collected(a) && InRange(n) && FlatSample(Print(SampleOf(a))).Some?
    requires LastLineIs(a.sections[0], i, "process_id", IntText(n))
    ensures IdentityOf(a).processId == n
  {
    var key := ProcessKey();
    Bases();
    CollectedSane(a);
    SampleInt(a, 0, "valkey.info.server", i, key, n);
    NotedOf(a);
  }

  lemma ProcessKey() returns (key: string)
    ensures key == "process_id" && PlainName(key)
    ensures "valkey.info.server" + "." + key == "valkey.info.server.process_id"
  {
    key := "process_id";
  }

  lemma CollectedUptime(a: Answers, i: nat, n: int)
    requires Collected(a) && InRange(n) && FlatSample(Print(SampleOf(a))).Some?
    requires LastLineIs(a.sections[0], i, "uptime_in_seconds", IntText(n))
    ensures IdentityOf(a).uptime == n
  {
    var key := UptimeKey();
    Bases();
    CollectedSane(a);
    SampleInt(a, 0, "valkey.info.server", i, key, n);
    NotedOf(a);
  }

  lemma UptimeKey() returns (key: string)
    ensures key == "uptime_in_seconds" && PlainName(key)
    ensures "valkey.info.server" + "." + key == "valkey.info.server.uptime_in_seconds"
  {
    key := "uptime_in_seconds";
  }

  /** The run id of the server, cut to the 127 bytes its buffer has room for. */
  lemma CollectedRunId(a: Answers, i: nat, text: string)
    requires Collected(a) && IsText(text) && FlatSample(Print(SampleOf(a))).Some?
    requires LastLineIs(a.sections[0], i, "run_id", text)
    ensures IdentityOf(a).runId == if |text| < 128 then text else text[..127]
  {
    var key := RunIdKey();
    Bases();
    CollectedSane(a);
    SampleText(a, 0, "valkey.info.server", i, key, text);
    NotedOf(a);
  }

  lemma RunIdKey() returns (key: string)
    ensures key == "run_id" && PlainName(key) && "valkey.info.server" + "." + key == "valkey.info.server.run_id"
  {
    key := "run_id";
  }

  lemma CollectedRole(a: Answers, i: nat, text: string)
    requires Collected(a) && IsText(text) && FlatSample(Print(SampleOf(a))).Some?
    requires LastLineIs(a.sections[5], i, "role", text)
    ensures IdentityOf(a).role == if |text| < 32 then text else text[..31]
  {
    var key := RoleKey();
    Bases();
    CollectedSane(a);
    SampleText(a, 5, "valkey.info.replication", i, key, text);
    NotedOf(a);
  }

  lemma RoleKey() returns (key: string)
    ensures key == "role" && PlainName(key)
    ensures "valkey.info.replication" + "." + key == "valkey.info.replication.role"
  {
    key := "role";
  }
}
