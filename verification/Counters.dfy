/** Which counters are tracked, and what the identity of a sample is, by the names INFO has for them. */
module Counters {
  import opened Wrappers
  import opened CText
  import opened Json
  import opened Metrics
  import opened Flatten
  import opened Collector
  import opened Sample
  import opened Encoder
  import opened Writer
  import opened EndToEnd
  import opened CLaws
  import Runs
  import Theorems

  // ----- the paths ------------------------------------------------------------------------------------------

  /** The counters of the stats section. */
  predicate StatsName(name: string) {
    || name == "total_commands_processed" || name == "total_connections_received" || name == "keyspace_hits"
    || name == "keyspace_misses" || name == "expired_keys" || name == "evicted_keys" || name == "rejected_connections"
  }

  ghost predicate StatsPath(path: string) {
    exists name :: StatsName(name) && path == "valkey.info.stats." + name
  }

  ghost predicate ReplicaPath(path: string) {
    exists x: string :: path == "valkey.info.replication.slave" + x + ".offset"
  }

  /** A counter of the stats section, the replication offset, or the offset of a replica. */
  ghost predicate Tracked(path: string) {
    StatsPath(path) || path == "valkey.info.replication.master_repl_offset" || ReplicaPath(path)
  }

  lemma CommandsPath()
    ensures "valkey.info.stats." + "total_commands_processed" == "valkey.info.stats.total_commands_processed"
  {
  }

  lemma ConnectionsPath()
    ensures "valkey.info.stats." + "total_connections_received" == "valkey.info.stats.total_connections_received"
  {
  }

  lemma OtherPaths()
    ensures "valkey.info.stats." + "keyspace_hits" == "valkey.info.stats.keyspace_hits"
    ensures "valkey.info.stats." + "keyspace_misses" == "valkey.info.stats.keyspace_misses"
    ensures "valkey.info.stats." + "expired_keys" == "valkey.info.stats.expired_keys"
    ensures "valkey.info.stats." + "evicted_keys" == "valkey.info.stats.evicted_keys"
    ensures "valkey.info.stats." + "rejected_connections" == "valkey.info.stats.rejected_connections"
  {
  }

  lemma StatsTracked(name: string)
    requires StatsName(name)
    ensures Monotonic("valkey.info.stats." + name)
  {
    CommandsPath();
    ConnectionsPath();
    OtherPaths();
  }

  lemma ReplicaTracked(x: string)
    ensures Monotonic("valkey.info.replication.slave" + x + ".offset")
  {
    var head, path := "valkey.info.replication.slave", "valkey.info.replication.slave" + x + ".offset";
    assert path[..|head|] == head && path[|path| - 7..] == ".offset";
  }

  /** A path that starts and ends like that of a replica's offset. */
  predicate ReplicaShaped(path: string) {
    HasPrefix(path, "valkey.info.replication.slave") && |path| > 7 && path[|path| - 7..] == ".offset"
  }

  /** Start and end do not overlap. */
  lemma ShapedLength(path: string)
    requires ReplicaShaped(path)
    ensures |path| >= 36
  {
    var head, k := "valkey.info.replication.slave", |path| - 7;
    assert path[k] == path[k..][0] && path[k + 1] == path[k..][1];
    assert forall i :: 0 <= i < 29 ==> path[i] == path[..29][i];
  }

  lemma ShapedIsReplica(path: string)
    requires ReplicaShaped(path)
    ensures ReplicaPath(path)
  {
    ShapedLength(path);
    assert path == "valkey.info.replication.slave" + path[29..|path| - 7] + ".offset";
  }

  lemma MonotonicStats(path: string)
    requires Monotonic(path) && path != "valkey.info.replication.master_repl_offset" && !ReplicaShaped(path)
    ensures StatsPath(path)
  {
    CommandsPath();
    ConnectionsPath();
    OtherPaths();
    assert StatsName("total_commands_processed");
  }

  /** The flattener tracks just these paths. */
  lemma TrackedExactly(path: string)
    ensures Monotonic(path) <==> Tracked(path)
  {
    if StatsPath(path) {
      var name :| StatsName(name) && path == "valkey.info.stats." + name;
      StatsTracked(name);
    } else if ReplicaPath(path) {
      var x: string :| path == "valkey.info.replication.slave" + x + ".offset";
      ReplicaTracked(x);
    } else if ReplicaShaped(path) {
      ShapedIsReplica(path);
    } else if Monotonic(path) && path != "valkey.info.replication.master_repl_offset" {
      MonotonicStats(path);
    }
  }

  /** Whatever text is accepted, what is tracked of it is at these paths. */
  lemma AcceptedTracked(text: string)
    ensures FlatSample(text).Some? ==> forall m :: m in FlatSample(text).value.metrics ==> Tracked(m.path)
  {
    FlatSampleSound(text);
    if FlatSample(text).Some? {
      forall m | m in FlatSample(text).value.metrics ensures Tracked(m.path) {
        TrackedExactly(m.path);
      }
    }
  }

  // ----- from a line to the table ---------------------------------------------------------------------------

  /** Nine sections, and JSON from the other collectors. */
  predicate Collected(a: Answers) {
    |a.sections| == 9 && Printable(a.latency) && Printable(a.slowlog) && Printable(a.host)
  }

  /** The section's values are below this path. */
  predicate Base(k: nat, base: string) {
    k < |SECTIONS| && SectionPath(SECTIONS[k]) == base
  }

  lemma Bases()
    ensures Base(0, "valkey.info.server") && Base(4, "valkey.info.stats") && Base(5, "valkey.info.replication")
  {
  }

  lemma CollectedSane(a: Answers)
    requires Collected(a)
    ensures Sane(a)
  {
  }

  /** No later line starts with the key and a colon, or with the key and a dot. */
  predicate NoneLater(lines: seq<string>, i: nat, key: string) {
    forall j :: i < j < |lines| ==> !(key + ":" <= lines[j]) && !(key + "." <= lines[j])
  }

  /** Line `i` of the payload is `key:text`, with or without the carriage return INFO ends its lines with, and
      the last of its key. */
  predicate LastLineIs(payload: string, i: nat, key: string, text: string) {
    var lines := Split(payload, '\n');
    && i < |lines| && (lines[i] == key + ":" + text || lines[i] == key + ":" + text + "\r")
    && NoneLater(lines, i, key)
  }

  predicate PlainName(key: string) {
    IsKey(key) && NoDot(key)
  }

  lemma FirstNamesPlain(name: string)
    requires name == "total_commands_processed" || name == "total_connections_received" || name == "keyspace_hits"
    ensures PlainName(name)
  {
  }

  lemma StatsNamesPlain(name: string)
    requires StatsName(name)
    ensures PlainName(name)
  {
    if name == "total_commands_processed" || name == "total_connections_received" || name == "keyspace_hits" {
      FirstNamesPlain(name);
    }
  }

  lemma LineShape(lines: seq<string>, i: nat, key: string, text: string) returns (end: string)
    requires i < |lines| && (lines[i] == key + ":" + text || lines[i] == key + ":" + text + "\r")
    requires NoneLater(lines, i, key)
    ensures (end == "" || end == "\r") && lines[i] == key + ":" + (text + end) && LastOfKey(lines, i, key)
  {
    end := if lines[i] == key + ":" + text then "" else "\r";
    assert text + "" == text;
    Regroup(key + ":", text, "\r");
  }

  /** The last line of a plain key with an integer is what the table holds at its path, if that is tracked. */
  lemma LineMetric(a: Answers, k: nat, base: string, i: nat, key: string, n: int)
    requires Sane(a) && Base(k, base) && PlainName(key) && InRange(n)
    requires LastLineIs(a.sections[k], i, key, IntText(n))
    requires Monotonic(base + "." + key) && FlatSample(Print(SampleOf(a))).Some?
    ensures Get(FlatSample(Print(SampleOf(a))).value.metrics, base + "." + key) == Some(n)
  {
    var end := LineShape(Split(a.sections[k], '\n'), i, key, IntText(n));
    CounterDecides(a, k, i, key, end, base + "." + key, n);
    DecidedMetric(a, k, i, base + "." + key, n);
  }

  /** For each of the seven counters of the stats section: the integer of its last line is in the table. */
  lemma StatsCounter(a: Answers, name: string, i: nat, n: int)
    requires Collected(a) && StatsName(name) && InRange(n) && LastLineIs(a.sections[4], i, name, IntText(n))
    requires FlatSample(Print(SampleOf(a))).Some?
    ensures Get(FlatSample(Print(SampleOf(a))).value.metrics, "valkey.info.stats." + name) == Some(n)
  {
    StatsNamesPlain(name);
    StatsTracked(name);
    StatsLine(a, name, i, n);
  }

  lemma StatsLine(a: Answers, name: string, i: nat, n: int)
    requires Collected(a) && PlainName(name) && InRange(n) && LastLineIs(a.sections[4], i, name, IntText(n))
    requires Monotonic("valkey.info.stats." + name) && FlatSample(Print(SampleOf(a))).Some?
    ensures Get(FlatSample(Print(SampleOf(a))).value.metrics, "valkey.info.stats." + name) == Some(n)
  {
    var base := StatsBase(name);
    CollectedSane(a);
    LineMetric(a, 4, base, i, name, n);
  }

  lemma StatsBase(name: string) returns (base: string)
    ensures Base(4, base) && base + "." + name == "valkey.info.stats." + name
  {
    base := "valkey.info.stats";
    Bases();
  }

  /** The replication offset: the integer of its last line is in the table. */
  lemma ReplicationOffset(a: Answers, i: nat, n: int)
    requires Collected(a) && InRange(n) && LastLineIs(a.sections[5], i, "master_repl_offset", IntText(n))
    requires FlatSample(Print(SampleOf(a))).Some?
    ensures Get(FlatSample(Print(SampleOf(a))).value.metrics, "valkey.info.replication.master_repl_offset") == Some(n)
  {
    var key := OffsetKey();
    Bases();
    CollectedSane(a);
    LineMetric(a, 5, "valkey.info.replication", i, key, n);
  }

  lemma OffsetKey() returns (key: string)
    ensures key == "master_repl_offset" && PlainName(key)
    ensures "valkey.info.replication" + "." + key == "valkey.info.replication.master_repl_offset"
    ensures Monotonic("valkey.info.replication" + "." + key)
  {
    key := "master_repl_offset";
    assert "valkey.info.replication" + "." + key == "valkey.info.replication.master_repl_offset";
  }

  // ----- replicas ---------------------------------------------------------------------------------------------

  /** `name=value`, without commas, and without white space around either. */
  ghost predicate IsField(token: string) {
    ',' !in token && exists name, value :: token == name + "=" + value && Solid(name) && Solid(value) && '=' !in name
  }

  ghost predicate Fields(tokens: seq<string>) {
    |tokens| >= 2 && forall token :: token in tokens ==> IsField(token)
  }

  lemma JoinedSplits(tokens: seq<string>)
    requires forall token :: token in tokens ==> IsField(token)
    ensures Split(Joined(tokens, ","), ',') == tokens
  {
    if tokens != [] {
      assert tokens[|tokens| - 1] in tokens;
    }
    SplitsJoined(tokens, ',');
  }

  lemma {:induction false} JoinedSolid(tokens: seq<string>)
    requires tokens != [] && forall token :: token in tokens ==> IsField(token)
    ensures Solid(Joined(tokens, ","))
  {
    assert tokens[0] in tokens;
    if |tokens| > 1 {
      JoinedSolid(tokens[1..]);
    }
  }

  lemma FieldsCompound(tokens: seq<string>)
    requires Fields(tokens)
    ensures IsCompound(Joined(tokens, ","))
  {
    JoinedSplits(tokens);
    forall token | token in tokens ensures Pair(token).Some? {
      var name, value :| token == name + "=" + value && Solid(name) && Solid(value) && '=' !in name;
      PlainPair(name, value);
    }
  }

  lemma EndStripped(text: string, end: string)
    requires Solid(text) && (end == "" || end == "\r")
    ensures StripReturns(text + end) == text && Trim(text) == text
  {
    assert StripReturns(text) == text;
    assert end == "" ==> text + end == text;
    assert end == "\r" ==> (text + end)[..|text|] == text;
    TrimSolid(text);
  }

  /** Field `j` is `name=n`, and no later one has the name, or a name that continues it after a dot. */
  predicate LastField(tokens: seq<string>, j: nat, name: string, n: int) {
    && j < |tokens| && tokens[j] == name + "=" + IntText(n)
    && forall k :: j < k < |tokens| ==> !(name + "=" <= tokens[k]) && !(name + "." <= tokens[k])
  }

  lemma OtherName(token: string, name: string)
    requires IsField(token) && !(name + "=" <= token) && !(name + "." <= token)
    ensures Pair(token).Some? && Pair(token).value.0 != name && !HasPrefix(Pair(token).value.0, name + ".")
  {
    var other, value :| token == other + "=" + value && Solid(other) && Solid(value) && '=' !in other;
    PlainPair(other, value);
    NameInToken(other, value, name);
  }

  lemma NameInToken(other: string, value: string, name: string)
    ensures other == name ==> name + "=" <= other + "=" + value
    ensures HasPrefix(other, name + ".") ==> name + "." <= other + "=" + value
  {
    if HasPrefix(other, name + ".") {
      assert (other + "=" + value)[..|name| + 1] == other[..|name| + 1];
    }
  }

  lemma LaterNames(tokens: seq<string>, j: nat, name: string, n: int)
    requires Fields(tokens) && LastField(tokens, j, name, n)
    ensures LastOfName(tokens[j + 1..], name)
  {
    var after := tokens[j + 1..];
    forall token | token in after && Pair(token).Some?
      ensures Pair(token).value.0 != name && !HasPrefix(Pair(token).value.0, name + ".")
    {
      var m :| 0 <= m < |after| && after[m] == token;
      assert tokens[j + 1 + m] == token && token in tokens;
      OtherName(token, name);
    }
  }

  lemma FieldPair(name: string, n: int)
    requires Solid(name) && '=' !in name
    ensures Pair(name + "=" + IntText(n)) == Some((name, IntText(n)))
  {
    IntTextShape(n);
    PlainPair(name, IntText(n));
  }

  /** What the collector makes of the fields, behind which the line may end with a carriage return. */
  lemma FieldsRead(tokens: seq<string>, end: string)
    requires Fields(tokens) && (end == "" || end == "\r")
    ensures var value := Trim(StripReturns(Joined(tokens, ",") + end));
      IsCompound(value) && Split(value, ',') == tokens
  {
    JoinedSolid(tokens);
    EndStripped(Joined(tokens, ","), end);
    FieldsCompound(tokens);
    JoinedSplits(tokens);
  }

  lemma FieldDecides(a: Answers, k: nat, base: string, i: nat, key: string, tokens: seq<string>, j: nat, name: string,
                     n: int)
    requires |a.sections| == |SECTIONS| && Base(k, base) && PlainName(key) && InRange(n)
    requires Fields(tokens) && LastField(tokens, j, name, n) && Solid(name) && '=' !in name && NoDot(name)
    requires LastLineIs(a.sections[k], i, key, Joined(tokens, ","))
    ensures Decides(a, k, i, base + "." + key + "." + name, n)
  {
    var end := LineShape(Split(a.sections[k], '\n'), i, key, Joined(tokens, ","));
    FieldsRead(tokens, end);
    FieldPair(name, n);
    LaterNames(tokens, j, name, n);
    var before, after := Around(tokens, j);
    FieldParts(a, k, base, i, key, Joined(tokens, ",") + end, before, tokens[j], after, name, n);
    PairDecides(
      a, k, i, key, Joined(tokens, ",") + end, before, tokens[j], after, name, base + "." + key + "." + name, n);
  }

  lemma Around(tokens: seq<string>, j: nat) returns (before: seq<string>, after: seq<string>)
    requires j < |tokens|
    ensures tokens == before + ([tokens[j]] + after) && after == tokens[j + 1..]
  {
    before, after := tokens[..j], tokens[j + 1..];
  }

  lemma FieldParts(a: Answers, k: nat, base: string, i: nat, key: string, raw: string, before: seq<string>,
                   token: string, after: seq<string>, name: string, n: int)
    requires |a.sections| == |SECTIONS| && Base(k, base) && PlainName(key) && InRange(n) && NoDot(name)
    requires var lines := Split(a.sections[k], '\n');
      i < |lines| && lines[i] == key + ":" + raw && LastOfKey(lines, i, key)
    requires var value := Trim(StripReturns(raw)); IsCompound(value) && Split(value, ',') == before + ([token] + after)
    requires Pair(token) == Some((name, IntText(n))) && LastOfName(after, name)
    ensures PairAt(a, k, i, key, raw, before, token, after, name, base + "." + key + "." + name, n)
  {
  }

  /** A replica: the integer of the last `offset` field of its last line is in the table, as of
      `slave0:ip=127.0.0.1,port=6380,state=online,offset=17,lag=0`. */
  lemma ReplicaOffset(a: Answers, x: string, i: nat, tokens: seq<string>, j: nat, n: int)
    requires Collected(a) && InRange(n) && ':' !in x && '.' !in x
    requires LastLineIs(a.sections[5], i, "slave" + x, Joined(tokens, ","))
    requires Fields(tokens) && LastField(tokens, j, "offset", n)
    requires FlatSample(Print(SampleOf(a))).Some?
    ensures Get(FlatSample(Print(SampleOf(a))).value.metrics, "valkey.info.replication.slave" + x + ".offset") ==
            Some(n)
  {
    Bases();
    CollectedSane(a);
    ReplicaKey(x);
    ReplicaTracked(x);
    FieldDecides(a, 5, "valkey.info.replication", i, "slave" + x, tokens, j, "offset", n);
    DecidedMetric(a, 5, i, "valkey.info.replication.slave" + x + ".offset", n);
  }

  lemma ReplicaKey(x: string)
    requires ':' !in x && '.' !in x
    ensures PlainName("slave" + x)
    ensures "valkey.info.replication" + "." + ("slave" + x) + "." + "offset" ==
            "valkey.info.replication.slave" + x + ".offset"
  {
    assert "valkey.info.replication" + "." + ("slave" + x) == "valkey.info.replication.slave" + x;
    Regroup("valkey.info.replication.slave" + x, ".", "offset");
  }

  // ----- to the reader --------------------------------------------------------------------------------------

  /** INFO shows the counter: in the stats section, as the replication offset, or as the offset of a replica. */
  ghost predicate Shows(a: Answers, path: string, n: int)
    requires |a.sections| == 9
  {
    InRange(n) && (ShowsStats(a, path, n) || ShowsOffset(a, path, n) || ShowsReplica(a, path, n))
  }

  ghost predicate ShowsStats(a: Answers, path: string, n: int)
    requires |a.sections| == 9
  {
    exists name, i: nat ::
      StatsName(name) && path == "valkey.info.stats." + name && LastLineIs(a.sections[4], i, name, IntText(n))
  }

  ghost predicate ShowsOffset(a: Answers, path: string, n: int)
    requires |a.sections| == 9
  {
    path == "valkey.info.replication.master_repl_offset" &&
    exists i: nat :: LastLineIs(a.sections[5], i, "master_repl_offset", IntText(n))
  }

  ghost predicate ShowsReplica(a: Answers, path: string, n: int)
    requires |a.sections| == 9
  {
    exists x: string, i: nat, tokens, j: nat :: ReplicaShown(a, path, n, x, i, tokens, j)
  }

  ghost predicate ReplicaShown(a: Answers, path: string, n: int, x: string, i: nat, tokens: seq<string>, j: nat)
    requires |a.sections| == 9
  {
    && path == "valkey.info.replication.slave" + x + ".offset" && ':' !in x && '.' !in x
    && LastLineIs(a.sections[5], i, "slave" + x, Joined(tokens, ","))
    && Fields(tokens) && LastField(tokens, j, "offset", n)
  }

  /** For every sample the collector can print and the flattener accepts: every counter INFO shows is in the
      table with its value. */
  lemma ShownIsFlattened(a: Answers, path: string, n: int)
    requires Collected(a) && Shows(a, path, n) && FlatSample(Print(SampleOf(a))).Some?
    ensures Get(FlatSample(Print(SampleOf(a))).value.metrics, path) == Some(n)
  {
    if ShowsStats(a, path, n) {
      var name, i: nat :|
        StatsName(name) && path == "valkey.info.stats." + name && LastLineIs(a.sections[4], i, name, IntText(n));
      StatsCounter(a, name, i, n);
    } else if ShowsOffset(a, path, n) {
      var i: nat :| LastLineIs(a.sections[5], i, "master_repl_offset", IntText(n));
      ReplicationOffset(a, i, n);
    } else {
      var x: string, i: nat, tokens, j: nat :| ReplicaShown(a, path, n, x, i, tokens, j);
      ReplicaOffset(a, x, i, tokens, j, n);
    }
  }

  /** The whole way, by name. Whatever the run before: when a collected sample is appended in delta mode without
      an error, the reader of the log then holds every counter INFO shows, with its value, if it found memory in
      the flattener or the sample went as a checkpoint. */
  lemma ShownReachesReader(w: State, a: Answers, mem: Memory, env: AppendEnv, path: string, n: int)
    requires Collected(a) && Reachable(w) && Theorems.AppendsCleanly(w, Print(SampleOf(a)), mem, env)
    requires Shows(a, path, n)
    ensures var log := Append(w, Print(SampleOf(a)), mem, env).log;
      Theorems.Arrives(log, path) ==> path in Runs.ReadLog(log) && Runs.ReadLog(log)[path] == n
  {
    Theorems.AppendReplays(w, Print(SampleOf(a)), mem, env);
    ShownIsFlattened(a, path, n);
    GetHas(FlatSample(Print(SampleOf(a))).value.metrics, path);
  }

  /** No line has the key, or continues it after a dot: then there is nothing below it in the table. */
  lemma NotShown(a: Answers, k: nat, base: string, key: string, path: string)
    requires Collected(a) && Base(k, base) && PlainName(key) && Below(path, base + "." + key)
    requires forall line :: line in Split(a.sections[k], '\n') ==>
               !HasPrefix(line, key + ":") && !HasPrefix(line, key + ".")
    requires FlatSample(Print(SampleOf(a))).Some?
    ensures Get(FlatSample(Print(SampleOf(a))).value.metrics, path) == None
  {
    CollectedSane(a);
    BelowSection(path, base, key);
    CollectedMetric(a, k, path);
    OtherLines(Split(a.sections[k], '\n'), key, base, path);
    NoLeafNoInt(LinesLeaves(Split(a.sections[k], '\n'), base), path);
  }
}
