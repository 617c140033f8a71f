/** The flattener of src/delta.c as functions on text: the identity and the monotonic counters of
    one sample. */
module Flatten {
  import opened Wrappers
  import opened CText
  import opened JsonText
  import opened Metrics

  const KEY_SIZE := 128
  const TEXT_SIZE := 256
  const RUN_ID_SIZE := 128
  const ROLE_SIZE := 32

  const RUN_ID_PATH := "valkey.info.server.run_id"
  const ROLE_PATH := "valkey.info.replication.role"
  const TS_PATH := "ts_ms"
  const PROCESS_ID_PATH := "valkey.info.server.process_id"
  const UPTIME_PATH := "valkey.info.server.uptime_in_seconds"
  const SLAVE_PREFIX := "valkey.info.replication.slave"

  datatype Identity = Identity(tsMs: int, processId: int, uptime: int, runId: string, role: string, valid: bool)
  datatype Flat = Flat(id: Identity, metrics: seq<Metric>)

  const NO_IDENTITY := Identity(0, 0, 0, "", "", false)
  const EMPTY_FLAT := Flat(NO_IDENTITY, [])

  /** metric_is_monotonic() */
  predicate Monotonic(path: string) {
    || path == "valkey.info.stats.total_commands_processed"
    || path == "valkey.info.stats.total_connections_received"
    || path == "valkey.info.stats.keyspace_hits"
    || path == "valkey.info.stats.keyspace_misses"
    || path == "valkey.info.stats.expired_keys"
    || path == "valkey.info.stats.evicted_keys"
    || path == "valkey.info.stats.rejected_connections"
    || path == "valkey.info.replication.master_repl_offset"
    || (HasPrefix(path, SLAVE_PREFIX) && |path| > 7 && path[|path| - 7..] == ".offset")
  }

  predicate IsIdentityText(path: string) {
    path == RUN_ID_PATH || path == ROLE_PATH
  }

  function NoteText(flat: Flat, path: string, text: string): Flat {
    if path == RUN_ID_PATH then flat.(id := flat.id.(runId := Truncate(text, RUN_ID_SIZE), valid := true))
    else if path == ROLE_PATH then flat.(id := flat.id.(role := Truncate(text, ROLE_SIZE)))
    else flat
  }

  function NoteNumber(flat: Flat, path: string, value: int): Flat {
    var id :=
      if path == TS_PATH then flat.id.(tsMs := value, valid := true)
      else if path == PROCESS_ID_PATH then flat.id.(processId := value, valid := true)
      else if path == UPTIME_PATH then flat.id.(uptime := value, valid := true)
      else flat.id;
    Flat(id, if Monotonic(path) then Set(flat.metrics, path, value) else flat.metrics)
  }

  /** The dotted path of a member. An empty path gets no dot, even below the top. */
  function Join(path: string, key: string): string {
    if path == "" then key else path + "." + key
  }

  /** From the end of strtoll to the end of the numeral: an integer, or at the first of ". e E" a
      float that is passed over whole. */
  function NumberTail(start: string, value: int, end: string): (r: Option<(Option<int>, string)>)
    requires |end| < |start|
    ensures r.Some? ==> |r.value.1| < |start|
    decreases |end|
  {
    if Peek(end) == '.' || Peek(end) == 'e' || Peek(end) == 'E' then
      var rest := Strtod(start);
      if |rest| == |start| then None else Some((None, rest))
    else if IsDigit(Peek(end)) || Peek(end) == '+' || Peek(end) == '-' then NumberTail(start, value, end[1..])
    else Some((Some(value), end))
  }

  function FlatNumber(s: string): (r: Option<(Option<int>, string)>)
    ensures r.Some? ==> |r.value.1| < |s|
  {
    var (value, end) :- Strtoll(s);
    NumberTail(s, value, end)
  }

  /** parse_flat_value() at the value of `path` */
  function FlatValue(s0: string, path: string, flat: Flat): (r: Option<(Flat, string)>)
    ensures r.Some? ==> |r.value.1| < |s0|
    decreases |s0|, 3
  {
    var s := SkipWs(s0);
    if Peek(s) == '{' then FlatObject(s, path, flat)
    else if Peek(s) == '[' then
      var rest :- SkipArray(s);
      Some((flat, rest))
    else if Peek(s) == '"' then
      if IsIdentityText(path) then
        var (text, rest) :- ScanStringInto(s, TEXT_SIZE);
        Some((NoteText(flat, path, text), rest))
      else
        var (_, rest) :- ScanString(s);
        Some((flat, rest))
    else if Peek(s) == '-' || IsDigit(Peek(s)) then
      var (value, rest) :- FlatNumber(s);
      Some((if value.Some? then NoteNumber(flat, path, value.value) else flat, rest))
    else
      var rest :- ScanLiteral(s);
      Some((flat, rest))
  }

  /** parse_flat_object() */
  function FlatObject(s: string, path: string, flat: Flat): (r: Option<(Flat, string)>)
    ensures r.Some? ==> |r.value.1| < |s|
    decreases |s|, 2
  {
    if Peek(s) != '{' then None
    else
      var t := SkipWs(s[1..]);
      if Peek(t) == '}' then Some((flat, t[1..])) else FlatMembers(t, path, flat)
  }

  /** The loop of parse_flat_object(), at the opening quote of a key. */
  function FlatMembers(s: string, path: string, flat: Flat): (r: Option<(Flat, string)>)
    ensures r.Some? ==> |r.value.1| < |s|
    decreases |s|, 1
  {
    var (next, s1) :- FlatMember(s, path, flat);
    var s2 := SkipWs(s1);
    if Peek(s2) == '}' then Some((next, s2[1..]))
    else if Peek(s2) == ',' then FlatMembers(SkipWs(s2[1..]), path, next)
    else None
  }

  /** One key and its value. */
  function FlatMember(s: string, path: string, flat: Flat): (r: Option<(Flat, string)>)
    ensures r.Some? ==> |r.value.1| < |s|
    decreases |s|, 0
  {
    var (key, s1) :- ScanStringInto(s, KEY_SIZE);
    var child := Join(path, key);
    var s2 := SkipWs(s1);
    if |child| >= PATH_SIZE || Peek(s2) != ':' then None else FlatValue(SkipWs(s2[1..]), child, flat)
  }

  /** parse_flat_sample() */
  function FlatSample(text: string): Option<Flat> {
    var (flat, _) :- FlatObject(text, "", EMPTY_FLAT);
    Some(flat)
  }

  // ----- what every result of the flattener satisfies ------------------------------------------

  /** A table of distinct monotonic paths that fit their buffers, with 64-bit values. */
  ghost predicate Sound(flat: Flat) {
    && Distinct(flat.metrics)
    && InRange(flat.id.tsMs)
    && (forall m :: m in flat.metrics ==> Monotonic(m.path) && |m.path| < 256 && InRange(m.value))
  }

  lemma NoteNumberSound(flat: Flat, path: string, value: int)
    requires Sound(flat) && |path| < PATH_SIZE && InRange(value)
    ensures Sound(NoteNumber(flat, path, value))
  {
    SetDistinct(flat.metrics, path, value);
    SetPaths(flat.metrics, path, value);
  }

  lemma {:induction false} NumberTailRange(start: string, value: int, end: string)
    requires |end| < |start| && InRange(value)
    ensures var r := NumberTail(start, value, end);
      r.Some? && r.value.0.Some? ==> r.value.0.value == value
    decreases |end|
  {
    if IsDigit(Peek(end)) || Peek(end) == '+' || Peek(end) == '-' {
      NumberTailRange(start, value, end[1..]);
    }
  }

  lemma FlatNumberRange(s: string)
    ensures FlatNumber(s).Some? && FlatNumber(s).value.0.Some? ==> InRange(FlatNumber(s).value.0.value)
  {
    if Strtoll(s).Some? {
      var (value, end) := Strtoll(s).value;
      NumberTailRange(s, value, end);
    }
  }

  lemma {:induction false} FlatValueSound(s: string, path: string, flat: Flat)
    requires Sound(flat) && |path| < PATH_SIZE
    ensures FlatValue(s, path, flat).Some? ==> Sound(FlatValue(s, path, flat).value.0)
    decreases |s|, 3
  {
    var t := SkipWs(s);
    if Peek(t) == '{' {
      FlatObjectSound(t, path, flat);
    } else if Peek(t) == '-' || IsDigit(Peek(t)) {
      FlatNumberRange(t);
      if FlatNumber(t).Some? && FlatNumber(t).value.0.Some? {
        NoteNumberSound(flat, path, FlatNumber(t).value.0.value);
      }
    }
  }

  lemma {:induction false} FlatObjectSound(s: string, path: string, flat: Flat)
    requires Sound(flat)
    ensures FlatObject(s, path, flat).Some? ==> Sound(FlatObject(s, path, flat).value.0)
    decreases |s|, 2
  {
    if Peek(s) == '{' && Peek(SkipWs(s[1..])) != '}' {
      FlatMembersSound(SkipWs(s[1..]), path, flat);
    }
  }

  lemma {:induction false} FlatMembersSound(s: string, path: string, flat: Flat)
    requires Sound(flat)
    ensures FlatMembers(s, path, flat).Some? ==> Sound(FlatMembers(s, path, flat).value.0)
    decreases |s|, 1
  {
    if FlatMember(s, path, flat).Some? {
      FlatMemberSound(s, path, flat);
      var (next, s1) := FlatMember(s, path, flat).value;
      if Peek(SkipWs(s1)) == ',' {
        FlatMembersSound(SkipWs(SkipWs(s1)[1..]), path, next);
      }
    }
  }

  lemma {:induction false} FlatMemberSound(s: string, path: string, flat: Flat)
    requires Sound(flat)
    ensures FlatMember(s, path, flat).Some? ==> Sound(FlatMember(s, path, flat).value.0)
    decreases |s|, 0
  {
    if FlatMember(s, path, flat).Some? {
      var (key, s1) := ScanStringInto(s, KEY_SIZE).value;
      FlatValueSound(SkipWs(SkipWs(s1)[1..]), Join(path, key), flat);
    }
  }

  /** For every text: what the flattener accepts is a table of distinct, untruncated monotonic
      paths with values that fit a long long. */
  lemma FlatSampleSound(text: string)
    ensures FlatSample(text).Some? ==> Sound(FlatSample(text).value)
  {
    FlatObjectSound(text, "", EMPTY_FLAT);
  }

  // ----- the checkpoint splice -----------------------------------------------------------------

  const CHECKPOINT_HEAD := "{\"sample_kind\":\"checkpoint\","

  /** build_checkpoint_json() on a text that starts with '{' */
  function CheckpointText(sample: string): string
    requires sample != ""
  {
    CHECKPOINT_HEAD + sample[1..]
  }

  /** The object has a member: the text after '{' and white space is not '}'. */
  predicate HasMember(sample: string) {
    sample != "" && Peek(SkipWs(sample[1..])) != '}'
  }

  lemma SpliceHeadScans(rest: string)
    ensures ScanString("\"sample_kind\":" + rest) == Some(("sample_kind", ":" + rest))
    ensures ScanString("\"checkpoint\"," + rest) == Some(("checkpoint", "," + rest))
  {
    assert ("\"sample_kind\":" + rest)[1..] == "sample_kind" + "\"" + (":" + rest);
    RawString("sample_kind", ":" + rest);
    assert ("\"checkpoint\"," + rest)[1..] == "checkpoint" + "\"" + ("," + rest);
    RawString("checkpoint", "," + rest);
  }

  /** For every text that starts with '{': the checkpoint record flattens to what the sample
      flattens to when the object has a member, and to nothing when it has none. */
  lemma CheckpointSplice(sample: string)
    requires Peek(sample) == '{'
    ensures FlatSample(CheckpointText(sample)) == if HasMember(sample) then FlatSample(sample) else None
  {
    var body := sample[1..];
    SpliceMember(body);
    if HasMember(sample) {
      assert FlatObject(sample, "", EMPTY_FLAT) == FlatMembers(SkipWs(body), "", EMPTY_FLAT);
    } else {
      assert FlatMember(SkipWs(body), "", EMPTY_FLAT) == None;
    }
  }

  lemma SpliceMember(body: string)
    ensures FlatObject(CHECKPOINT_HEAD + body, "", EMPTY_FLAT) == FlatMembers(SkipWs(body), "", EMPTY_FLAT)
  {
    var member := "\"sample_kind\":" + ("\"checkpoint\"," + body);
    SpliceText(body);
    SpliceHeadReads(body);
    ObjectTurn(member, body);
  }

  lemma SpliceText(body: string)
    ensures CHECKPOINT_HEAD + body == "{" + ("\"sample_kind\":" + ("\"checkpoint\"," + body))
    ensures Peek("\"sample_kind\":" + ("\"checkpoint\"," + body)) == '"'
  {
  }

  lemma SpliceHeadReads(body: string)
    ensures FlatMember("\"sample_kind\":" + ("\"checkpoint\"," + body), "", EMPTY_FLAT) ==
            Some((EMPTY_FLAT, "," + body))
  {
    var value := "\"checkpoint\"," + body;
    SpliceHeadScans(value);
    SpliceHeadScans(body);
    assert (":" + value)[1..] == value;
    assert FlatValue(value, "sample_kind", EMPTY_FLAT) == Some((EMPTY_FLAT, "," + body));
  }

  lemma ObjectTurn(member: string, body: string)
    requires Peek(member) == '"' && FlatMember(member, "", EMPTY_FLAT) == Some((EMPTY_FLAT, "," + body))
    ensures FlatObject("{" + member, "", EMPTY_FLAT) == FlatMembers(SkipWs(body), "", EMPTY_FLAT)
  {
    assert ("{" + member)[1..] == member;
    assert ("," + body)[1..] == body;
  }
}
