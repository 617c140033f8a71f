/** The parser of src/delta.c as it is written: a cursor moved through the text, one path buffer
    shared by every level and put back after each member, and a sample filled in place. Each method
    computes the function of the same name in JsonText or Flatten. */
module FlatParser {
  import opened Wrappers
  import opened CText
  import opened JsonText
  import opened Metrics
  import opened Flatten

  // ----- scanning ------------------------------------------------------------------------------

  method SkipSpace(text: string, p: nat) returns (q: nat)
    requires p <= |text|
    ensures p <= q <= |text| && text[q..] == SkipWs(text[p..])
  {
    q := p;
    while q < |text| && IsSpace(text[q])
      invariant p <= q <= |text| && SkipWs(text[q..]) == SkipWs(text[p..])
    {
      assert text[q..][1..] == text[q + 1..];
      q := q + 1;
    }
  }

  /** Past the character under the cursor and the white space after it. */
  method SkipPast(text: string, p: nat) returns (q: nat)
    requires p < |text|
    ensures p < q <= |text| && text[q..] == SkipWs(text[p..][1..])
  {
    assert text[p..][1..] == text[p + 1..];
    q := SkipSpace(text, p + 1);
  }

  /** Past the character under the cursor. */
  function Next(text: string, p: nat): (q: nat)
    requires p < |text|
    ensures p < q <= |text| && text[q..] == text[p..][1..]
  {
    p + 1
  }

  /** The character under the cursor, NUL at the end. */
  function At(text: string, p: nat): (c: char)
    requires p <= |text|
    ensures c == Peek(text[p..])
  {
    if p < |text| then text[p] else NUL
  }

  /** parse_json_string(); an empty array stands for a NULL destination. */
  method ParseJsonString(text: string, p: nat, dst: array<char>) returns (ok: bool, q: nat, len: nat)
    requires p <= |text|
    modifies dst
    ensures p <= q <= |text|
    ensures dst.Length == 0 ==> ok == ScanString(text[p..]).Some? && (ok ==> text[q..] == ScanString(text[p..]).value.1)
    ensures dst.Length > 0 ==> ok == ScanStringInto(text[p..], dst.Length).Some?
    ensures dst.Length > 0 && ok ==>
              && len < dst.Length && dst[len] == NUL
              && ScanString(text[p..]) == Some((dst[..len], text[q..]))
  {
    q, len := p, 0;
    var store := dst.Length > 0;
    if At(text, q) != '"' {
      return false, q, len;
    }
    q := q + 1;
    assert text[p..][1..] == text[q..];
    ghost var decoded := "";
    GlueNothing(StringBody(text[q..]));
    while At(text, q) != NUL && At(text, q) != '"'
      invariant p < q <= |text|
      invariant ScanString(text[p..]) == Glue(decoded, StringBody(text[q..]))
      invariant store ==> len == |decoded| < dst.Length && dst[..len] == decoded
      decreases |text| - q
    {
      var ch;
      ch, q := ReadChar(text, q);
      if ch.None? {
        return false, q, len;
      }
      GlueTwice(decoded, [ch.value], StringBody(text[q..]));
      if store {
        if len + 1 >= dst.Length {
          return false, q, len;
        }
        dst[len] := ch.value;
        len := len + 1;
      }
      decoded := decoded + [ch.value];
    }
    if At(text, q) != '"' {
      return false, q, len;
    }
    assert decoded + "" == decoded;
    assert Glue(decoded, StringBody(text[q..])) == Some((decoded, text[q..][1..]));
    q := Next(text, q);
    if store {
      dst[len] := NUL;
    }
    ok := true;
  }

  lemma GlueNothing(r: Option<(string, string)>)
    ensures Glue("", r) == r
  {
    assert r.Some? ==> "" + r.value.0 == r.value.0;
  }

  lemma GlueTwice(a: string, b: string, r: Option<(string, string)>)
    ensures Glue(a, Glue(b, r)) == Glue(a + b, r)
  {
    assert r.Some? ==> a + (b + r.value.0) == a + b + r.value.0;
  }

  /** One character of a string literal, or one escape sequence. */
  method ReadChar(text: string, p: nat) returns (ch: Option<char>, q: nat)
    requires p < |text| && text[p] != '"' && text[p] != NUL
    ensures p < q <= |text|
    ensures StringBody(text[p..]) == if ch.None? then None else Glue([ch.value], StringBody(text[q..]))
  {
    q := Next(text, p);
    ch := Some(text[p]);
    if text[p] == '\\' {
      ch := Unescape(At(text, q));
      if ch.Some? {
        assert text[p..][2..] == text[q + 1..];
        q := q + 1;
      }
    }
  }

  /** The cursor at the end pointer of strtod(). */
  function StrtodEnd(text: string, p: nat): (q: nat)
    requires p <= |text|
    ensures p <= q <= |text| && text[q..] == Strtod(text[p..])
  {
    var rest := Strtod(text[p..]);
    StrtodWithin(text, p, rest);
    |text| - |rest|
  }

  lemma StrtodWithin(text: string, p: nat, rest: string)
    requires p <= |text| && rest == Strtod(text[p..])
    ensures |rest| <= |text| - p && text[|text| - |rest|..] == rest
  {
    StrtodSuffix(text[p..]);
    SuffixFrom(text, p, rest);
  }

  method ParseLiteral(text: string, p: nat) returns (ok: bool, q: nat)
    requires p <= |text|
    ensures p <= q <= |text|
    ensures ok == ScanLiteral(text[p..]).Some? && (ok ==> text[q..] == ScanLiteral(text[p..]).value)
  {
    var s := text[p..];
    if HasPrefix(s, "true") || (HasPrefix(s, "null") && !HasPrefix(s, "false")) {
      assert s[4..] == text[p + 4..];
      return true, p + 4;
    }
    if HasPrefix(s, "false") {
      assert s[5..] == text[p + 5..];
      return true, p + 5;
    }
    return false, p;
  }

  method SkipJsonArray(text: string, p: nat) returns (ok: bool, q: nat)
    requires p <= |text|
    ensures p <= q <= |text|
    ensures ok == SkipArray(text[p..]).Some? && (ok ==> text[q..] == SkipArray(text[p..]).value)
    decreases |text| - p, 0
  {
    q := p;
    if At(text, q) != '[' {
      return false, q;
    }
    q := SkipPast(text, q);
    if At(text, q) == ']' {
      return true, Next(text, q);
    }
    while true
      invariant p < q <= |text|
      invariant SkipArray(text[p..]) == SkipItems(text[q..])
      decreases |text| - q
    {
      ok, q := SkipJsonValue(text, q);
      if !ok {
        return;
      }
      q := SkipSpace(text, q);
      if At(text, q) == ']' {
        return true, Next(text, q);
      }
      if At(text, q) != ',' {
        return false, q;
      }
      q := SkipPast(text, q);
    }
  }

  method SkipJsonObject(text: string, p: nat) returns (ok: bool, q: nat)
    requires p <= |text|
    ensures p <= q <= |text|
    ensures ok == SkipObject(text[p..]).Some? && (ok ==> text[q..] == SkipObject(text[p..]).value)
    decreases |text| - p, 0
  {
    q := p;
    if At(text, q) != '{' {
      return false, q;
    }
    q := SkipPast(text, q);
    if At(text, q) == '}' {
      return true, Next(text, q);
    }
    var tmp := new char[SKIP_BUFFER];
    while true
      invariant p < q <= |text|
      invariant SkipObject(text[p..]) == SkipMembers(text[q..])
      decreases |text| - q
    {
      var len;
      ok, q, len := ParseJsonString(text, q, tmp);
      if !ok {
        return;
      }
      q := SkipSpace(text, q);
      if At(text, q) != ':' {
        return false, q;
      }
      q := SkipPast(text, q);
      ok, q := SkipJsonValue(text, q);
      if !ok {
        return;
      }
      q := SkipSpace(text, q);
      if At(text, q) == '}' {
        return true, Next(text, q);
      }
      if At(text, q) != ',' {
        return false, q;
      }
      q := SkipPast(text, q);
    }
  }

  method SkipJsonValue(text: string, p: nat) returns (ok: bool, q: nat)
    requires p <= |text|
    ensures p <= q <= |text|
    ensures ok == SkipValue(text[p..]).Some? && (ok ==> text[q..] == SkipValue(text[p..]).value)
    decreases |text| - p, 1
  {
    q := SkipSpace(text, p);
    if At(text, q) == '"' {
      var tmp := new char[SKIP_BUFFER];
      var len;
      ok, q, len := ParseJsonString(text, q, tmp);
    } else if At(text, q) == '{' {
      ok, q := SkipJsonObject(text, q);
    } else if At(text, q) == '[' {
      ok, q := SkipJsonArray(text, q);
    } else if At(text, q) == '-' || IsDigit(At(text, q)) {
      var end := StrtodEnd(text, q);
      if end == q {
        return false, q;
      }
      return true, end;
    } else {
      ok, q := ParseLiteral(text, q);
    }
  }

  // ----- flattening ----------------------------------------------------------------------------

  /** How often realloc says no. */
  function Refusals(answers: seq<bool>): nat {
    if answers == [] then 0 else (if answers[0] then 0 else 1) + Refusals(answers[1..])
  }

  /** Filling `part` in place of `all`, `answers` are left of those that were `given`. */
  ghost predicate Filled(part: seq<Metric>, all: seq<Metric>, answers: seq<bool>, given: seq<bool>) {
    && Distinct(all) && IsPart(part, all)
    && Refusals(answers) <= Refusals(given)
    && |all| + Refusals(answers) <= |part| + Refusals(given)
    && (Refusals(given) == 0 ==> part == all)
  }

  /** The sample being filled. `answers` is what realloc still answers; once they run out, it succeeds.
      A counter for which it fails is dropped, so the table is a part of the metrics of the whole
      sample, and lacks no more of them than there were refusals. */
  class FlatSampleBuilder {
    var identity: Identity
    const table: MetricTable
    var answers: seq<bool>
    ghost const given: seq<bool>
    ghost var whole: Flat

    ghost predicate Valid()
      reads this, table, table.items
    {
      table.Valid() && identity == whole.id && Filled(table.Contents(), whole.metrics, answers, given)
    }

    constructor (answers: seq<bool>)
      ensures Valid() && fresh(table) && fresh(table.items) && whole == EMPTY_FLAT && given == answers
    {
      identity := NO_IDENTITY;
      table := new MetricTable();
      this.answers, given, whole := answers, answers, EMPTY_FLAT;
    }

    /** flat_sample_note_string() */
    method RecordText(path: string, text: string)
      requires Valid()
      modifies this
      ensures Valid() && whole == NoteText(old(whole), path, text)
    {
      if path == RUN_ID_PATH {
        identity := identity.(runId := Truncate(text, RUN_ID_SIZE), valid := true);
      } else if path == ROLE_PATH {
        identity := identity.(role := Truncate(text, ROLE_SIZE));
      }
      whole := NoteText(whole, path, text);
    }

    /** flat_sample_note_number() */
    method RecordNumber(path: string, value: int)
      requires Valid() && |path| < PATH_SIZE
      modifies this, table, table.items
      ensures Valid() && (table.items == old(table.items) || fresh(table.items))
      ensures whole == NoteNumber(old(whole), path, value)
    {
      if path == TS_PATH {
        identity := identity.(tsMs := value, valid := true);
      } else if path == PROCESS_ID_PATH {
        identity := identity.(processId := value, valid := true);
      } else if path == UPTIME_PATH {
        identity := identity.(uptime := value, valid := true);
      }
      ghost var metrics := whole.metrics;
      whole := NoteNumber(whole, path, value);
      if Monotonic(path) {
        AddMetric(path, value, metrics);
      }
    }

    /** flat_sample_add_metric(). Its result is not looked at. */
    method AddMetric(path: string, value: int, ghost metrics: seq<Metric>)
      requires |path| < PATH_SIZE && table.Valid() && identity == whole.id
      requires whole.metrics == Set(metrics, path, value) && Filled(table.Contents(), metrics, answers, given)
      modifies this`answers, table, table.items
      ensures Valid() && (table.items == old(table.items) || fresh(table.items))
    {
      FilledSet(table.Contents(), metrics, answers, given, path, value);
      var ok, asked := table.Store(path, value, answers == [] || answers[0]);
      if asked && answers != [] {
        answers := answers[1..];
      }
    }
  }

  lemma FilledSet(part: seq<Metric>, all: seq<Metric>, answers: seq<bool>, given: seq<bool>, path: string, value: int)
    requires |path| < PATH_SIZE && Filled(part, all, answers, given)
    ensures Filled(Set(part, path, value), Set(all, path, value), answers, given)
    ensures answers != [] && answers[0] ==> Filled(Set(part, path, value), Set(all, path, value), answers[1..], given)
    ensures answers != [] && !answers[0] && !Has(part, path) ==>
              Filled(part, Set(all, path, value), answers[1..], given)
  {
    PartSet(part, all, path, value);
    SetDistinct(all, path, value);
    SetLength(part, path, value);
    SetLength(all, path, value);
    if Has(part, path) {
      PartHas(part, all, path);
    }
  }

  lemma PartHas(part: seq<Metric>, all: seq<Metric>, path: string)
    requires IsPart(part, all) && Has(part, path)
    ensures Has(all, path)
  {
    var i :| 0 <= i < |part| && part[i].path == path;
    assert part[i] in all;
  }

  /** The buffer holds the NUL-terminated string `s`. */
  ghost predicate Holds(buffer: array<char>, s: string)
    reads buffer
  {
    |s| < buffer.Length && buffer[..|s|] == s && buffer[|s|] == NUL && NUL !in s
  }

  method ParseFlatNumber(text: string, p: nat) returns (ok: bool, value: Option<int>, q: nat)
    requires p <= |text|
    ensures p <= q <= |text|
    ensures ok == FlatNumber(text[p..]).Some? && (ok ==> FlatNumber(text[p..]) == Some((value, text[q..])))
  {
    q, value := p, None;
    var converted := Strtoll(text[p..]);
    if converted.None? {
      return false, value, q;
    }
    StrtollSuffix(text[p..]);
    SuffixFrom(text, p, converted.value.1);
    var end := |text| - |converted.value.1|;
    assert text[end..] == converted.value.1;
    while true
      invariant p < end <= |text|
      invariant FlatNumber(text[p..]) == NumberTail(text[p..], converted.value.0, text[end..])
      decreases |text| - end
    {
      var c := At(text, end);
      if c == '.' || c == 'e' || c == 'E' {
        var floatEnd := StrtodEnd(text, p);
        return floatEnd != p, None, floatEnd;
      }
      if !IsDigit(c) && c != '+' && c != '-' {
        return true, Some(converted.value.0), end;
      }
      end := Next(text, end);
    }
  }

  method ParseFlatValue(text: string, p: nat, flat: FlatSampleBuilder, path: array<char>, pathLen: nat,
                        ghost prefix: string)
    returns (ok: bool, q: nat)
    requires p <= |text| && flat.Valid() && Holds(path, prefix) && pathLen == |prefix| && path.Length == PATH_SIZE
    modifies flat, flat.table, flat.table.items, path
    ensures p <= q <= |text| && flat.Valid() && (flat.table.items == old(flat.table.items) || fresh(flat.table.items))
    ensures ok == FlatValue(text[p..], prefix, old(flat.whole)).Some?
    ensures ok ==> FlatValue(text[p..], prefix, old(flat.whole)) == Some((flat.whole, text[q..]))
    ensures ok ==> Holds(path, prefix)
    decreases |text| - p, 4
  {
    q := SkipSpace(text, p);
    if At(text, q) == '{' {
      ok, q := ParseFlatObject(text, q, flat, path, pathLen, prefix);
    } else if At(text, q) == '[' {
      ok, q := SkipJsonArray(text, q);
    } else if At(text, q) == '"' {
      FlatValueSkips(text[p..], prefix, flat.whole);
      ok, q := ParseFlatString(text, q, flat, path, pathLen, prefix);
    } else if At(text, q) == '-' || IsDigit(At(text, q)) {
      var value;
      ok, value, q := ParseFlatNumber(text, q);
      if ok && value.Some? {
        flat.RecordNumber(path[..pathLen], value.value);
      }
    } else {
      ok, q := ParseLiteral(text, q);
    }
  }

  lemma FlatValueSkips(s: string, path: string, flat: Flat)
    requires Peek(SkipWs(s)) == '"'
    ensures FlatValue(s, path, flat) == FlatValue(SkipWs(s), path, flat)
  {
    assert SkipWs(SkipWs(s)) == SkipWs(s);
  }

  /** The strings of parse_flat_value(): two of them belong to the identity. */
  method ParseFlatString(text: string, p: nat, flat: FlatSampleBuilder, path: array<char>, pathLen: nat,
                         ghost prefix: string)
    returns (ok: bool, q: nat)
    requires p <= |text| && flat.Valid() && Holds(path, prefix) && pathLen == |prefix| && path.Length == PATH_SIZE
    requires Peek(text[p..]) == '"'
    modifies flat
    ensures p <= q <= |text| && flat.Valid() && flat.table.items == old(flat.table.items)
    ensures ok == FlatValue(text[p..], prefix, old(flat.whole)).Some?
    ensures ok ==> FlatValue(text[p..], prefix, old(flat.whole)) == Some((flat.whole, text[q..]))
    ensures Holds(path, prefix)
  {
    var here := path[..pathLen];
    var len;
    assert SkipWs(text[p..]) == text[p..];
    if here == RUN_ID_PATH || here == ROLE_PATH {
      var tmp := new char[TEXT_SIZE];
      ok, q, len := ParseJsonString(text, p, tmp);
      if ok {
        flat.RecordText(here, tmp[..len]);
      }
    } else {
      var nowhere := new char[0];
      ok, q, len := ParseJsonString(text, p, nowhere);
    }
  }

  method ParseFlatObject(text: string, p: nat, flat: FlatSampleBuilder, path: array<char>, pathLen: nat,
                         ghost prefix: string)
    returns (ok: bool, q: nat)
    requires p <= |text| && flat.Valid() && Holds(path, prefix) && pathLen == |prefix| && path.Length == PATH_SIZE
    modifies flat, flat.table, flat.table.items, path
    ensures p <= q <= |text| && flat.Valid() && (flat.table.items == old(flat.table.items) || fresh(flat.table.items))
    ensures ok == FlatObject(text[p..], prefix, old(flat.whole)).Some?
    ensures ok ==> FlatObject(text[p..], prefix, old(flat.whole)) == Some((flat.whole, text[q..]))
    ensures ok ==> Holds(path, prefix)
    decreases |text| - p, 3
  {
    q := p;
    if At(text, q) != '{' {
      return false, q;
    }
    q := SkipPast(text, q);
    if At(text, q) == '}' {
      return true, Next(text, q);
    }
    while true
      invariant p < q <= |text| && flat.Valid() && Holds(path, prefix)
      invariant flat.table.items == old(flat.table.items) || fresh(flat.table.items)
      invariant FlatObject(text[p..], prefix, old(flat.whole)) == FlatMembers(text[q..], prefix, flat.whole)
      decreases |text| - q
    {
      ok, q := ParseFlatMember(text, q, flat, path, pathLen, prefix);
      if !ok {
        return;
      }
      q := SkipSpace(text, q);
      if At(text, q) == '}' {
        return true, Next(text, q);
      }
      if At(text, q) != ',' {
        return false, q;
      }
      q := SkipPast(text, q);
    }
  }

  /** The body of the loop of parse_flat_object(): a key, its value, and the path put back. */
  method ParseFlatMember(text: string, p: nat, flat: FlatSampleBuilder, path: array<char>, pathLen: nat,
                         ghost prefix: string)
    returns (ok: bool, q: nat)
    requires p <= |text| && flat.Valid() && Holds(path, prefix) && pathLen == |prefix| && path.Length == PATH_SIZE
    modifies flat, flat.table, flat.table.items, path
    ensures p <= q <= |text| && flat.Valid() && (flat.table.items == old(flat.table.items) || fresh(flat.table.items))
    ensures ok == FlatMember(text[p..], prefix, old(flat.whole)).Some?
    ensures ok ==> FlatMember(text[p..], prefix, old(flat.whole)) == Some((flat.whole, text[q..]))
    ensures ok ==> Holds(path, prefix)
    decreases |text| - p, 2
  {
    var childLen;
    ok, q, childLen := PushKey(text, p, path, pathLen, prefix);
    if !ok {
      return;
    }
    ghost var child := Join(prefix, ScanString(text[p..]).value.0);
    assert q > p;
    FlatMemberTurn(text[p..], prefix, flat.whole);
    ok, q := ParseColonValue(text, q, flat, path, childLen, child);
    if ok {
      RestorePath(path, pathLen, prefix, child);
    }
  }

  /** What follows a key. */
  function ColonValue(s: string, path: string, flat: Flat): Option<(Flat, string)> {
    var t := SkipWs(s);
    if Peek(t) != ':' then None else FlatValue(SkipWs(t[1..]), path, flat)
  }

  /** After its key, what a member gives depends on a colon and its value. */
  lemma FlatMemberTurn(s: string, prefix: string, flat: Flat)
    requires ScanStringInto(s, KEY_SIZE).Some? && |Join(prefix, ScanString(s).value.0)| < PATH_SIZE
    ensures FlatMember(s, prefix, flat) ==
            ColonValue(ScanString(s).value.1, Join(prefix, ScanString(s).value.0), flat)
  {
  }

  /** The colon and the value of a member. */
  method ParseColonValue(text: string, p: nat, flat: FlatSampleBuilder, path: array<char>, pathLen: nat,
                         ghost prefix: string)
    returns (ok: bool, q: nat)
    requires p <= |text| && flat.Valid() && Holds(path, prefix) && pathLen == |prefix| && path.Length == PATH_SIZE
    modifies flat, flat.table, flat.table.items, path
    ensures p <= q <= |text| && flat.Valid() && (flat.table.items == old(flat.table.items) || fresh(flat.table.items))
    ensures ok == ColonValue(text[p..], prefix, old(flat.whole)).Some?
    ensures ok ==> ColonValue(text[p..], prefix, old(flat.whole)) == Some((flat.whole, text[q..]))
    ensures ok ==> Holds(path, prefix)
    decreases |text| - p, 2
  {
    q := SkipSpace(text, p);
    if At(text, q) != ':' {
      return false, q;
    }
    q := SkipPast(text, q);
    ok, q := ParseFlatValue(text, q, flat, path, pathLen, prefix);
  }

  /** Reads a key and extends the path with it. */
  method PushKey(text: string, p: nat, path: array<char>, pathLen: nat, ghost prefix: string)
    returns (ok: bool, q: nat, childLen: nat)
    requires p <= |text| && Holds(path, prefix) && pathLen == |prefix| && path.Length == PATH_SIZE
    modifies path
    ensures p <= q <= |text|
    ensures ok ==
            (ScanStringInto(text[p..], KEY_SIZE).Some? && |Join(prefix, ScanString(text[p..]).value.0)| < PATH_SIZE)
    ensures ok ==>
              && text[q..] == ScanString(text[p..]).value.1
              && childLen == |Join(prefix, ScanString(text[p..]).value.0)|
              && Holds(path, Join(prefix, ScanString(text[p..]).value.0))
  {
    var key := new char[KEY_SIZE];
    var keyLen;
    ok, q, keyLen := ParseJsonString(text, p, key);
    childLen := pathLen;
    if !ok {
      return;
    }
    ghost var k := key[..keyLen];
    if childLen != 0 {
      if childLen + 1 >= path.Length {
        return false, q, childLen;
      }
      path[childLen] := '.';
      childLen := childLen + 1;
    }
    if childLen + keyLen >= path.Length {
      return false, q, childLen;
    }
    ghost var base := path[..childLen];
    assert base == if prefix == "" then "" else prefix + ".";
    CopyText(path, childLen, key, keyLen);
    childLen := childLen + keyLen;
    JoinIs(prefix, k, base);
  }

  /** memcpy() of a text and its terminator. */
  method CopyText(target: array<char>, at: nat, source: array<char>, n: nat)
    requires at + n < target.Length && n < source.Length && target != source
    modifies target
    ensures target[..at + n] == old(target[..at]) + source[..n] && target[at + n] == source[n]
  {
    forall i | 0 <= i <= n {
      target[at + i] := source[i];
    }
  }

  lemma JoinIs(prefix: string, key: string, base: string)
    requires base == (if prefix == "" then "" else prefix + ".")
    ensures Join(prefix, key) == base + key
    ensures NUL !in prefix && NUL !in key ==> NUL !in base + key
  {
    assert prefix == "" ==> base + key == key;
  }

  /** Ends the path buffer at the length it had before the member. */
  method RestorePath(path: array<char>, pathLen: nat, ghost prefix: string, ghost child: string)
    requires Holds(path, child) && pathLen == |prefix| <= |child| && child[..pathLen] == prefix && NUL !in prefix
    modifies path
    ensures Holds(path, prefix)
  {
    assert path[..pathLen] == path[..|child|][..pathLen];
    path[pathLen] := NUL;
  }

  /** parse_flat_sample(), with the answers of realloc while it runs. */
  method ParseFlatSample(text: string, answers: seq<bool>) returns (flat: Option<Flat>)
    ensures flat.Some? <==> FlatSample(text).Some?
    ensures flat.Some? ==>
              var all := FlatSample(text).value;
              && flat.value.id == all.id && IsPart(flat.value.metrics, all.metrics)
              && |all.metrics| <= |flat.value.metrics| + Refusals(answers)
    ensures Refusals(answers) == 0 ==> flat == FlatSample(text)
  {
    var path := new char[PATH_SIZE](_ => NUL);
    var builder := new FlatSampleBuilder(answers);
    assert text[0..] == text;
    var ok, q := ParseFlatObject(text, 0, builder, path, 0, "");
    if !ok {
      return None;
    }
    return Some(Flat(builder.identity, builder.table.items[..builder.table.len]));
  }
}
