/** A whole sample, from INFO text to the counters the flattener finds in it. */
module Sample {
  import opened Wrappers
  import opened CText
  import opened Json
  import opened Flatten
  import opened FlattenJson
  import opened Buffers
  import opened Collector

  // ----- what the printer writes is a JSON value the flattener can be asked about -----------------------

  /** For every numeral the classifier accepts: it is a number by section 6 of RFC 8259 exactly when it
      has no '+' and a digit before any point; the others are the loose ones. */
  lemma NumeralIsNumber(t: string)
    requires IsNumeral(t)
    ensures t != "" && (IsNumber(t) || IsLooseNumber(t))
    ensures IsNumber(t) <==> t[0] != '+' && IsDigit(Magnitude(t)[0])
  {
    var u := DropSign(t);
    var k := DigitRun(u);
    if k < |u| {
      assert u[k..][1..] == u[k + 1..];
      DigitRunAll(u[k + 1..]);
      assert u[k + 1..][|u| - k - 1..] == "";
      assert u[k..][1 + (|u| - k - 1)..] == "";
    } else {
      assert u[k..] == "";
    }
    if k == 0 && t[0] == '-' {
      assert t[2..] == u[1..];
    }
  }

  lemma {:induction false} ValuePrintable(raw: string)
    ensures Printable(ValueOf(raw))
    decreases |raw|, 1
  {
    var value := Trim(raw);
    if IsNumeral(value) {
      NumeralIsNumber(value);
    } else if IsCompound(value) {
      PairsPrintable(Split(value, ','), |raw|);
    }
  }

  lemma {:induction false} PairsPrintable(tokens: seq<string>, size: nat)
    ensures forall m :: m in PairsOf(tokens, size) ==> Printable(m.value)
    decreases size, 0, |tokens|
  {
    if tokens != [] {
      if PairMember(tokens[0], size) != [] {
        ValuePrintable(Pair(tokens[0]).value.1);
      }
      PairsPrintable(tokens[1..], size);
    }
  }

  lemma {:induction false} LinesPrintable(lines: seq<string>)
    ensures forall m :: m in LineMembers(lines) ==> Printable(m.value)
  {
    if lines != [] {
      var line := lines[0];
      LinesPrintable(lines[1..]);
      if LineMember(line) != [] {
        ValuePrintable(StripReturns(line[Find(line, ':') + 1..]));
      }
    }
  }

  // ----- the leaves of INFO lines -----------------------------------------------------------------------

  function LineLeaves(line: string, path: string): seq<Leaf> {
    MemberLeaves(LineMember(line), path)
  }

  function LinesLeaves(lines: seq<string>, path: string): seq<Leaf> {
    if lines == [] then [] else LineLeaves(lines[0], path) + LinesLeaves(lines[1..], path)
  }

  lemma {:induction false} MemberLeavesConcat(a: seq<Member>, b: seq<Member>, path: string)
    ensures MemberLeaves(a + b, path) == MemberLeaves(a, path) + MemberLeaves(b, path)
    decreases |a|
  {
    if a == [] {
      assert a + b == b;
    } else {
      assert (a + b)[1..] == a[1..] + b;
      MemberLeavesConcat(a[1..], b, path);
    }
  }

  /** The leaves of a section are those of its lines, in order. */
  lemma {:induction false} InfoLeaves(lines: seq<string>, path: string)
    ensures MemberLeaves(LineMembers(lines), path) == LinesLeaves(lines, path)
  {
    if lines != [] {
      MemberLeavesConcat(LineMember(lines[0]), LineMembers(lines[1..]), path);
      InfoLeaves(lines[1..], path);
    }
  }

  /** A key that INFO can have in front of a colon. */
  predicate IsKey(key: string) {
    key != "" && key[0] != '#' && key[0] != '\r' && ':' !in key
  }

  lemma {:induction false} FindEnd(key: string, rest: string)
    requires ':' !in key
    ensures Find(key + ":" + rest, ':') == |key|
  {
    var line := key + ":" + rest;
    var k := Find(line, ':');
    assert line[|key|] == ':';
  }

  lemma TrimSolid(s: string)
    requires s != "" && !IsSpace(s[0]) && !IsSpace(s[|s| - 1])
    ensures Trim(s) == s
  {
  }

  lemma IntTextShape(n: int)
    ensures var s := IntText(n); s != "" && !IsSpace(s[0]) && !IsSpace(s[|s| - 1])
  {
    var ds := NatText(if n < 0 then -n else n);
    assert IsDigit(ds[0]) && IsDigit(ds[|ds| - 1]);
  }

  lemma IntTextNumeral(n: int)
    requires InRange(n)
    ensures IsNumeral(IntText(n)) && IsNumber(IntText(n)) && IntOf(IntText(n)) == Some(n)
  {
    var ds := NatText(if n < 0 then -n else n);
    assert IsDigit(ds[0]);
    IntTextMagnitude(n);
    DigitRunAll(ds);
    NatTextValue(if n < 0 then -n else n);
    assert ds[..|ds|] == ds && ds[|ds|..] == "";
  }

  lemma IntTextMagnitude(n: int)
    ensures var s, ds := IntText(n), NatText(if n < 0 then -n else n);
      Magnitude(s) == ds && DropSign(s) == ds && (Peek(s) == '-' <==> n < 0)
  {
    var ds := NatText(if n < 0 then -n else n);
    assert IsDigit(ds[0]);
    assert ("-" + ds)[1..] == ds;
  }

  lemma IntValue(n: int)
    requires InRange(n)
    ensures ValueOf(IntText(n)) == Num(IntText(n))
  {
    IntTextShape(n);
    TrimSolid(IntText(n));
    IntTextNumeral(n);
  }

  lemma CutKey(key: string, value: string)
    requires IsKey(key)
    ensures LineMember(key + ":" + value) == [Member(key, ValueOf(StripReturns(value)))]
  {
    var line := key + ":" + value;
    FindEnd(key, value);
    assert line[..|key|] == key && line[|key| + 1..] == value;
  }

  lemma OneMemberLeaves(m: Member, path: string)
    ensures MemberLeaves([m], path) == Leaves(m.value, Join(path, m.key))
  {
    assert [m][1..] == [];
  }

  lemma IntLeaves(n: int, path: string)
    requires InRange(n)
    ensures Leaves(ValueOf(IntText(n)), path) == [IntLeaf(path, n)]
  {
    IntValue(n);
    IntTextNumeral(n);
  }

  lemma StripInt(n: int, end: string)
    requires end == "" || end == "\r"
    ensures StripReturns(IntText(n) + end) == IntText(n)
  {
    IntTextShape(n);
    assert StripReturns(IntText(n)) == IntText(n);
    assert end == "" ==> IntText(n) + end == IntText(n);
    assert end == "\r" ==> (IntText(n) + end)[..|IntText(n)|] == IntText(n);
  }

  /** `key:integer`, with or without the carriage return INFO ends its lines with, is one integer leaf. */
  lemma CounterLine(key: string, n: int, end: string, path: string)
    requires IsKey(key) && InRange(n) && (end == "" || end == "\r")
    ensures LineLeaves(key + ":" + (IntText(n) + end), path) == [IntLeaf(Join(path, key), n)]
  {
    CutKey(key, IntText(n) + end);
    StripInt(n, end);
    OneMemberLeaves(Member(key, ValueOf(IntText(n))), path);
    IntLeaves(n, Join(path, key));
  }

  lemma {:induction false} LastIntConcat(a: seq<Leaf>, b: seq<Leaf>, path: string)
    ensures LastInt(a + b, path) == if LastInt(b, path).Some? then LastInt(b, path) else LastInt(a, path)
    decreases |b|
  {
    if b == [] {
      assert a + b == a;
    } else {
      assert (a + b)[..|a + b| - 1] == a + b[..|b| - 1];
      LastIntConcat(a, b[..|b| - 1], path);
    }
  }

  lemma CounterLineDecides(key: string, n: int, end: string, path: string)
    requires IsKey(key) && InRange(n) && (end == "" || end == "\r")
    ensures LastInt(LineLeaves(key + ":" + (IntText(n) + end), path), Join(path, key)) == Some(n)
  {
    CounterLine(key, n, end, path);
    LastOfThree([], IntLeaf(Join(path, key), n), []);
    assert [] + ([IntLeaf(Join(path, key), n)] + []) == [IntLeaf(Join(path, key), n)];
  }

  lemma {:induction false} PairsConcat(a: seq<string>, b: seq<string>, size: nat)
    ensures PairsOf(a + b, size) == PairsOf(a, size) + PairsOf(b, size)
    decreases |a|
  {
    if a == [] {
      assert a + b == b;
    } else {
      assert (a + b)[1..] == a[1..] + b;
      PairsConcat(a[1..], b, size);
    }
  }

  predicate Solid(s: string) {
    s != "" && !IsSpace(s[0]) && !IsSpace(s[|s| - 1])
  }

  /** A token `key=value` without white space at its ends is that pair. */
  lemma PlainPair(key: string, value: string)
    requires Solid(key) && Solid(value) && '=' !in key
    ensures Pair(key + "=" + value) == Some((key, value))
  {
    var token := key + "=" + value;
    assert token[..|key|] == key && token[|key| + 1..] == value;
    EqualsAt(key, value);
    TrimSolid(token);
    TrimSolid(key);
    TrimSolid(value);
    NoWs(token);
  }

  lemma EqualsAt(key: string, value: string)
    requires '=' !in key
    ensures Find(key + "=" + value, '=') == |key|
  {
    var token := key + "=" + value;
    assert forall i :: 0 <= i < |key| ==> token[i] == key[i] && key[i] in key;
    assert token[|key|] == '=';
  }

  lemma SplitOnce(s: string, c: char, k: nat)
    requires k < |s| && s[k] == c && c !in s[..k] && c !in s[k + 1..] && k + 1 < |s|
    ensures Split(s, c) == [s[..k], s[k + 1..]]
  {
    assert forall i :: 0 <= i < k ==> s[i] == s[..k][i];
    SplitNever(s[k + 1..], c);
  }

  lemma SplitNever(s: string, c: char)
    requires s != "" && c !in s
    ensures Split(s, c) == [s]
  {
    assert s[..|s|] == s;
  }

  /** The leaves of a compound value: those of the pairs before, of one pair, and of those after it. */
  lemma PairsLeaves(before: seq<string>, token: string, after: seq<string>, size: nat, path: string)
    ensures MemberLeaves(PairsOf(before + ([token] + after), size), path) ==
            MemberLeaves(PairsOf(before, size), path) +
            (MemberLeaves(PairMember(token, size), path) + MemberLeaves(PairsOf(after, size), path))
  {
    PairsConcat(before, [token] + after, size);
    MemberLeavesConcat(PairsOf(before, size), PairsOf([token] + after, size), path);
    assert ([token] + after)[1..] == after;
    MemberLeavesConcat(PairMember(token, size), PairsOf(after, size), path);
  }

  /** `k=integer` in a compound value is the integer one level down, if no later pair has a leaf there. */
  lemma LastPair(before: seq<string>, token: string, after: seq<string>, size: nat, k: string, n: int, path: string)
    requires Pair(token) == Some((k, IntText(n))) && InRange(n) && |token| <= size
    requires LastInt(MemberLeaves(PairsOf(after, size), path), Join(path, k)) == None
    ensures LastInt(MemberLeaves(PairsOf(before + ([token] + after), size), path), Join(path, k)) == Some(n)
  {
    PairsLeaves(before, token, after, size, path);
    OneMemberLeaves(Member(k, ValueOf(IntText(n))), path);
    IntLeaves(n, Join(path, k));
    var leaf := IntLeaf(Join(path, k), n);
    LastOfThree(MemberLeaves(PairsOf(before, size), path), leaf, MemberLeaves(PairsOf(after, size), path));
  }

  lemma LastOfThree(a: seq<Leaf>, leaf: Leaf, b: seq<Leaf>)
    requires leaf.IntLeaf? && LastInt(b, leaf.path) == None
    ensures LastInt(a + ([leaf] + b), leaf.path) == Some(leaf.value)
  {
    LastIntConcat(a, [leaf] + b, leaf.path);
    LastIntConcat([leaf], b, leaf.path);
  }

  /** A compound value is none of the scalars tried before it. */
  lemma CompoundIsNoScalar(value: string)
    requires IsCompound(value)
    ensures value != "yes" && value != "no" && !IsNumeral(value)
  {
    var token := Split(value, ',')[0];
    FirstToken(value, ',');
    PairHasEquals(token);
    var i :| 0 <= i < |token| && token[i] == '=';
    assert value[i] == '=';
    if IsNumeral(value) {
      NumeralHasNoEquals(value);
    }
  }

  lemma FirstToken(s: string, c: char)
    requires s != ""
    ensures Split(s, c) != [] && Split(s, c)[0] in Split(s, c)
    ensures |Split(s, c)[0]| <= |s| && Split(s, c)[0] == s[..|Split(s, c)[0]|]
  {
  }

  lemma PairHasEquals(token: string)
    requires Pair(token).Some?
    ensures '=' in token
  {
    var e := Find(Trim(token), '=');
    SkipWsSuffix(token);
    assert SkipWs(token)[e] == Trim(token)[e] == '=';
    assert token[|token| - |SkipWs(token)| + e] == '=';
  }

  lemma NumeralHasNoEquals(value: string)
    requires IsNumeral(value)
    ensures '=' !in value
  {
    var u := DropSign(value);
    if '=' in value {
      var i :| 0 <= i < |value| && value[i] == '=';
      StrayCharacter(u, i - (|value| - |u|));
    }
  }

  lemma {:induction false} SkipWsSuffix(s: string)
    ensures s[|s| - |SkipWs(s)|..] == SkipWs(s)
  {
    if IsSpace(Peek(s)) {
      SkipWsSuffix(s[1..]);
    }
  }

  /** A line with a compound value, such as `slave0:ip=..,port=..,state=online,offset=..,lag=..`. */
  lemma CompoundLine(key: string, raw: string, before: seq<string>, token: string, after: seq<string>,
                     k: string, n: int, path: string)
    requires IsKey(key) && IsCompound(Trim(StripReturns(raw)))
    requires Split(Trim(StripReturns(raw)), ',') == before + ([token] + after)
    requires Pair(token) == Some((k, IntText(n))) && InRange(n)
    requires var later := MemberLeaves(PairsOf(after, |StripReturns(raw)|), Join(path, key));
      LastInt(later, Join(Join(path, key), k)) == None
    ensures LastInt(LineLeaves(key + ":" + raw, path), Join(Join(path, key), k)) == Some(n)
  {
    var stripped := StripReturns(raw);
    CutKey(key, raw);
    OneMemberLeaves(Member(key, ValueOf(stripped)), path);
    CompoundIsNoScalar(Trim(stripped));
    SplitShorter(Trim(stripped), ',');
    assert token in Split(Trim(stripped), ',');
    LastPair(before, token, after, |stripped|, k, n, Join(path, key));
  }

  /** For every section: the last line with a leaf at a path decides. */
  lemma {:induction false} LastLine(lines: seq<string>, i: nat, path: string, p: string)
    requires i < |lines| && LastInt(LineLeaves(lines[i], path), p).Some?
    requires LastInt(LinesLeaves(lines[i + 1..], path), p) == None
    ensures LastInt(LinesLeaves(lines, path), p) == LastInt(LineLeaves(lines[i], path), p)
    decreases i
  {
    var more := lines[1..];
    LastIntConcat(LineLeaves(lines[0], path), LinesLeaves(more, path), p);
    if i > 0 {
      assert more[i..] == lines[i + 1..];
      LastLine(more, i - 1, path, p);
    }
  }

  // ----- a whole sample -----------------------------------------------------------------------------------

  /** What the server answers: its clock, the nine INFO sections (an empty payload when a call fails),
      and the parts that other collectors print. */
  datatype Answers = Answers(tsMs: int, sections: seq<string>, latency: Json, slowlog: Json, host: Json)

  const SECTIONS := [
    "server", "clients", "memory", "persistence", "stats", "replication", "cpu", "commandstats", "cluster"]

  function SectionMembers(names: seq<string>, payloads: seq<string>): seq<Member>
    requires |names| == |payloads|
  {
    if names == [] then [] else [Member(names[0], InfoOf(payloads[0]))] + SectionMembers(names[1..], payloads[1..])
  }

  function InfoMember(a: Answers): Member
    requires |a.sections| == |SECTIONS|
  {
    Member("info", Obj(SectionMembers(SECTIONS, a.sections)))
  }

  function LatencyMember(a: Answers): Member {
    Member("latency_latest", a.latency)
  }

  function SlowlogMember(a: Answers): Member {
    Member("slowlog", a.slowlog)
  }

  function ValkeyOf(a: Answers): Json
    requires |a.sections| == |SECTIONS|
  {
    Obj([InfoMember(a)] + [LatencyMember(a), SlowlogMember(a)])
  }

  function ValkeyMember(a: Answers): Member
    requires |a.sections| == |SECTIONS|
  {
    Member("valkey", ValkeyOf(a))
  }

  /** ftdc_collect_sample() */
  function SampleOf(a: Answers): Json
    requires |a.sections| == |SECTIONS|
  {
    Obj([Member("ts_ms", Num(IntText(a.tsMs)))] + [ValkeyMember(a), Member("host", a.host)])
  }

  /** The loop over the sections. */
  method AppendSections(buf: Buffer, payloads: seq<string>)
    requires buf.Valid() && |payloads| == |SECTIONS|
    modifies buf, buf.data
    ensures buf.Valid() && (buf.data == old(buf.data) || fresh(buf.data))
    ensures buf.Contents() == old(buf.Contents()) + PrintMembers(SectionMembers(SECTIONS, payloads))
  {
    var i, first := 0, true;
    ghost var whole := buf.Contents() + PrintMembers(SectionMembers(SECTIONS, payloads));
    assert SECTIONS[0..] == SECTIONS && payloads[0..] == payloads;
    while i < |SECTIONS|
      invariant i <= |SECTIONS| && first == (i == 0)
      invariant buf.Valid() && (buf.data == old(buf.data) || fresh(buf.data))
      invariant buf.Contents() + Pending(first, SectionMembers(SECTIONS[i..], payloads[i..])) == whole
    {
      SectionNext(SECTIONS, payloads, i);
      AppendSection(buf, first, SECTIONS[i], payloads[i], SectionMembers(SECTIONS[i + 1..], payloads[i + 1..]));
      i, first := i + 1, false;
    }
    assert SectionMembers(SECTIONS[i..], payloads[i..]) == [];
  }

  lemma SectionNext(names: seq<string>, payloads: seq<string>, i: nat)
    requires i < |names| == |payloads|
    ensures SectionMembers(names[i..], payloads[i..]) ==
            [Member(names[i], InfoOf(payloads[i]))] + SectionMembers(names[i + 1..], payloads[i + 1..])
  {
    assert names[i..][1..] == names[i + 1..] && payloads[i..][1..] == payloads[i + 1..];
  }

  method AppendSection(buf: Buffer, first: bool, name: string, payload: string, ghost rest: seq<Member>)
    requires buf.Valid()
    modifies buf, buf.data
    ensures buf.Valid() && (buf.data == old(buf.data) || fresh(buf.data))
    ensures buf.Contents() + Pending(false, rest) ==
            old(buf.Contents()) + Pending(first, [Member(name, InfoOf(payload))] + rest)
  {
    ghost var before := buf.Contents();
    AppendKey(buf, first, name);
    AppendInfoSection(buf, payload);
    MemberAppended(before, first, Member(name, InfoOf(payload)), rest);
  }

  method AppendInfo(buf: Buffer, a: Answers)
    requires buf.Valid() && |a.sections| == |SECTIONS|
    modifies buf, buf.data
    ensures buf.Valid() && (buf.data == old(buf.data) || fresh(buf.data))
    ensures buf.Contents() == old(buf.Contents()) + Print(Obj(SectionMembers(SECTIONS, a.sections)))
  {
    ghost var before := buf.Contents();
    buf.Append("{");
    AppendSections(buf, a.sections);
    buf.Append("}");
    ObjectText(before, SectionMembers(SECTIONS, a.sections));
  }

  method AppendInfoMember(buf: Buffer, a: Answers, ghost rest: seq<Member>)
    requires buf.Valid() && |a.sections| == |SECTIONS|
    modifies buf, buf.data
    ensures buf.Valid() && (buf.data == old(buf.data) || fresh(buf.data))
    ensures buf.Contents() + Pending(false, rest) == old(buf.Contents()) + Pending(true, [InfoMember(a)] + rest)
  {
    ghost var before := buf.Contents();
    AppendKey(buf, true, "info");
    AppendInfo(buf, a);
    MemberAppended(before, true, InfoMember(a), rest);
  }

  method AppendValkeyMember(buf: Buffer, a: Answers, ghost rest: seq<Member>)
    requires buf.Valid() && |a.sections| == |SECTIONS|
    modifies buf, buf.data
    ensures buf.Valid() && (buf.data == old(buf.data) || fresh(buf.data))
    ensures buf.Contents() + Pending(false, rest) == old(buf.Contents()) + Pending(false, [ValkeyMember(a)] + rest)
  {
    ghost var before := buf.Contents();
    AppendKey(buf, false, "valkey");
    ghost var start := buf.Contents();
    buf.Append("{");
    AppendInfoMember(buf, a, [LatencyMember(a), SlowlogMember(a)]);
    AppendLastTwo(buf, false, "latency_latest", a.latency, "slowlog", a.slowlog);
    AllMembers(start + "{", InfoMember(a), [LatencyMember(a), SlowlogMember(a)]);
    buf.Append("}");
    ObjectText(start, ValkeyOf(a).members);
    MemberAppended(before, false, ValkeyMember(a), rest);
  }

  lemma AllMembers(before: string, m: Member, rest: seq<Member>)
    ensures before + Pending(true, [m] + rest) == before + PrintMembers([m] + rest)
  {
  }

  /** Two members, the last of their object. */
  method AppendLastTwo(buf: Buffer, first: bool, name: string, value: Json, name2: string, value2: Json)
    requires buf.Valid()
    modifies buf, buf.data
    ensures buf.Valid() && (buf.data == old(buf.data) || fresh(buf.data))
    ensures buf.Contents() == old(buf.Contents()) + Pending(first, [Member(name, value), Member(name2, value2)])
  {
    assert [Member(name, value), Member(name2, value2)] == [Member(name, value)] + [Member(name2, value2)];
    AppendField(buf, first, name, value, [Member(name2, value2)]);
    AppendLast(buf, name2, value2);
  }

  method AppendLast(buf: Buffer, name: string, value: Json)
    requires buf.Valid()
    modifies buf, buf.data
    ensures buf.Valid() && (buf.data == old(buf.data) || fresh(buf.data))
    ensures buf.Contents() == old(buf.Contents()) + Pending(false, [Member(name, value)])
  {
    assert [Member(name, value)] == [Member(name, value)] + [];
    AppendField(buf, false, name, value, []);
    assert buf.Contents() + "" == buf.Contents();
  }

  /** ftdc_collect_sample(), with what the other collectors print given as JSON. */
  method CollectSample(a: Answers) returns (text: string)
    requires |a.sections| == |SECTIONS|
    ensures text == Print(SampleOf(a))
  {
    var buf := new Buffer(FIRST_CAPACITY);
    ghost var rest := [ValkeyMember(a), Member("host", a.host)];
    buf.Append("{");
    AppendField(buf, true, "ts_ms", Num(IntText(a.tsMs)), rest);
    assert rest == [ValkeyMember(a)] + [Member("host", a.host)];
    AppendValkeyMember(buf, a, [Member("host", a.host)]);
    AppendLast(buf, "host", a.host);
    AllMembers("" + "{", Member("ts_ms", Num(IntText(a.tsMs))), rest);
    buf.Append("}");
    ObjectText("", SampleOf(a).members);
    text := buf.data[..buf.len];
  }
}
