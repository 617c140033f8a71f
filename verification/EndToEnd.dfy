/** From a line of INFO to the reader of the log. */
module EndToEnd {
  import opened Wrappers
  import opened CText
  import opened Json
  import opened Metrics
  import opened Flatten
  import opened FlattenJson
  import opened Collector
  import opened Sample
  import opened Encoder
  import opened Writer
  import Runs
  import Theorems

  // ----- where leaves can be -----------------------------------------------------------------------------

  /** The path is `base` or continues it after a dot. */
  predicate Below(path: string, base: string) {
    path == base || HasPrefix(path, base + ".")
  }

  lemma BelowChild(path: string, base: string, key: string)
    requires Below(path, base + "." + key)
    ensures Below(path, base)
  {
    assert path[..|base| + 1] == base + ".";
  }

  lemma {:induction false} LeavesBelow(j: Json, base: string)
    requires base != ""
    ensures forall leaf :: leaf in Leaves(j, base) ==> Below(leaf.path, base)
    decreases j, 0
  {
    if j.Obj? {
      MemberLeavesBelow(j.members, base);
    }
  }

  lemma {:induction false} MemberLeavesBelow(members: seq<Member>, base: string)
    requires base != ""
    ensures forall leaf :: leaf in MemberLeaves(members, base) ==> Below(leaf.path, base)
    decreases members, 1
  {
    if members != [] {
      var child := Leaves(members[0].value, Join(base, members[0].key));
      LeavesBelow(members[0].value, Join(base, members[0].key));
      forall leaf | leaf in child ensures Below(leaf.path, base) {
        BelowChild(leaf.path, base, members[0].key);
      }
      MemberLeavesBelow(members[1..], base);
    }
  }

  /** The leaves at one path, in order. */
  function At(leaves: seq<Leaf>, path: string): seq<Leaf> {
    if leaves == [] then []
    else At(leaves[..|leaves| - 1], path) + if leaves[|leaves| - 1].path == path then [leaves[|leaves| - 1]] else []
  }

  lemma {:induction false} AtConcat(a: seq<Leaf>, b: seq<Leaf>, path: string)
    ensures At(a + b, path) == At(a, path) + At(b, path)
    decreases |b|
  {
    if b == [] {
      assert a + b == a;
    } else {
      assert (a + b)[..|a + b| - 1] == a + b[..|b| - 1];
      AtConcat(a, b[..|b| - 1], path);
    }
  }

  lemma {:induction false} AtNowhere(leaves: seq<Leaf>, path: string)
    requires forall leaf :: leaf in leaves ==> leaf.path != path
    ensures At(leaves, path) == []
  {
    if leaves != [] {
      assert leaves[|leaves| - 1] in leaves;
      AtNowhere(leaves[..|leaves| - 1], path);
    }
  }

  /** What the last leaf at a path is depends on the leaves at that path only. */
  lemma {:induction false} LastAt(leaves: seq<Leaf>, path: string)
    ensures LastInt(leaves, path) == LastInt(At(leaves, path), path)
    ensures LastText(leaves, path) == LastText(At(leaves, path), path)
  {
    if leaves != [] {
      var init, last := leaves[..|leaves| - 1], leaves[|leaves| - 1];
      LastAt(init, path);
      if last.path == path {
        assert (At(init, path) + [last])[..|At(init, path)|] == At(init, path);
      } else {
        assert At(init, path) + [] == At(init, path);
      }
    }
  }

  lemma Elsewhere(j: Json, base: string, path: string)
    requires base != "" && !Below(path, base)
    ensures At(Leaves(j, base), path) == []
  {
    LeavesBelow(j, base);
    AtNowhere(Leaves(j, base), path);
  }

  // ----- the section a path belongs to ----------------------------------------------------------------------

  function SectionPath(name: string): string {
    "valkey.info." + name
  }

  predicate NoDot(s: string) {
    '.' !in s
  }

  const INFO_BASE := 12

  /** The name of the section a path below "valkey.info." is in. */
  function Head(path: string): string
    requires |path| >= INFO_BASE
  {
    path[INFO_BASE..][..Find(path[INFO_BASE..], '.')]
  }

  lemma {:induction false} FindAfter(name: string, rest: string)
    requires NoDot(name) && (rest == "" || rest[0] == '.')
    ensures Find(name + rest, '.') == |name| && (name + rest)[..|name|] == name
  {
    if name == "" {
      assert name + rest == rest;
    } else {
      assert (name + rest)[1..] == name[1..] + rest && (name + rest)[0] == name[0] && name[0] in name;
      FindAfter(name[1..], rest);
    }
  }

  lemma HeadOfSection(path: string, name: string)
    requires NoDot(name) && Below(path, SectionPath(name))
    ensures |path| >= INFO_BASE && Head(path) == name
  {
    var head := SectionPath(name);
    var rest := path[|head|..];
    assert path[..|head|] == head;
    assert path[INFO_BASE..] == name + rest;
    assert path != head ==> path[..|head| + 1][|head|] == '.';
    FindAfter(name, rest);
  }

  lemma OtherSection(name: string, other: string, path: string)
    requires NoDot(name) && NoDot(other) && name != other && HasPrefix(path, SectionPath(name) + ".")
    ensures !Below(path, SectionPath(other))
  {
    HeadOfSection(path, name);
    if Below(path, SectionPath(other)) {
      HeadOfSection(path, other);
    }
  }

  lemma {:induction false} SectionLeaves(names: seq<string>, payloads: seq<string>, k: nat, path: string)
    requires |names| == |payloads| && k < |names|
    requires forall i :: 0 <= i < |names| ==> NoDot(names[i]) && (i != k ==> names[i] != names[k])
    requires HasPrefix(path, SectionPath(names[k]) + ".")
    ensures At(MemberLeaves(SectionMembers(names, payloads), "valkey.info"), path) ==
            At(Leaves(InfoOf(payloads[k]), SectionPath(names[k])), path)
    decreases k
  {
    SectionChild(names, payloads, path);
    var first := At(Leaves(InfoOf(payloads[0]), SectionPath(names[0])), path);
    var others := At(MemberLeaves(SectionMembers(names[1..], payloads[1..]), "valkey.info"), path);
    if k == 0 {
      NoSection(names[1..], payloads[1..], names[0], path);
      assert first + others == first;
    } else {
      OtherSection(names[k], names[0], path);
      Elsewhere(InfoOf(payloads[0]), SectionPath(names[0]), path);
      assert first + others == others;
      SectionLeaves(names[1..], payloads[1..], k - 1, path);
    }
  }

  lemma SectionChild(names: seq<string>, payloads: seq<string>, path: string)
    requires |names| == |payloads| && names != []
    ensures At(MemberLeaves(SectionMembers(names, payloads), "valkey.info"), path) ==
            At(Leaves(InfoOf(payloads[0]), SectionPath(names[0])), path) +
            At(MemberLeaves(SectionMembers(names[1..], payloads[1..]), "valkey.info"), path)
  {
    var m := Member(names[0], InfoOf(payloads[0]));
    var rest := SectionMembers(names[1..], payloads[1..]);
    assert Join("valkey.info", names[0]) == SectionPath(names[0]);
    assert ([m] + rest)[1..] == rest;
    AtConcat(Leaves(m.value, SectionPath(names[0])), MemberLeaves(rest, "valkey.info"), path);
  }

  lemma {:induction false} NoSection(names: seq<string>, payloads: seq<string>, name: string, path: string)
    requires |names| == |payloads| && NoDot(name) && HasPrefix(path, SectionPath(name) + ".")
    requires forall i :: 0 <= i < |names| ==> NoDot(names[i]) && names[i] != name
    ensures At(MemberLeaves(SectionMembers(names, payloads), "valkey.info"), path) == []
    decreases |names|
  {
    if names != [] {
      SectionChild(names, payloads, path);
      OtherSection(name, names[0], path);
      Elsewhere(InfoOf(payloads[0]), SectionPath(names[0]), path);
      NoSection(names[1..], payloads[1..], name, path);
    }
  }

  lemma SectionsDiffer()
    ensures forall i :: 0 <= i < |SECTIONS| ==> NoDot(SECTIONS[i])
    ensures forall i, k :: 0 <= i < |SECTIONS| && 0 <= k < |SECTIONS| && i != k ==> SECTIONS[i] != SECTIONS[k]
  {
    assert SECTIONS[1][2] == 'i' && SECTIONS[8][2] == 'u';
    assert SECTIONS[0][0] == 's' && SECTIONS[2][0] == 'm' && SECTIONS[3][0] == 'p' && SECTIONS[5][0] == 'r';
  }

  // ----- the leaves of a whole sample -----------------------------------------------------------------------

  /** For every sample and every path in a section: the leaves there are those of the lines of that
      section. Other sections, latency, slow log and host add nothing. */
  lemma SampleLeaves(a: Answers, k: nat, path: string)
    requires |a.sections| == |SECTIONS| && k < |SECTIONS| && HasPrefix(path, SectionPath(SECTIONS[k]) + ".")
    ensures At(Leaves(SampleOf(a), ""), path) ==
            At(LinesLeaves(Split(a.sections[k], '\n'), SectionPath(SECTIONS[k])), path)
  {
    InInfo(path, SECTIONS[k]);
    TopLeaves(a, path);
    ValkeyLeaves(a, path);
    InfoSectionLeaves(a, k, path);
  }

  lemma InfoSectionLeaves(a: Answers, k: nat, path: string)
    requires |a.sections| == |SECTIONS| && k < |SECTIONS| && HasPrefix(path, SectionPath(SECTIONS[k]) + ".")
    ensures At(Leaves(InfoMember(a).value, "valkey.info"), path) ==
            At(LinesLeaves(Split(a.sections[k], '\n'), SectionPath(SECTIONS[k])), path)
  {
    SectionsDiffer();
    SectionLeaves(SECTIONS, a.sections, k, path);
    InfoLeaves(Split(a.sections[k], '\n'), SectionPath(SECTIONS[k]));
  }

  /** Where paths of INFO are not. */
  lemma InInfo(path: string, name: string)
    requires HasPrefix(path, SectionPath(name) + ".")
    ensures !Below(path, "ts_ms") && !Below(path, "host")
    ensures !Below(path, "valkey.latency_latest") && !Below(path, "valkey.slowlog")
  {
    var head := SectionPath(name) + ".";
    assert path[..|head|] == head;
    assert path[0] == head[0] == 'v' && path[7] == head[7] == 'i';
  }

  lemma ThreeLeaves(x: Member, y: Member, z: Member, base: string, path: string)
    ensures At(MemberLeaves([x] + [y, z], base), path) ==
            At(Leaves(x.value, Join(base, x.key)), path) + At(Leaves(y.value, Join(base, y.key)), path) +
            At(Leaves(z.value, Join(base, z.key)), path)
  {
    MemberLeavesConcat([x], [y, z], base);
    assert [y, z] == [y] + [z];
    MemberLeavesConcat([y], [z], base);
    OneMemberLeaves(x, base);
    OneMemberLeaves(y, base);
    OneMemberLeaves(z, base);
    AtConcat(Leaves(x.value, Join(base, x.key)), MemberLeaves([y, z], base), path);
    AtConcat(Leaves(y.value, Join(base, y.key)), Leaves(z.value, Join(base, z.key)), path);
  }

  /** Of three members, only the one the path is below has leaves there. */
  lemma OnlyMiddle(x: Member, y: Member, z: Member, base: string, path: string)
    requires Join(base, x.key) != "" && !Below(path, Join(base, x.key))
    requires Join(base, z.key) != "" && !Below(path, Join(base, z.key))
    ensures At(Leaves(Obj([x] + [y, z]), base), path) == At(Leaves(y.value, Join(base, y.key)), path)
  {
    ThreeLeaves(x, y, z, base, path);
    Elsewhere(x.value, Join(base, x.key), path);
    Elsewhere(z.value, Join(base, z.key), path);
    var middle := At(Leaves(y.value, Join(base, y.key)), path);
    assert [] + middle + [] == middle;
  }

  lemma OnlyFirst(x: Member, y: Member, z: Member, base: string, path: string)
    requires Join(base, y.key) != "" && !Below(path, Join(base, y.key))
    requires Join(base, z.key) != "" && !Below(path, Join(base, z.key))
    ensures At(Leaves(Obj([x] + [y, z]), base), path) == At(Leaves(x.value, Join(base, x.key)), path)
  {
    ThreeLeaves(x, y, z, base, path);
    Elsewhere(y.value, Join(base, y.key), path);
    Elsewhere(z.value, Join(base, z.key), path);
    var first := At(Leaves(x.value, Join(base, x.key)), path);
    assert first + [] + [] == first;
  }

  lemma TopLeaves(a: Answers, path: string)
    requires |a.sections| == |SECTIONS| && !Below(path, "ts_ms") && !Below(path, "host")
    ensures At(Leaves(SampleOf(a), ""), path) == At(Leaves(ValkeyOf(a), "valkey"), path)
  {
    TopPaths();
    OnlyMiddle(Member("ts_ms", Num(IntText(a.tsMs))), ValkeyMember(a), Member("host", a.host), "", path);
  }

  lemma TopPaths()
    ensures Join("", "ts_ms") == "ts_ms" && Join("", "valkey") == "valkey" && Join("", "host") == "host"
  {
  }

  lemma ValkeyPaths()
    ensures Join("valkey", "info") == "valkey.info" && Join("valkey", "latency_latest") == "valkey.latency_latest"
    ensures Join("valkey", "slowlog") == "valkey.slowlog"
  {
  }

  lemma ValkeyLeaves(a: Answers, path: string)
    requires |a.sections| == |SECTIONS| && !Below(path, "valkey.latency_latest") && !Below(path, "valkey.slowlog")
    ensures At(Leaves(ValkeyOf(a), "valkey"), path) == At(Leaves(InfoMember(a).value, "valkey.info"), path)
  {
    ValkeyPaths();
    OnlyFirst(InfoMember(a), LatencyMember(a), SlowlogMember(a), "valkey", path);
  }

  // ----- from INFO to the flattener, and to the reader ---------------------------------------------------------

  /** What the other collectors printed is JSON with numbers the collector can write. */
  predicate Sane(a: Answers) {
    |a.sections| == |SECTIONS| && Printable(a.latency) && Printable(a.slowlog) && Printable(a.host)
  }

  lemma SamplePrintable(a: Answers)
    requires Sane(a)
    ensures Printable(SampleOf(a))
  {
    IntTextIsNumber(a.tsMs);
    SectionsPrintable(SECTIONS, a.sections);
    assert Printable(InfoMember(a).value);
    assert Printable(ValkeyOf(a));
  }

  lemma IntTextIsNumber(n: int)
    ensures IsNumber(IntText(n))
  {
    var ds := NatText(if n < 0 then -n else n);
    IntTextMagnitude(n);
    DigitRunAll(ds);
    assert ds[|ds|..] == "";
  }

  lemma {:induction false} SectionsPrintable(names: seq<string>, payloads: seq<string>)
    requires |names| == |payloads|
    ensures forall m :: m in SectionMembers(names, payloads) ==> Printable(m.value)
    decreases |names|
  {
    if names != [] {
      LinesPrintable(Split(payloads[0], '\n'));
      SectionsPrintable(names[1..], payloads[1..]);
    }
  }

  /** For every sample the collector can print: the flattener accepts its text exactly when it is within
      the limits; and then, at every path of a section, the table holds the integer of the last line of
      that section with a leaf there, if the path is monotonic, and nothing otherwise. */
  lemma CollectedMetric(a: Answers, k: nat, path: string)
    requires Sane(a) && k < |SECTIONS| && HasPrefix(path, SectionPath(SECTIONS[k]) + ".")
    ensures var flat := FlatSample(Print(SampleOf(a)));
      && (flat.Some? <==> Accepted(SampleOf(a), ""))
      && (flat.Some? ==>
            Get(flat.value.metrics, path) ==
            if Monotonic(path) then LastInt(LinesLeaves(Split(a.sections[k], '\n'), SectionPath(SECTIONS[k])), path)
            else None)
  {
    SamplePrintable(a);
    assert Print(SampleOf(a)) + "" == Print(SampleOf(a));
    SampleFlattens(SampleOf(a), "");
    if Accepted(SampleOf(a), "") {
      FlattenedMetric(SampleOf(a), "", path);
      SampleLeaves(a, k, path);
      LastAt(Leaves(SampleOf(a), ""), path);
      LastAt(LinesLeaves(Split(a.sections[k], '\n'), SectionPath(SECTIONS[k])), path);
    }
  }

  /** Line `i` of section `k` is the last with a leaf at the path, and the leaf is the integer `n`. */
  predicate Decides(a: Answers, k: nat, i: nat, path: string, n: int)
    requires |a.sections| == |SECTIONS|
  {
    k < |SECTIONS| &&
    var lines, base := Split(a.sections[k], '\n'), SectionPath(SECTIONS[k]);
    && i < |lines| && HasPrefix(path, base + ".")
    && LastInt(LineLeaves(lines[i], base), path) == Some(n)
    && LastInt(LinesLeaves(lines[i + 1..], base), path) == None
  }

  lemma DecidedMetric(a: Answers, k: nat, i: nat, path: string, n: int)
    requires Sane(a) && Decides(a, k, i, path, n) && Monotonic(path) && FlatSample(Print(SampleOf(a))).Some?
    ensures Get(FlatSample(Print(SampleOf(a))).value.metrics, path) == Some(n)
  {
    CollectedMetric(a, k, path);
    LastLine(Split(a.sections[k], '\n'), i, SectionPath(SECTIONS[k]), path);
  }

  /** The whole way. Whatever the run before: when a collected sample is appended in delta mode without
      an error, the reader of the log then has, at every monotonic path of a section, the integer of the
      last line of the section with a leaf there, if it found memory in the flattener or the sample went
      as a checkpoint. */
  lemma InfoReachesReader(w: State, a: Answers, mem: Memory, env: AppendEnv)
    requires Sane(a) && Reachable(w) && Theorems.AppendsCleanly(w, Print(SampleOf(a)), mem, env)
    ensures var log := Append(w, Print(SampleOf(a)), mem, env).log;
      forall k, i, path, n :: Decides(a, k, i, path, n) && Monotonic(path) && Theorems.Arrives(log, path) ==>
        path in Runs.ReadLog(log) && Runs.ReadLog(log)[path] == n
  {
    var sample := Print(SampleOf(a));
    Theorems.AppendReplays(w, sample, mem, env);
    var log := Append(w, sample, mem, env).log;
    forall k, i, path, n | Decides(a, k, i, path, n) && Monotonic(path) && Theorems.Arrives(log, path)
      ensures path in Runs.ReadLog(log) && Runs.ReadLog(log)[path] == n
    {
      DecidedMetric(a, k, i, path, n);
      GetHas(FlatSample(sample).value.metrics, path);
    }
  }

  // ----- which line decides ---------------------------------------------------------------------------------

  /** If two children of a path share a path below, the first without a dot, the second is it or
      continues it after a dot. */
  lemma SharedPath(base: string, key: string, other: string, path: string)
    requires NoDot(key) && Below(path, base + "." + key) && Below(path, base + "." + other)
    ensures other == key || HasPrefix(other, key + ".")
  {
    var tail := path[|base| + 1..];
    BelowTail(path, base, key, tail);
    BelowTail(path, base, other, tail);
    assert forall i :: 0 <= i < |key| ==> tail[i] == key[i] && key[i] in key;
    assert |other| >= |key| && other[..|key|] == tail[..|key|];
    if |other| > |key| {
      assert other[..|key| + 1] == tail[..|other|][..|key| + 1] == key + ".";
    }
  }

  lemma BelowTail(path: string, base: string, key: string, tail: string)
    requires Below(path, base + "." + key) && tail == path[|base| + 1..]
    ensures Below(tail, key) && tail[..|key|] == key && (|tail| > |key| ==> tail[|key|] == '.')
  {
    var child := base + "." + key;
    assert path[..|child|] == child;
    assert tail[..|key|] == child[|base| + 1..] == key;
    if path != child {
      assert path[..|child| + 1] == child + ".";
      assert tail[|key|] == path[|child|] == '.';
      assert tail[..|key| + 1] == key + ".";
    } else {
      assert tail == key;
    }
  }

  /** No later line has the key, or a key that continues it after a dot. */
  predicate LastOfKey(lines: seq<string>, i: nat, key: string) {
    forall j :: i < j < |lines| ==> !HasPrefix(lines[j], key + ":") && !HasPrefix(lines[j], key + ".")
  }

  lemma KeyInLine(line: string, key: string)
    requires LineMember(line) != []
    ensures var other := LineMember(line)[0].key;
      && (other == key ==> HasPrefix(line, key + ":"))
      && (HasPrefix(other, key + ".") ==> HasPrefix(line, key + "."))
  {
    var other := LineMember(line)[0].key;
    if other == key {
      assert line[..|key| + 1] == key + ":";
    } else if HasPrefix(other, key + ".") {
      assert line[..|key| + 1] == other[..|key| + 1];
    }
  }

  lemma OtherLine(line: string, key: string, base: string, path: string)
    requires NoDot(key) && base != "" && Below(path, base + "." + key)
    requires !HasPrefix(line, key + ":") && !HasPrefix(line, key + ".")
    ensures forall leaf :: leaf in LineLeaves(line, base) ==> leaf.path != path
  {
    if LineMember(line) != [] {
      var m := LineMember(line)[0];
      KeyInLine(line, key);
      OneMemberLeaves(m, base);
      ChildLeaves(m, key, base, path);
    }
  }

  /** A member of another name has no leaf at a path below the key. */
  lemma ChildLeaves(m: Member, key: string, base: string, path: string)
    requires NoDot(key) && base != "" && Below(path, base + "." + key)
    requires m.key != key && !HasPrefix(m.key, key + ".")
    ensures forall leaf :: leaf in Leaves(m.value, Join(base, m.key)) ==> leaf.path != path
  {
    LeavesBelow(m.value, base + "." + m.key);
    if Below(path, base + "." + m.key) {
      SharedPath(base, key, m.key, path);
    }
  }

  lemma {:induction false} OtherLines(lines: seq<string>, key: string, base: string, path: string)
    requires NoDot(key) && base != "" && Below(path, base + "." + key)
    requires forall line :: line in lines ==> !HasPrefix(line, key + ":") && !HasPrefix(line, key + ".")
    ensures forall leaf :: leaf in LinesLeaves(lines, base) ==> leaf.path != path
  {
    if lines != [] {
      assert lines[0] in lines;
      OtherLine(lines[0], key, base, path);
      OtherLines(lines[1..], key, base, path);
    }
  }

  lemma NoLeafNoInt(leaves: seq<Leaf>, path: string)
    requires forall leaf :: leaf in leaves ==> leaf.path != path
    ensures LastInt(leaves, path) == None
  {
    LastAt(leaves, path);
    AtNowhere(leaves, path);
  }

  /** The last line of its key decides at every path below the key where it has an integer. */
  lemma LastOfKeyDecides(a: Answers, k: nat, i: nat, key: string, path: string, n: int)
    requires |a.sections| == |SECTIONS| && k < |SECTIONS| && NoDot(key)
    requires var lines := Split(a.sections[k], '\n');
      && i < |lines| && LastOfKey(lines, i, key)
      && LastInt(LineLeaves(lines[i], SectionPath(SECTIONS[k])), path) == Some(n)
    requires Below(path, SectionPath(SECTIONS[k]) + "." + key)
    ensures Decides(a, k, i, path, n)
  {
    var lines, base := Split(a.sections[k], '\n'), SectionPath(SECTIONS[k]);
    OtherLines(lines[i + 1..], key, base, path);
    NoLeafNoInt(LinesLeaves(lines[i + 1..], base), path);
    BelowSection(path, base, key);
  }

  lemma BelowSection(path: string, base: string, key: string)
    requires Below(path, base + "." + key)
    ensures HasPrefix(path, base + ".")
  {
    assert path[..|base| + 1 + |key|] == base + "." + key;
    assert path[..|base| + 1] == base + ".";
  }

  /** Line `i` of section `k` is `key:integer`, such as `total_commands_processed:17`, and the last of
      its key. */
  predicate CounterAt(a: Answers, k: nat, i: nat, key: string, end: string, path: string, n: int)
    requires |a.sections| == |SECTIONS|
  {
    k < |SECTIONS| && path == SectionPath(SECTIONS[k]) + "." + key &&
    IsKey(key) && NoDot(key) && InRange(n) && (end == "" || end == "\r") &&
    var lines := Split(a.sections[k], '\n');
    i < |lines| && lines[i] == key + ":" + (IntText(n) + end) && LastOfKey(lines, i, key)
  }

  lemma CounterDecides(a: Answers, k: nat, i: nat, key: string, end: string, path: string, n: int)
    requires |a.sections| == |SECTIONS| && CounterAt(a, k, i, key, end, path, n)
    ensures Decides(a, k, i, path, n)
  {
    CounterLineDecides(key, n, end, SectionPath(SECTIONS[k]));
    LastOfKeyDecides(a, k, i, key, path, n);
  }

  /** No later pair has the name, or a name that continues it after a dot. */
  predicate LastOfName(tokens: seq<string>, name: string) {
    forall token :: token in tokens && Pair(token).Some? ==>
      Pair(token).value.0 != name && !HasPrefix(Pair(token).value.0, name + ".")
  }

  lemma {:induction false} OtherPairs(tokens: seq<string>, size: nat, name: string, base: string)
    requires NoDot(name) && base != "" && LastOfName(tokens, name)
    ensures forall leaf :: leaf in MemberLeaves(PairsOf(tokens, size), base) ==> leaf.path != base + "." + name
  {
    if tokens != [] {
      assert tokens[0] in tokens;
      MemberLeavesConcat(PairMember(tokens[0], size), PairsOf(tokens[1..], size), base);
      OtherPairs(tokens[1..], size, name, base);
      if PairMember(tokens[0], size) != [] {
        var m := PairMember(tokens[0], size)[0];
        OneMemberLeaves(m, base);
        ChildLeaves(m, name, base, base + "." + name);
      }
    }
  }

  /** Line `i` of section `k` is `key:value`, the last of its key, and the value is compound with
      `name=integer` in it, such as `slave0:ip=..,offset=17,lag=0`, the last of its name. */
  predicate PairAt(a: Answers, k: nat, i: nat, key: string, raw: string, before: seq<string>, token: string,
                   after: seq<string>, name: string, path: string, n: int)
    requires |a.sections| == |SECTIONS|
  {
    k < |SECTIONS| && path == SectionPath(SECTIONS[k]) + "." + key + "." + name &&
    IsKey(key) && NoDot(key) && NoDot(name) && InRange(n) &&
    var lines, value := Split(a.sections[k], '\n'), Trim(StripReturns(raw));
    && i < |lines| && lines[i] == key + ":" + raw && LastOfKey(lines, i, key)
    && IsCompound(value) && Split(value, ',') == before + ([token] + after)
    && Pair(token) == Some((name, IntText(n))) && LastOfName(after, name)
  }

  lemma PairDecides(a: Answers, k: nat, i: nat, key: string, raw: string, before: seq<string>, token: string,
                    after: seq<string>, name: string, path: string, n: int)
    requires |a.sections| == |SECTIONS| && PairAt(a, k, i, key, raw, before, token, after, name, path, n)
    ensures Decides(a, k, i, path, n)
  {
    var base := SectionPath(SECTIONS[k]);
    var child, size := base + "." + key, |StripReturns(raw)|;
    OtherPairs(after, size, name, child);
    NoLeafNoInt(MemberLeaves(PairsOf(after, size), child), path);
    CompoundLine(key, raw, before, token, after, name, n, base);
    assert HasPrefix(path, child + ".");
    LastOfKeyDecides(a, k, i, key, path, n);
  }

  /** INFO shows the integer at the path, as the last line of its key. */
  ghost predicate ShowsCounter(a: Answers, path: string, n: int)
    requires |a.sections| == |SECTIONS|
  {
    exists k: nat, i: nat, key, end :: CounterAt(a, k, i, key, end, path, n)
  }

  /** INFO shows the integer at the path, as the last pair of its name in the last line of its key. */
  ghost predicate ShowsPair(a: Answers, path: string, n: int)
    requires |a.sections| == |SECTIONS|
  {
    exists k: nat, i: nat, key, raw, before, token, after, name ::
      PairAt(a, k, i, key, raw, before, token, after, name, path, n)
  }

  lemma CounterShown(a: Answers, path: string, n: int)
    requires |a.sections| == |SECTIONS| && ShowsCounter(a, path, n)
    ensures exists k: nat, i: nat :: Decides(a, k, i, path, n)
  {
    var k: nat, i: nat, key, end :| CounterAt(a, k, i, key, end, path, n);
    CounterDecides(a, k, i, key, end, path, n);
  }

  lemma PairShown(a: Answers, path: string, n: int)
    requires |a.sections| == |SECTIONS| && ShowsPair(a, path, n)
    ensures exists k: nat, i: nat :: Decides(a, k, i, path, n)
  {
    var k: nat, i: nat, key, raw, before, token, after, name :|
      PairAt(a, k, i, key, raw, before, token, after, name, path, n);
    PairDecides(a, k, i, key, raw, before, token, after, name, path, n);
  }

  /** From a line of INFO to the reader. Whatever the run before: when a collected sample is appended in
      delta mode without an error, the reader of the log then holds, at every monotonic path where INFO
      shows an integer, as the last line of its key or the last pair of its name, that integer, if it
      found memory in the flattener or the sample went as a checkpoint. */
  lemma CountersReachReader(w: State, a: Answers, mem: Memory, env: AppendEnv)
    requires Sane(a) && Reachable(w) && Theorems.AppendsCleanly(w, Print(SampleOf(a)), mem, env)
    ensures var log := Append(w, Print(SampleOf(a)), mem, env).log;
      forall path, n ::
        (ShowsCounter(a, path, n) || ShowsPair(a, path, n)) && Monotonic(path) && Theorems.Arrives(log, path) ==>
        path in Runs.ReadLog(log) && Runs.ReadLog(log)[path] == n
  {
    InfoReachesReader(w, a, mem, env);
    var log := Append(w, Print(SampleOf(a)), mem, env).log;
    forall path, n |
      (ShowsCounter(a, path, n) || ShowsPair(a, path, n)) && Monotonic(path) && Theorems.Arrives(log, path)
      ensures path in Runs.ReadLog(log) && Runs.ReadLog(log)[path] == n
    {
      if ShowsCounter(a, path, n) {
        CounterShown(a, path, n);
      } else {
        PairShown(a, path, n);
      }
    }
  }
}
