/** The flattener against JSON values: which printed values it accepts, and what it finds there. */
module FlattenJson {
  import opened Wrappers
  import opened CText
  import opened JsonText
  import opened Json
  import opened Metrics
  import opened Flatten

  /** A string or an integer, with the dotted path that leads to it. Arrays have no leaves. */
  datatype Leaf = TextLeaf(path: string, text: string) | IntLeaf(path: string, value: int)

  function Leaves(j: Json, path: string): seq<Leaf>
    decreases j, 0
  {
    match j
    case Str(s) => [TextLeaf(path, s)]
    case Num(t) => if IsNumber(t) && IntOf(t).Some? then [IntLeaf(path, IntOf(t).value)] else []
    case Obj(members) => MemberLeaves(members, path)
    case _ => []
  }

  function MemberLeaves(members: seq<Member>, path: string): seq<Leaf>
    decreases members, 1
  {
    if members == [] then []
    else Leaves(members[0].value, Join(path, members[0].key)) + MemberLeaves(members[1..], path)
  }

  function Note(flat: Flat, leaf: Leaf): Flat {
    match leaf
    case TextLeaf(path, text) => NoteText(flat, path, text)
    case IntLeaf(path, value) => NoteNumber(flat, path, value)
  }

  function NoteAll(flat: Flat, leaves: seq<Leaf>): Flat
    decreases leaves
  {
    if leaves == [] then flat else NoteAll(Note(flat, leaves[0]), leaves[1..])
  }

  lemma {:induction false} NoteAllConcat(flat: Flat, a: seq<Leaf>, b: seq<Leaf>)
    ensures NoteAll(flat, a + b) == NoteAll(NoteAll(flat, a), b)
    decreases a
  {
    if a == [] {
      assert a + b == b;
    } else {
      assert (a + b)[1..] == a[1..] + b;
      NoteAllConcat(Note(flat, a[0]), a[1..], b);
    }
  }

  lemma NoteOne(flat: Flat, leaf: Leaf)
    ensures NoteAll(flat, [leaf]) == Note(flat, leaf)
  {
    assert [leaf][1..] == [];
  }

  // ----- which values are accepted --------------------------------------------------------------

  predicate MemberAccepted(m: Member, path: string)
    decreases m, 1
  {
    && Plain(m.key) && |m.key| < 128 && |Join(path, m.key)| < 256
    && Accepted(m.value, Join(path, m.key))
  }

  predicate Accepted(j: Json, path: string)
    decreases j, 0
  {
    match j
    case Str(s) => Plain(s) && (IsIdentityText(path) ==> |s| < 256)
    case Num(t) => IsNumber(t)
    case Arr(items) => Skippable(j)
    case Obj(members) => forall m :: m in members ==> MemberAccepted(m, path)
    case _ => true
  }

  function Outcome(j: Json, path: string, flat: Flat, rest: string): Option<(Flat, string)> {
    if Accepted(j, path) then Some((NoteAll(flat, Leaves(j, path)), rest)) else None
  }

  lemma NumberFlattens(t: string, rest: string)
    requires IsNumber(t) && Delimited(rest)
    ensures FlatNumber(t + rest) == Some((IntOf(t), rest))
  {
    var u := Magnitude(t);
    var ds, tail := u[..DigitRun(u)], u[DigitRun(u)..];
    StrtollNumber(t, rest);
    StrtodEnds(t, rest);
    NumberTailEnds(t + rest, Strtoll(t + rest).value.0, tail, rest);
    IntOfNumber(t);
  }

  lemma IntOfNumber(t: string)
    requires IsNumber(t)
    ensures var u := Magnitude(t);
      var magnitude: int := DecimalValue(u[..DigitRun(u)]);
      IntOf(t) == if u[DigitRun(u)..] != "" then None
                  else Some(Saturate(if t[0] == '-' then -magnitude else magnitude))
  {
  }

  lemma StrtollNumber(t: string, rest: string)
    requires IsNumber(t) && Delimited(rest)
    ensures var u := Magnitude(t);
      var magnitude: int := DecimalValue(u[..DigitRun(u)]);
      Strtoll(t + rest) ==
      Some((Saturate(if t[0] == '-' then -magnitude else magnitude), u[DigitRun(u)..] + rest))
  {
    var u := Magnitude(t);
    assert !IsDigit(Peek(u[DigitRun(u)..] + rest)) by { TailEnds(u[DigitRun(u)..], rest); }
    NumeralSplit(t, rest);
    StrtollOf(t + rest, t[0] == '-', u[..DigitRun(u)], u[DigitRun(u)..] + rest);
  }

  lemma NumeralSplit(t: string, rest: string)
    requires t != ""
    ensures var u := Magnitude(t);
      var v := u[..DigitRun(u)] + (u[DigitRun(u)..] + rest);
      t + rest == if t[0] == '-' then "-" + v else v
  {
    var u := Magnitude(t);
    assert t + rest == if t[0] == '-' then "-" + (u + rest) else u + rest;
    SplitAt(u, DigitRun(u), rest);
  }

  lemma NumberTailEnds(start: string, value: int, tail: string, rest: string)
    requires IsNumeralTail(tail) && Delimited(rest)
    requires |tail + rest| < |start| && Strtod(start) == rest
    ensures NumberTail(start, value, tail + rest) == Some((if tail == "" then Some(value) else None, rest))
  {
    if tail == "" {
      assert tail + rest == rest;
      NumberStops(start, value, rest);
    } else {
      assert Peek(tail + rest) == tail[0];
      FloatStops(start, value, tail + rest);
    }
  }

  lemma NumberStops(start: string, value: int, end: string)
    requires |end| < |start| && Delimited(end)
    ensures NumberTail(start, value, end) == Some((Some(value), end))
  {
  }

  lemma FloatStops(start: string, value: int, end: string)
    requires |end| < |start| && (Peek(end) == '.' || Peek(end) == 'e' || Peek(end) == 'E')
    requires |Strtod(start)| < |start|
    ensures NumberTail(start, value, end) == Some((None, Strtod(start)))
  {
  }

  /** For every printable value, path, white space between its tokens, and text after it (that ends a number,
      after one): the flattener accepts the text exactly when the value is within the limits, consumes just that
      text, and notes exactly the leaves of the value. */
  lemma {:induction false} FlatSpread(j: Json, w: string, path: string, flat: Flat, rest: string)
    requires Printable(j) && Blank(w) && (j.Num? ==> Delimited(rest))
    ensures FlatValue(Spread(j, w) + rest, path, flat) == Outcome(j, path, flat, rest)
    decreases j, 0
  {
    match j
    case Str(t) => FlatText(t, path, flat, rest);
    case Num(t) => FlatNumeral(t, path, flat, rest);
    case Arr(items) => FlatArray(items, w, path, flat, rest);
    case Obj(members) =>
      if members != [] {
        FlatSpreadMembers(members, w, path, flat, rest);
      }
      FlatBraces(members, w, path, flat, rest);
    case _ => FlatLiteral(j, path, flat, rest);
  }

  /** Without white space, as the collector prints it. */
  lemma FlatPrinted(j: Json, path: string, flat: Flat, rest: string)
    requires Printable(j) && (j.Num? ==> Delimited(rest))
    ensures FlatValue(Print(j) + rest, path, flat) == Outcome(j, path, flat, rest)
  {
    SpreadNothing(j);
    FlatSpread(j, "", path, flat, rest);
  }

  /** White space before a value is passed over. */
  lemma FlatBlank(w: string, s: string, path: string, flat: Flat)
    requires Blank(w)
    ensures FlatValue(w + s, path, flat) == FlatValue(SkipWs(s), path, flat)
  {
    SkipBlank(w, s);
    SkipTwice(s);
  }

  lemma {:induction false} SkipTwice(s: string)
    ensures SkipWs(SkipWs(s)) == SkipWs(s)
  {
    if IsSpace(Peek(s)) {
      SkipTwice(s[1..]);
    }
  }

  lemma FlatText(t: string, path: string, flat: Flat, rest: string)
    ensures FlatValue(Quote(t) + rest, path, flat) == Outcome(Str(t), path, flat, rest)
  {
    assert SkipWs(Quote(t) + rest) == Quote(t) + rest;
    QuoteScans(t, rest);
    NoteOne(flat, TextLeaf(path, t));
  }

  lemma FlatLiteral(j: Json, path: string, flat: Flat, rest: string)
    requires j.Bool? || j.Null?
    ensures FlatValue(Print(j) + rest, path, flat) == Outcome(j, path, flat, rest)
  {
    var s := Print(j) + rest;
    assert SkipWs(s) == s && s[|Print(j)|..] == rest;
  }

  lemma FlatArray(items: seq<Json>, w: string, path: string, flat: Flat, rest: string)
    requires Printable(Arr(items)) && Blank(w)
    ensures FlatValue(Spread(Arr(items), w) + rest, path, flat) == Outcome(Arr(items), path, flat, rest)
  {
    var s := Spread(Arr(items), w) + rest;
    assert SkipWs(s) == s;
    SkipSpread(Arr(items), w, rest);
  }

  lemma FlatBraces(members: seq<Member>, w: string, path: string, flat: Flat, rest: string)
    requires Blank(w)
    requires members != [] ==>
               && SpreadMembers(members, w) != "" && SpreadMembers(members, w)[0] == '"'
               && FlatMembers(SpreadMembers(members, w) + ("}" + rest), path, flat) ==
                  Outcome(Obj(members), path, flat, rest)
    ensures FlatValue(Spread(Obj(members), w) + rest, path, flat) == Outcome(Obj(members), path, flat, rest)
  {
    Inside("{", w, SpreadMembers(members, w), "}", rest);
    if members == [] {
      NothingBefore("}" + rest);
      assert Leaves(Obj(members), path) == [];
    }
  }

  lemma FlatNumeral(t: string, path: string, flat: Flat, rest: string)
    requires IsNumber(t) || IsLooseNumber(t)
    requires Delimited(rest)
    ensures FlatValue(t + rest, path, flat) == Outcome(Num(t), path, flat, rest)
  {
    if IsNumber(t) {
      NumberRead(t, path, flat, rest);
      NumberLeaf(t, path, flat);
    } else {
      LooseNumberFails(t, path, flat, rest);
    }
  }

  lemma NumberRead(t: string, path: string, flat: Flat, rest: string)
    requires IsNumber(t) && Delimited(rest)
    ensures FlatValue(t + rest, path, flat) ==
            Some((if IntOf(t).Some? then NoteNumber(flat, path, IntOf(t).value) else flat, rest))
  {
    NumberFlattens(t, rest);
    NumberHead(t);
    FlatsAsNumber(t + rest, path, flat);
  }

  lemma FlatsAsNumber(s: string, path: string, flat: Flat)
    requires (Peek(s) == '-' || IsDigit(Peek(s))) && FlatNumber(s).Some?
    ensures var (value, rest) := FlatNumber(s).value;
      FlatValue(s, path, flat) == Some((if value.Some? then NoteNumber(flat, path, value.value) else flat, rest))
  {
    assert SkipWs(s) == s;
  }

  lemma NumberHead(t: string)
    requires IsNumber(t)
    ensures t != "" && (t[0] == '-' || IsDigit(t[0]))
  {
    assert t != "";
  }

  lemma NumberLeaf(t: string, path: string, flat: Flat)
    requires IsNumber(t)
    ensures NoteAll(flat, Leaves(Num(t), path)) ==
            if IntOf(t).Some? then NoteNumber(flat, path, IntOf(t).value) else flat
  {
    if IntOf(t).Some? {
      NoteOne(flat, IntLeaf(path, IntOf(t).value));
    }
  }

  lemma LooseNumberFails(t: string, path: string, flat: Flat, rest: string)
    requires IsLooseNumber(t)
    ensures FlatValue(t + rest, path, flat) == None
  {
    var s := t + rest;
    assert SkipWs(s) == s;
    if t[0] == '-' {
      assert Peek(s[1..]) == '.';
      assert Strtoll(s) == None;
    }
  }

  lemma OutcomeOfMembers(members: seq<Member>, path: string, flat: Flat, rest: string)
    requires members != []
    ensures var m := members[0];
      Outcome(Obj(members), path, flat, rest) ==
      if !MemberAccepted(m, path) then None
      else Outcome(Obj(members[1..]), path, NoteAll(flat, Leaves(m.value, Join(path, m.key))), rest)
  {
    var m, more := members[0], members[1..];
    assert members == [m] + more;
    assert Accepted(Obj(members), path) <==> MemberAccepted(m, path) && Accepted(Obj(more), path);
    var leaves := Leaves(m.value, Join(path, m.key));
    assert Leaves(Obj(members), path) == leaves + Leaves(Obj(more), path);
    NoteAllConcat(flat, leaves, Leaves(Obj(more), path));
  }

  lemma {:induction false} FlatSpreadMembers(members: seq<Member>, w: string, path: string, flat: Flat, rest: string)
    requires members != [] && Blank(w) && forall m :: m in members ==> Printable(m.value)
    ensures SpreadMembers(members, w) != "" && SpreadMembers(members, w)[0] == '"'
    ensures FlatMembers(SpreadMembers(members, w) + ("}" + rest), path, flat) == Outcome(Obj(members), path, flat, rest)
    decreases members, 1
  {
    var m := members[0];
    MembersSplit(members, w, rest);
    MemberSplit(m, w, AfterFirst(members, w, rest));
    OutcomeOfMembers(members, path, flat, rest);
    if |members| == 1 {
      FlatSpreadMember(m, w, path, flat, "}", rest);
      Onward(w, "}", rest);
      assert members[1..] == [];
      assert Leaves(Obj([]), path) == [];
    } else {
      var more := SpreadMembers(members[1..], w) + ("}" + rest);
      FlatSpreadMember(m, w, path, flat, ",", w + more);
      Onward(w, ",", w + more);
      FlatSpreadMembers(members[1..], w, path, NoteAll(flat, Leaves(m.value, Join(path, m.key))), rest);
      Arrive(w, more);
    }
  }

  lemma {:induction false} FlatSpreadMember(m: Member, w: string, path: string, flat: Flat, mark: string, rest: string)
    requires Printable(m.value) && Blank(w) && (mark == "," || mark == "}")
    ensures SpreadMember(m, w) != "" && SpreadMember(m, w)[0] == '"'
    ensures var more := w + (mark + rest);
      FlatMember(SpreadMember(m, w) + more, path, flat) ==
      if MemberAccepted(m, path) then Some((NoteAll(flat, Leaves(m.value, Join(path, m.key))), more)) else None
    decreases m, 1
  {
    var more := w + (mark + rest);
    var tail := Spread(m.value, w) + more;
    MemberSplit(m, w, more);
    QuoteScans(m.key, w + (":" + (w + tail)));
    SpreadHead(m.value, w);
    DelimitedAfter(w, mark, rest);
    if Plain(m.key) {
      MemberTurn(SpreadMember(m, w) + more, m.key, w, tail, path, flat);
      FlatSpread(m.value, w, Join(path, m.key), flat, more);
    }
  }

  lemma MemberTurn(s: string, key: string, w: string, tail: string, path: string, flat: Flat)
    requires Blank(w) && tail != "" && !IsSpace(tail[0]) && ScanString(s) == Some((key, w + (":" + (w + tail))))
    ensures FlatMember(s, path, flat) ==
            if |key| < KEY_SIZE && |Join(path, key)| < PATH_SIZE then FlatValue(tail, Join(path, key), flat) else None
  {
    Onward(w, ":", w + tail);
    Arrive(w, tail);
  }

  /** parse_flat_sample() on the text of an object with any white space in it, whatever follows it. */
  lemma SpreadFlattens(j: Json, w: string, rest: string)
    requires j.Obj? && Printable(j) && Blank(w)
    ensures FlatSample(Spread(j, w) + rest) ==
            if Accepted(j, "") then Some(NoteAll(EMPTY_FLAT, Leaves(j, ""))) else None
  {
    FlatSpread(j, w, "", EMPTY_FLAT, rest);
    SpreadHead(j, w);
    assert SkipWs(Spread(j, w) + rest) == Spread(j, w) + rest;
  }

  /** And without. */
  lemma SampleFlattens(j: Json, rest: string)
    requires j.Obj? && Printable(j)
    ensures FlatSample(Print(j) + rest) ==
            if Accepted(j, "") then Some(NoteAll(EMPTY_FLAT, Leaves(j, ""))) else None
  {
    SpreadNothing(j);
    SpreadFlattens(j, "", rest);
  }

  // ----- what the leaves amount to: last one wins ------------------------------------------------

  function LastInt(leaves: seq<Leaf>, path: string): Option<int> {
    if leaves == [] then None
    else
      var last := leaves[|leaves| - 1];
      if last.IntLeaf? && last.path == path then Some(last.value) else LastInt(leaves[..|leaves| - 1], path)
  }

  function LastText(leaves: seq<Leaf>, path: string): Option<string> {
    if leaves == [] then None
    else
      var last := leaves[|leaves| - 1];
      if last.TextLeaf? && last.path == path then Some(last.text) else LastText(leaves[..|leaves| - 1], path)
  }

  function Or<T>(o: Option<T>, default: T): T {
    if o.Some? then o.value else default
  }

  lemma {:induction false} NoteAllLast(flat: Flat, leaves: seq<Leaf>)
    requires leaves != []
    ensures NoteAll(flat, leaves) == Note(NoteAll(flat, leaves[..|leaves| - 1]), leaves[|leaves| - 1])
  {
    var init, last := leaves[..|leaves| - 1], leaves[|leaves| - 1];
    assert leaves == init + [last];
    NoteAllConcat(flat, init, [last]);
  }

  /** The table is the last-wins map of the integer leaves whose path is monotonic. */
  lemma {:induction false} NotedMetric(leaves: seq<Leaf>, path: string)
    requires forall leaf :: leaf in leaves ==> |leaf.path| < PATH_SIZE
    ensures Get(NoteAll(EMPTY_FLAT, leaves).metrics, path) == if Monotonic(path) then LastInt(leaves, path) else None
  {
    if leaves != [] {
      var init, last := leaves[..|leaves| - 1], leaves[|leaves| - 1];
      NoteAllLast(EMPTY_FLAT, leaves);
      NotedMetric(init, path);
      if last.IntLeaf? {
        assert last in leaves;
        GetSet(NoteAll(EMPTY_FLAT, init).metrics, last.path, last.value, path);
      }
    }
  }

  /** The identity comes from the last leaf at each of its five paths. */
  lemma {:induction false} NotedIdentity(leaves: seq<Leaf>)
    ensures NoteAll(EMPTY_FLAT, leaves).id ==
            Identity(
              Or(LastInt(leaves, TS_PATH), 0),
              Or(LastInt(leaves, PROCESS_ID_PATH), 0),
              Or(LastInt(leaves, UPTIME_PATH), 0),
              Truncate(Or(LastText(leaves, RUN_ID_PATH), ""), 128),
              Truncate(Or(LastText(leaves, ROLE_PATH), ""), 32),
              || LastInt(leaves, TS_PATH).Some? || LastInt(leaves, PROCESS_ID_PATH).Some?
              || LastInt(leaves, UPTIME_PATH).Some? || LastText(leaves, RUN_ID_PATH).Some?)
  {
    if leaves != [] {
      NoteAllLast(EMPTY_FLAT, leaves);
      NotedIdentity(leaves[..|leaves| - 1]);
      PathsDiffer();
    }
  }

  lemma PathsDiffer()
    ensures RUN_ID_PATH != ROLE_PATH && TS_PATH != PROCESS_ID_PATH
    ensures TS_PATH != UPTIME_PATH && PROCESS_ID_PATH != UPTIME_PATH
  {
    assert |RUN_ID_PATH| == 25 && |ROLE_PATH| == 28;
    assert |TS_PATH| == 5 && |PROCESS_ID_PATH| == 29 && |UPTIME_PATH| == 36;
  }

  lemma {:induction false} LeafPaths(j: Json, path: string)
    requires Accepted(j, path) && |path| < PATH_SIZE
    ensures forall leaf :: leaf in Leaves(j, path) ==> |leaf.path| < PATH_SIZE
    decreases j, 0
  {
    if j.Obj? {
      MemberLeafPaths(j.members, path);
    }
  }

  lemma {:induction false} MemberLeafPaths(members: seq<Member>, path: string)
    requires forall m :: m in members ==> MemberAccepted(m, path)
    ensures forall leaf :: leaf in MemberLeaves(members, path) ==> |leaf.path| < PATH_SIZE
    decreases members, 1
  {
    if members != [] {
      assert MemberAccepted(members[0], path);
      LeafPaths(members[0].value, Join(path, members[0].key));
      MemberLeafPaths(members[1..], path);
    }
  }

  /** The flattener's metrics, stated on the value alone: for every accepted sample and every path,
      the table holds the last integer leaf there if the path is monotonic, and nothing otherwise. */
  lemma FlattenedMetric(j: Json, rest: string, path: string)
    requires j.Obj? && Printable(j) && Accepted(j, "")
    ensures FlatSample(Print(j) + rest).Some?
    ensures Get(FlatSample(Print(j) + rest).value.metrics, path) ==
            if Monotonic(path) then LastInt(Leaves(j, ""), path) else None
  {
    SampleFlattens(j, rest);
    LeafPaths(j, "");
    NotedMetric(Leaves(j, ""), path);
  }
}
