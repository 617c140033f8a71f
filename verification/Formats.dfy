/** The texts that are written, letter by letter. */
module Formats {
  import opened Wrappers
  import opened CText
  import opened JsonText
  import opened Json
  import opened Flatten
  import opened Collector
  import opened Sample
  import opened Metadata

  /** The path of a member is its key at the top, and below that the path so far, a dot and the key. An empty
      path gets no dot, also below the top. */
  lemma JoinsWithDot(path: string, key: string)
    ensures Join("", key) == key
    ensures path != "" ==> Join(path, key) == path + "." + key
  {
  }

  /** Digits and signs. */
  predicate IsRun(s: string) {
    forall i :: 0 <= i < |s| ==> IsDigit(s[i]) || s[i] == '+' || s[i] == '-'
  }

  lemma {:induction false} RunPassed(start: string, value: int, run: string, rest: string)
    requires IsRun(run) && |run + rest| < |start|
    ensures NumberTail(start, value, run + rest) == NumberTail(start, value, rest)
    decreases |run|
  {
    if run == "" {
      assert run + rest == rest;
    } else {
      assert (run + rest)[0] == run[0] && (run + rest)[1..] == run[1..] + rest;
      RunPassed(start, value, run[1..], rest);
    }
  }

  /** An integer is read up to the first character that is no digit; digits and signs that follow it are passed
      over, as in `12-3`; and if a point or an exponent comes then, the whole is a float, which has no value. */
  lemma NumberRead(negative: bool, ds: string, run: string, rest: string)
    requires ds != "" && AllDigits(ds) && IsRun(run) && !IsDigit(Peek(run + rest))
    requires !IsDigit(Peek(rest)) && Peek(rest) != '+' && Peek(rest) != '-'
    ensures var s := (if negative then "-" else "") + (ds + (run + rest));
      var magnitude: int := DecimalValue(ds);
      FlatNumber(s) ==
      if Peek(rest) != '.' && Peek(rest) != 'e' && Peek(rest) != 'E'
      then Some((Some(Saturate(if negative then -magnitude else magnitude)), rest))
      else if |Strtod(s)| == |s| then None
      else Some((None, Strtod(s)))
  {
    var s := (if negative then "-" else "") + (ds + (run + rest));
    assert !negative ==> s == ds + (run + rest);
    StrtollOf(s, negative, ds, run + rest);
    RunPassed(s, Strtoll(s).value.0, run, rest);
  }

  /** The two strings of the identity, whose buffers bound them. */
  lemma IdentityTexts(path: string)
    ensures IsIdentityText(path) <==> path == "valkey.info.server.run_id" || path == "valkey.info.replication.role"
  {
  }

  // ----- numerals ---------------------------------------------------------------------------------------------

  /** Nothing, or a point and at least one digit. */
  predicate Fraction(s: string) {
    s == "" || (|s| >= 2 && s[0] == '.' && AllDigits(s[1..]))
  }

  /** Nothing, or `e` or `E`, a sign or none, and at least one digit. */
  ghost predicate Exponent(s: string) {
    s == "" || exists e, sign, ds :: s == e + sign + ds && (e == "e" || e == "E") &&
                                     (sign == "" || sign == "+" || sign == "-") && ds != "" && AllDigits(ds)
  }

  predicate Whole(s: string) {
    AllDigits(s) && (|s| > 1 ==> s[0] != '0')
  }

  /** What the collector prints as a number: a sign or none, digits without a leading zero and a fraction, of
      which one may be missing. */
  ghost predicate NumeralForm(s: string, sign: string, whole: string, fraction: string) {
    && s == sign + whole + fraction && (sign == "" || sign == "+" || sign == "-")
    && Whole(whole) && Fraction(fraction) && whole + fraction != ""
  }

  lemma SignDropped(sign: string, rest: string)
    requires sign == "" || sign == "+" || sign == "-"
    requires rest != "" && rest[0] != '+' && rest[0] != '-'
    ensures DropSign(sign + rest) == rest
  {
    assert sign == "" ==> sign + rest == rest;
    assert sign != "" ==> (sign + rest)[1..] == rest;
  }

  lemma UnsignedForm(whole: string, fraction: string)
    requires Whole(whole) && Fraction(fraction) && whole + fraction != ""
    ensures IsUnsignedNumeral(whole + fraction)
    ensures (whole + fraction)[0] != '+' && (whole + fraction)[0] != '-'
  {
    DigitRunOf(whole, fraction);
    assert fraction != "" ==> (whole + fraction)[|whole|] == '.' && (whole + fraction)[|whole| + 1..] == fraction[1..];
    assert whole != "" ==> IsDigit(whole[0]) && (whole + fraction)[0] == whole[0];
  }

  lemma UnsignedParts(u: string) returns (whole: string, fraction: string)
    requires IsUnsignedNumeral(u)
    ensures u == whole + fraction && Whole(whole) && Fraction(fraction) && whole + fraction != ""
  {
    var k := DigitRun(u);
    whole, fraction := u[..k], u[k..];
    assert k < |u| ==> fraction[1..] == u[k + 1..];
  }

  lemma NumeralOf(s: string, sign: string, whole: string, fraction: string)
    requires NumeralForm(s, sign, whole, fraction)
    ensures IsNumeral(s)
  {
    UnsignedForm(whole, fraction);
    Regroup(sign, whole, fraction);
    SignDropped(sign, whole + fraction);
  }

  /** For every text: it is taken for a number exactly when it has that form. */
  lemma NumeralGrammar(s: string)
    ensures IsNumeral(s) <==> exists sign, whole, fraction :: NumeralForm(s, sign, whole, fraction)
  {
    if IsNumeral(s) {
      var whole, fraction := UnsignedParts(DropSign(s));
      var sign := s[..|s| - |DropSign(s)|];
      assert s == sign + DropSign(s);
      Regroup(sign, whole, fraction);
      assert NumeralForm(s, sign, whole, fraction);
    }
    if exists sign, whole, fraction :: NumeralForm(s, sign, whole, fraction) {
      var sign, whole, fraction :| NumeralForm(s, sign, whole, fraction);
      NumeralOf(s, sign, whole, fraction);
    }
  }

  /** A number of section 6 of RFC 8259. */
  ghost predicate NumberForm(s: string, minus: string, whole: string, fraction: string, exponent: string) {
    && s == minus + whole + fraction + exponent && (minus == "" || minus == "-")
    && whole != "" && Whole(whole) && Fraction(fraction) && Exponent(exponent)
  }

  lemma ExponentOf(e: string, sign: string, ds: string)
    requires e == "e" || e == "E"
    requires (sign == "" || sign == "+" || sign == "-") && ds != "" && AllDigits(ds)
    ensures IsExponent(e + sign + ds)
  {
    assert (e + sign + ds)[1..] == sign + ds && IsDigit(ds[0]);
    SignDropped(sign, ds);
  }

  lemma ExponentParts(s: string)
    requires IsExponent(s) && s != ""
    ensures Exponent(s)
  {
    var ds := DropSign(s[1..]);
    var sign := s[1..][..|s[1..]| - |ds|];
    assert s == s[..1] + sign + ds;
  }

  lemma ExponentForm(s: string)
    ensures IsExponent(s) <==> Exponent(s)
  {
    if s != "" && IsExponent(s) {
      ExponentParts(s);
    }
    if s != "" && Exponent(s) {
      var e, sign, ds :| s == e + sign + ds && (e == "e" || e == "E") &&
                         (sign == "" || sign == "+" || sign == "-") && ds != "" && AllDigits(ds);
      ExponentOf(e, sign, ds);
    }
  }

  lemma TailForm(fraction: string, exponent: string)
    requires Fraction(fraction) && Exponent(exponent)
    ensures IsNumeralTail(fraction + exponent)
    ensures fraction + exponent != "" ==> !IsDigit((fraction + exponent)[0])
  {
    ExponentForm(exponent);
    if fraction == "" {
      assert fraction + exponent == exponent;
    } else {
      assert (fraction + exponent)[1..] == fraction[1..] + exponent;
      DigitRunOf(fraction[1..], exponent);
      assert (fraction + exponent)[1 + |fraction[1..]|..] == exponent;
    }
  }

  lemma TailParts(tail: string) returns (fraction: string, exponent: string)
    requires IsNumeralTail(tail)
    ensures tail == fraction + exponent && Fraction(fraction) && Exponent(exponent)
  {
    var k := if Peek(tail) == '.' then 1 + DigitRun(tail[1..]) else 0;
    fraction, exponent := tail[..k], tail[k..];
    ExponentForm(exponent);
    assert k > 0 ==> fraction[1..] == tail[1..][..k - 1];
    assert k == 0 ==> exponent == tail;
  }

  lemma NumberOf(s: string, minus: string, whole: string, fraction: string, exponent: string)
    requires NumberForm(s, minus, whole, fraction, exponent)
    ensures IsNumber(s)
  {
    var tail := fraction + exponent;
    TailForm(fraction, exponent);
    Regroup(minus + whole, fraction, exponent);
    Regroup(minus, whole, tail);
    DigitRunOf(whole, tail);
    assert IsDigit(whole[0]);
    assert minus == "" ==> s == whole + tail;
    assert minus == "-" ==> s[1..] == whole + tail;
  }

  lemma NumberParts(s: string) returns (minus: string, whole: string, fraction: string, exponent: string)
    requires IsNumber(s)
    ensures NumberForm(s, minus, whole, fraction, exponent)
  {
    var u := Magnitude(s);
    minus, whole := s[..|s| - |u|], u[..DigitRun(u)];
    fraction, exponent := TailParts(u[DigitRun(u)..]);
    FourParts(s, minus, u, whole, fraction, exponent);
    assert whole != "" && whole[0] == u[0];
  }

  lemma FourParts(s: string, minus: string, u: string, whole: string, fraction: string, exponent: string)
    requires |u| <= |s| && s[|s| - |u|..] == u && minus == s[..|s| - |u|]
    requires |whole| <= |u| && whole == u[..|whole|] && u[|whole|..] == fraction + exponent
    ensures s == minus + whole + fraction + exponent
  {
    assert s == minus + u && u == whole + (fraction + exponent);
    Regroup(minus, whole, fraction + exponent);
    Regroup(minus + whole, fraction, exponent);
  }

  /** For every text: `IsNumber` is that grammar. */
  lemma NumberGrammar(s: string)
    ensures IsNumber(s) <==>
            exists minus, whole, fraction, exponent :: NumberForm(s, minus, whole, fraction, exponent)
  {
    if IsNumber(s) {
      var minus, whole, fraction, exponent := NumberParts(s);
    }
    if exists minus, whole, fraction, exponent :: NumberForm(s, minus, whole, fraction, exponent) {
      var minus, whole, fraction, exponent :| NumberForm(s, minus, whole, fraction, exponent);
      NumberOf(s, minus, whole, fraction, exponent);
    }
  }

  // ----- strings ----------------------------------------------------------------------------------------------

  const HEX := "0123456789abcdef"

  /** How one character is escaped: a backslash before a backslash or a quote, three short escapes, the code in
      four hexadecimal digits for other control characters, and itself for the rest. */
  lemma EscapeTable(c: char)
    ensures EscapeChar('\\') == "\\\\" && EscapeChar('"') == "\\\""
    ensures EscapeChar('\n') == "\\n" && EscapeChar('\r') == "\\r" && EscapeChar('\t') == "\\t"
    ensures c < ' ' && c != '\n' && c != '\r' && c != '\t' ==>
              c as int < 32 && EscapeChar(c) == "\\u00" + [HEX[c as int / 16], HEX[c as int % 16]]
    ensures c >= ' ' && c != '\\' && c != '"' ==> EscapeChar(c) == [c]
  {
  }

  /** A text is escaped character by character. */
  lemma {:induction false} EscapesEach(s: string, c: char)
    ensures Escape("") == "" && Escape(s + [c]) == Escape(s) + EscapeChar(c)
  {
    if s == "" {
      assert s + [c] == [c] && [c][1..] == "";
      assert EscapeChar(c) + "" == EscapeChar(c);
    } else {
      assert (s + [c])[0] == s[0] && (s + [c])[1..] == s[1..] + [c];
      EscapesEach(s[1..], c);
      Regroup(EscapeChar(s[0]), Escape(s[1..]), EscapeChar(c));
    }
  }

  predicate NoEscapes(s: string) {
    forall i :: 0 <= i < |s| ==> s[i] >= ' ' && s[i] != '\\' && s[i] != '"'
  }

  lemma {:induction false} EscapesNothing(s: string)
    requires NoEscapes(s)
    ensures Escape(s) == s
  {
    if s != "" {
      EscapesNothing(s[1..]);
      assert s == [s[0]] + s[1..];
    }
  }

  /** What the scanner makes of a backslash and a character. */
  lemma UnescapeTable(c: char)
    ensures Unescape('"') == Some('"') && Unescape('\\') == Some('\\') && Unescape('/') == Some('/')
    ensures Unescape('b') == Some('\U{08}') && Unescape('f') == Some('\U{0C}')
    ensures Unescape('n') == Some('\n') && Unescape('r') == Some('\r') && Unescape('t') == Some('\t')
    ensures Unescape(c).Some? ==> c in "\"\\/bfnrt"
  {
  }

  // ----- objects and arrays -----------------------------------------------------------------------------------

  /** A member with this text for a value. */
  function Named(name: string, text: string): string {
    "\"" + Escape(name) + "\":" + text
  }

  function MemberTexts(members: seq<Member>): seq<string> {
    if members == [] then [] else [Named(members[0].key, Print(members[0].value))] + MemberTexts(members[1..])
  }

  function ItemTexts(items: seq<Json>): seq<string> {
    if items == [] then [] else [Print(items[0])] + ItemTexts(items[1..])
  }

  lemma MemberNamed(m: Member)
    ensures PrintMember(m) == Named(m.key, Print(m.value))
  {
    Regroup("\"" + Escape(m.key), "\"", ":");
    Regroup("\"" + Escape(m.key) + "\"", ":", Print(m.value));
  }

  lemma {:induction false} MembersJoined(members: seq<Member>)
    ensures PrintMembers(members) == Joined(MemberTexts(members), ",")
  {
    if members != [] {
      MemberNamed(members[0]);
      MembersJoined(members[1..]);
      JoinedNext(Named(members[0].key, Print(members[0].value)), MemberTexts(members[1..]));
    }
  }

  lemma JoinedNext(text: string, more: seq<string>)
    ensures Joined([text] + more, ",") == if more == [] then text else text + "," + Joined(more, ",")
  {
    assert ([text] + more)[1..] == more;
  }

  lemma {:induction false} ItemsJoined(items: seq<Json>)
    ensures PrintItems(items) == Joined(ItemTexts(items), ",")
  {
    if items != [] {
      ItemsJoined(items[1..]);
      JoinedNext(Print(items[0]), ItemTexts(items[1..]));
    }
  }

  /** The text of every value. */
  lemma ValueText(j: Json)
    ensures Print(j) ==
            match j
            case Str(s) => "\"" + Escape(s) + "\""
            case Num(t) => t
            case Bool(b) => if b then "true" else "false"
            case Null => "null"
            case Arr(items) => "[" + Joined(ItemTexts(items), ",") + "]"
            case Obj(members) => "{" + Joined(MemberTexts(members), ",") + "}"
  {
    match j
    case Arr(items) => ItemsJoined(items);
    case Obj(members) => MembersJoined(members);
    case _ =>
  }

  // ----- INFO -------------------------------------------------------------------------------------------------

  /** The fields of a compound value. */
  function FieldTexts(tokens: seq<string>): seq<string> {
    if tokens == [] then []
    else
      (if Pair(tokens[0]).None? then []
       else [Named(Pair(tokens[0]).value.0, Print(ValueOf(Pair(tokens[0]).value.1)))]) + FieldTexts(tokens[1..])
  }

  lemma {:induction false} PairTexts(tokens: seq<string>, size: nat)
    requires forall token :: token in tokens ==> |token| <= size
    ensures MemberTexts(PairsOf(tokens, size)) == FieldTexts(tokens)
  {
    if tokens != [] {
      var token, more := tokens[0], tokens[1..];
      assert token in tokens;
      PairTexts(more, size);
      MemberTextsConcat(PairMember(token, size), PairsOf(more, size));
      if Pair(token).Some? {
        OneMemberText(PairMember(token, size)[0]);
      }
    }
  }

  lemma OneMemberText(m: Member)
    ensures MemberTexts([m]) == [Named(m.key, Print(m.value))]
  {
    assert [m][1..] == [];
  }

  lemma {:induction false} MemberTextsConcat(a: seq<Member>, b: seq<Member>)
    ensures MemberTexts(a + b) == MemberTexts(a) + MemberTexts(b)
  {
    if a == [] {
      assert a + b == b;
    } else {
      assert (a + b)[0] == a[0] && (a + b)[1..] == a[1..] + b;
      MemberTextsConcat(a[1..], b);
    }
  }

  /** What is printed for a value of INFO: yes and no as booleans, numerals as they are, lists of fields as
      objects, and anything else as a string; white space around it is left out. */
  lemma InfoValueText(raw: string)
    ensures var text := Trim(raw);
      Print(ValueOf(raw)) ==
      if text == "yes" then "true"
      else if text == "no" then "false"
      else if IsNumeral(text) then text
      else if IsCompound(text) then "{" + Joined(FieldTexts(Split(text, ',')), ",") + "}"
      else "\"" + Escape(text) + "\""
  {
    var text := Trim(raw);
    if IsCompound(text) {
      CompoundIsNoScalar(text);
      SplitShorter(text, ',');
      PairTexts(Split(text, ','), |raw|);
      MembersJoined(PairsOf(Split(text, ','), |raw|));
    }
  }

  /** A line without a colon, or that starts with a number sign or a carriage return, is left out. */
  function LineTexts(lines: seq<string>): seq<string> {
    if lines == [] then []
    else
      var line, c := lines[0], Find(lines[0], ':');
      (if c == |line| || line[0] == '#' || line[0] == '\r' then []
       else [Named(line[..c], Print(ValueOf(StripReturns(line[c + 1..]))))]) + LineTexts(lines[1..])
  }

  lemma {:induction false} LinesJoined(lines: seq<string>)
    ensures MemberTexts(LineMembers(lines)) == LineTexts(lines)
  {
    if lines != [] {
      LinesJoined(lines[1..]);
      MemberTextsConcat(LineMember(lines[0]), LineMembers(lines[1..]));
      if LineMember(lines[0]) != [] {
        OneMemberText(LineMember(lines[0])[0]);
      }
    }
  }

  /** What is printed for a section: an object with a member for each `key:value` line, in order. */
  lemma InfoText(payload: string)
    ensures Print(InfoOf(payload)) == "{" + Joined(LineTexts(Split(payload, '\n')), ",") + "}"
  {
    var lines := Split(payload, '\n');
    MembersJoined(LineMembers(lines));
    LinesJoined(lines);
  }

  // ----- a whole sample ---------------------------------------------------------------------------------------

  /** A member of this name, which needs no escapes. */
  function JsonField(name: string, text: string): string {
    "\"" + name + "\":" + text
  }

  lemma NamedPlain(m: Member)
    requires NoEscapes(m.key)
    ensures Named(m.key, Print(m.value)) == JsonField(m.key, Print(m.value))
  {
    EscapesNothing(m.key);
  }

  function FieldsOf(members: seq<Member>): seq<string> {
    if members == [] then [] else [JsonField(members[0].key, Print(members[0].value))] + FieldsOf(members[1..])
  }

  lemma {:induction false} PlainMembers(members: seq<Member>)
    requires forall m :: m in members ==> NoEscapes(m.key)
    ensures MemberTexts(members) == FieldsOf(members)
  {
    if members != [] {
      assert members[0] in members;
      NamedPlain(members[0]);
      PlainMembers(members[1..]);
    }
  }

  /** An object of fields. */
  lemma PlainObject(members: seq<Member>)
    requires forall m :: m in members ==> NoEscapes(m.key)
    ensures Print(Obj(members)) == "{" + Joined(FieldsOf(members), ",") + "}"
  {
    MembersJoined(members);
    PlainMembers(members);
  }

  lemma TwoFields(m: Member, rest: seq<Member>)
    ensures FieldsOf([m] + rest) == [JsonField(m.key, Print(m.value))] + FieldsOf(rest)
    ensures FieldsOf([]) == []
  {
    assert ([m] + rest)[1..] == rest;
  }

  lemma {:induction false} FieldAt(members: seq<Member>, i: nat)
    requires i < |members|
    ensures |FieldsOf(members)| == |members|
    ensures FieldsOf(members)[i] == JsonField(members[i].key, Print(members[i].value))
  {
    if i > 0 {
      FieldAt(members[1..], i - 1);
    } else if |members| > 1 {
      FieldAt(members[1..], 0);
    }
  }

  lemma {:induction false} SectionAt(names: seq<string>, payloads: seq<string>, i: nat)
    requires i < |names| == |payloads|
    ensures |SectionMembers(names, payloads)| == |names|
    ensures SectionMembers(names, payloads)[i] == Member(names[i], InfoOf(payloads[i]))
  {
    if i > 0 {
      SectionAt(names[1..], payloads[1..], i - 1);
    } else if |names| > 1 {
      SectionAt(names[1..], payloads[1..], 0);
    }
  }

  /** The nine sections, in this order. */
  function SectionFields(a: Answers): seq<string>
    requires |a.sections| == 9
  {
    [JsonField("server", Print(InfoOf(a.sections[0]))), JsonField("clients", Print(InfoOf(a.sections[1]))),
     JsonField("memory", Print(InfoOf(a.sections[2]))), JsonField("persistence", Print(InfoOf(a.sections[3]))),
     JsonField("stats", Print(InfoOf(a.sections[4]))), JsonField("replication", Print(InfoOf(a.sections[5]))),
     JsonField("cpu", Print(InfoOf(a.sections[6]))), JsonField("commandstats", Print(InfoOf(a.sections[7]))),
     JsonField("cluster", Print(InfoOf(a.sections[8])))]
  }

  lemma SectionsPlain()
    ensures |SECTIONS| == 9 && forall i :: 0 <= i < |SECTIONS| ==> NoEscapes(SECTIONS[i])
  {
  }

  lemma SectionNames()
    ensures |SECTIONS| == 9
    ensures SECTIONS[0] == "server" && SECTIONS[1] == "clients" && SECTIONS[2] == "memory"
    ensures SECTIONS[3] == "persistence" && SECTIONS[4] == "stats" && SECTIONS[5] == "replication"
    ensures SECTIONS[6] == "cpu" && SECTIONS[7] == "commandstats" && SECTIONS[8] == "cluster"
  {
  }

  lemma SectionsPrinted(a: Answers)
    requires |a.sections| == 9
    ensures |SECTIONS| == 9 && Print(InfoMember(a).value) == "{" + Joined(SectionFields(a), ",") + "}"
  {
    SectionNames();
    var members := SectionMembers(SECTIONS, a.sections);
    SectionAt(SECTIONS, a.sections, 0);
    SectionsPlain();
    forall m | m in members ensures NoEscapes(m.key) {
      var i :| 0 <= i < |members| && members[i] == m;
      SectionAt(SECTIONS, a.sections, i);
    }
    PlainObject(members);
    FieldAt(members, 0);
    forall i | 0 <= i < 9 ensures FieldsOf(members)[i] == SectionFields(a)[i] {
      FieldAt(members, i);
      SectionAt(SECTIONS, a.sections, i);
    }
    assert FieldsOf(members) == SectionFields(a);
  }

  lemma ThreeFields(x: Member, y: Member, z: Member)
    requires NoEscapes(x.key) && NoEscapes(y.key) && NoEscapes(z.key)
    ensures Print(Obj([x] + [y, z])) ==
            "{" + Joined([JsonField(x.key, Print(x.value)), JsonField(y.key, Print(y.value)),
                          JsonField(z.key, Print(z.value))], ",") + "}"
  {
    PlainObject([x] + [y, z]);
    TwoFields(x, [y, z]);
    assert [y, z] == [y] + [z] && [z] == [z] + [];
    TwoFields(y, [z]);
    TwoFields(z, []);
    var fx, fy := JsonField(x.key, Print(x.value)), JsonField(y.key, Print(y.value));
    var fz := JsonField(z.key, Print(z.value));
    assert [fx] + ([fy] + ([fz] + [])) == [fx, fy, fz];
  }

  lemma PlainKeys()
    ensures NoEscapes("ts_ms") && NoEscapes("valkey") && NoEscapes("host")
    ensures NoEscapes("info") && NoEscapes("latency_latest") && NoEscapes("slowlog")
  {
  }

  /** The text of a whole sample. */
  lemma SampleText(a: Answers)
    requires |a.sections| == 9
    ensures |SECTIONS| == 9
    ensures var info := "{" + Joined(SectionFields(a), ",") + "}";
      var valkey := "{" + Joined([JsonField("info", info), JsonField("latency_latest", Print(a.latency)),
                                  JsonField("slowlog", Print(a.slowlog))], ",") + "}";
      Print(SampleOf(a)) ==
      "{" + Joined([JsonField("ts_ms", IntText(a.tsMs)), JsonField("valkey", valkey),
                    JsonField("host", Print(a.host))], ",") + "}"
  {
    PlainKeys();
    SectionsPrinted(a);
    ThreeFields(InfoMember(a), LatencyMember(a), SlowlogMember(a));
    ThreeFields(Member("ts_ms", Num(IntText(a.tsMs))), ValkeyMember(a), Member("host", a.host));
  }

  // ----- the metadata line ------------------------------------------------------------------------------------

  /** The metadata of a metrics file: format 2 in delta mode and 1 otherwise, schema 1. */
  lemma MetadataLine(deltaMode: bool, createdMs: int, config: Option<Reply>)
    ensures MetadataText(deltaMode, createdMs, config) ==
            "{" + Joined([JsonField("format_version", if deltaMode then "2" else "1"), JsonField("schema_version", "1"),
                          JsonField("delta_mode", if deltaMode then "true" else "false"),
                          JsonField("module", "\"valkey-ftdc\""), JsonField("compression", "\"none\""),
                          JsonField("created_at_ms", IntText(createdMs))] +
                         if config.None? then [] else [JsonField("config", Print(ReplyJson(config.value)))], ",") + "}"
  {
    var version := Member("format_version", Num(IntText(if deltaMode then 2 else 1)));
    var rest := AfterVersion(deltaMode, createdMs, config);
    OneDigit();
    MetadataKeys(deltaMode, createdMs, config);
    PlainObject([version] + rest);
    TwoFields(version, rest);
    AfterVersionFields(deltaMode, createdMs, config);
    AfterModeFields(createdMs, config);
    InOrder(JsonField("format_version", if deltaMode then "2" else "1"), JsonField("schema_version", "1"),
            JsonField("delta_mode", if deltaMode then "true" else "false"), JsonField("module", "\"valkey-ftdc\""),
            JsonField("compression", "\"none\""), JsonField("created_at_ms", IntText(createdMs)),
            FieldsOf(ConfigMember(config)));
    ConfigFields(config);
  }

  lemma InOrder(a: string, b: string, c: string, d: string, e: string, f: string, rest: seq<string>)
    ensures [a] + ([b, c] + ([d, e, f] + rest)) == [a, b, c, d, e, f] + rest
  {
  }

  lemma OneDigit()
    ensures IntText(1) == "1" && IntText(2) == "2"
  {
  }

  lemma FirstKeys()
    ensures NoEscapes("format_version") && NoEscapes("schema_version") && NoEscapes("delta_mode")
  {
  }

  lemma LastKeys()
    ensures NoEscapes("module") && NoEscapes("compression") && NoEscapes("created_at_ms") && NoEscapes("config")
  {
  }

  lemma MetadataKeys(deltaMode: bool, createdMs: int, config: Option<Reply>)
    ensures forall m :: m in MetadataJson(deltaMode, createdMs, config).members ==> NoEscapes(m.key)
  {
    FirstKeys();
    ModeKeys(createdMs, config);
  }

  lemma ModeKeys(createdMs: int, config: Option<Reply>)
    ensures forall m :: m in AfterMode(createdMs, config) ==> NoEscapes(m.key)
  {
    LastKeys();
  }

  lemma AfterVersionFields(deltaMode: bool, createdMs: int, config: Option<Reply>)
    ensures FieldsOf(AfterVersion(deltaMode, createdMs, config)) ==
            [JsonField("schema_version", "1"), JsonField("delta_mode", if deltaMode then "true" else "false")] +
            FieldsOf(AfterMode(createdMs, config))
  {
    var schema, mode := VersionMembers(deltaMode, createdMs, config);
    var rest := AfterMode(createdMs, config);
    OneDigit();
    TwoFields(schema, [mode] + rest);
    TwoFields(mode, rest);
    Two(JsonField("schema_version", "1"), JsonField("delta_mode", if deltaMode then "true" else "false"),
        FieldsOf(rest));
  }

  lemma VersionMembers(deltaMode: bool, createdMs: int, config: Option<Reply>) returns (schema: Member, mode: Member)
    ensures AfterVersion(deltaMode, createdMs, config) == [schema] + ([mode] + AfterMode(createdMs, config))
    ensures schema == Member("schema_version", Num(IntText(1))) && mode == Member("delta_mode", Bool(deltaMode))
  {
    schema, mode := Member("schema_version", Num(IntText(1))), Member("delta_mode", Bool(deltaMode));
  }

  lemma Two(a: string, b: string, rest: seq<string>)
    ensures [a] + ([b] + rest) == [a, b] + rest
  {
  }

  lemma Three(a: string, b: string, c: string, rest: seq<string>)
    ensures [a] + ([b] + ([c] + rest)) == [a, b, c] + rest
  {
  }

  lemma AfterModeFields(createdMs: int, config: Option<Reply>)
    ensures FieldsOf(AfterMode(createdMs, config)) ==
            [JsonField("module", "\"valkey-ftdc\""), JsonField("compression", "\"none\""),
             JsonField("created_at_ms", IntText(createdMs))] + FieldsOf(ConfigMember(config))
  {
    var name, none, created := ModeMembers(createdMs, config);
    TwoFields(name, [none] + ([created] + ConfigMember(config)));
    TwoFields(none, [created] + ConfigMember(config));
    TwoFields(created, ConfigMember(config));
    ModulePrinted(name.value.text);
    NonePrinted(none.value.text);
    Three(JsonField("module", "\"valkey-ftdc\""), JsonField("compression", "\"none\""),
          JsonField("created_at_ms", IntText(createdMs)), FieldsOf(ConfigMember(config)));
  }

  lemma ModeMembers(createdMs: int, config: Option<Reply>) returns (name: Member, none: Member, created: Member)
    ensures AfterMode(createdMs, config) == [name] + ([none] + ([created] + ConfigMember(config)))
    ensures name.key == "module" && name.value.Str? && name.value.text == "valkey-ftdc"
    ensures none.key == "compression" && none.value.Str? && none.value.text == "none"
    ensures created == Member("created_at_ms", Num(IntText(createdMs)))
  {
    name, none := Member("module", Str("valkey-ftdc")), Member("compression", Str("none"));
    created := Member("created_at_ms", Num(IntText(createdMs)));
  }

  lemma PlainString(text: string)
    requires NoEscapes(text)
    ensures Print(Str(text)) == "\"" + text + "\""
  {
    EscapesNothing(text);
  }

  lemma ModulePrinted(text: string)
    requires text == "valkey-ftdc"
    ensures Print(Str(text)) == "\"valkey-ftdc\""
  {
    PlainString(text);
  }

  lemma NonePrinted(text: string)
    requires text == "none"
    ensures Print(Str(text)) == "\"none\""
  {
    PlainString(text);
  }

  lemma ConfigFields(config: Option<Reply>)
    ensures FieldsOf(ConfigMember(config)) ==
            if config.None? then [] else [JsonField("config", Print(ReplyJson(config.value)))]
  {
  }

  // ----- the answer of the server -------------------------------------------------------------------------------

  function EntryTexts(entries: seq<Entry>): seq<string> {
    if entries == [] then []
    else [Named(entries[0].key, Print(ReplyJson(entries[0].value)))] + EntryTexts(entries[1..])
  }

  function ReplyTexts(elements: seq<Reply>): seq<string> {
    if elements == [] then [] else [Print(ReplyJson(elements[0]))] + ReplyTexts(elements[1..])
  }

  lemma {:induction false} EntriesJoined(entries: seq<Entry>)
    ensures MemberTexts(EntryMembers(entries)) == EntryTexts(entries)
  {
    if entries != [] {
      EntriesJoined(entries[1..]);
      assert EntryMembers(entries)[1..] == EntryMembers(entries[1..]);
    }
  }

  lemma {:induction false} ElementsJoined(elements: seq<Reply>)
    ensures ItemTexts(ElementItems(elements)) == ReplyTexts(elements)
  {
    if elements != [] {
      ElementsJoined(elements[1..]);
      assert ElementItems(elements)[1..] == ElementItems(elements[1..]);
    }
  }

  /** Even in number and with a string at every even place: such a list is read as keys and values. */
  predicate KeysAndValues(elements: seq<Reply>) {
    |elements| % 2 == 0 && forall i :: 0 <= i < |elements| && i % 2 == 0 ==> elements[i].StringReply?
  }

  /** What is written for each answer. (A list of keys and values is written as the map of them: `MapOrList`.) */
  lemma ReplyText(reply: Reply)
    requires reply.ArrayReply? ==> !KeysAndValues(reply.elements)
    ensures Print(ReplyJson(reply)) ==
            match reply
            case StringReply(text) => "\"" + Escape(text) + "\""
            case TextReply(text) => "\"" + Escape(text) + "\""
            case IntegerReply(n) => IntText(n)
            case DoubleReply(printed) => printed
            case BoolReply(value) => if value then "true" else "false"
            case MapReply(entries) => "{" + Joined(EntryTexts(entries), ",") + "}"
            case ArrayReply(elements) => "[" + Joined(ReplyTexts(elements), ",") + "]"
            case NullReply => "null"
  {
    match reply
    case MapReply(entries) =>
      MembersJoined(EntryMembers(entries));
      EntriesJoined(entries);
    case ArrayReply(elements) =>
      ItemsJoined(ElementItems(elements));
      ElementsJoined(elements);
    case _ =>
  }

  /** The list of the keys and values of a map. */
  lemma {:induction false} PairsAreMap(elements: seq<Reply>)
    requires KeysAndValues(elements)
    ensures exists entries :: elements == Flattened(entries)
    decreases |elements|
  {
    if elements == [] {
      assert elements == Flattened([]);
    } else {
      var more := elements[2..];
      forall i | 0 <= i < |more| && i % 2 == 0 ensures more[i].StringReply? {
        assert more[i] == elements[i + 2];
      }
      PairsAreMap(more);
      var entries :| more == Flattened(entries);
      var all := [Entry(elements[0].text, elements[1])] + entries;
      assert all[1..] == entries;
      assert elements == Flattened(all);
    }
  }
}
