/** JSON values, the compact text src/collector.c writes for them, and what the scanner of
    src/delta.c makes of that text inside arrays. */
module Json {
  import opened Wrappers
  import opened CText
  import opened JsonText

  /** A number keeps its text: the collector copies numerals through. */
  datatype Json =
    | Str(text: string)
    | Num(numeral: string)
    | Bool(value: bool)
    | Null
    | Arr(items: seq<Json>)
    | Obj(members: seq<Member>)

  datatype Member = Member(key: string, value: Json)

  // ----- printing ------------------------------------------------------------------------------

  function HexDigit(n: nat): char
    requires n < 16
  {
    "0123456789abcdef"[n]
  }

  function EscapeChar(c: char): (r: string)
    ensures r != ""
  {
    if c == '\\' || c == '"' then ['\\', c]
    else if c == '\n' then "\\n"
    else if c == '\r' then "\\r"
    else if c == '\t' then "\\t"
    else if c < ' ' then "\\u00" + [HexDigit(c as int / 16), HexDigit(c as int % 16)]
    else [c]
  }

  function Escape(s: string): string {
    if s == "" then "" else EscapeChar(s[0]) + Escape(s[1..])
  }

  /** buf_append_json_string_n() */
  function Quote(s: string): string {
    "\"" + Escape(s) + "\""
  }

  function Print(j: Json): string
    decreases j, 0
  {
    match j
    case Str(s) => Quote(s)
    case Num(n) => n
    case Bool(b) => if b then "true" else "false"
    case Null => "null"
    case Arr(items) => "[" + PrintItems(items) + "]"
    case Obj(members) => "{" + PrintMembers(members) + "}"
  }

  function PrintItems(items: seq<Json>): string
    decreases items, 1
  {
    if items == [] then ""
    else if |items| == 1 then Print(items[0])
    else Print(items[0]) + "," + PrintItems(items[1..])
  }

  function PrintMember(m: Member): string
    decreases m, 1
  {
    Quote(m.key) + ":" + Print(m.value)
  }

  function PrintMembers(members: seq<Member>): string
    decreases members, 2
  {
    if members == [] then ""
    else if |members| == 1 then PrintMember(members[0])
    else PrintMember(members[0]) + "," + PrintMembers(members[1..])
  }

  // ----- printing with white space -----------------------------------------------------------------

  /** The text of a value with white space `w` at every place inside it that allows some. */
  function Spread(j: Json, w: string): string
    decreases j, 0
  {
    match j
    case Arr(items) => "[" + (w + (SpreadItems(items, w) + "]"))
    case Obj(members) => "{" + (w + (SpreadMembers(members, w) + "}"))
    case _ => Print(j)
  }

  function SpreadItems(items: seq<Json>, w: string): string
    decreases items, 1
  {
    if items == [] then ""
    else if |items| == 1 then Spread(items[0], w) + w
    else Spread(items[0], w) + (w + ("," + (w + SpreadItems(items[1..], w))))
  }

  function SpreadMember(m: Member, w: string): string
    decreases m, 1
  {
    Quote(m.key) + (w + (":" + (w + Spread(m.value, w))))
  }

  function SpreadMembers(members: seq<Member>, w: string): string
    decreases members, 2
  {
    if members == [] then ""
    else if |members| == 1 then SpreadMember(members[0], w) + w
    else SpreadMember(members[0], w) + (w + ("," + (w + SpreadMembers(members[1..], w))))
  }

  lemma {:induction false} SpreadNothing(j: Json)
    ensures Spread(j, "") == Print(j)
    decreases j, 0
  {
    match j
    case Arr(items) =>
      SpreadItemsNothing(items);
      Regroup("[", PrintItems(items), "]");
      NothingBefore(PrintItems(items) + "]");
    case Obj(members) =>
      SpreadMembersNothing(members);
      Regroup("{", PrintMembers(members), "}");
      NothingBefore(PrintMembers(members) + "}");
    case _ =>
  }

  lemma NothingBefore(s: string)
    ensures "" + s == s && s + "" == s
  {
  }

  lemma {:induction false} SpreadItemsNothing(items: seq<Json>)
    ensures SpreadItems(items, "") == PrintItems(items)
    decreases items, 1
  {
    if items != [] {
      SpreadNothing(items[0]);
      SpreadItemsNothing(items[1..]);
      NothingBefore(Print(items[0]));
      NothingBefore(PrintItems(items[1..]));
      NothingBefore("," + PrintItems(items[1..]));
      Regroup(Print(items[0]), ",", PrintItems(items[1..]));
    }
  }

  lemma {:induction false} SpreadMembersNothing(members: seq<Member>)
    ensures SpreadMembers(members, "") == PrintMembers(members)
    decreases members, 2
  {
    if members != [] {
      SpreadMemberNothing(members[0]);
      SpreadMembersNothing(members[1..]);
      NothingBefore(PrintMember(members[0]));
      NothingBefore(PrintMembers(members[1..]));
      NothingBefore("," + PrintMembers(members[1..]));
      Regroup(PrintMember(members[0]), ",", PrintMembers(members[1..]));
    }
  }

  lemma {:induction false} SpreadMemberNothing(m: Member)
    ensures SpreadMember(m, "") == PrintMember(m)
    decreases m, 1
  {
    SpreadNothing(m.value);
    NothingBefore(Print(m.value));
    NothingBefore(":" + Print(m.value));
    Regroup(Quote(m.key), ":", Print(m.value));
  }

  /** What follows the first member in the text of an object, and `rest` after the object. */
  function AfterFirst(members: seq<Member>, w: string, rest: string): string
    requires members != []
  {
    w + if |members| == 1 then "}" + rest else "," + (w + (SpreadMembers(members[1..], w) + ("}" + rest)))
  }

  lemma MembersSplit(members: seq<Member>, w: string, rest: string)
    requires members != []
    ensures SpreadMembers(members, w) + ("}" + rest) == SpreadMember(members[0], w) + AfterFirst(members, w, rest)
  {
    var first, end := SpreadMember(members[0], w), "}" + rest;
    if |members| == 1 {
      Regroup(first, w, end);
    } else {
      var others := SpreadMembers(members[1..], w);
      Regroup(first, w + ("," + (w + others)), end);
      Regroup(w, "," + (w + others), end);
      Regroup(",", w + others, end);
      Regroup(w, others, end);
    }
  }

  lemma MemberSplit(m: Member, w: string, more: string)
    ensures SpreadMember(m, w) + more == Quote(m.key) + (w + (":" + (w + (Spread(m.value, w) + more))))
    ensures SpreadMember(m, w) != "" && SpreadMember(m, w)[0] == '"'
  {
    var value := Spread(m.value, w);
    Regroup(Quote(m.key), w + (":" + (w + value)), more);
    Regroup(w, ":" + (w + value), more);
    Regroup(":", w + value, more);
    Regroup(w, value, more);
  }

  // ----- numerals ------------------------------------------------------------------------------

  predicate IsExponent(s: string) {
    s == "" || ((s[0] == 'e' || s[0] == 'E') && DropSign(s[1..]) != "" && AllDigits(DropSign(s[1..])))
  }

  predicate IsNumeralTail(s: string) {
    if Peek(s) == '.' then DigitRun(s[1..]) > 0 && IsExponent(s[1 + DigitRun(s[1..])..]) else IsExponent(s)
  }

  function Magnitude(t: string): string {
    if Peek(t) == '-' then t[1..] else t
  }

  /** A number by section 6 of RFC 8259. */
  predicate IsNumber(t: string) {
    var u := Magnitude(t);
    var k := DigitRun(u);
    k > 0 && (u[0] == '0' ==> k == 1) && IsNumeralTail(u[k..])
  }

  /** Digits without a leading zero and an optional non-empty fraction, or a bare fraction. */
  predicate IsUnsignedNumeral(u: string) {
    var k := DigitRun(u);
    && (k > 1 ==> u[0] != '0')
    && (if k == |u| then k > 0 else u[k] == '.' && k + 1 < |u| && AllDigits(u[k + 1..]))
  }

  /** What is_number_text_n() accepts. */
  predicate IsNumeral(s: string) {
    IsUnsignedNumeral(DropSign(s))
  }

  /** Those of them that are no JSON number: a leading '+', or no digit before the point. */
  predicate IsLooseNumber(t: string) {
    && IsNumeral(t)
    && t != ""
    && (t[0] == '+' || t[0] == '.' || (|t| > 2 && t[0] == '-' && t[1] == '.' && AllDigits(t[2..])))
  }

  /** The value of a number without fraction and exponent, saturated to a long long. */
  function IntOf(t: string): (r: Option<int>)
    requires IsNumber(t)
    ensures r.Some? ==> InRange(r.value)
  {
    var u := Magnitude(t);
    if DigitRun(u) < |u| then None
    else
      var magnitude: int := DecimalValue(u[..DigitRun(u)]);
      Some(Saturate(if Peek(t) == '-' then -magnitude else magnitude))
  }

  /** Text that may follow a value. */
  predicate Delimited(rest: string) {
    Peek(rest) == NUL || Peek(rest) == ',' || Peek(rest) == ']' || Peek(rest) == '}' || IsSpace(Peek(rest))
  }

  // ----- strings: scanning undoes quoting exactly on the printable ones -------------------------

  predicate PlainChar(c: char) {
    c >= ' ' || c == '\n' || c == '\r' || c == '\t'
  }

  predicate Plain(s: string) {
    forall i :: 0 <= i < |s| ==> PlainChar(s[i])
  }

  lemma EscapedCharScans(c: char, rest: string)
    ensures StringBody(EscapeChar(c) + rest) == if PlainChar(c) then Glue([c], StringBody(rest)) else None
  {
    var s := EscapeChar(c) + rest;
    if |EscapeChar(c)| == 1 {
      assert s[1..] == rest;
    } else if PlainChar(c) {
      assert s[2..] == rest;
    }
  }

  lemma {:induction false} EscapedScans(s: string, rest: string)
    ensures StringBody(Escape(s) + "\"" + rest) == if Plain(s) then Some((s, rest)) else None
  {
    if s == "" {
      assert (Escape(s) + "\"" + rest)[1..] == rest;
    } else {
      assert Escape(s) + "\"" + rest == EscapeChar(s[0]) + (Escape(s[1..]) + "\"" + rest);
      EscapedCharScans(s[0], Escape(s[1..]) + "\"" + rest);
      EscapedScans(s[1..], rest);
      assert s == [s[0]] + s[1..];
    }
  }

  /** For every string and whatever follows it: quoting and scanning are inverse to each other when
      the string has no control byte but newline, carriage return and tab, and otherwise the scanner
      rejects what was quoted. */
  lemma QuoteScans(s: string, rest: string)
    ensures ScanString(Quote(s) + rest) == if Plain(s) then Some((s, rest)) else None
  {
    EscapedScans(s, rest);
    assert (Quote(s) + rest)[1..] == Escape(s) + "\"" + rest;
  }

  // ----- numerals: strtod stops at their end ----------------------------------------------------

  lemma {:induction false} DigitRunStops(s: string, rest: string)
    requires !IsDigit(Peek(rest))
    ensures DigitRun(s + rest) == DigitRun(s)
  {
    if s == "" {
      assert s + rest == rest;
    } else {
      assert (s + rest)[1..] == s[1..] + rest;
      DigitRunStops(s[1..], rest);
    }
  }

  lemma {:induction false} DigitRunAll(s: string)
    requires AllDigits(s)
    ensures DigitRun(s) == |s|
  {
    if s != "" {
      DigitRunAll(s[1..]);
    }
  }

  lemma ExponentEnds(s: string, rest: string)
    requires IsExponent(s) && Delimited(rest)
    ensures DropExponent(s + rest, 'e', 'E') == rest
  {
    if s == "" {
      assert s + rest == rest;
    } else {
      var t := DropSign(s[1..]);
      assert (s + rest)[1..] == s[1..] + rest;
      DropSignConcat(s[1..], rest);
      DigitRunOf(t, rest);
      ExponentDropped(s + rest, t, rest);
    }
  }

  lemma DropSignConcat(s: string, rest: string)
    requires s != ""
    ensures DropSign(s + rest) == DropSign(s) + rest
  {
    assert (s + rest)[1..] == s[1..] + rest;
  }

  lemma ExponentDropped(s: string, ds: string, rest: string)
    requires s != "" && (s[0] == 'e' || s[0] == 'E') && DropSign(s[1..]) == ds + rest
    requires ds != "" && DigitRun(ds + rest) == |ds| && (ds + rest)[|ds|..] == rest
    ensures DropExponent(s, 'e', 'E') == rest
  {
  }

  lemma TailEnds(s: string, rest: string)
    requires IsNumeralTail(s) && Delimited(rest)
    ensures !IsDigit(Peek(s + rest))
    ensures Peek(s) == '.' ==> FractionRun(s + rest) > 0
    ensures DropExponent(DropFraction(s + rest), 'e', 'E') == rest
  {
    if Peek(s) == '.' {
      assert (s + rest)[1..] == s[1..] + rest;
      DigitRunStops(s[1..], rest);
      var k := DigitRun(s[1..]);
      assert (s + rest)[1 + k..] == s[1 + k..] + rest;
      ExponentEnds(s[1 + k..], rest);
    } else {
      ExponentEnds(s, rest);
      assert s == "" ==> s + rest == rest;
    }
  }

  /** The decimal part: digits, possibly none, then a tail that holds a digit if there were none. */
  lemma DecimalEnds(u: string, tail: string, rest: string)
    requires Delimited(rest) && IsNumeralTail(tail)
    requires tail == u[DigitRun(u)..]
    requires u == tail ==> Peek(tail) == '.'
    ensures DropDecimal(u + rest) == Some(rest)
  {
    var ds := u[..DigitRun(u)];
    TailEnds(tail, rest);
    SplitAt(u, |ds|, rest);
    DecimalOf(ds, tail + rest);
  }

  lemma SplitAt(u: string, k: nat, rest: string)
    requires k <= |u|
    ensures u + rest == u[..k] + (u[k..] + rest)
    ensures k == 0 ==> u == u[k..]
  {
  }

  lemma DecimalOf(ds: string, v: string)
    requires AllDigits(ds) && !IsDigit(Peek(v)) && |ds| + FractionRun(v) > 0
    ensures DropDecimal(ds + v) == Some(DropExponent(DropFraction(v), 'e', 'E'))
  {
    DigitRunOf(ds, v);
  }

  lemma NotHex(u: string, rest: string)
    requires Delimited(rest) && u != ""
    requires u[0] == '0' ==> |u| == 1 || u[1] == '.' || u[1] == 'e' || u[1] == 'E'
    ensures DropHex(u + rest) == None
  {
    if |u| == 1 && rest != "" {
      assert (u + rest)[1] == rest[0];
    }
  }

  lemma StrtodEnds(t: string, rest: string)
    requires Delimited(rest)
    requires IsNumber(t) || (IsLooseNumber(t) && t[0] == '-')
    ensures Strtod(t + rest) == rest
  {
    var u := Magnitude(t);
    var tail := u[DigitRun(u)..];
    assert DropSign(t + rest) == u + rest;
    if IsNumber(t) {
      assert tail != "" ==> u[DigitRun(u)] == tail[0];
    } else {
      LooseTail(t);
    }
    NotHex(u, rest);
    DecimalEnds(u, tail, rest);
  }

  lemma LooseTail(t: string)
    requires IsLooseNumber(t) && t[0] == '-'
    ensures DigitRun(t[1..]) == 0 && t[1..][0..] == t[1..] && IsNumeralTail(t[1..])
  {
    assert t[1..][1..] == t[2..];
    DigitRunAll(t[2..]);
  }

  // ----- values inside arrays -------------------------------------------------------------------

  /** Every number in the value is one the collector can write. */
  predicate Printable(j: Json)
    decreases j
  {
    match j
    case Num(t) => IsNumber(t) || IsLooseNumber(t)
    case Arr(items) => forall v :: v in items ==> Printable(v)
    case Obj(members) => forall m :: m in members ==> Printable(m.value)
    case _ => true
  }

  /** What skip_json_value() accepts: strings and keys of at most 255 characters. */
  predicate Skippable(j: Json)
    decreases j
  {
    match j
    case Str(s) => Plain(s) && |s| < 256
    case Num(t) => IsNumber(t) || (t != "" && t[0] == '-')
    case Arr(items) => forall v :: v in items ==> Skippable(v)
    case Obj(members) => forall m :: m in members ==> Plain(m.key) && |m.key| < 256 && Skippable(m.value)
    case _ => true
  }

  lemma SpreadHead(j: Json, w: string)
    requires Printable(j)
    ensures Spread(j, w) != "" && !IsSpace(Spread(j, w)[0])
    ensures Spread(j, w)[0] != ']' && Spread(j, w)[0] != '}' && Spread(j, w)[0] != ',' && Spread(j, w)[0] != NUL
    ensures Spread(j, w)[0] == '{' <==> j.Obj?
    ensures Spread(j, w)[0] == '[' <==> j.Arr?
    ensures Spread(j, w)[0] == '"' <==> j.Str?
  {
    if j.Num? && IsNumber(j.numeral) {
      assert j.numeral != "";
    }
  }

  /** Skipping the text of a value, whatever follows it (but something that ends a number, after one) and
      whatever white space is in it, reads it exactly when the value is skippable, and consumes just that text. */
  lemma {:induction false} SkipSpread(j: Json, w: string, rest: string)
    requires Printable(j) && Blank(w) && (j.Num? ==> Delimited(rest))
    ensures SkipValue(Spread(j, w) + rest) == if Skippable(j) then Some(rest) else None
    decreases j, 0
  {
    SpreadHead(j, w);
    var s := Spread(j, w) + rest;
    assert SkipWs(s) == s;
    match j
    case Str(t) => QuoteScans(t, rest);
    case Num(t) => SkipNumeral(t, rest);
    case Bool(b) => assert s[if b then 4 else 5..] == rest;
    case Null => assert s[4..] == rest;
    case Arr(items) => SkipSpreadArray(items, w, rest);
    case Obj(members) => SkipSpreadObject(members, w, rest);
  }

  /** Without white space. */
  lemma SkipPrinted(j: Json, rest: string)
    requires Printable(j) && (j.Num? ==> Delimited(rest))
    ensures SkipValue(Print(j) + rest) == if Skippable(j) then Some(rest) else None
  {
    SpreadNothing(j);
    SkipSpread(j, "", rest);
  }

  lemma SkipNumeral(t: string, rest: string)
    requires IsNumber(t) || IsLooseNumber(t)
    requires Delimited(rest)
    ensures SkipValue(t + rest) == if IsNumber(t) || t[0] == '-' then Some(rest) else None
  {
    var s := t + rest;
    if IsNumber(t) || t[0] == '-' {
      NumeralSkips(t, rest);
      SkipsAsNumber(s);
    } else {
      SkipsNothing(s);
    }
  }

  lemma SkipsAsNumber(s: string)
    requires Peek(s) == '-' || IsDigit(Peek(s))
    ensures SkipValue(s) == SkipNumber(s)
  {
    NoWs(s);
    assert Peek(s) != '"' && Peek(s) != '{' && Peek(s) != '[';
  }

  lemma NoWs(s: string)
    requires !IsSpace(Peek(s))
    ensures SkipWs(s) == s
  {
  }

  lemma SkipsNothing(s: string)
    requires Peek(s) == '+' || Peek(s) == '.'
    ensures SkipValue(s) == None
  {
    assert SkipWs(s) == s;
  }

  lemma NumeralSkips(t: string, rest: string)
    requires IsNumber(t) || (IsLooseNumber(t) && t[0] == '-')
    requires Delimited(rest)
    ensures SkipNumber(t + rest) == Some(rest)
    ensures t != "" && (t[0] == '-' || IsDigit(t[0]))
  {
    StrtodEnds(t, rest);
    assert t != "";
  }

  /** What follows the opening bracket or brace. */
  lemma Inside(open: string, w: string, body: string, end: string, rest: string)
    requires Blank(w) && |open| == 1 && |end| == 1 && !IsSpace(end[0]) && (body != "" ==> !IsSpace(body[0]))
    ensures var s := open + (w + (body + end)) + rest;
      s != "" && s[0] == open[0] && SkipWs(s[1..]) == body + (end + rest)
    ensures (end + rest)[1..] == rest
  {
    var inner := body + (end + rest);
    Regroup(open, w + (body + end), rest);
    Regroup(w, body + end, rest);
    Regroup(body, end, rest);
    assert (open + (w + inner))[1..] == w + inner;
    SkipBlank(w, inner);
    assert inner[0] == if body == "" then end[0] else body[0];
  }

  lemma {:induction false} SkipSpreadArray(items: seq<Json>, w: string, rest: string)
    requires Blank(w) && forall v :: v in items ==> Printable(v)
    ensures SkipArray(Spread(Arr(items), w) + rest) == if Skippable(Arr(items)) then Some(rest) else None
    decreases items, 2
  {
    if items == [] {
      Inside("[", w, "", "]", rest);
      NothingBefore("]" + rest);
    } else {
      SkipSpreadItems(items, w, rest);
      Inside("[", w, SpreadItems(items, w), "]", rest);
    }
  }

  lemma {:induction false} SkipSpreadObject(members: seq<Member>, w: string, rest: string)
    requires Blank(w) && forall m :: m in members ==> Printable(m.value)
    ensures SkipObject(Spread(Obj(members), w) + rest) == if Skippable(Obj(members)) then Some(rest) else None
    decreases members, 2
  {
    if members == [] {
      Inside("{", w, "", "}", rest);
      NothingBefore("}" + rest);
    } else {
      SkipSpreadMembers(members, w, rest);
      Inside("{", w, SpreadMembers(members, w), "}", rest);
    }
  }

  /** What follows the first item in the text of an array, and `rest` after the array. */
  function AfterItem(items: seq<Json>, w: string, rest: string): string
    requires items != []
  {
    w + if |items| == 1 then "]" + rest else "," + (w + (SpreadItems(items[1..], w) + ("]" + rest)))
  }

  lemma ItemsSplit(items: seq<Json>, w: string, rest: string)
    requires items != []
    ensures SpreadItems(items, w) + ("]" + rest) == Spread(items[0], w) + AfterItem(items, w, rest)
  {
    var first, end := Spread(items[0], w), "]" + rest;
    if |items| == 1 {
      Regroup(first, w, end);
    } else {
      var others := SpreadItems(items[1..], w);
      Regroup(first, w + ("," + (w + others)), end);
      Regroup(w, "," + (w + others), end);
      Regroup(",", w + others, end);
      Regroup(w, others, end);
    }
  }

  /** White space, and then something that is none: a separator and what follows it behind more white space. */
  lemma Onward(w: string, mark: string, rest: string)
    requires Blank(w) && |mark| == 1 && !IsSpace(mark[0])
    ensures SkipWs(w + (mark + rest)) == mark + rest && (mark + rest)[1..] == rest && (mark + rest)[0] == mark[0]
  {
    SkipBlank(w, mark + rest);
  }

  lemma Arrive(w: string, text: string)
    requires Blank(w) && text != "" && !IsSpace(text[0])
    ensures SkipWs(w + text) == text
  {
    SkipBlank(w, text);
  }

  lemma DelimitedAfter(w: string, mark: string, rest: string)
    requires Blank(w) && (mark == "," || mark == "]" || mark == "}")
    ensures Delimited(w + (mark + rest))
  {
    assert (w + (mark + rest))[0] == if w == "" then mark[0] else w[0];
  }

  lemma {:induction false} SkipSpreadItems(items: seq<Json>, w: string, rest: string)
    requires items != [] && Blank(w) && forall v :: v in items ==> Printable(v)
    ensures SpreadItems(items, w) != "" && !IsSpace(SpreadItems(items, w)[0]) && SpreadItems(items, w)[0] != ']'
    ensures SkipItems(SpreadItems(items, w) + ("]" + rest)) ==
            if forall v :: v in items ==> Skippable(v) then Some(rest) else None
    decreases items, 1
  {
    SpreadHead(items[0], w);
    ItemsSplit(items, w, rest);
    SkippableItems(items);
    if |items| == 1 {
      DelimitedAfter(w, "]", rest);
      Onward(w, "]", rest);
    } else {
      var more := SpreadItems(items[1..], w) + ("]" + rest);
      DelimitedAfter(w, ",", w + more);
      SkipSpreadItems(items[1..], w, rest);
      Onward(w, ",", w + more);
      Arrive(w, more);
    }
    SkipSpread(items[0], w, AfterItem(items, w, rest));
  }

  lemma SkippableItems(items: seq<Json>)
    requires items != []
    ensures (forall v :: v in items ==> Skippable(v)) <==>
            Skippable(items[0]) && forall v :: v in items[1..] ==> Skippable(v)
  {
    assert items == [items[0]] + items[1..];
  }

  lemma {:induction false} SkipSpreadMembers(members: seq<Member>, w: string, rest: string)
    requires members != [] && Blank(w) && forall m :: m in members ==> Printable(m.value)
    ensures SpreadMembers(members, w) != "" && SpreadMembers(members, w)[0] == '"'
    ensures SkipMembers(SpreadMembers(members, w) + ("}" + rest)) ==
            if forall m :: m in members ==> SkippableMember(m)
            then Some(rest) else None
    decreases members, 1
  {
    MembersSplit(members, w, rest);
    MemberSplit(members[0], w, AfterFirst(members, w, rest));
    SkippableMembers(members);
    if |members| == 1 {
      SkipSpreadMember(members[0], w, "}", rest);
    } else {
      var more := SpreadMembers(members[1..], w) + ("}" + rest);
      SkipSpreadMembers(members[1..], w, rest);
      Arrive(w, more);
      SkipSpreadMember(members[0], w, ",", w + more);
    }
  }

  predicate SkippableMember(m: Member) {
    Plain(m.key) && |m.key| < 256 && Skippable(m.value)
  }

  lemma SkippableMembers(members: seq<Member>)
    requires members != []
    ensures (forall m :: m in members ==> SkippableMember(m)) <==>
            SkippableMember(members[0]) && forall m :: m in members[1..] ==> SkippableMember(m)
  {
    assert members == [members[0]] + members[1..];
  }

  /** One turn of the member loop. */
  lemma {:induction false} SkipSpreadMember(m: Member, w: string, mark: string, rest: string)
    requires Printable(m.value) && Blank(w) && (mark == "," || mark == "}")
    ensures SpreadMember(m, w) != "" && SpreadMember(m, w)[0] == '"'
    ensures SkipMembers(SpreadMember(m, w) + (w + (mark + rest))) ==
            if !SkippableMember(m) then None
            else if mark == "}" then Some(rest)
            else SkipMembers(SkipWs(rest))
    decreases m, 1
  {
    var more := w + (mark + rest);
    var tail := Spread(m.value, w) + more;
    MemberSplit(m, w, more);
    QuoteScans(m.key, w + (":" + (w + tail)));
    SpreadHead(m.value, w);
    Onward(w, ":", w + tail);
    Arrive(w, tail);
    DelimitedAfter(w, mark, rest);
    SkipSpread(m.value, w, more);
    Onward(w, mark, rest);
  }
}
