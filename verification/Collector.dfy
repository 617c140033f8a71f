/** The sample printer of src/collector.c: INFO text to JSON. What a printer appends is the text of a
    JSON value, which is its specification. */
module Collector {
  import opened Wrappers
  import opened CText
  import opened Json
  import opened Buffers

  const FIRST_CAPACITY := 1024

  // ----- spans -----------------------------------------------------------------------------------

  function TrimRight(s: string): (r: string)
    ensures |r| <= |s| && r == s[..|r|]
  {
    if s != "" && IsSpace(s[|s| - 1]) then TrimRight(s[..|s| - 1]) else s
  }

  function Trim(s: string): (r: string)
    ensures |r| <= |s|
  {
    TrimRight(SkipWs(s))
  }

  /** memchr(): the first place of `c`, or the length. */
  function Find(s: string, c: char): (k: nat)
    ensures k <= |s|
    ensures k < |s| ==> s[k] == c
    ensures forall i :: 0 <= i < k ==> s[i] != c
  {
    if s == "" || s[0] == c then 0 else 1 + Find(s[1..], c)
  }

  /** What follows the first separator, if there is one. */
  function AfterToken(s: string, c: char): (r: string)
    ensures s != "" ==> |r| < |s|
  {
    var k := Find(s, c);
    if k < |s| then s[k + 1..] else ""
  }

  /** The pieces between the separators. Nothing follows a separator at the end. */
  function Split(s: string, c: char): seq<string>
    decreases |s|
  {
    if s == "" then []
    else [s[..Find(s, c)]] + Split(AfterToken(s, c), c)
  }

  // ----- the JSON of a value ------------------------------------------------------------------------

  /** `key=value` with neither side empty. */
  function Pair(token: string): (r: Option<(string, string)>)
    ensures r.Some? ==> |r.value.1| < |token|
  {
    var key := Trim(token);
    var e := Find(key, '=');
    if e == 0 || e >= |key| - 1 then None
    else
      var name, val := Trim(key[..e]), Trim(SkipWs(token)[e + 1..]);
      if name == "" || val == "" then None else Some((name, val))
  }

  predicate AllPairs(tokens: seq<string>) {
    forall token :: token in tokens ==> Pair(token).Some?
  }

  predicate IsCompound(value: string) {
    |Split(value, ',')| >= 2 && AllPairs(Split(value, ','))
  }

  lemma {:induction false} SplitShorter(s: string, c: char)
    ensures forall token :: token in Split(s, c) ==> |token| <= |s|
    decreases |s|
  {
    if s != "" {
      SplitNext(s, c);
      SplitShorter(AfterToken(s, c), c);
    }
  }

  /** append_value_n(): yes and no, numerals, compound values, and strings for the rest. */
  function ValueOf(raw: string): Json
    decreases |raw|, 1
  {
    var value := Trim(raw);
    if value == "yes" then Bool(true)
    else if value == "no" then Bool(false)
    else if IsNumeral(value) then Num(value)
    else if IsCompound(value) then Obj(PairsOf(Split(value, ','), |raw|))
    else Str(value)
  }

  predicate ArePairs(tokens: seq<string>, size: nat) {
    forall token :: token in tokens ==> Pair(token).Some? && |token| <= size
  }

  /** The members a compound value is printed as. `size` bounds the tokens; the recursion ends there. */
  function PairsOf(tokens: seq<string>, size: nat): seq<Member>
    decreases size, 0, |tokens|
  {
    if tokens == [] then [] else PairMember(tokens[0], size) + PairsOf(tokens[1..], size)
  }

  function PairMember(token: string, size: nat): seq<Member>
    decreases size, 0, 0
  {
    if Pair(token).None? || |token| > size then []
    else
      var (name, val) := Pair(token).value;
      [Member(name, ValueOf(val))]
  }

  function StripReturns(s: string): string {
    if s != "" && (s[|s| - 1] == '\r' || s[|s| - 1] == '\n') then StripReturns(s[..|s| - 1]) else s
  }

  /** What one line of INFO becomes: nothing, or a member. */
  function LineMember(line: string): seq<Member> {
    var c := Find(line, ':');
    if line == "" || line[0] == '#' || line[0] == '\r' || c == |line| then []
    else [Member(line[..c], ValueOf(StripReturns(line[c + 1..])))]
  }

  function LineMembers(lines: seq<string>): seq<Member> {
    if lines == [] then [] else LineMember(lines[0]) + LineMembers(lines[1..])
  }

  /** append_info_section_json() */
  function InfoOf(payload: string): Json {
    Obj(LineMembers(Split(payload, '\n')))
  }

  // ----- printing members one by one ------------------------------------------------------------------

  function Pending(first: bool, members: seq<Member>): string {
    if first || members == [] then PrintMembers(members) else "," + PrintMembers(members)
  }

  lemma PendingNext(first: bool, m: Member, rest: seq<Member>)
    ensures Pending(first, [m] + rest) == (if first then "" else ",") + PrintMember(m) + Pending(false, rest)
  {
    var text, sep := PrintMember(m), if first then "" else ",";
    PrintMembersNext(m, rest);
    Regroup(sep, text, Pending(false, rest));
    assert first ==> sep + (text + Pending(false, rest)) == text + Pending(false, rest);
  }

  lemma PrintMembersNext(m: Member, rest: seq<Member>)
    ensures PrintMembers([m] + rest) == PrintMember(m) + Pending(false, rest)
  {
    if rest == [] {
      assert [m] + rest == [m];
      assert PrintMember(m) + "" == PrintMember(m);
    } else {
      assert ([m] + rest)[1..] == rest;
      Regroup(PrintMember(m), ",", PrintMembers(rest));
    }
  }

  lemma MemberText(before: string, sep: string, m: Member)
    ensures before + sep + Quote(m.key) + ":" + Print(m.value) == before + (sep + PrintMember(m))
  {
    var q, p := Quote(m.key), Print(m.value);
    Regroup(before + sep, q, ":");
    Regroup(before + sep, q + ":", p);
    Regroup(before, sep, q + ":" + p);
  }

  // ----- the printer in place ---------------------------------------------------------------------------

  /** buf_append_json_string_n() */
  method AppendJsonString(buf: Buffer, s: string)
    requires buf.Valid()
    modifies buf, buf.data
    ensures buf.Valid() && (buf.data == old(buf.data) || fresh(buf.data))
    ensures buf.Contents() == old(buf.Contents()) + Quote(s)
  {
    ghost var whole := buf.Contents() + Quote(s);
    QuoteStarts(buf.Contents(), s);
    buf.Append("\"");
    var i := 0;
    while i < |s|
      invariant i <= |s| && buf.Valid() && (buf.data == old(buf.data) || fresh(buf.data))
      invariant buf.Contents() + (Escape(s[i..]) + "\"") == whole
    {
      EscapeNext(buf.Contents(), s, i);
      buf.Append(EscapeChar(s[i]));
      i := i + 1;
    }
    assert Escape(s[i..]) + "\"" == "\"";
    buf.Append("\"");
  }

  lemma QuoteStarts(before: string, s: string)
    ensures before + Quote(s) == before + "\"" + (Escape(s[0..]) + "\"")
  {
    assert s[0..] == s;
    Regroup("\"", Escape(s), "\"");
    Regroup(before, "\"", Escape(s) + "\"");
  }

  lemma EscapeNext(before: string, s: string, i: nat)
    requires i < |s|
    ensures before + (Escape(s[i..]) + "\"") == before + EscapeChar(s[i]) + (Escape(s[i + 1..]) + "\"")
  {
    assert s[i..][1..] == s[i + 1..];
    Regroup(EscapeChar(s[i]), Escape(s[i + 1..]), "\"");
    Regroup(before, EscapeChar(s[i]), Escape(s[i + 1..]) + "\"");
  }

  /** trim_span() */
  method TrimSpan(s: string) returns (r: string)
    ensures r == Trim(s)
  {
    r := s;
    while |r| > 0 && IsSpace(r[0])
      invariant SkipWs(r) == SkipWs(s)
    {
      r := r[1..];
    }
    while |r| > 0 && IsSpace(r[|r| - 1])
      invariant TrimRight(r) == Trim(s)
    {
      r := r[..|r| - 1];
    }
  }

  /** is_number_text_n(). The guard after the loop never decides. */
  method IsNumberText(s: string) returns (accepted: bool)
    ensures accepted == IsNumeral(s)
  {
    var u := DropSign(s);
    if |u| == 0 {
      return false;
    }
    if u[0] == '0' && |u| > 1 && u[1] != '.' {
      LeadingZero(u);
      return false;
    }
    var i, dot := 0, false;
    ghost var point := 0;
    while i < |u|
      invariant i <= |u| && (dot ==> point < i && u[point] == '.' && point + 1 < |u|)
      invariant forall k :: 0 <= k < i && !(dot && k == point) ==> IsDigit(u[k])
    {
      if u[i] == '.' {
        if dot {
          TwoPoints(u, point, i);
          return false;
        }
        if i + 1 >= |u| {
          NoFraction(u, i);
          return false;
        }
        dot, point := true, i;
      } else if !IsDigit(u[i]) {
        StrayCharacter(u, i);
        return false;
      }
      i := i + 1;
    }
    if dot && |u| > 1 && u[0] == '0' && u[1] != '.' {
      assert false;
    }
    AllRead(u, if dot then point else |u|);
    return true;
  }

  /** The digit run of a text ends at `k`. */
  lemma {:induction false} RunEnds(u: string, k: nat)
    requires k <= |u| && AllDigits(u[..k]) && (k < |u| ==> !IsDigit(u[k]))
    ensures DigitRun(u) == k
  {
  }

  lemma LeadingZero(u: string)
    requires |u| > 1 && u[0] == '0' && u[1] != '.'
    ensures !IsUnsignedNumeral(u)
  {
    if !IsDigit(u[1]) {
      RunEnds(u, 1);
    }
  }

  lemma TwoPoints(u: string, p: nat, i: nat)
    requires p < i < |u| && u[p] == '.' && u[i] == '.' && AllDigits(u[..p])
    ensures !IsUnsignedNumeral(u)
  {
    RunEnds(u, p);
    assert u[p + 1..][i - p - 1] == u[i];
  }

  lemma NoFraction(u: string, i: nat)
    requires i + 1 == |u| && u[i] == '.' && AllDigits(u[..i])
    ensures !IsUnsignedNumeral(u)
  {
    RunEnds(u, i);
  }

  lemma StrayCharacter(u: string, i: nat)
    requires i < |u| && !IsDigit(u[i]) && u[i] != '.'
    ensures !IsUnsignedNumeral(u)
  {
    var k := DigitRun(u);
    if k < i {
      assert u[k + 1..][i - k - 1] == u[i];
    }
  }

  lemma AllRead(u: string, p: nat)
    requires 0 < |u| && p <= |u| && AllDigits(u[..p])
    requires p < |u| ==> u[p] == '.' && p + 1 < |u| && AllDigits(u[p + 1..])
    requires u[0] == '0' && |u| > 1 ==> u[1] == '.'
    ensures IsUnsignedNumeral(u)
  {
    RunEnds(u, p);
  }

  /** append_value_n() */
  method AppendValue(buf: Buffer, raw: string)
    requires buf.Valid()
    modifies buf, buf.data
    ensures buf.Valid() && (buf.data == old(buf.data) || fresh(buf.data))
    ensures buf.Contents() == old(buf.Contents()) + Print(ValueOf(raw))
    decreases |raw|, 1
  {
    var value := TrimSpan(raw);
    if value == "yes" {
      buf.Append("true");
      return;
    }
    if value == "no" {
      buf.Append("false");
      return;
    }
    var numeral := IsNumberText(value);
    if numeral {
      buf.Append(value);
      return;
    }
    var compound := AppendCompound(buf, value, |raw|);
    if !compound {
      AppendJsonString(buf, value);
    }
  }

  /** One token of a compound value, as both loops of append_info_compound_value() take it apart. */
  method SplitPair(token: string) returns (pair: Option<(string, string)>)
    ensures pair == Pair(token)
  {
    var key := TrimSpan(token);
    var e := Find(key, '=');
    if |key| == 0 || e == |key| || e == 0 || e == |key| - 1 {
      return None;
    }
    var name := TrimSpan(key[..e]);
    var val := TrimSpan(SkipWs(token)[e + 1..]);
    if name == "" || val == "" {
      return None;
    }
    return Some((name, val));
  }

  /** append_info_compound_value(): the first loop accepts or rejects the value, the second prints it.
      A rejected value leaves the buffer alone. */
  method AppendCompound(buf: Buffer, value: string, size: nat) returns (ok: bool)
    requires buf.Valid() && |value| <= size
    modifies buf, buf.data
    ensures buf.Valid() && (buf.data == old(buf.data) || fresh(buf.data))
    ensures ok == IsCompound(value)
    ensures !ok ==> buf.Contents() == old(buf.Contents()) && buf.data == old(buf.data)
    ensures ok ==> buf.Contents() == old(buf.Contents()) + Print(Obj(PairsOf(Split(value, ','), size)))
    decreases size, 0
  {
    SplitShorter(value, ',');
    ok := CheckCompound(value);
    if ok {
      ghost var members := PairsOf(Split(value, ','), size);
      ghost var before := buf.Contents();
      buf.Append("{");
      AppendPairs(buf, value, size);
      assert buf.Contents() == before + "{" + PrintMembers(members);
      buf.Append("}");
      ObjectText(before, members);
    }
  }

  lemma ObjectText(before: string, members: seq<Member>)
    ensures before + "{" + PrintMembers(members) + "}" == before + Print(Obj(members))
  {
    Regroup(before, "{", PrintMembers(members));
    Regroup(before, "{" + PrintMembers(members), "}");
  }

  /** The first loop. */
  method CheckCompound(value: string) returns (ok: bool)
    ensures ok == IsCompound(value)
  {
    var rest, count := value, 0;
    while |rest| > 0
      invariant IsCompound(value) <==> count + |Split(rest, ',')| >= 2 && AllPairs(Split(rest, ','))
      decreases |rest|
    {
      var k := Find(rest, ',');
      var next := if k < |rest| then rest[k + 1..] else "";
      SplitNext(rest, ',');
      AllPairsNext(rest[..k], Split(next, ','));
      var pair := SplitPair(rest[..k]);
      if pair.None? {
        return false;
      }
      count, rest := count + 1, next;
    }
    return count >= 2;
  }

  lemma SplitNext(s: string, c: char)
    requires s != ""
    ensures Split(s, c) == [s[..Find(s, c)]] + Split(AfterToken(s, c), c)
  {
  }

  lemma AllPairsNext(token: string, more: seq<string>)
    ensures AllPairs([token] + more) <==> Pair(token).Some? && AllPairs(more)
  {
    assert forall t :: t in [token] + more <==> t == token || t in more;
  }

  /** The second loop. Every '=' it looks for is there. */
  method AppendPairs(buf: Buffer, value: string, size: nat)
    requires buf.Valid() && ArePairs(Split(value, ','), size)
    modifies buf, buf.data
    ensures buf.Valid() && (buf.data == old(buf.data) || fresh(buf.data))
    ensures buf.Contents() == old(buf.Contents()) + PrintMembers(PairsOf(Split(value, ','), size))
    decreases size, 0, |value|, 1
  {
    var rest, first := value, true;
    ghost var whole := buf.Contents() + PrintMembers(PairsOf(Split(value, ','), size));
    while |rest| > 0
      invariant ArePairs(Split(rest, ','), size)
      invariant buf.Valid() && (buf.data == old(buf.data) || fresh(buf.data))
      invariant buf.Contents() + Pending(first, PairsOf(Split(rest, ','), size)) == whole
      decreases |rest|
    {
      rest := AppendNextPair(buf, first, rest, size);
      first := false;
    }
  }

  /** The body of the second loop. */
  method AppendNextPair(buf: Buffer, first: bool, rest: string, size: nat) returns (next: string)
    requires buf.Valid() && rest != "" && ArePairs(Split(rest, ','), size)
    modifies buf, buf.data
    ensures buf.Valid() && (buf.data == old(buf.data) || fresh(buf.data))
    ensures |next| < |rest| && ArePairs(Split(next, ','), size)
    ensures buf.Contents() + Pending(false, PairsOf(Split(next, ','), size)) ==
            old(buf.Contents()) + Pending(first, PairsOf(Split(rest, ','), size))
    decreases size, 0, |rest|, 0
  {
    var k := Find(rest, ',');
    next := if k < |rest| then rest[k + 1..] else "";
    assert Split(rest, ',') == [rest[..k]] + Split(next, ',');
    PairsNext(rest[..k], Split(next, ','), size);
    AppendPair(buf, first, rest[..k], PairsOf(Split(next, ','), size));
  }

  lemma PairsNext(token: string, more: seq<string>, size: nat)
    requires ArePairs([token] + more, size)
    ensures Pair(token).Some? && |token| <= size && ArePairs(more, size)
    ensures PairsOf([token] + more, size) ==
            [Member(Pair(token).value.0, ValueOf(Pair(token).value.1))] + PairsOf(more, size)
  {
    assert token in [token] + more;
    assert ([token] + more)[1..] == more;
    assert forall t :: t in more ==> t in [token] + more;
  }

  method AppendPair(buf: Buffer, first: bool, token: string, ghost rest: seq<Member>)
    requires buf.Valid() && Pair(token).Some?
    modifies buf, buf.data
    ensures buf.Valid() && (buf.data == old(buf.data) || fresh(buf.data))
    ensures var (name, val) := Pair(token).value;
      buf.Contents() + Pending(false, rest) ==
      old(buf.Contents()) + Pending(first, [Member(name, ValueOf(val))] + rest)
    decreases |token| - 1, 3
  {
    var pair := SplitPair(token);
    var (name, val) := pair.value;
    AppendMember(buf, first, name, val, rest);
  }

  method AppendMember(buf: Buffer, first: bool, name: string, val: string, ghost rest: seq<Member>)
    requires buf.Valid()
    modifies buf, buf.data
    ensures buf.Valid() && (buf.data == old(buf.data) || fresh(buf.data))
    ensures buf.Contents() + Pending(false, rest) ==
            old(buf.Contents()) + Pending(first, [Member(name, ValueOf(val))] + rest)
    decreases |val|, 2
  {
    ghost var before, sep := buf.Contents(), if first then "" else ",";
    if !first {
      buf.Append(",");
    }
    assert buf.Contents() == before + sep;
    AppendJsonString(buf, name);
    buf.Append(":");
    AppendValue(buf, val);
    MemberText(before, sep, Member(name, ValueOf(val)));
    PendingNext(first, Member(name, ValueOf(val)), rest);
    Regroup(before, sep + PrintMember(Member(name, ValueOf(val))), Pending(false, rest));
  }

  /** append_info_section_json() */
  method AppendInfoSection(buf: Buffer, payload: string)
    requires buf.Valid()
    modifies buf, buf.data
    ensures buf.Valid() && (buf.data == old(buf.data) || fresh(buf.data))
    ensures buf.Contents() == old(buf.Contents()) + Print(InfoOf(payload))
  {
    ghost var before := buf.Contents();
    buf.Append("{");
    AppendInfoLines(buf, payload);
    buf.Append("}");
    ObjectText(before, LineMembers(Split(payload, '\n')));
  }

  method AppendInfoLines(buf: Buffer, payload: string)
    requires buf.Valid()
    modifies buf, buf.data
    ensures buf.Valid() && (buf.data == old(buf.data) || fresh(buf.data))
    ensures buf.Contents() == old(buf.Contents()) + PrintMembers(LineMembers(Split(payload, '\n')))
  {
    var rest, first := payload, true;
    while |rest| > 0
      invariant buf.Valid() && (buf.data == old(buf.data) || fresh(buf.data))
      invariant buf.Contents() + Pending(first, LineMembers(Split(rest, '\n'))) ==
                old(buf.Contents()) + PrintMembers(LineMembers(Split(payload, '\n')))
      decreases |rest|
    {
      var k := Find(rest, '\n');
      var next := if k < |rest| then rest[k + 1..] else "";
      assert Split(rest, '\n') == [rest[..k]] + Split(next, '\n');
      assert ([rest[..k]] + Split(next, '\n'))[1..] == Split(next, '\n');
      first := AppendInfoLine(buf, first, rest[..k], LineMembers(Split(next, '\n')));
      rest := next;
    }
  }

  method TrimReturns(s: string) returns (r: string)
    ensures r == StripReturns(s)
  {
    r := s;
    while |r| > 0 && (r[|r| - 1] == '\r' || r[|r| - 1] == '\n')
      invariant StripReturns(r) == StripReturns(s)
    {
      r := r[..|r| - 1];
    }
  }

  method AppendInfoLine(buf: Buffer, first: bool, line: string, ghost rest: seq<Member>) returns (stillFirst: bool)
    requires buf.Valid()
    modifies buf, buf.data
    ensures buf.Valid() && (buf.data == old(buf.data) || fresh(buf.data))
    ensures buf.Contents() + Pending(stillFirst, rest) ==
            old(buf.Contents()) + Pending(first, LineMember(line) + rest)
  {
    var c := Find(line, ':');
    if line == "" || line[0] == '#' || line[0] == '\r' || c == |line| {
      NoMember(line, rest);
      return first;
    }
    OneMember(line);
    var value := TrimReturns(line[c + 1..]);
    AppendMember(buf, first, line[..c], value, rest);
    stillFirst := false;
  }

  lemma NoMember(line: string, rest: seq<Member>)
    requires line == "" || line[0] == '#' || line[0] == '\r' || Find(line, ':') == |line|
    ensures LineMember(line) + rest == rest
  {
  }

  lemma OneMember(line: string)
    requires line != "" && line[0] != '#' && line[0] != '\r' && Find(line, ':') < |line|
    ensures var c := Find(line, ':');
      LineMember(line) == [Member(line[..c], ValueOf(StripReturns(line[c + 1..])))]
  {
  }

  // ----- members of an object ----------------------------------------------------------------------------

  /** The comma before all but the first member, the key and the colon. */
  method AppendKey(buf: Buffer, first: bool, name: string)
    requires buf.Valid()
    modifies buf, buf.data
    ensures buf.Valid() && (buf.data == old(buf.data) || fresh(buf.data))
    ensures buf.Contents() == old(buf.Contents()) + (if first then "" else ",") + Quote(name) + ":"
  {
    ghost var before := buf.Contents();
    if !first {
      buf.Append(",");
    }
    assert buf.Contents() == before + if first then "" else ",";
    AppendJsonString(buf, name);
    buf.Append(":");
  }

  lemma MemberAppended(before: string, first: bool, m: Member, rest: seq<Member>)
    ensures before + (if first then "" else ",") + Quote(m.key) + ":" + Print(m.value) + Pending(false, rest) ==
            before + Pending(first, [m] + rest)
  {
    var sep := if first then "" else ",";
    MemberText(before, sep, m);
    PendingNext(first, m, rest);
    Regroup(before, sep + PrintMember(m), Pending(false, rest));
  }

  /** A member whose value another collector prints. */
  method AppendField(buf: Buffer, first: bool, name: string, value: Json, ghost rest: seq<Member>)
    requires buf.Valid()
    modifies buf, buf.data
    ensures buf.Valid() && (buf.data == old(buf.data) || fresh(buf.data))
    ensures buf.Contents() + Pending(false, rest) == old(buf.Contents()) + Pending(first, [Member(name, value)] + rest)
  {
    ghost var before := buf.Contents();
    AppendKey(buf, first, name);
    buf.Append(Print(value));
    MemberAppended(before, first, Member(name, value), rest);
  }
}
