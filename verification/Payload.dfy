/** An INFO payload as text: how deep its values nest, and which payloads the flattener accepts. */
module Payload {
  import opened Wrappers
  import opened CText
  import opened Json
  import opened Metrics
  import opened Flatten
  import opened FlattenJson
  import opened Collector
  import opened Sample

  // ----- characters that do not come in ---------------------------------------------------------------------

  lemma SliceLacks(s: string, i: nat, j: nat, c: char)
    requires c !in s && i <= j <= |s|
    ensures c !in s[i..j]
  {
    assert forall x :: x in s[i..j] ==> x in s;
  }

  lemma TrimLacks(s: string, c: char)
    requires c !in s
    ensures c !in SkipWs(s) && c !in Trim(s)
  {
    SkipWsSuffix(s);
    SliceLacks(s, |s| - |SkipWs(s)|, |s|, c);
    SliceLacks(SkipWs(s), 0, |Trim(s)|, c);
  }

  predicate AllLack(tokens: seq<string>, c: char) {
    forall token :: token in tokens ==> c !in token
  }

  /** The pieces between separators lack the separator, and what the whole lacks. */
  lemma {:induction false} SplitLacks(s: string, separator: char, c: char)
    requires separator == c || c !in s
    ensures AllLack(Split(s, separator), c)
    decreases |s|
  {
    if s != "" {
      TokenLacks(s, separator, c);
      SplitLacks(AfterToken(s, separator), separator, c);
      FirstLacks(s, separator, c);
    }
  }

  lemma FirstLacks(s: string, separator: char, c: char)
    requires s != "" && c !in s[..Find(s, separator)] && AllLack(Split(AfterToken(s, separator), separator), c)
    ensures AllLack(Split(s, separator), c)
  {
    SplitNext(s, separator);
  }

  lemma TokenLacks(s: string, separator: char, c: char)
    requires s != "" && (separator == c || c !in s)
    ensures c !in s[..Find(s, separator)] && (c !in s ==> c !in AfterToken(s, separator))
  {
  }

  lemma PairLacks(token: string, c: char)
    requires c !in token && Pair(token).Some?
    ensures c !in Pair(token).value.0 && c !in Pair(token).value.1
  {
    var key := Trim(token);
    var e := Find(key, '=');
    TrimLacks(token, c);
    SliceLacks(key, 0, e, c);
    SliceLacks(SkipWs(token), e + 1, |SkipWs(token)|, c);
    TrimLacks(key[..e], c);
    TrimLacks(SkipWs(token)[e + 1..], c);
  }

  // ----- nesting ----------------------------------------------------------------------------------------------

  lemma NoCommaNotCompound(value: string)
    requires ',' !in value
    ensures !IsCompound(value)
  {
    if value != "" {
      SplitNever(value, ',');
    }
  }

  /** The value of a pair is no compound value: the pairs are what is between commas. */
  lemma PairIsScalar(token: string)
    requires ',' !in token && Pair(token).Some?
    ensures !IsCompound(Trim(Pair(token).value.1))
  {
    PairLacks(token, ',');
    TrimLacks(Pair(token).value.1, ',');
    NoCommaNotCompound(Trim(Pair(token).value.1));
  }

  predicate IsScalar(j: Json) {
    !j.Obj? && !j.Arr?
  }

  lemma MemberIsScalar(token: string, size: nat)
    requires ',' !in token
    ensures forall m :: m in PairMember(token, size) ==> IsScalar(m.value)
  {
    if Pair(token).Some? && |token| <= size {
      PairIsScalar(token);
    }
  }

  lemma {:induction false} PairsAreScalar(tokens: seq<string>, size: nat)
    requires AllLack(tokens, ',')
    ensures forall m :: m in PairsOf(tokens, size) ==> IsScalar(m.value)
  {
    if tokens != [] {
      assert tokens[0] in tokens;
      MemberIsScalar(tokens[0], size);
      PairsAreScalar(tokens[1..], size);
      assert PairsOf(tokens, size) == PairMember(tokens[0], size) + PairsOf(tokens[1..], size);
    }
  }

  /** For every text: what is printed for a value is a scalar, or an object of scalars, so that the two
      printers call each other no deeper than that. */
  lemma NestingAtMostTwo(raw: string)
    ensures IsScalar(ValueOf(raw)) ||
            (ValueOf(raw).Obj? && forall m :: m in ValueOf(raw).members ==> IsScalar(m.value))
  {
    if IsCompound(Trim(raw)) {
      SplitLacks(Trim(raw), ',', ',');
      PairsAreScalar(Split(Trim(raw), ','), |raw|);
    }
  }

  // ----- acceptance --------------------------------------------------------------------------------------------

  /** The key is printable as JSON the scanner reads, and fits its buffer, as does the path it leads to. */
  predicate KeyOk(path: string, key: string) {
    Plain(key) && |key| < 128 && |Join(path, key)| < 256
  }

  /** A numeral is a number of section 6 of RFC 8259; other text has no control bytes but newline, carriage
      return and tab, and fits its buffer if it is one of the two strings of the identity. */
  predicate ScalarOk(value: string, path: string) {
    if IsNumeral(value) then IsNumber(value) else Plain(value) && (IsIdentityText(path) ==> |value| < 256)
  }

  predicate PairOk(token: string, path: string)
    requires Pair(token).Some?
  {
    var (name, value) := Pair(token).value;
    KeyOk(path, name) && ScalarOk(Trim(value), Join(path, name))
  }

  predicate PairsOk(tokens: seq<string>, path: string) {
    forall token :: token in tokens ==> Pair(token).Some? && PairOk(token, path)
  }

  predicate ValueOk(raw: string, path: string) {
    if IsCompound(Trim(raw)) then PairsOk(Split(Trim(raw), ','), path) else ScalarOk(Trim(raw), path)
  }

  /** A line without a member, or `key:value` with both accepted. */
  predicate LineOk(line: string, path: string) {
    var c := Find(line, ':');
    || line == "" || line[0] == '#' || line[0] == '\r' || c == |line|
    || (KeyOk(path, line[..c]) && ValueOk(StripReturns(line[c + 1..]), Join(path, line[..c])))
  }

  predicate LinesOk(lines: seq<string>, path: string) {
    forall line :: line in lines ==> LineOk(line, path)
  }

  lemma YesAndNo(path: string)
    ensures ScalarOk("yes", path) && ScalarOk("no", path)
  {
  }

  lemma ScalarAccepted(raw: string, path: string)
    requires !IsCompound(Trim(raw))
    ensures Accepted(ValueOf(raw), path) <==> ScalarOk(Trim(raw), path)
  {
    YesAndNo(path);
  }

  lemma PairAccepted(token: string, size: nat, path: string)
    requires ',' !in token && Pair(token).Some? && |token| <= size
    ensures |PairMember(token, size)| == 1
    ensures MemberAccepted(PairMember(token, size)[0], path) <==> PairOk(token, path)
  {
    var (name, value) := Pair(token).value;
    PairIsScalar(token);
    ScalarAccepted(value, Join(path, name));
  }

  lemma FirstPairOk(token: string, more: seq<string>, path: string)
    ensures PairsOk([token] + more, path) <==> Pair(token).Some? && PairOk(token, path) && PairsOk(more, path)
  {
    assert forall x :: x in [token] + more <==> x == token || x in more;
  }

  lemma {:induction false} PairsAccepted(tokens: seq<string>, size: nat, path: string)
    requires ArePairs(tokens, size) && AllLack(tokens, ',')
    ensures Accepted(Obj(PairsOf(tokens, size)), path) <==> PairsOk(tokens, path)
  {
    if tokens != [] {
      var token, rest := tokens[0], tokens[1..];
      assert tokens == [token] + rest && token in tokens;
      PairAccepted(token, size, path);
      PairsAccepted(rest, size, path);
      FirstPairOk(token, rest, path);
      OneMore(PairMember(token, size), PairsOf(rest, size), path);
    }
  }

  lemma OneMore(first: seq<Member>, more: seq<Member>, path: string)
    requires |first| == 1
    ensures Accepted(Obj(first + more), path) <==> MemberAccepted(first[0], path) && Accepted(Obj(more), path)
  {
    FirstAccepted(first[0], more, path);
    assert first == [first[0]];
  }

  lemma FirstAccepted(m: Member, more: seq<Member>, path: string)
    ensures Accepted(Obj([m] + more), path) <==> MemberAccepted(m, path) && Accepted(Obj(more), path)
  {
    assert forall x :: x in [m] + more <==> x == m || x in more;
  }

  lemma ValueAccepted(raw: string, path: string)
    ensures Accepted(ValueOf(raw), path) <==> ValueOk(raw, path)
  {
    var value := Trim(raw);
    if IsCompound(value) {
      CompoundIsNoScalar(value);
      SplitLacks(value, ',', ',');
      SplitShorter(value, ',');
      PairsAccepted(Split(value, ','), |raw|, path);
    } else {
      ScalarAccepted(raw, path);
    }
  }

  lemma LineAccepted(line: string, path: string)
    ensures LineMember(line) == [] ==> LineOk(line, path)
    ensures LineMember(line) != [] ==>
              |LineMember(line)| == 1 && (MemberAccepted(LineMember(line)[0], path) <==> LineOk(line, path))
  {
    if LineMember(line) != [] {
      var c := Find(line, ':');
      ValueAccepted(StripReturns(line[c + 1..]), Join(path, line[..c]));
    }
  }

  lemma FirstLineOk(line: string, more: seq<string>, path: string)
    ensures LinesOk([line] + more, path) <==> LineOk(line, path) && LinesOk(more, path)
  {
    assert forall x :: x in [line] + more <==> x == line || x in more;
  }

  lemma {:induction false} LinesAccepted(lines: seq<string>, path: string)
    ensures Accepted(Obj(LineMembers(lines)), path) <==> LinesOk(lines, path)
  {
    if lines != [] {
      var line, rest := lines[0], lines[1..];
      assert lines == [line] + rest;
      LinesAccepted(rest, path);
      LineAccepted(line, path);
      FirstLineOk(line, rest, path);
      if LineMember(line) == [] {
        assert [] + LineMembers(rest) == LineMembers(rest);
      } else {
        OneMore(LineMember(line), LineMembers(rest), path);
      }
    }
  }

  /** For every INFO payload, path and text that follows: the flattener accepts what the printer wrote
      exactly when every line of the payload is within the limits of keys, paths and identity strings, has
      no control byte but carriage return and tab in what is printed of it, and no numeral that starts
      with a plus sign or without a digit; and then it notes the leaves of the lines. */
  lemma InfoFlattens(payload: string, path: string, flat: Flat, rest: string)
    ensures var lines := Split(payload, '\n');
      FlatValue(Print(InfoOf(payload)) + rest, path, flat) ==
      if LinesOk(lines, path) then Some((NoteAll(flat, LinesLeaves(lines, path)), rest)) else None
  {
    var lines := Split(payload, '\n');
    LinesPrintable(lines);
    FlatPrinted(InfoOf(payload), path, flat, rest);
    LinesAccepted(lines, path);
    InfoLeaves(lines, path);
  }
}
