/** The pieces of the C library and of the scanners, spelled out: what they compute on every text and number,
    in plain characters and figures. */
module CLaws {
  import opened Wrappers
  import opened CText
  import opened JsonText
  import opened Metrics
  import opened Collector
  import opened Sample

  // ----- numbers ----------------------------------------------------------------------------------------------

  /** A signed 64-bit number is left alone, any other replaced by the nearest one. */
  lemma SaturateNearest(n: int)
    ensures InRange(n) <==> -9223372036854775808 <= n <= 9223372036854775807
    ensures Saturate(n) ==
            if n < -9223372036854775808 then -9223372036854775808
            else if n > 9223372036854775807 then 9223372036854775807
            else n
  {
  }

  /** Two's complement: the signed 64-bit number that differs by a multiple of 2^64. */
  lemma WrapCongruent(n: int)
    ensures -9223372036854775808 <= Wrap(n) <= 9223372036854775807
    ensures (Wrap(n) - n) % 18446744073709551616 == 0
  {
  }

  const DIGITS := "0123456789"

  /** "%lld": the last digit is the number modulo ten, and the digits before it are those of the tenth. */
  lemma PrintsDecimal(n: nat, d: nat)
    requires d < 10
    ensures IntText(d) == [DIGITS[d]]
    ensures n > 0 ==> IntText(10 * n + d) == IntText(n) + [DIGITS[d]]
    ensures n > 0 ==> IntText(0 - n) == "-" + IntText(n)
  {
    DigitAt(d);
  }

  lemma DigitAt(d: nat)
    requires d < 10
    ensures DIGITS[d] == (d + '0' as int) as char && IsDigit(DIGITS[d])
  {
  }

  lemma ReadsDecimal(ds: string, d: nat)
    requires AllDigits(ds) && d < 10
    ensures DecimalValue("") == 0
    ensures AllDigits(ds + [DIGITS[d]]) && DecimalValue(ds + [DIGITS[d]]) == 10 * DecimalValue(ds) + d
  {
    DigitAt(d);
    assert (ds + [DIGITS[d]])[..|ds|] == ds;
  }

  /** The capacity of a table that was never released: 16, then twice as much each time. */
  lemma GrowsByDoubling(growths: nat)
    ensures Grown(0, 0) == 0 && Grown(0, 1) == 16
    ensures growths > 0 ==> Grown(0, growths + 1) == 2 * Grown(0, growths)
  {
    if growths > 0 {
      GrownFrom(16, growths - 1);
    }
  }

  lemma {:induction false} GrownFrom(capacity: nat, growths: nat)
    requires capacity > 0
    ensures Grown(capacity, growths + 1) == 2 * Grown(capacity, growths)
    decreases growths
  {
    if growths > 0 {
      GrownFrom(2 * capacity, growths - 1);
    }
  }

  // ----- white space ------------------------------------------------------------------------------------------

  /** isspace() and isdigit(): blank, tab, line feed, vertical tab, form feed, carriage return; ten digits. */
  lemma CharacterClasses(c: char)
    ensures IsSpace(c) <==>
            c == ' ' || c == '\t' || c == '\n' || c == '\U{0B}' || c == '\U{0C}' || c == '\r'
    ensures IsDigit(c) <==> c in DIGITS
  {
    if IsDigit(c) {
      assert DIGITS[c as int - '0' as int] == c;
    }
  }

  /** Skipping leaves the text from the first character on that is no white space. */
  lemma {:induction false} SkipsBlank(s: string) returns (k: nat)
    ensures k <= |s| && Blank(s[..k]) && SkipWs(s) == s[k..] && (k < |s| ==> !IsSpace(s[k]))
  {
    if IsSpace(Peek(s)) {
      var j := SkipsBlank(s[1..]);
      k := j + 1;
      assert s[..k] == [s[0]] + s[1..][..j] && s[1..][j..] == s[k..];
    } else {
      k := 0;
    }
  }

  lemma {:induction false} TrimsBlankRight(s: string) returns (k: nat)
    ensures k <= |s| && Blank(s[k..]) && TrimRight(s) == s[..k] && (k > 0 ==> !IsSpace(s[k - 1]))
  {
    if s != "" && IsSpace(s[|s| - 1]) {
      var t := s[..|s| - 1];
      k := TrimsBlankRight(t);
      BlankLonger(s, k);
      assert s[..k] == t[..k];
    } else {
      k := |s|;
    }
  }

  lemma BlankLonger(s: string, k: nat)
    requires k < |s| && IsSpace(s[|s| - 1]) && Blank(s[..|s| - 1][k..])
    ensures Blank(s[k..])
  {
    assert s[k..] == s[..|s| - 1][k..] + [s[|s| - 1]];
  }

  /** Trimming takes the white space off both ends, and nothing else. */
  lemma TrimsBlank(s: string) returns (i: nat, j: nat)
    ensures i <= j <= |s| && Blank(s[..i]) && Blank(s[j..]) && Trim(s) == s[i..j]
    ensures Trim(s) == "" || Solid(Trim(s))
  {
    i := SkipsBlank(s);
    var k := TrimsBlankRight(s[i..]);
    j := i + k;
    assert s[i..][k..] == s[j..] && s[i..][..k] == s[i..j];
  }

  /** What is stripped from the end of a line: carriage returns and line feeds, all of them. */
  lemma {:induction false} StripsReturns(s: string) returns (k: nat)
    ensures k <= |s| && StripReturns(s) == s[..k] && (k > 0 ==> s[k - 1] != '\r' && s[k - 1] != '\n')
    ensures forall i :: k <= i < |s| ==> s[i] == '\r' || s[i] == '\n'
  {
    if s != "" && (s[|s| - 1] == '\r' || s[|s| - 1] == '\n') {
      k := StripsReturns(s[..|s| - 1]);
      assert s[..|s| - 1][..k] == s[..k];
    } else {
      k := |s|;
    }
  }

  // ----- pieces -----------------------------------------------------------------------------------------------

  predicate AllWithout(tokens: seq<string>, c: char) {
    forall token :: token in tokens ==> c !in token
  }

  lemma FindFirst(left: string, rest: string, c: char)
    requires c !in left
    ensures Find(left + [c] + rest, c) == |left|
    ensures (left + [c] + rest)[..|left|] == left && (left + [c] + rest)[|left| + 1..] == rest
  {
    var s := left + [c] + rest;
    assert s[|left|] == c && forall i :: 0 <= i < |left| ==> s[i] == left[i] && left[i] in left;
  }

  lemma FindsSeparator(token: string, rest: string, c: char)
    requires c !in token
    ensures Split(token + [c] + rest, c) == [token] + Split(rest, c)
  {
    FindFirst(token, rest, c);
  }

  /** The walk with memchr() takes a text apart into the pieces it is joined of, whether or not a separator ends
      it; a text that ends in an empty piece after a separator lacks that piece. */
  lemma {:induction false} SplitsJoined(tokens: seq<string>, c: char)
    requires AllWithout(tokens, c)
    ensures tokens != [] ==> Split(Joined(tokens, [c]) + [c], c) == tokens
    ensures tokens == [] || tokens[|tokens| - 1] != "" ==> Split(Joined(tokens, [c]), c) == tokens
  {
    if tokens != [] {
      var token, more := tokens[0], tokens[1..];
      assert token in tokens && tokens == [token] + more;
      if more == [] {
        assert token + [c] + "" == token + [c];
        FindsSeparator(token, "", c);
        if token != "" {
          SplitNever(token, c);
        }
      } else {
        SplitsJoined(more, c);
        FindsSeparator(token, Joined(more, [c]), c);
        FindsSeparator(token, Joined(more, [c]) + [c], c);
        Regroup(token + [c], Joined(more, [c]), [c]);
      }
    }
  }

  lemma BlankBefore(blank: string, s: string)
    requires Blank(blank)
    ensures SkipWs(blank + s) == SkipWs(s) && Trim(blank + s) == Trim(s)
  {
    SkipBlank(blank, s);
  }

  lemma {:induction false} BlankIsSkipped(s: string)
    requires Blank(s)
    ensures Trim(s) == ""
  {
    assert s + "" == s;
    BlankBefore(s, "");
  }

  lemma {:induction false} BlankBehind(s: string, blank: string)
    requires s != "" && !IsSpace(s[|s| - 1]) && Blank(blank)
    ensures TrimRight(s + blank) == s
    decreases |blank|
  {
    if blank == "" {
      assert s + blank == s;
    } else {
      var init := blank[..|blank| - 1];
      assert (s + blank)[..|s + blank| - 1] == s + init && (s + blank)[|s + blank| - 1] == blank[|blank| - 1];
      BlankBehind(s, init);
    }
  }

  /** The text before the first '=' and the text after it. */
  function Field(left: string, right: string): Option<(string, string)> {
    if Trim(left) != "" && Trim(right) != "" then Some((Trim(left), Trim(right))) else None
  }

  /** A field of a compound value, for every text with an '=': what is before the first one and what is after
      it, both trimmed, if neither is blank. */
  lemma PairsAtEquals(left: string, right: string)
    requires '=' !in left
    ensures Pair(left + "=" + right) == Field(left, right)
  {
    var i := SkipsBlank(left);
    var j := TrimsBlankRight(right);
    var l, r := left[i..], right[..j];
    assert left == left[..i] + l && right == r + right[j..];
    LackEquals(left, i);
    BlankBefore(left[..i], l);
    TrimmedToken(left[..i], l, r, right[j..]);
    FindFirst(l, r, '=');
    FindFirst(l, right, '=');
    if r == "" {
      BlankIsSkipped(right);
    }
    PairOfSides(left + "=" + right, l + "=" + r, left, l, right);
  }

  lemma LackEquals(left: string, i: nat)
    requires '=' !in left && i <= |left|
    ensures '=' !in left[i..]
  {
  }

  /** White space on both ends of a token with an '='. */
  lemma TrimmedToken(front: string, l: string, r: string, back: string)
    requires Blank(front) && Blank(back) && (l != "" ==> !IsSpace(l[0])) && (r != "" ==> !IsSpace(r[|r| - 1]))
    ensures var token := front + l + "=" + (r + back);
      SkipWs(token) == l + "=" + (r + back) && Trim(token) == l + "=" + r
  {
    var rest, key := l + "=" + (r + back), l + "=" + r;
    Regroup(front, l, "=");
    Regroup(front, l + "=", r + back);
    Regroup(l + "=", r, back);
    TokenEnds(l, r, r + back);
    BlankBefore(front, rest);
    BlankBehind(key, back);
  }

  lemma TokenEnds(l: string, r: string, rest: string)
    requires (l != "" ==> !IsSpace(l[0])) && (r != "" ==> !IsSpace(r[|r| - 1]))
    ensures var key := l + "=" + r; key != "" && !IsSpace(key[|key| - 1])
    ensures SkipWs(l + "=" + rest) == l + "=" + rest
  {
    var s := l + "=" + rest;
    assert s[0] == if l == "" then '=' else l[0];
  }

  lemma PairOfSides(token: string, key: string, left: string, l: string, right: string)
    requires key == Trim(token) && |l| == Find(key, '=') < |key| && key[..|l|] == l
    requires |l| + 1 <= |SkipWs(token)| && SkipWs(token)[|l| + 1..] == right
    requires Trim(left) == Trim(l) && (|l| == |key| - 1 ==> Trim(right) == "")
    ensures Pair(token) == Field(left, right)
  {
  }

  lemma NoEqualsNoPair(token: string)
    requires '=' !in token
    ensures Pair(token) == None
  {
    var i, j := TrimsBlank(token);
    assert forall k :: 0 <= k < |Trim(token)| ==> Trim(token)[k] == token[i + k];
  }

  // ----- string literals and strtod() ---------------------------------------------------------------------------

  /** The scanner of string literals behind the opening quote, by the next character. */
  lemma ScansEach(c: char, rest: string)
    ensures StringBody("") == None && StringBody([NUL] + rest) == None
    ensures StringBody("\"" + rest) == Some(("", rest))
    ensures c != '"' && c != '\\' && c != NUL ==> StringBody([c] + rest) == Glue([c], StringBody(rest))
    ensures StringBody(['\\', c] + rest) ==
            if Unescape(c).Some? then Glue([Unescape(c).value], StringBody(rest)) else None
    ensures StringBody("\\") == None
  {
    assert ("\"" + rest)[1..] == rest && ([c] + rest)[1..] == rest;
    assert (['\\', c] + rest)[1..] == [c] + rest && (['\\', c] + rest)[2..] == rest;
  }

  predicate AllHex(s: string) {
    forall i :: 0 <= i < |s| ==> IsHexDigit(s[i])
  }

  lemma {:induction false} HexRunOf(hs: string, rest: string)
    requires AllHex(hs) && !IsHexDigit(Peek(rest))
    ensures HexRun(hs + rest) == |hs| && (hs + rest)[|hs|..] == rest
  {
    if hs == "" {
      assert hs + rest == rest;
    } else {
      assert (hs + rest)[1..] == hs[1..] + rest;
      HexRunOf(hs[1..], rest);
    }
  }

  /** A hexadecimal integer, in both cases of the x and with a sign or none, is converted whole. */
  lemma ReadsHex(sign: string, x: char, hs: string, rest: string)
    requires (sign == "" || sign == "-") && (x == 'x' || x == 'X') && hs != "" && AllHex(hs)
    requires !IsHexDigit(Peek(rest)) && Peek(rest) != '.' && Peek(rest) != 'p' && Peek(rest) != 'P'
    ensures Strtod(sign + (['0', x] + (hs + rest))) == rest
  {
    var t := ['0', x] + (hs + rest);
    HexRunOf(hs, rest);
    assert t[2..] == hs + rest;
    assert sign == "-" ==> (sign + t)[1..] == t;
    assert sign == "" ==> sign + t == t;
    assert rest[0..] == rest;
  }

  /** After a minus sign strtod() also reads these words; anything else but a number is left alone. */
  lemma ReadsWords(rest: string)
    ensures Strtod("-infinity" + rest) == rest
    ensures Lower(Peek(rest)) != 'i' ==> Strtod("-inf" + rest) == rest
    ensures Peek(rest) != '(' ==> Strtod("-nan" + rest) == rest
  {
    WordInfinity(rest);
    WordInf(rest);
    WordNan(rest);
  }

  lemma WordInfinity(rest: string)
    ensures Strtod("-infinity" + rest) == rest
  {
    assert ("-infinity" + rest)[1..] == "infinity" + rest && ("infinity" + rest)[8..] == rest;
  }

  lemma WordInf(rest: string)
    ensures Lower(Peek(rest)) != 'i' ==> Strtod("-inf" + rest) == rest
  {
    var s := "-inf" + rest;
    var t := s[1..];
    assert t[0] == 'i' && t[1] == 'n' && t[2] == 'f' && t[3..] == rest;
    if Lower(Peek(rest)) != 'i' {
      ReadsInf(t);
      assert DropSign(s) == t;
    }
  }

  lemma ReadsInf(t: string)
    requires |t| >= 3 && t[0] == 'i' && t[1] == 'n' && t[2] == 'f' && Lower(Peek(t[3..])) != 'i'
    ensures DropHex(t) == None && DropDecimal(t) == None && DropWord(t) == Some(t[3..])
  {
    NotInfinity(t);
    assert t[0..] == t;
  }

  lemma NotInfinity(t: string)
    requires |t| >= 3 && Lower(Peek(t[3..])) != 'i'
    ensures !HasPrefixNoCase(t, "infinity")
  {
    if |t| > 3 {
      assert Peek(t[3..]) == t[3];
    }
  }

  lemma WordNan(rest: string)
    ensures Peek(rest) != '(' ==> Strtod("-nan" + rest) == rest
  {
    assert ("-nan" + rest)[1..] == "nan" + rest && ("nan" + rest)[3..] == rest;
  }
}
