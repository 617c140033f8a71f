/** C strings and the pieces of the C library the module leans on: character classes, strtoll,
    the end pointer of strtod, and "%lld".

    A cursor into a NUL-terminated string is modelled by the text that is left to read. Reading at
    the end yields NUL, so a NUL inside the text and the end of the text look the same. */
module CText {
  import opened Wrappers

  const NUL := '\0'
  const LLONG_MAX: int := 0x7FFF_FFFF_FFFF_FFFF
  const LLONG_MIN: int := -0x8000_0000_0000_0000

  predicate InRange(n: int) {
    LLONG_MIN <= n <= LLONG_MAX
  }

  function Saturate(n: int): int {
    if n > LLONG_MAX then LLONG_MAX else if n < LLONG_MIN then LLONG_MIN else n
  }

  /** Two's complement wrap-around of a 64-bit result. */
  function Wrap(n: int): int {
    (n - LLONG_MIN) % 0x1_0000_0000_0000_0000 + LLONG_MIN
  }

  lemma WrapExact(n: int)
    ensures InRange(n) <==> Wrap(n) == n
  {
  }

  function Peek(s: string): char {
    if s == "" then NUL else s[0]
  }

  // isspace() and isdigit() in the C locale.
  predicate IsSpace(c: char) {
    c == ' ' || '\t' <= c <= '\r'
  }

  predicate IsDigit(c: char) {
    '0' <= c <= '9'
  }

  predicate AllDigits(s: string) {
    forall i :: 0 <= i < |s| ==> IsDigit(s[i])
  }

  function SkipWs(s: string): (r: string)
    ensures |r| <= |s|
  {
    if IsSpace(Peek(s)) then SkipWs(s[1..]) else s
  }

  predicate Blank(s: string) {
    forall i :: 0 <= i < |s| ==> IsSpace(s[i])
  }

  lemma {:induction false} SkipBlank(blank: string, s: string)
    requires Blank(blank)
    ensures SkipWs(blank + s) == SkipWs(s)
  {
    if blank == "" {
      assert blank + s == s;
    } else {
      assert (blank + s)[0] == blank[0] && (blank + s)[1..] == blank[1..] + s;
      SkipBlank(blank[1..], s);
    }
  }

  function HasPrefix(s: string, prefix: string): bool {
    |prefix| <= |s| && s[..|prefix|] == prefix
  }

  lemma Regroup(a: string, b: string, c: string)
    ensures a + b + c == a + (b + c)
    ensures |b| == 1 ==> (b + c)[1..] == c
  {
  }

  /** The texts with the separator between them. */
  function Joined(texts: seq<string>, separator: string): string {
    if texts == [] then ""
    else if |texts| == 1 then texts[0]
    else texts[0] + separator + Joined(texts[1..], separator)
  }

  // ----- runs of digits ------------------------------------------------------------------------

  function DigitRun(s: string): (n: nat)
    ensures n <= |s| && AllDigits(s[..n])
    ensures n < |s| ==> !IsDigit(s[n])
  {
    if IsDigit(Peek(s)) then 1 + DigitRun(s[1..]) else 0
  }

  lemma {:induction false} DigitRunOf(ds: string, rest: string)
    requires AllDigits(ds) && !IsDigit(Peek(rest))
    ensures DigitRun(ds + rest) == |ds| && (ds + rest)[..|ds|] == ds && (ds + rest)[|ds|..] == rest
  {
    if ds == "" {
      assert ds + rest == rest;
    } else {
      assert (ds + rest)[1..] == ds[1..] + rest;
      DigitRunOf(ds[1..], rest);
    }
  }

  function DecimalValue(ds: string): nat
    requires AllDigits(ds)
  {
    if ds == "" then 0 else 10 * DecimalValue(ds[..|ds| - 1]) + (ds[|ds| - 1] as int - '0' as int)
  }

  // ----- strtoll and strtod --------------------------------------------------------------------

  /** strtoll(s, &end, 10) where s starts with '-' or a digit: the saturated value and the text at
      `end`, or None when no digit was read (end == s). */
  function Strtoll(s: string): (r: Option<(int, string)>)
    ensures r.Some? ==> |r.value.1| < |s|
  {
    var u := if Peek(s) == '-' then s[1..] else s;
    var k := DigitRun(u);
    if k == 0 then None
    else
      var magnitude: int := DecimalValue(u[..k]);
      Some((Saturate(if Peek(s) == '-' then -magnitude else magnitude), u[k..]))
  }

  predicate IsHexDigit(c: char) {
    IsDigit(c) || 'a' <= c <= 'f' || 'A' <= c <= 'F'
  }

  function HexRun(s: string): (n: nat)
    ensures n <= |s|
  {
    if IsHexDigit(Peek(s)) then 1 + HexRun(s[1..]) else 0
  }

  function DropSign(s: string): (r: string)
    ensures |r| <= |s|
  {
    if Peek(s) == '-' || Peek(s) == '+' then s[1..] else s
  }

  /** The text after an exponent introduced by `lower` or `upper`, or `s` when there is none. */
  function DropExponent(s: string, lower: char, upper: char): (r: string)
    requires lower != NUL && upper != NUL
    ensures |r| <= |s|
  {
    if Peek(s) == lower || Peek(s) == upper then
      var t := DropSign(s[1..]);
      if DigitRun(t) > 0 then t[DigitRun(t)..] else s
    else s
  }

  /** The digits of a fraction, if `s` starts with a point. */
  function FractionRun(s: string): (n: nat)
    ensures n <= |s|
  {
    if Peek(s) == '.' then DigitRun(s[1..]) else 0
  }

  function DropFraction(s: string): (r: string)
    ensures |r| <= |s| - FractionRun(s)
  {
    if Peek(s) == '.' then s[1 + FractionRun(s)..] else s
  }

  function DropDecimal(t: string): (r: Option<string>)
    ensures r.Some? ==> |r.value| < |t|
  {
    var k := DigitRun(t);
    if k + FractionRun(t[k..]) == 0 then None
    else Some(DropExponent(DropFraction(t[k..]), 'e', 'E'))
  }

  function HexFractionRun(s: string): (n: nat)
    ensures n <= |s|
  {
    if Peek(s) == '.' then HexRun(s[1..]) else 0
  }

  function DropHexFraction(s: string): (r: string)
    ensures |r| <= |s|
  {
    if Peek(s) == '.' then s[1 + HexFractionRun(s)..] else s
  }

  function DropHexDigits(t: string): (r: Option<string>)
    ensures r.Some? ==> |r.value| <= |t|
  {
    var k := HexRun(t);
    if k + HexFractionRun(t[k..]) == 0 then None
    else Some(DropExponent(DropHexFraction(t[k..]), 'p', 'P'))
  }

  function DropHex(t: string): (r: Option<string>)
    ensures r.Some? ==> |r.value| < |t|
  {
    if |t| < 2 || t[0] != '0' || (t[1] != 'x' && t[1] != 'X') then None else DropHexDigits(t[2..])
  }

  function Lower(c: char): char {
    if 'A' <= c <= 'Z' then (c as int + 32) as char else c
  }

  function HasPrefixNoCase(s: string, prefix: string): bool {
    |prefix| <= |s| && forall i :: 0 <= i < |prefix| ==> Lower(s[i]) == prefix[i]
  }

  function WordRun(s: string): (n: nat)
    ensures n <= |s|
  {
    if IsDigit(Peek(s)) || 'a' <= Lower(Peek(s)) <= 'z' || Peek(s) == '_' then 1 + WordRun(s[1..]) else 0
  }

  function DropWord(t: string): (r: Option<string>)
    ensures r.Some? ==> |r.value| < |t|
  {
    if HasPrefixNoCase(t, "infinity") then Some(t[8..])
    else if HasPrefixNoCase(t, "inf") then Some(t[3..])
    else if HasPrefixNoCase(t, "nan") then
      var u := t[3..];
      if Peek(u) == '(' && Peek(u[1 + WordRun(u[1..])..]) == ')' then Some(u[2 + WordRun(u[1..])..]) else Some(u)
    else None
  }

  /** The text at the end pointer of strtod(s, &end), where s does not start with white space;
      `s` itself when nothing was converted. */
  function Strtod(s: string): (rest: string)
    ensures |rest| <= |s|
  {
    var t := DropSign(s);
    if DropHex(t).Some? then DropHex(t).value
    else if DropDecimal(t).Some? then DropDecimal(t).value
    else if DropWord(t).Some? then DropWord(t).value
    else s
  }

  // Both end pointers point into the string that was converted.
  predicate IsSuffix(r: string, s: string) {
    |r| <= |s| && s[|s| - |r|..] == r
  }

  lemma SuffixFrom(s: string, k: nat, r: string)
    requires k <= |s| && IsSuffix(r, s[k..])
    ensures IsSuffix(r, s)
  {
    assert s[|s| - |r|..] == s[k..][|s| - k - |r|..];
  }

  lemma StrtollSuffix(s: string)
    ensures Strtoll(s).Some? ==> IsSuffix(Strtoll(s).value.1, s)
  {
    var sign := if Peek(s) == '-' then 1 else 0;
    assert s[0..] == s;
    var u := s[sign..];
    SuffixFrom(s, sign, u[DigitRun(u)..]);
  }

  lemma DropSignSuffix(s: string)
    ensures IsSuffix(DropSign(s), s)
  {
  }

  lemma DropExponentSuffix(s: string, lower: char, upper: char)
    requires lower != NUL && upper != NUL
    ensures IsSuffix(DropExponent(s, lower, upper), s)
  {
    if Peek(s) == lower || Peek(s) == upper {
      ExponentSuffix(s, DropSign(s[1..]));
    }
  }

  lemma ExponentSuffix(s: string, t: string)
    requires s != "" && t == DropSign(s[1..])
    ensures IsSuffix(t[DigitRun(t)..], s) && IsSuffix(s, s)
  {
    DropSignSuffix(s[1..]);
    SuffixFrom(s, 1, t);
    TailSuffix(s, t, DigitRun(t));
    assert s[0..] == s;
  }

  lemma TailSuffix(s: string, t: string, k: nat)
    requires IsSuffix(t, s) && k <= |t|
    ensures IsSuffix(t[k..], s)
  {
    assert t[k..] == s[|s| - |t|..][k..] == s[|s| - (|t| - k)..];
  }

  lemma SuffixThrough(r: string, v: string, u: string, t: string, k: nat)
    requires IsSuffix(r, v) && IsSuffix(v, u) && k <= |t| && u == t[k..]
    ensures IsSuffix(r, t)
  {
    SuffixFrom(u, |u| - |v|, r);
    SuffixFrom(t, k, r);
  }

  lemma DropFractionSuffix(s: string)
    ensures IsSuffix(DropFraction(s), s)
  {
  }

  lemma DropDecimalSuffix(t: string)
    ensures DropDecimal(t).Some? ==> IsSuffix(DropDecimal(t).value, t)
  {
    var k := DigitRun(t);
    var u := t[k..];
    var v := DropFraction(u);
    DropFractionSuffix(u);
    DropExponentSuffix(v, 'e', 'E');
    SuffixThrough(DropExponent(v, 'e', 'E'), v, u, t, k);
  }

  lemma DropHexFractionSuffix(s: string)
    ensures IsSuffix(DropHexFraction(s), s)
  {
  }

  lemma DropHexDigitsSuffix(t: string)
    ensures DropHexDigits(t).Some? ==> IsSuffix(DropHexDigits(t).value, t)
  {
    var k := HexRun(t);
    var u := t[k..];
    var v := DropHexFraction(u);
    DropHexFractionSuffix(u);
    DropExponentSuffix(v, 'p', 'P');
    SuffixThrough(DropExponent(v, 'p', 'P'), v, u, t, k);
  }

  lemma DropHexSuffix(t: string)
    ensures DropHex(t).Some? ==> IsSuffix(DropHex(t).value, t)
  {
    if DropHex(t).Some? {
      DropHexDigitsSuffix(t[2..]);
      SuffixFrom(t, 2, DropHex(t).value);
    }
  }

  lemma DropWordSuffix(t: string)
    ensures DropWord(t).Some? ==> IsSuffix(DropWord(t).value, t)
  {
    if DropWord(t).Some? && |DropWord(t).value| < |t| - 3 && !HasPrefixNoCase(t, "infinity") {
      SuffixFrom(t, 3, DropWord(t).value);
    }
  }

  lemma StrtodSuffix(s: string)
    ensures IsSuffix(Strtod(s), s)
  {
    var t := DropSign(s);
    DropHexSuffix(t);
    DropDecimalSuffix(t);
    DropWordSuffix(t);
    DropSignSuffix(s);
    if Strtod(s) != s {
      SuffixFrom(s, |s| - |t|, Strtod(s));
    }
  }

  // ----- "%lld" --------------------------------------------------------------------------------

  function NatText(n: nat): (s: string)
    ensures s != "" && AllDigits(s) && (s[0] == '0' ==> |s| == 1)
  {
    if n < 10 then [(n + '0' as int) as char] else NatText(n / 10) + [(n % 10 + '0' as int) as char]
  }

  function IntText(n: int): string {
    if n < 0 then "-" + NatText(-n) else NatText(n)
  }

  lemma {:induction false} NatTextValue(n: nat)
    ensures DecimalValue(NatText(n)) == n
  {
    var s := NatText(n);
    if n >= 10 {
      NatTextValue(n / 10);
      assert s[..|s| - 1] == NatText(n / 10);
    } else {
      assert s[..0] == "";
    }
  }

  lemma StrtollOf(s: string, negative: bool, ds: string, rest: string)
    requires s == (if negative then "-" + (ds + rest) else ds + rest)
    requires ds != "" && AllDigits(ds) && !IsDigit(Peek(rest))
    ensures var magnitude: int := DecimalValue(ds);
      Strtoll(s) == Some((Saturate(if negative then -magnitude else magnitude), rest))
  {
    assert negative ==> s[1..] == ds + rest;
    assert IsDigit(Peek(ds + rest));
    DigitRunOf(ds, rest);
  }

  /** What "%lld" prints, strtoll reads back, whatever follows it that is not a digit. */
  lemma StrtollIntText(n: int, rest: string)
    requires InRange(n) && !IsDigit(Peek(rest))
    ensures Strtoll(IntText(n) + rest) == Some((n, rest))
  {
    var ds := NatText(if n < 0 then -n else n);
    NatTextValue(if n < 0 then -n else n);
    assert n < 0 ==> IntText(n) + rest == "-" + (ds + rest);
    StrtollOf(IntText(n) + rest, n < 0, ds, rest);
  }
}
