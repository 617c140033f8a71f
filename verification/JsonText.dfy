/** What the hand-written scanner of src/delta.c accepts, as functions from the text under the
    cursor to the text left after it (None: the scanner returns -1). */
module JsonText {
  import opened Wrappers
  import opened CText

  /** The character an escape sequence `\c` stands for; `\u` is not among the accepted ones. */
  function Unescape(c: char): (r: Option<char>)
    ensures r.Some? ==> r.value != NUL
  {
    if c == '"' || c == '\\' || c == '/' then Some(c)
    else if c == 'b' then Some('\U{08}')
    else if c == 'f' then Some('\U{0C}')
    else if c == 'n' then Some('\n')
    else if c == 'r' then Some('\r')
    else if c == 't' then Some('\t')
    else None
  }

  /** Puts text read earlier in front of the text read by the rest of a scan. */
  function Glue(front: string, r: Option<(string, string)>): Option<(string, string)> {
    if r.None? then None else Some((front + r.value.0, r.value.1))
  }

  /** The string literal whose opening quote has been read: its decoded contents and what follows. */
  function StringBody(s: string): (r: Option<(string, string)>)
    ensures r.Some? ==> NUL !in r.value.0 && |r.value.1| < |s|
  {
    if Peek(s) == NUL then None
    else if s[0] == '"' then Some(("", s[1..]))
    else if s[0] != '\\' then Glue([s[0]], StringBody(s[1..]))
    else if Unescape(Peek(s[1..])).None? then None
    else Glue([Unescape(s[1]).value], StringBody(s[2..]))
  }

  function ScanString(s: string): (r: Option<(string, string)>)
    ensures r.Some? ==> NUL !in r.value.0 && |r.value.1| < |s|
  {
    if Peek(s) != '"' then None else StringBody(s[1..])
  }

  /** Text that needs no escaping to stand between quotes. */
  predicate Raw(text: string) {
    forall i :: 0 <= i < |text| ==> text[i] != '"' && text[i] != '\\' && text[i] != NUL
  }

  lemma {:induction false} RawString(text: string, rest: string)
    requires Raw(text)
    ensures StringBody(text + "\"" + rest) == Some((text, rest))
  {
    var s := text + "\"" + rest;
    if text == "" {
      assert s[1..] == rest;
    } else {
      assert s[1..] == text[1..] + "\"" + rest;
      RawString(text[1..], rest);
      assert [text[0]] + text[1..] == text;
    }
  }

  /** A string read into a buffer of `size` bytes, one of them for the terminator. */
  function ScanStringInto(s: string, size: nat): (r: Option<(string, string)>)
    ensures r.Some? ==> r == ScanString(s) && |r.value.0| < size
  {
    var (text, rest) :- ScanString(s);
    if |text| < size then Some((text, rest)) else None
  }

  const SKIP_BUFFER := 256

  function ScanLiteral(s: string): (r: Option<string>)
    ensures r.Some? ==> |r.value| < |s|
  {
    if HasPrefix(s, "true") then Some(s[4..])
    else if HasPrefix(s, "false") then Some(s[5..])
    else if HasPrefix(s, "null") then Some(s[4..])
    else None
  }

  function SkipNumber(s: string): (r: Option<string>)
    ensures r.Some? ==> |r.value| < |s|
  {
    var rest := Strtod(s);
    if |rest| == |s| then None else Some(rest)
  }

  function SkipValue(s0: string): (r: Option<string>)
    ensures r.Some? ==> |r.value| < |s0|
    decreases |s0|, 3
  {
    var s := SkipWs(s0);
    if Peek(s) == '"' then
      var (_, rest) :- ScanStringInto(s, SKIP_BUFFER);
      Some(rest)
    else if Peek(s) == '{' then SkipObject(s)
    else if Peek(s) == '[' then SkipArray(s)
    else if Peek(s) == '-' || IsDigit(Peek(s)) then SkipNumber(s)
    else ScanLiteral(s)
  }

  function SkipArray(s: string): (r: Option<string>)
    ensures r.Some? ==> |r.value| < |s|
    decreases |s|, 2
  {
    if Peek(s) != '[' then None
    else
      var t := SkipWs(s[1..]);
      if Peek(t) == ']' then Some(t[1..]) else SkipItems(t)
  }

  function SkipItems(s: string): (r: Option<string>)
    ensures r.Some? ==> |r.value| < |s|
    decreases |s|, 4
  {
    var t :- SkipValue(s);
    var u := SkipWs(t);
    if Peek(u) == ']' then Some(u[1..])
    else if Peek(u) == ',' then SkipItems(SkipWs(u[1..]))
    else None
  }

  function SkipObject(s: string): (r: Option<string>)
    ensures r.Some? ==> |r.value| < |s|
    decreases |s|, 2
  {
    if Peek(s) != '{' then None
    else
      var t := SkipWs(s[1..]);
      if Peek(t) == '}' then Some(t[1..]) else SkipMembers(t)
  }

  function SkipMembers(s: string): (r: Option<string>)
    ensures r.Some? ==> |r.value| < |s|
    decreases |s|, 1
  {
    var (_, s1) :- ScanStringInto(s, SKIP_BUFFER);
    var s2 := SkipWs(s1);
    if Peek(s2) != ':' then None
    else
      var s3 :- SkipValue(SkipWs(s2[1..]));
      var s4 := SkipWs(s3);
      if Peek(s4) == '}' then Some(s4[1..])
      else if Peek(s4) == ',' then SkipMembers(SkipWs(s4[1..]))
      else None
  }
}
