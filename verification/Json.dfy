/** JSON text: escaping strings, reading them back, and counting unclosed braces. */
module Json {
  import opened Wrappers

  // ---- writing ----

  function HexDigit(n: nat): char
    requires n < 16
  {
    if n < 10 then '0' + n as char else 'a' + (n - 10) as char
  }

  /** A control character has a short escape or is written by its code. */
  function EscapeChar(c: char): string {
    if c == '\U{8}' then "\\b"
    else if c == '\t' then "\\t"
    else if c == '\n' then "\\n"
    else if c == '\U{c}' then "\\f"
    else if c == '\r' then "\\r"
    else if c == '"' then "\\\""
    else if c == '\\' then "\\\\"
    else if c <= '\U{1f}' then "\\u00" + [HexDigit(c as int / 16), HexDigit(c as int % 16)]
    else [c]
  }

  /** A string as it stands between the quotes. */
  function Escape(s: string): string {
    if s == "" then "" else EscapeChar(s[0]) + Escape(s[1..])
  }

  function Dump(s: string): string {
    "\"" + Escape(s) + "\""
  }

  lemma {:induction false} EscapeConcat(a: string, b: string)
    ensures Escape(a + b) == Escape(a) + Escape(b)
  {
    hide EscapeChar;
    if a == "" {
      assert a + b == b;
    } else {
      assert (a + b)[1..] == a[1..] + b;
      EscapeConcat(a[1..], b);
      assert EscapeChar(a[0]) + (Escape(a[1..]) + Escape(b)) == EscapeChar(a[0]) + Escape(a[1..]) + Escape(b);
    }
  }

  lemma EscapePrefix(a: string, b: string)
    requires a <= b
    ensures Escape(a) <= Escape(b)
  {
    assert b == a + b[|a|..];
    EscapeConcat(a, b[|a|..]);
  }

  // ---- reading ----

  function HexValue(c: char): Option<nat> {
    if '0' <= c <= '9' then Some((c - '0') as nat)
    else if 'a' <= c <= 'f' then Some((c - 'a') as nat + 10)
    else if 'A' <= c <= 'F' then Some((c - 'A') as nat + 10)
    else None
  }

  /** One escape after the backslash: the character meant, and how long the escape is. */
  function ReadEscape(t: string): (r: Option<(char, nat)>)
    ensures r.Some? ==> 0 < r.value.1 <= |t|
  {
    if t == "" then None
    else match t[0]
      case 'b' => Some(('\U{8}', 1))
      case 't' => Some(('\t', 1))
      case 'n' => Some(('\n', 1))
      case 'f' => Some(('\U{c}', 1))
      case 'r' => Some(('\r', 1))
      case '"' => Some(('"', 1))
      case '\\' => Some(('\\', 1))
      case '/' => Some(('/', 1))
      case 'u' =>
        if |t| < 5 then None
        else
          var a :- HexValue(t[1]);
          var b :- HexValue(t[2]);
          var c :- HexValue(t[3]);
          var d :- HexValue(t[4]);
          var code := ((a * 16 + b) * 16 + c) * 16 + d;
          if code >= 0xD800 then None else Some((code as char, 5))
      case _ => None
  }

  /** The characters up to the closing quote, and the text after it. */
  function ReadChars(t: string): (r: Option<(string, string)>)
    ensures r.Some? ==> |r.value.1| < |t|
    decreases |t|
  {
    if t == "" then None
    else if t[0] == '"' then Some(("", t[1..]))
    else if t[0] == '\\' then
      var (c, n) :- ReadEscape(t[1..]);
      var (s, rest) :- ReadChars(t[1 + n..]);
      Some(([c] + s, rest))
    else if t[0] <= '\U{1f}' then None
    else
      var (s, rest) :- ReadChars(t[1..]);
      Some(([t[0]] + s, rest))
  }

  function ReadString(t: string): (r: Option<(string, string)>)
    ensures r.Some? ==> |r.value.1| < |t|
  {
    if t == "" || t[0] != '"' then None else ReadChars(t[1..])
  }

  lemma HexBack(n: nat)
    requires n < 16
    ensures HexValue(HexDigit(n)) == Some(n)
  {
    if n >= 10 {
      assert HexDigit(n) as int == 'a' as int + (n - 10);
    } else {
      assert HexDigit(n) as int == '0' as int + n;
    }
  }

  lemma ReadControl(c: char, t: string)
    requires c <= '\U{1f}'
    ensures ReadEscape(['u', '0', '0', HexDigit(c as int / 16), HexDigit(c as int % 16)] + t) == Some((c, 5))
  {
    hide HexDigit, HexValue;
    HexBack(0);
    HexBack(c as int / 16);
    HexBack(c as int % 16);
    assert HexDigit(0) == '0' by { ZeroDigit(); }
  }

  lemma ZeroDigit()
    ensures HexDigit(0) == '0'
  {
  }

  /** The escape of a character, after the backslash, is read as the character. */
  lemma ReadTail(c: char, t: string)
    requires |EscapeChar(c)| > 1
    ensures var tail := EscapeChar(c)[1..];
      EscapeChar(c)[0] == '\\' && |tail| > 0 && ReadEscape(tail + t) == Some((c, |tail|))
  {
    hide HexDigit, HexValue;
    if |EscapeChar(c)| > 2 {
      ReadControl(c, t);
      assert EscapeChar(c)[1..] == ['u', '0', '0', HexDigit(c as int / 16), HexDigit(c as int % 16)];
    }
  }

  /** No other way to write a character is shorter, only those that must be are escaped, and codes have small letters. */
  lemma EscapedShortest(c: char, t: string, n: nat)
    ensures |EscapeChar(c)| == 1 <==> c > '\U{1f}' && c != '"' && c != '\\'
    ensures |EscapeChar(c)| == 1 ==> EscapeChar(c) == [c]
    ensures ReadEscape(t) == Some((c, n)) ==> |EscapeChar(c)| <= 1 + n
    ensures |EscapeChar(c)| > 1 ==> forall i :: 0 <= i < |EscapeChar(c)| ==> !('A' <= EscapeChar(c)[i] <= 'Z')
  {
    hide HexValue;
    if c <= '\U{1f}' {
      SmallDigit(c as int / 16);
      SmallDigit(c as int % 16);
    }
  }

  lemma SmallDigit(n: nat)
    requires n < 16
    ensures '0' <= HexDigit(n) <= '9' || 'a' <= HexDigit(n) <= 'f'
  {
  }

  /** Text that starts with an escaped character is read as that character. */
  lemma ReadEscaped(c: char, t: string)
    ensures ReadChars(EscapeChar(c) + t) ==
      match ReadChars(t) case None => None case Some((s, rest)) => Some(([c] + s, rest))
  {
    hide ReadEscape, HexDigit;
    var e := EscapeChar(c);
    if |e| == 1 {
      assert (e + t)[1..] == t;
    } else {
      hide EscapeChar;
      ReadTail(c, t);
      assert (e + t)[1..] == e[1..] + t && (e + t)[1 + |e[1..]|..] == t;
    }
  }

  /** What was escaped is read back unchanged. */
  lemma {:induction false} ReadEscapedText(s: string, rest: string)
    ensures ReadChars(Escape(s) + "\"" + rest) == Some((s, rest))
  {
    hide EscapeChar;
    if s == "" {
      assert Escape(s) + "\"" + rest == "\"" + rest;
      assert ("\"" + rest)[1..] == rest;
    } else {
      ReadEscapedText(s[1..], rest);
      ReadEscaped(s[0], Escape(s[1..]) + "\"" + rest);
      assert Escape(s) + "\"" + rest == EscapeChar(s[0]) + (Escape(s[1..]) + "\"" + rest);
      assert [s[0]] + s[1..] == s;
    }
  }

  lemma ReadDump(s: string, rest: string)
    ensures ReadString(Dump(s) + rest) == Some((s, rest))
  {
    hide Escape, ReadChars;
    assert (Dump(s) + rest)[1..] == Escape(s) + "\"" + rest;
    ReadEscapedText(s, rest);
  }

  // ---- unclosed braces ----

  datatype Scan = Scan(depth: int, inString: bool, escaped: bool)

  function ScanChar(x: Scan, c: char): Scan {
    if x.escaped then x.(escaped := false)
    else if c == '\\' && x.inString then x.(escaped := true)
    else if c == '"' then x.(inString := !x.inString)
    else if x.inString then x
    else if c == '{' then x.(depth := x.depth + 1)
    else if c == '}' then x.(depth := x.depth - 1)
    else x
  }

  function ScanFrom(x: Scan, s: string): Scan {
    if s == "" then x else ScanChar(ScanFrom(x, s[..|s| - 1]), s[|s| - 1])
  }

  const OUTSIDE := Scan(0, false, false)

  function BraceDepth(s: string): int {
    ScanFrom(OUTSIDE, s).depth
  }

  method JsonBraceDepth(s: string) returns (depth: int)
    ensures depth == BraceDepth(s)
  {
    depth := 0;
    var inString, escaped := false, false;
    for i := 0 to |s|
      invariant ScanFrom(OUTSIDE, s[..i]) == Scan(depth, inString, escaped)
    {
      assert s[..i + 1][..i] == s[..i];
      var c := s[i];
      if escaped {
        escaped := false;
        continue;
      }
      if c == '\\' && inString {
        escaped := true;
        continue;
      }
      if c == '"' {
        inString := !inString;
        continue;
      }
      if !inString {
        if c == '{' {
          depth := depth + 1;
        } else if c == '}' {
          depth := depth - 1;
        }
      }
    }
    assert s[..|s|] == s;
  }

  lemma {:induction false} ScanConcat(x: Scan, a: string, b: string)
    ensures ScanFrom(x, a + b) == ScanFrom(ScanFrom(x, a), b)
    decreases |b|
  {
    if b == "" {
      assert a + b == a;
    } else {
      var n := |b| - 1;
      assert (a + b)[..|a| + n] == a + b[..n];
      ScanConcat(x, a, b[..n]);
    }
  }

  /** An escaped character never leaves the string. */
  lemma ScanEscaped(d: int, c: char)
    ensures ScanFrom(Scan(d, true, false), EscapeChar(c)) == Scan(d, true, false)
  {
    var x, e := Scan(d, true, false), EscapeChar(c);
    if |e| == 1 {
      assert e[..0] == "";
    } else {
      var h := e[2..];
      assert e == ['\\', e[1]] + h;
      ScanConcat(x, ['\\', e[1]], h);
      ScanEscapePair(d, e[1]);
      assert |e| > 2 ==> h == ['0', '0', HexDigit(c as int / 16), HexDigit(c as int % 16)];
      ScanPlain(x, h);
    }
  }

  lemma ScanEscapePair(d: int, c: char)
    ensures ScanFrom(Scan(d, true, false), ['\\', c]) == Scan(d, true, false)
  {
    assert ['\\', c][..1] == ['\\'] && ['\\'][..0] == "";
    assert ScanFrom(Scan(d, true, false), ['\\']) == Scan(d, true, true);
  }

  lemma {:induction false} ScanPlain(x: Scan, s: string)
    requires !x.escaped && forall i :: 0 <= i < |s| ==> s[i] !in {'\\', '"', '{', '}'}
    ensures ScanFrom(x, s) == x
  {
    if s != "" {
      ScanPlain(x, s[..|s| - 1]);
    }
  }

  lemma {:induction false} ScanEscape(d: int, s: string)
    ensures ScanFrom(Scan(d, true, false), Escape(s)) == Scan(d, true, false)
  {
    hide EscapeChar, ScanFrom;
    if s == "" {
      ScanNothing(Scan(d, true, false));
    } else {
      ScanConcat(Scan(d, true, false), EscapeChar(s[0]), Escape(s[1..]));
      ScanEscaped(d, s[0]);
      ScanEscape(d, s[1..]);
    }
  }

  lemma ScanNothing(x: Scan)
    ensures ScanFrom(x, "") == x
  {
  }

  lemma ScanOne(x: Scan, c: char)
    ensures ScanFrom(x, [c]) == ScanChar(x, c)
  {
    assert [c][..0] == "";
  }

  /** A written string leaves the scanner where it was, whatever the string holds. */
  lemma ScanDump(d: int, s: string)
    ensures ScanFrom(Scan(d, false, false), Dump(s)) == Scan(d, false, false)
  {
    hide Escape, ScanFrom;
    var x := Scan(d, false, false);
    ScanConcat(x, "\"" + Escape(s), "\"");
    ScanConcat(x, "\"", Escape(s));
    ScanOne(x, '"');
    ScanEscape(d, s);
    ScanOne(Scan(d, true, false), '"');
  }
}
