/** Turning Python-style quotes into JSON quotes, and what the text means before and after. */
module Quotes {
  import opened Wrappers
  import opened Json

  datatype Mode = Outside | Single | Double

  /** The text that replaces s when scanning stands in the given mode. */
  function Normal(mode: Mode, s: string): string
    decreases |s|
  {
    if s == "" then ""
    else if s[0] == '\\' && |s| > 1 && mode == Single then
      (if s[1] == '\'' then "'" else if s[1] == '"' then "\\\"" else [s[0], s[1]]) + Normal(mode, s[2..])
    else if s[0] == '\\' && |s| > 1 && mode == Double then [s[0], s[1]] + Normal(mode, s[2..])
    else if s[0] == '"' then
      match mode
      case Single => "\\\"" + Normal(Single, s[1..])
      case Double => [s[0]] + Normal(Outside, s[1..])
      case Outside => [s[0]] + Normal(Double, s[1..])
    else if s[0] == '\'' then
      match mode
      case Double => [s[0]] + Normal(Double, s[1..])
      case Single => "\"" + Normal(Outside, s[1..])
      case Outside => "\"" + Normal(Single, s[1..])
    else [s[0]] + Normal(mode, s[1..])
  }

  function ModeOf(inSingleQuoted: bool, inDoubleQuoted: bool): Mode {
    if inSingleQuoted then Single else if inDoubleQuoted then Double else Outside
  }

  function Normalized(input: string): string {
    Normal(Outside, input)
  }

  lemma Appended(result: string, piece: string, rest: string)
    ensures result + (piece + rest) == result + piece + rest
  {
  }

  method NormalizeQuotesToJson(input: string) returns (result: string)
    ensures result == Normalized(input)
  {
    result := "";
    var inSingleQuoted, inDoubleQuoted := false, false;
    var i := 0;
    assert input[0..] == input && "" + Normal(Outside, input) == Normal(Outside, input);
    while i < |input|
      invariant i <= |input| && !(inSingleQuoted && inDoubleQuoted)
      invariant result + Normal(ModeOf(inSingleQuoted, inDoubleQuoted), input[i..]) == Normal(Outside, input)
      decreases |input| - i
    {
      var c := input[i];
      ghost var before, mode, at := result, ModeOf(inSingleQuoted, inDoubleQuoted), i;
      assert input[i..][1..] == input[i + 1..];
      if c == '\\' && i + 1 < |input| {
        var next := input[i + 1];
        assert input[i..][2..] == input[i + 2..];
        if inSingleQuoted {
          if next == '\'' {
            Appended(result, "'", Normal(mode, input[i + 2..]));
            result := result + ['\''];
            i := i + 2;
            continue;
          }
          if next == '"' {
            Appended(result, "\\\"", Normal(mode, input[i + 2..]));
            result := result + "\\\"";
            i := i + 2;
            continue;
          }
          Appended(result, [c, next], Normal(mode, input[i + 2..]));
          result := result + [c, next];
          i := i + 2;
          continue;
        }
        if inDoubleQuoted {
          Appended(result, [c, next], Normal(mode, input[i + 2..]));
          result := result + [c, next];
          i := i + 2;
          continue;
        }
        Appended(result, [c], Normal(mode, input[i + 1..]));
        result := result + [c];
        i := i + 1;
        continue;
      }
      ghost var piece: string := [c];
      if c == '"' {
        if inSingleQuoted {
          result := result + "\\\"";
          piece := "\\\"";
        } else {
          inDoubleQuoted := !inDoubleQuoted;
          result := result + [c];
        }
      } else if c == '\'' {
        if inDoubleQuoted {
          result := result + [c];
        } else if inSingleQuoted {
          inSingleQuoted := false;
          result := result + ['"'];
          piece := "\"";
        } else {
          inSingleQuoted := true;
          result := result + ['"'];
          piece := "\"";
        }
      } else {
        result := result + [c];
      }
      i := i + 1;
      assert result == before + piece;
      Appended(before, piece, Normal(ModeOf(inSingleQuoted, inDoubleQuoted), input[i..]));
    }
  }

  // ---- what a text means ----

  /** A character outside literals, the border of a literal, a character of a literal, an escape in it
      that stands for no quote, or a backslash at the very end. */
  datatype Sign = Out(c: char) | Open | Close | Lit(c: char) | LitEscape(c: char) | LitEnd

  predicate IsQuote(c: char) {
    c == '\'' || c == '"'
  }

  /** Reads a text whose literals are in double quotes and, in Python, in single quotes too. */
  function Lex(python: bool, mode: Mode, s: string): seq<Sign>
    decreases |s|
  {
    if s == "" then []
    else if mode == Outside then
      if s[0] == '"' then [Open] + Lex(python, Double, s[1..])
      else if s[0] == '\'' && python then [Open] + Lex(python, Single, s[1..])
      else [Out(s[0])] + Lex(python, Outside, s[1..])
    else if s[0] == '\\' then
      if |s| == 1 then [LitEnd]
      else [if IsQuote(s[1]) then Lit(s[1]) else LitEscape(s[1])] + Lex(python, mode, s[2..])
    else if s[0] == (if mode == Single then '\'' else '"') then [Close] + Lex(python, Outside, s[1..])
    else [Lit(s[0])] + Lex(python, mode, s[1..])
  }

  /** The mode in which the converted text is read. */
  function Converted(mode: Mode): Mode {
    if mode == Outside then Outside else Double
  }

  lemma LexPair(mode: Mode, n: char, t: string)
    requires mode != Outside
    ensures Lex(false, mode, ['\\', n] + t) == [if IsQuote(n) then Lit(n) else LitEscape(n)] + Lex(false, mode, t)
  {
    assert (['\\', n] + t)[2..] == t;
  }

  lemma LexChar(mode: Mode, c: char, t: string)
    requires mode == Double && c != '\\' && c != '"'
    ensures Lex(false, mode, [c] + t) == [Lit(c)] + Lex(false, mode, t)
  {
    assert ([c] + t)[1..] == t;
  }

  lemma LexQuote(mode: Mode, t: string)
    requires mode != Single
    ensures Lex(false, mode, "\"" + t) == if mode == Outside then [Open] + Lex(false, Double, t) else [Close] + Lex(false, Outside, t)
  {
    assert ("\"" + t)[1..] == t;
  }

  lemma LexOut(c: char, t: string)
    requires c != '"'
    ensures Lex(false, Outside, [c] + t) == [Out(c)] + Lex(false, Outside, t)
  {
    assert ([c] + t)[1..] == t;
  }

  /** Every literal keeps its characters, and text outside literals is unchanged. */
  lemma {:induction false} MeaningKept(mode: Mode, s: string)
    ensures Lex(false, Converted(mode), Normal(mode, s)) == Lex(true, mode, s)
    decreases |s|
  {
    if s == "" {
    } else if s[0] == '\\' && mode != Outside {
      MeaningEscape(mode, s);
    } else {
      var m := if IsQuote(s[0]) then After(mode, s[0]) else mode;
      var t := Normal(m, s[1..]);
      MeaningKept(m, s[1..]);
      if s[0] == '"' {
        if mode == Single {
          LexPair(Double, '"', t);
        } else {
          LexQuote(mode, t);
        }
      } else if s[0] == '\'' {
        if mode == Double {
          LexChar(Double, '\'', t);
        } else {
          LexQuote(Converted(mode), t);
        }
      } else if mode == Outside {
        LexOut(s[0], t);
      } else {
        LexChar(Double, s[0], t);
      }
    }
  }

  /** The mode after an unescaped quote character. */
  function After(mode: Mode, c: char): Mode
    requires IsQuote(c)
  {
    match mode
    case Outside => if c == '"' then Double else Single
    case Single => if c == '\'' then Outside else Single
    case Double => if c == '"' then Outside else Double
  }

  lemma MeaningEscape(mode: Mode, s: string)
    requires s != "" && s[0] == '\\' && mode != Outside
    ensures Lex(false, Converted(mode), Normal(mode, s)) == Lex(true, mode, s)
    decreases |s|, 0
  {
    if |s| == 1 {
      assert Normal(mode, s) == [s[0]] + Normal(mode, s[1..]) == s;
    } else {
      var t := Normal(mode, s[2..]);
      MeaningKept(mode, s[2..]);
      if mode == Single && s[1] == '\'' {
        LexChar(Double, '\'', t);
      } else {
        LexPair(Double, s[1], t);
      }
    }
  }

  // ---- when nothing changes ----

  /** No single quote lies outside a double-quoted literal. */
  predicate SingleFree(mode: Mode, s: string)
    decreases |s|
  {
    s == "" ||
    match mode
    case Single => false
    case Double =>
      if s[0] == '\\' && |s| > 1 then SingleFree(Double, s[2..])
      else SingleFree(if s[0] == '"' then Outside else Double, s[1..])
    case Outside => s[0] != '\'' && SingleFree(if s[0] == '"' then Double else Outside, s[1..])
  }

  /** The text is unchanged exactly when no single quote lies outside a double-quoted literal. */
  lemma {:induction false} UnchangedExactly(mode: Mode, s: string)
    requires mode != Single
    ensures Normal(mode, s) == s <==> SingleFree(mode, s)
    decreases |s|
  {
    if s == "" {
    } else if s[0] == '\\' && |s| > 1 && mode == Double {
      UnchangedExactly(mode, s[2..]);
      HeadsAgree([s[0], s[1]], Normal(mode, s[2..]), s);
    } else if s[0] == '\'' && mode == Outside {
      assert Normal(mode, s)[0] == '"';
    } else {
      var m := if s[0] == '"' then After(mode, '"') else mode;
      UnchangedExactly(m, s[1..]);
      HeadsAgree([s[0]], Normal(m, s[1..]), s);
    }
  }

  lemma HeadsAgree(head: string, t: string, s: string)
    requires head <= s
    ensures head + t == s <==> t == s[|head|..]
  {
    assert (head + t)[|head|..] == t;
    assert s == head + s[|head|..];
  }

  lemma {:induction false} OutputSingleFree(mode: Mode, s: string)
    ensures SingleFree(Converted(mode), Normal(mode, s))
    decreases |s|
  {
    if s == "" {
    } else if s[0] == '\\' && |s| > 1 && mode != Outside {
      OutputSingleFree(mode, s[2..]);
      var t := Normal(mode, s[2..]);
      assert ("'" + t)[1..] == t && ("\\\"" + t)[2..] == t && ([s[0], s[1]] + t)[2..] == t;
    } else {
      var m := if IsQuote(s[0]) then After(mode, s[0]) else mode;
      OutputSingleFree(m, s[1..]);
      var t := Normal(m, s[1..]);
      assert ([s[0]] + t)[1..] == t && ("\"" + t)[1..] == t && ("\\\"" + t)[2..] == t;
      assert |s| == 1 ==> t == "";
    }
  }

  /** Converting twice is converting once. */
  lemma Idempotent(s: string)
    ensures Normalized(Normalized(s)) == Normalized(s)
  {
    OutputSingleFree(Outside, s);
    UnchangedExactly(Outside, Normalized(s));
  }

  // ---- braces ----

  function SignDepth(signs: seq<Sign>): int {
    if signs == [] then 0
    else (if signs[0] == Out('{') then 1 else if signs[0] == Out('}') then -1 else 0) + SignDepth(signs[1..])
  }

  lemma ScanCons(x: Scan, c: char, t: string)
    ensures ScanFrom(x, [c] + t) == ScanFrom(ScanChar(x, c), t)
  {
    hide ScanFrom;
    ScanConcat(x, [c], t);
    ScanOne(x, c);
  }

  lemma {:induction false} ScanIsLex(d: int, mode: Mode, s: string)
    requires mode != Single
    ensures ScanFrom(Scan(d, mode == Double, false), s).depth == d + SignDepth(Lex(false, mode, s))
    decreases |s|
  {
    hide ScanFrom;
    var x := Scan(d, mode == Double, false);
    if s == "" {
      ScanNothing(x);
    } else {
      assert s == [s[0]] + s[1..];
      ScanCons(x, s[0], s[1..]);
      if s[0] == '\\' && mode == Double {
        ScanEscapedRest(d, s);
      } else {
        var x' := ScanChar(x, s[0]);
        ScanIsLex(x'.depth, if x'.inString then Double else Outside, s[1..]);
      }
    }
  }

  lemma ScanEscapedRest(d: int, s: string)
    requires s != "" && s[0] == '\\'
    ensures ScanFrom(Scan(d, true, true), s[1..]).depth == d + SignDepth(Lex(false, Double, s))
    decreases |s|, 0
  {
    hide ScanFrom;
    var y := Scan(d, true, true);
    if |s| == 1 {
      assert s[1..] == "";
      ScanNothing(y);
    } else {
      assert s[1..] == [s[1]] + s[2..];
      ScanCons(y, s[1], s[2..]);
      ScanIsLex(d, Double, s[2..]);
    }
  }

  /** The unclosed braces of the converted text are those of the input outside its literals. */
  lemma DepthKept(s: string)
    ensures BraceDepth(Normalized(s)) == SignDepth(Lex(true, Outside, s))
  {
    hide ScanFrom;
    ScanIsLex(0, Outside, Normalized(s));
    MeaningKept(Outside, s);
  }

  // ---- cutting the input ----

  /** Inside a single-quoted literal, just after a backslash that escapes the next character. */
  predicate CutInEscape(mode: Mode, s: string)
    decreases |s|
  {
    if s == "" then false
    else if s[0] == '\\' && mode != Outside then
      if |s| == 1 then mode == Single else CutInEscape(mode, s[2..])
    else CutInEscape(if IsQuote(s[0]) then After(mode, s[0]) else mode, s[1..])
  }

  /** Converting a beginning of the input gives a beginning of the converted input, except exactly
      when the cut separates a backslash from the single quote it escapes in a single-quoted literal. */
  lemma {:induction false} CutExactly(mode: Mode, s: string, rest: string)
    ensures Normal(mode, s) <= Normal(mode, s + rest) <==>
      !(CutInEscape(mode, s) && rest != "" && rest[0] == '\'')
    decreases |s|
  {
    if s == "" {
    } else if s[0] == '\\' && mode != Outside {
      CutEscape(mode, s, rest);
    } else {
      assert (s + rest)[1..] == s[1..] + rest;
      var m := if IsQuote(s[0]) then After(mode, s[0]) else mode;
      CutExactly(m, s[1..], rest);
      var head := if s[0] == '"' && mode == Single then "\\\"" else if s[0] == '\'' && mode != Double then "\"" else [s[0]];
      PrefixAfter(head, Normal(m, s[1..]), Normal(m, s[1..] + rest));
    }
  }

  lemma PrefixAfter(head: string, a: string, b: string)
    ensures head + a <= head + b <==> a <= b
  {
    assert (head + a)[|head|..] == a && (head + b)[|head|..] == b;
    if head + a <= head + b {
      assert a == (head + b)[..|head + a|][|head|..];
    }
  }

  lemma CutEscape(mode: Mode, s: string, rest: string)
    requires s != "" && s[0] == '\\' && mode != Outside
    ensures Normal(mode, s) <= Normal(mode, s + rest) <==>
      !(CutInEscape(mode, s) && rest != "" && rest[0] == '\'')
    decreases |s|, 0
  {
    if |s| == 1 {
      assert Normal(mode, s) == [s[0]] + Normal(mode, s[1..]) == s;
      if rest == "" {
        assert s + rest == s;
      } else {
        assert (s + rest)[0] == s[0] && (s + rest)[1] == rest[0];
      }
    } else {
      assert (s + rest)[2..] == s[2..] + rest;
      CutExactly(mode, s[2..], rest);
      var head := if mode == Single && s[1] == '\'' then "'" else [s[0], s[1]];
      PrefixAfter(head, Normal(mode, s[2..]), Normal(mode, s[2..] + rest));
    }
  }
}
