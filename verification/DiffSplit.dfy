/** Comparing two renderings of a template: what they share at both ends, and what differs between. */
module DiffSplit {
  import opened Wrappers
  import opened Segmentation
  import opened Affixes

  datatype Split = Split(prefix: string, suffix: string, left: string, right: string)

  /** The segments not matched yet, between what was matched at the front and at the back. The last
      segment of a side that is marked used was matched although it stayed in the range. */
  datatype Ends = Ends(prefix: string, suffix: string,
                       left: seq<Segment>, leftUsed: bool,
                       right: seq<Segment>, rightUsed: bool)
  {
    predicate Nonempty() {
      left != [] && right != []
    }

    predicate Unused() {
      !leftUsed && !rightUsed
    }
  }

  function Front(segs: seq<Segment>): Segment
    requires segs != []
  {
    segs[0]
  }

  function Back(segs: seq<Segment>): Segment
    requires segs != []
  {
    segs[|segs| - 1]
  }

  function Tail(segs: seq<Segment>): seq<Segment>
    requires segs != []
  {
    segs[1..]
  }

  function Init(segs: seq<Segment>): seq<Segment>
    requires segs != []
  {
    segs[..|segs| - 1]
  }

  // ---- the specification, in the steps of the algorithm ----

  function MatchFront(e: Ends): Ends
    requires e.Nonempty()
  {
    if Front(e.left) == Front(e.right) then
      e.(prefix := e.prefix + Front(e.left).value, left := Tail(e.left), right := Tail(e.right))
    else e
  }

  function MatchBack(e: Ends): Ends
    requires e.Nonempty()
  {
    if Back(e.left) == Back(e.right) then
      Ends(e.prefix, Back(e.left).value + e.suffix,
           if |e.left| > 1 then Init(e.left) else e.left, e.leftUsed || |e.left| == 1,
           if |e.right| > 1 then Init(e.right) else e.right, e.rightUsed || |e.right| == 1)
    else e
  }

  predicate Open(e: Ends) {
    |e.left| > 1 && |e.right| > 1
  }

  predicate Stuck(e: Ends)
    requires Open(e)
  {
    Front(e.left) != Front(e.right) && Back(e.left) != Back(e.right)
  }

  function MatchBoth(e: Ends): (e': Ends)
    requires Open(e)
    ensures e'.Nonempty()
    ensures !Stuck(e) ==> |e'.left| + |e'.right| < |e.left| + |e.right|
  {
    MatchBack(MatchFront(e))
  }

  function MatchEnds(e: Ends): (e': Ends)
    requires e.Nonempty()
    ensures e'.Nonempty()
    decreases |e.left| + |e.right|
  {
    if !Open(e) || Stuck(e) then e else MatchEnds(MatchBoth(e))
  }

  /** The single segment that may be left on one side, matched once more against the other side. */
  function MatchSingle(e: Ends): (e': Ends)
    requires e.Nonempty()
    ensures e'.Nonempty()
  {
    if |e.left| == 1 && |e.right| > 1 then
      if Front(e.left) == Back(e.right) then
        e.(suffix := Back(e.right).value + e.suffix, right := Init(e.right), leftUsed := true)
      else if Front(e.left) == Front(e.right) then
        e.(prefix := e.prefix + Front(e.right).value, right := Tail(e.right), leftUsed := true)
      else e
    else if |e.right| == 1 && |e.left| > 1 then
      if Back(e.left) == Front(e.right) then
        e.(suffix := Back(e.left).value + e.suffix, left := Init(e.left), rightUsed := true)
      else if Front(e.left) == Front(e.right) then
        e.(prefix := e.prefix + Front(e.left).value, left := Tail(e.left), rightUsed := true)
      else e
    else if |e.left| == 1 && |e.right| == 1 && Front(e.left) == Front(e.right)
            && Front(e.left).kind == MARKER then
      e.(prefix := e.prefix + Front(e.right).value, leftUsed := true, rightUsed := true)
    else e
  }

  function Remainder(segs: seq<Segment>, used: bool): string
    requires segs != []
  {
    Text(if used then Init(segs) else segs)
  }

  /** Splits two texts at the given lengths of their common prefix and suffix. */
  function Parts(e: Ends, l: string, r: string, prefixLen: nat, suffixLen: nat): Split
    requires prefixLen + suffixLen <= |l| && prefixLen + suffixLen <= |r|
  {
    Split(e.prefix + l[..prefixLen], l[|l| - suffixLen..] + e.suffix,
          l[prefixLen..|l| - suffixLen], r[prefixLen..|r| - suffixLen])
  }

  /** Text at the borders of what remains may still share characters. */
  function Trim(e: Ends): Split
    requires e.Nonempty()
  {
    var l, r := Remainder(e.left, e.leftUsed), Remainder(e.right, e.rightUsed);
    var suffixLen := if Back(e.left).kind == TEXT && Back(e.right).kind == TEXT
                     then CommonSuffix(l, r) else 0;
    var prefixLen := if Front(e.right).kind == TEXT && Front(e.left).kind == TEXT
                     then CommonPrefix(l[..|l| - suffixLen], r[..|r| - suffixLen]) else 0;
    Parts(e, l, r, prefixLen, suffixLen)
  }

  /** No difference is shown as prefix alone, and so is all of left when it starts right. */
  function Tidy(d: Split, left: string, right: string): Split {
    if d.left == "" && d.right == "" then d.(prefix := left, suffix := "")
    else if d.left == "" && left <= right then Split(left, "", "", right[|left|..])
    else d
  }

  function Start(left: string, right: string): Ends {
    Ends("", "", Segments(left), false, Segments(right), false)
  }

  function Differ(left: string, right: string): Split {
    if Segments(left) == [] then Split("", "", "", right)
    else if Segments(right) == [] then Split("", "", left, "")
    else Tidy(Trim(MatchSingle(MatchEnds(Start(left, right)))), left, right)
  }

  // ---- the algorithm: four indices and two flags ----

  function Range(segs: seq<Segment>, from: nat, to: nat): seq<Segment>
    requires from <= to < |segs|
  {
    segs[from..to + 1]
  }

  lemma RangeParts(segs: seq<Segment>, from: nat, to: nat)
    requires from <= to < |segs|
    ensures |Range(segs, from, to)| == to - from + 1
    ensures Front(Range(segs, from, to)) == segs[from] && Back(Range(segs, from, to)) == segs[to]
    ensures Init(Range(segs, from, to)) == segs[from..to]
    ensures from < to ==> Tail(Range(segs, from, to)) == Range(segs, from + 1, to)
    ensures from < to ==> Init(Range(segs, from, to)) == Range(segs, from, to - 1)
  {
  }

  lemma RangeIs(segs: seq<Segment>, from: nat, to: nat)
    requires from <= to < |segs|
    ensures Range(segs, from, to) == segs[from..to + 1]
  {
  }

  lemma FrontStep(leftSeg: seq<Segment>, leftStart: nat, leftEnd: nat,
                  rightSeg: seq<Segment>, rightStart: nat, rightEnd: nat, e: Ends)
    requires leftStart < leftEnd < |leftSeg| && rightStart < rightEnd < |rightSeg|
    requires e.left == Range(leftSeg, leftStart, leftEnd) && e.right == Range(rightSeg, rightStart, rightEnd)
    ensures Open(e) && Front(e.left) == leftSeg[leftStart] && Front(e.right) == rightSeg[rightStart]
    ensures Back(e.left) == leftSeg[leftEnd] && Back(e.right) == rightSeg[rightEnd]
    ensures MatchFront(e) ==
      if leftSeg[leftStart] == rightSeg[rightStart] then
        Ends(e.prefix + leftSeg[leftStart].value, e.suffix,
             Range(leftSeg, leftStart + 1, leftEnd), e.leftUsed,
             Range(rightSeg, rightStart + 1, rightEnd), e.rightUsed)
      else e
  {
    hide Range, Front, Back, Tail, Init;
    RangeParts(leftSeg, leftStart, leftEnd);
    RangeParts(rightSeg, rightStart, rightEnd);
  }

  lemma BackStep(leftSeg: seq<Segment>, leftStart: nat, leftEnd: nat,
                 rightSeg: seq<Segment>, rightStart: nat, rightEnd: nat, e: Ends)
    requires leftStart <= leftEnd < |leftSeg| && rightStart <= rightEnd < |rightSeg|
    requires e.left == Range(leftSeg, leftStart, leftEnd) && e.right == Range(rightSeg, rightStart, rightEnd)
    ensures e.Nonempty() && Back(e.left) == leftSeg[leftEnd] && Back(e.right) == rightSeg[rightEnd]
    ensures MatchBack(e) ==
      if leftSeg[leftEnd] == rightSeg[rightEnd] then
        Ends(e.prefix, leftSeg[leftEnd].value + e.suffix,
             Range(leftSeg, leftStart, if leftStart != leftEnd then leftEnd - 1 else leftEnd),
             e.leftUsed || leftStart == leftEnd,
             Range(rightSeg, rightStart, if rightStart != rightEnd then rightEnd - 1 else rightEnd),
             e.rightUsed || rightStart == rightEnd)
      else e
  {
    hide Range, Front, Back, Tail, Init;
    RangeParts(leftSeg, leftStart, leftEnd);
    RangeParts(rightSeg, rightStart, rightEnd);
  }

  lemma BothStep(e: Ends)
    requires Open(e)
    ensures MatchFront(e).Nonempty() && MatchBack(MatchFront(e)).Nonempty()
    ensures !Stuck(e) ==> MatchEnds(e) == MatchEnds(MatchBack(MatchFront(e)))
  {
  }

  lemma Done(e: Ends)
    requires e.Nonempty() && (Open(e) ==> Stuck(e))
    ensures MatchEnds(e) == e
  {
  }

  method MatchLoop(leftSeg: seq<Segment>, rightSeg: seq<Segment>)
    returns (prefix: string, suffix: string, leftStart: nat, leftEnd: nat, leftUsed: bool,
             rightStart: nat, rightEnd: nat, rightUsed: bool)
    requires leftSeg != [] && rightSeg != []
    ensures leftStart <= leftEnd < |leftSeg| && rightStart <= rightEnd < |rightSeg|
    ensures Ends(prefix, suffix, Range(leftSeg, leftStart, leftEnd), leftUsed,
                 Range(rightSeg, rightStart, rightEnd), rightUsed)
         == MatchEnds(Ends("", "", leftSeg, false, rightSeg, false))
  {
    hide Range, Front, Back, Tail, Init, MatchFront, MatchBack, MatchEnds;
    prefix, suffix := "", "";
    leftStart, leftEnd := 0, |leftSeg| - 1;
    rightStart, rightEnd := 0, |rightSeg| - 1;
    leftUsed, rightUsed := false, false;
    WholeRange(leftSeg);
    WholeRange(rightSeg);
    ghost var all := Ends("", "", leftSeg, false, rightSeg, false);
    ghost var e := all;
    while leftStart != leftEnd && rightStart != rightEnd
      invariant leftStart <= leftEnd < |leftSeg| && rightStart <= rightEnd < |rightSeg|
      invariant e == Ends(prefix, suffix, Range(leftSeg, leftStart, leftEnd), leftUsed,
                          Range(rightSeg, rightStart, rightEnd), rightUsed)
      invariant e.Nonempty() && MatchEnds(e) == MatchEnds(all)
      decreases leftEnd - leftStart + rightEnd - rightStart
    {
      var advanced := false;
      FrontStep(leftSeg, leftStart, leftEnd, rightSeg, rightStart, rightEnd, e);
      BothStep(e);
      ghost var f := MatchFront(e);
      if leftSeg[leftStart] == rightSeg[rightStart] {
        prefix := prefix + leftSeg[leftStart].value;
        leftStart, rightStart := leftStart + 1, rightStart + 1;
        advanced := true;
      }
      BackStep(leftSeg, leftStart, leftEnd, rightSeg, rightStart, rightEnd, f);
      ghost var g := MatchBack(f);
      if leftSeg[leftEnd] == rightSeg[rightEnd] {
        suffix := leftSeg[leftEnd].value + suffix;
        if leftStart != leftEnd {
          leftEnd := leftEnd - 1;
        } else {
          leftUsed := true;
        }
        if rightStart != rightEnd {
          rightEnd := rightEnd - 1;
        } else {
          rightUsed := true;
        }
        advanced := true;
      }
      if !advanced {
        assert Stuck(e);
        break;
      }
      e := g;
    }
    RangeParts(leftSeg, leftStart, leftEnd);
    RangeParts(rightSeg, rightStart, rightEnd);
    Done(e);
  }

  lemma WholeRange(segs: seq<Segment>)
    requires segs != []
    ensures Range(segs, 0, |segs| - 1) == segs
  {
  }

  method Accumulate(segs: seq<Segment>, from: nat, to: nat) returns (str: string)
    requires from <= to <= |segs|
    ensures str == Text(segs[from..to])
  {
    hide Text;
    str := "";
    NoSegments();
    assert segs[from..from] == [];
    for i := from to to
      invariant str == Text(segs[from..i])
    {
      assert segs[from..i + 1] == segs[from..i] + [segs[i]];
      TextOfConcat(segs[from..i], [segs[i]]);
      OneSegment(segs[i]);
      str := str + segs[i].value;
    }
  }

  method TrimEnds(leftSeg: seq<Segment>, leftStart: nat, leftEnd: nat, leftUsed: bool,
                  rightSeg: seq<Segment>, rightStart: nat, rightEnd: nat, rightUsed: bool,
                  prefix: string, suffix: string) returns (result: Split)
    requires leftStart <= leftEnd < |leftSeg| && rightStart <= rightEnd < |rightSeg|
    ensures result == Trim(Ends(prefix, suffix, Range(leftSeg, leftStart, leftEnd), leftUsed,
                                Range(rightSeg, rightStart, rightEnd), rightUsed))
  {
    hide Text, CommonPrefix, CommonSuffix, PrefixStops, SuffixStops, Range, Init, Front, Back;
    RangeParts(leftSeg, leftStart, leftEnd);
    RangeParts(rightSeg, rightStart, rightEnd);
    var canHaveTextSuffix := leftSeg[leftEnd].kind == TEXT && rightSeg[rightEnd].kind == TEXT;
    var canHaveTextPrefix := rightSeg[rightStart].kind == TEXT && leftSeg[leftStart].kind == TEXT;
    var l := Accumulate(leftSeg, leftStart, if leftUsed then leftEnd else leftEnd + 1);
    var r := Accumulate(rightSeg, rightStart, if rightUsed then rightEnd else rightEnd + 1);
    RangeIs(leftSeg, leftStart, leftEnd);
    RangeIs(rightSeg, rightStart, rightEnd);
    var suffixLen, prefixLen := 0, 0;
    if canHaveTextSuffix {
      suffixLen := CommonSuffixLen(l, r);
    }
    if canHaveTextPrefix {
      prefixLen := CommonPrefixLen(l[..|l| - suffixLen], r[..|r| - suffixLen]);
    }
    result := Split(prefix + l[..prefixLen], l[|l| - suffixLen..] + suffix,
                    l[prefixLen..|l| - suffixLen], r[prefixLen..|r| - suffixLen]);
  }

  method CalculateDiffSplit(left: string, right: string) returns (result: Split)
    ensures result == Differ(left, right)
  {
    hide Segments, MatchEnds, Trim, Range, Front, Back, Tail, Init;
    var leftSeg := SegmentizeMarkers(left);
    var rightSeg := SegmentizeMarkers(right);
    if leftSeg == [] {
      return Split("", "", "", right);
    }
    if rightSeg == [] {
      return Split("", "", left, "");
    }
    var prefix, suffix, leftStart, leftEnd, leftUsed, rightStart, rightEnd, rightUsed :=
      MatchLoop(leftSeg, rightSeg);
    ghost var e := Ends(prefix, suffix, Range(leftSeg, leftStart, leftEnd), leftUsed,
                        Range(rightSeg, rightStart, rightEnd), rightUsed);
    assert e == MatchEnds(Start(left, right));
    RangeParts(leftSeg, leftStart, leftEnd);
    RangeParts(rightSeg, rightStart, rightEnd);
    if leftStart == leftEnd && rightStart != rightEnd {
      if leftSeg[leftStart] == rightSeg[rightEnd] {
        suffix := rightSeg[rightEnd].value + suffix;
        rightEnd := rightEnd - 1;
        leftUsed := true;
      } else if leftSeg[leftStart] == rightSeg[rightStart] {
        prefix := prefix + rightSeg[rightStart].value;
        rightStart := rightStart + 1;
        leftUsed := true;
      }
    } else if rightStart == rightEnd && leftStart != leftEnd {
      if leftSeg[leftEnd] == rightSeg[rightStart] {
        suffix := leftSeg[leftEnd].value + suffix;
        leftEnd := leftEnd - 1;
        rightUsed := true;
      } else if leftSeg[leftStart] == rightSeg[rightStart] {
        prefix := prefix + leftSeg[leftStart].value;
        leftStart := leftStart + 1;
        rightUsed := true;
      }
    } else if leftStart == leftEnd && rightStart == rightEnd
              && leftSeg[leftStart] == rightSeg[rightStart] && leftSeg[leftStart].kind == MARKER {
      prefix := prefix + rightSeg[rightStart].value;
      leftUsed, rightUsed := true, true;
    }
    ghost var f := Ends(prefix, suffix, Range(leftSeg, leftStart, leftEnd), leftUsed,
                        Range(rightSeg, rightStart, rightEnd), rightUsed);
    assert f == MatchSingle(e);
    result := TrimEnds(leftSeg, leftStart, leftEnd, leftUsed,
                       rightSeg, rightStart, rightEnd, rightUsed, prefix, suffix);
    ghost var trimmed := result;
    assert trimmed == Trim(f);
    if result.left == "" && result.right == "" {
      result := result.(prefix := left, suffix := "");
    }
    if result.left == "" && result.right != "" && |left| <= |right| && right[..|left|] == left {
      result := result.(prefix := left, suffix := "", right := right[|left|..]);
    }
  }

  // ---- when the split reconstructs its inputs ----

  predicate Reconstructs(d: Split, left: string, right: string) {
    left == d.prefix + d.left + d.suffix && right == d.prefix + d.right + d.suffix
  }

  function Whole(prefix: string, segs: seq<Segment>, used: bool, suffix: string): string
    requires segs != []
  {
    prefix + Remainder(segs, used) + suffix
  }

  /** What was matched and what remains make up both texts. */
  predicate Accounts(e: Ends, left: string, right: string)
    requires e.Nonempty()
  {
    left == Whole(e.prefix, e.left, e.leftUsed, e.suffix) &&
    right == Whole(e.prefix, e.right, e.rightUsed, e.suffix)
  }

  lemma FrontText(segs: seq<Segment>)
    requires segs != []
    ensures Text(segs) == Front(segs).value + Text(Tail(segs))
  {
  }

  lemma BackText(segs: seq<Segment>)
    requires segs != []
    ensures Text(segs) == Text(Init(segs)) + Back(segs).value
  {
    hide Text;
    TextOfConcat(Init(segs), [Back(segs)]);
    OneSegment(Back(segs));
    assert segs == Init(segs) + [Back(segs)];
  }

  lemma TextOfEnds(segs: seq<Segment>)
    requires segs != []
    ensures Text(segs) == Front(segs).value + Text(Tail(segs))
    ensures Text(segs) == Text(Init(segs)) + Back(segs).value
    ensures |segs| == 1 ==> Text(Init(segs)) == "" && Text(segs) == segs[0].value && Front(segs) == Back(segs) == segs[0]
    ensures |segs| > 1 ==> Tail(segs) != [] && Init(segs) != []
  {
    hide Text;
    FrontText(segs);
    BackText(segs);
    if |segs| == 1 {
      assert Init(segs) == [];
      NoSegments();
    }
  }

  lemma Moves(p: string, segs: seq<Segment>, s: string)
    requires segs != []
    ensures |segs| > 1 ==> Whole(p + Front(segs).value, Tail(segs), false, s) == Whole(p, segs, false, s)
    ensures |segs| > 1 ==> Whole(p, Init(segs), false, Back(segs).value + s) == Whole(p, segs, false, s)
    ensures |segs| == 1 ==> Whole(p + Front(segs).value, segs, true, s) == Whole(p, segs, false, s)
    ensures |segs| == 1 ==> Whole(p, segs, true, Back(segs).value + s) == Whole(p, segs, false, s)
  {
    hide Text, Front, Tail, Init, Back;
    TextOfEnds(segs);
    var f, b := Front(segs).value, Back(segs).value;
    assert p + f + Text(Tail(segs)) + s == p + (f + Text(Tail(segs))) + s;
    assert p + Text(Init(segs)) + (b + s) == p + (Text(Init(segs)) + b) + s;
    assert p + f + "" + s == p + f + s;
    assert p + "" + (b + s) == p + b + s;
  }

  lemma FrontAccounts(e: Ends, left: string, right: string)
    requires Open(e) && e.Unused() && Accounts(e, left, right)
    ensures MatchFront(e).Nonempty() && Accounts(MatchFront(e), left, right)
  {
    hide Whole;
    Moves(e.prefix, e.left, e.suffix);
    Moves(e.prefix, e.right, e.suffix);
  }

  lemma BackAccounts(e: Ends, left: string, right: string)
    requires e.Nonempty() && e.Unused() && Accounts(e, left, right)
    ensures MatchBack(e).Nonempty() && Accounts(MatchBack(e), left, right)
  {
    hide Whole;
    Moves(e.prefix, e.left, e.suffix);
    Moves(e.prefix, e.right, e.suffix);
  }

  /** A segment is used in the range only where it is alone there. */
  predicate UsedAlone(e: Ends) {
    (e.leftUsed ==> |e.left| == 1) && (e.rightUsed ==> |e.right| == 1)
  }

  lemma {:induction false} LoopAccounts(e: Ends, left: string, right: string)
    requires e.Nonempty() && e.Unused() && Accounts(e, left, right)
    ensures var e' := MatchEnds(e); Accounts(e', left, right) && UsedAlone(e')
    decreases |e.left| + |e.right|
  {
    hide Accounts;
    if Open(e) && !Stuck(e) {
      FrontAccounts(e, left, right);
      BackAccounts(MatchFront(e), left, right);
      var e' := MatchBoth(e);
      if e'.Unused() {
        LoopAccounts(e', left, right);
      }
    }
  }

  lemma SingleAccounts(e: Ends, left: string, right: string)
    requires e.Nonempty() && e.Unused() && Accounts(e, left, right)
    ensures Accounts(MatchSingle(e), left, right)
  {
    hide Whole;
    Moves(e.prefix, e.left, e.suffix);
    Moves(e.prefix, e.right, e.suffix);
  }

  lemma CutKeeps(e: Ends, l: string, r: string, prefixLen: nat, suffixLen: nat)
    requires prefixLen <= |l| - suffixLen && prefixLen <= |r| - suffixLen
    requires l[..prefixLen] == r[..prefixLen] && l[|l| - suffixLen..] == r[|r| - suffixLen..]
    ensures Reconstructs(Parts(e, l, r, prefixLen, suffixLen), e.prefix + l + e.suffix, e.prefix + r + e.suffix)
  {
    Around(e.prefix, l, e.suffix, prefixLen, |l| - suffixLen);
    Around(e.prefix, r, e.suffix, prefixLen, |r| - suffixLen);
  }

  lemma Around(p: string, s: string, q: string, i: nat, j: nat)
    requires i <= j <= |s|
    ensures p + s + q == (p + s[..i]) + s[i..j] + (s[j..] + q)
  {
    assert s == s[..i] + s[i..j] + s[j..];
    Regrouped(p, s[..i], s[i..j], s[j..], q);
  }

  lemma Regrouped(p: string, a: string, m: string, z: string, q: string)
    ensures p + (a + m + z) + q == (p + a) + m + (z + q)
  {
  }

  lemma SharedStart(l: string, r: string, n: nat)
    requires StartAlike(l, r, n)
    ensures l[..n] == r[..n]
  {
  }

  /** Trimming moves text between the parts only. */
  lemma TrimKeeps(e: Ends)
    requires e.Nonempty()
    ensures Reconstructs(Trim(e), Whole(e.prefix, e.left, e.leftUsed, e.suffix),
                                  Whole(e.prefix, e.right, e.rightUsed, e.suffix))
  {
    hide Remainder, Front, Back, StartAlike, EndAlike, Parts, Reconstructs, CommonPrefix, CommonSuffix;
    var l, r := Remainder(e.left, e.leftUsed), Remainder(e.right, e.rightUsed);
    var suffixLen := if Back(e.left).kind == TEXT && Back(e.right).kind == TEXT
                     then CommonSuffix(l, r) else 0;
    EndAlikeSize(l, r);
    var l', r' := l[..|l| - suffixLen], r[..|r| - suffixLen];
    var prefixLen := if Front(e.right).kind == TEXT && Front(e.left).kind == TEXT
                     then CommonPrefix(l', r') else 0;
    EndAlikeSize(l', r');
    if suffixLen > 0 {
      SharedEnd(l, r, suffixLen);
    }
    if prefixLen > 0 {
      SharedStart(l', r', prefixLen);
    }
    assert l'[..prefixLen] == l[..prefixLen] && r'[..prefixLen] == r[..prefixLen];
    CutKeeps(e, l, r, prefixLen, suffixLen);
  }

  lemma EndAlikeSize(l: string, r: string)
    ensures CommonSuffix(l, r) <= |l| && CommonSuffix(l, r) <= |r|
    ensures CommonPrefix(l, r) <= |l| && CommonPrefix(l, r) <= |r|
  {
  }

  lemma TidyReconstructs(d: Split, left: string, right: string)
    requires Reconstructs(d, left, right)
    ensures Reconstructs(Tidy(d, left, right), left, right)
  {
    if d.left == "" && d.right == "" {
      assert left + "" + "" == left;
    } else if d.left == "" && left <= right {
      assert left + "" + "" == left && left + right[|left|..] + "" == right;
    }
  }

  /** Two texts are put back together whenever the loop ends with no segment marked used. */
  lemma UnusedReconstructs(left: string, right: string)
    requires left != "" && right != "" ==> MatchEnds(Start(left, right)).Unused()
    ensures Reconstructs(Differ(left, right), left, right)
  {
    hide Segments, MatchEnds, MatchSingle, Trim, Tidy, Accounts;
    if left == "" || right == "" {
      EmptyReconstructs(left, right);
    } else {
      StartAccounts(left, right);
      var e := MatchEnds(Start(left, right));
      LoopAccounts(Start(left, right), left, right);
      SingleAccounts(e, left, right);
      AccountsReconstructs(MatchSingle(e), left, right);
    }
  }

  lemma AccountsReconstructs(e: Ends, left: string, right: string)
    requires e.Nonempty() && Accounts(e, left, right)
    ensures Reconstructs(Tidy(Trim(e), left, right), left, right)
  {
    hide Trim, Tidy, Reconstructs, Whole;
    TrimKeeps(e);
    TidyReconstructs(Trim(e), left, right);
  }

  lemma EmptyReconstructs(left: string, right: string)
    requires left == "" || right == ""
    ensures Reconstructs(Differ(left, right), left, right)
  {
    hide Trim, MatchEnds, MatchSingle, WellCut;
    SegmentsFaithful(left);
    SegmentsFaithful(right);
  }

  lemma StartAccounts(left: string, right: string)
    requires left != "" && right != ""
    ensures Start(left, right).Nonempty() && Accounts(Start(left, right), left, right)
  {
    hide WellCut, Segments;
    SegmentsFaithful(left);
    SegmentsFaithful(right);
    assert "" + left + "" == left && "" + right + "" == right;
  }
}
