/** The split of two texts written out in their segments: what is shared at both ends, and what is shown. */
module SegmentSplits {
  import opened Wrappers
  import opened Segmentation
  import opened Affixes
  import opened DiffSplit
  import opened DoubleCounting

  /** The first i and the last j segments are the same, and there are others between on both sides. */
  predicate Matched(l: seq<Segment>, r: seq<Segment>, i: nat, j: nat) {
    && i + j < |l| && i + j < |r|
    && l[..i] == r[..i] && l[|l| - j..] == r[|r| - j..]
  }

  function Last(segs: seq<Segment>, k: nat): Segment
    requires k < |segs|
  {
    segs[|segs| - 1 - k]
  }

  /** No more than these are the same, at either end. */
  predicate Apart(l: seq<Segment>, r: seq<Segment>, i: nat, j: nat) {
    Matched(l, r, i, j) && l[i] != r[i] && Last(l, j) != Last(r, j)
  }

  function Between(segs: seq<Segment>, i: nat, j: nat): seq<Segment>
    requires i + j < |segs|
  {
    segs[i..|segs| - j]
  }

  predicate BothText(a: Segment, b: Segment) {
    a.kind == TEXT && b.kind == TEXT
  }

  predicate StartSame(u: string, v: string) {
    u != "" && v != "" && u[0] == v[0]
  }

  predicate EndSame(u: string, v: string) {
    u != "" && v != "" && u[|u| - 1] == v[|v| - 1]
  }

  /** u and v without all that they share at the end, if that counts, and then at the start, if that counts. */
  predicate Shortened(u: string, v: string, atStart: bool, atEnd: bool, x: string, y: string, du: string, dv: string) {
    && u == x + du + y && v == x + dv + y
    && (if atEnd then !EndSame(x + du, x + dv) else y == "")
    && (if atStart then !StartSame(du, dv) else x == "")
  }

  // ---- the loop ----

  function Stopped(p: string, s: string, l: seq<Segment>, r: seq<Segment>, i: nat, j: nat): Ends
    requires Matched(l, r, i, j)
  {
    Ends(p + Text(l[..i]), Text(l[|l| - j..]) + s, Between(l, i, j), false, Between(r, i, j), false)
  }

  lemma {:induction false} LoopMatches(p: string, s: string, l: seq<Segment>, r: seq<Segment>)
    returns (i: nat, j: nat)
    requires l != [] && r != []
    ensures var e := MatchEnds(Begin(p, s, l, r));
      e.Unused() ==> Matched(l, r, i, j) && e == Stopped(p, s, l, r, i, j) && (Open(e) ==> Stuck(e))
    decreases |l| + |r|
  {
    hide Text, Front, Back, Tail, Init, MatchBoth, Matched, Stopped, Between;
    var e := Begin(p, s, l, r);
    i, j := 0, 0;
    if !Open(e) || Stuck(e) {
      NothingMatched(p, s, l, r);
      Done(e);
    } else {
      var e', f, b := MatchBoth(e), if Front(l) == Front(r) then 1 else 0, if Back(l) == Back(r) then 1 else 0;
      Round(e, f, b);
      if e'.Unused() {
        i, j := LoopMatches(e'.prefix, e'.suffix, e'.left, e'.right);
        if MatchEnds(e').Unused() {
          RoundBefore(p, s, l, r, f, b, i, j);
        }
        i, j := i + f, j + b;
      } else {
        Done(e');
      }
    }
  }

  lemma NothingMatched(p: string, s: string, l: seq<Segment>, r: seq<Segment>)
    requires l != [] && r != []
    ensures Matched(l, r, 0, 0) && Stopped(p, s, l, r, 0, 0) == Begin(p, s, l, r)
  {
    hide Text;
    NoText();
    assert l[..0] == [] && l[|l|..] == [] && Between(l, 0, 0) == l && Between(r, 0, 0) == r;
  }

  lemma TakenAtFront(e: Ends, f: nat)
    requires Open(e) && e.Unused() && f == if Front(e.left) == Front(e.right) then 1 else 0
    ensures MatchFront(e) == Begin(e.prefix + Text(e.left[..f]), e.suffix, e.left[f..], e.right[f..])
    ensures Back(e.left[f..]) == Back(e.left) && Back(e.right[f..]) == Back(e.right)
  {
    hide Text;
    NoText();
    OneSegment(Front(e.left));
    assert f == 1 ==> e.left[..f] == [Front(e.left)];
    assert f == 0 ==> e.left[..f] == [] && e.prefix + "" == e.prefix && e.left[f..] == e.left && e.right[f..] == e.right;
  }

  lemma TakenAtBack(e: Ends, b: nat)
    requires e.Nonempty() && e.Unused() && b == if Back(e.left) == Back(e.right) then 1 else 0
    ensures if b < |e.left| && b < |e.right| then
        MatchBack(e) == Begin(e.prefix, Text(e.left[|e.left| - b..]) + e.suffix, e.left[..|e.left| - b], e.right[..|e.right| - b])
      else !MatchBack(e).Unused() && !Open(MatchBack(e))
  {
    hide Text;
    NoText();
    OneSegment(Back(e.left));
    assert b == 1 ==> e.left[|e.left| - b..] == [Back(e.left)];
    assert b == 0 ==> e.left[|e.left| - b..] == [] && "" + e.suffix == e.suffix;
    assert b == 0 ==> e.left[..|e.left| - b] == e.left && e.right[..|e.right| - b] == e.right;
  }

  /** One round takes a segment off each end where both sides have the same. */
  lemma Round(e: Ends, f: nat, b: nat)
    requires Open(e) && !Stuck(e) && e.Unused()
    requires f == (if Front(e.left) == Front(e.right) then 1 else 0) && b == (if Back(e.left) == Back(e.right) then 1 else 0)
    ensures var e' := MatchBoth(e);
      if e'.Unused() then
        && Matched(e.left, e.right, f, b)
        && e' == Begin(e.prefix + Text(e.left[..f]), Text(e.left[|e.left| - b..]) + e.suffix,
                       Between(e.left, f, b), Between(e.right, f, b))
      else !Open(e')
  {
    hide Text, MatchFront, MatchBack, Front, Back, Between, Matched;
    TakenAtFront(e, f);
    TakenAtBack(MatchFront(e), b);
    if f + b < |e.left| && f + b < |e.right| {
      RestOfRest(e.left, f, b);
      RestOfRest(e.right, f, b);
      OneMatched(e.left, e.right, f, b);
    }
  }

  lemma RestOfRest(l: seq<Segment>, f: nat, b: nat)
    requires f + b < |l|
    ensures |l[f..]| == |l| - f && l[f..][..|l| - f - b] == Between(l, f, b) && l[f..][|l| - f - b..] == l[|l| - b..]
  {
  }

  lemma OneMatched(l: seq<Segment>, r: seq<Segment>, f: nat, b: nat)
    requires f + b < |l| && f + b < |r| && f <= 1 && b <= 1
    requires (f == 1 ==> Front(l) == Front(r)) && (b == 1 ==> Back(l) == Back(r))
    ensures Matched(l, r, f, b)
  {
  }

  lemma RoundBefore(p: string, s: string, l: seq<Segment>, r: seq<Segment>, f: nat, b: nat, i: nat, j: nat)
    requires Matched(l, r, f, b) && Matched(Between(l, f, b), Between(r, f, b), i, j)
    ensures Matched(l, r, f + i, b + j)
    ensures Stopped(p + Text(l[..f]), Text(l[|l| - b..]) + s, Between(l, f, b), Between(r, f, b), i, j)
         == Stopped(p, s, l, r, f + i, b + j)
  {
    hide Text;
    EndsOfBetween(l, f, b, i, j);
    EndsOfBetween(r, f, b, i, j);
    TextOfConcat(l[..f], Between(l, f, b)[..i]);
    TextOfConcat(Between(l, f, b)[|l| - f - b - j..], l[|l| - b..]);
    var t, u := Text(Between(l, f, b)[..i]), Text(Between(l, f, b)[|l| - f - b - j..]);
    assert (p + Text(l[..f])) + t == p + (Text(l[..f]) + t);
    assert u + (Text(l[|l| - b..]) + s) == (u + Text(l[|l| - b..])) + s;
  }

  lemma EndsOfBetween(l: seq<Segment>, f: nat, b: nat, i: nat, j: nat)
    requires f + i + b + j < |l|
    ensures l[..f + i] == l[..f] + Between(l, f, b)[..i]
    ensures l[|l| - (b + j)..] == Between(l, f, b)[|l| - f - b - j..] + l[|l| - b..]
    ensures Between(Between(l, f, b), i, j) == Between(l, f + i, b + j)
  {
    SliceOfSlice(l, f, |l| - b, i, |l| - f - b - j);
  }

  // ---- what is shown ----

  lemma TrimShortens(e: Ends) returns (x: string, y: string, du: string, dv: string)
    requires e.Nonempty() && e.Unused()
    ensures Shortened(Text(e.left), Text(e.right), BothText(Front(e.left), Front(e.right)), BothText(Back(e.left), Back(e.right)),
                      x, y, du, dv)
    ensures Trim(e) == Split(e.prefix + x, y + e.suffix, du, dv)
  {
    hide Text, Front, Back, CommonPrefix, CommonSuffix, StartAlike, EndAlike, Shortened;
    var u, v := Text(e.left), Text(e.right);
    var n := if BothText(Back(e.left), Back(e.right)) then CommonSuffix(u, v) else 0;
    EndAlikeSize(u, v);
    var u', v' := u[..|u| - n], v[..|v| - n];
    var m := if BothText(Front(e.left), Front(e.right)) then CommonPrefix(u', v') else 0;
    EndAlikeSize(u', v');
    x, y, du, dv := u[..m], u[|u| - n..], u[m..|u| - n], v[m..|v| - n];
    CutShortens(u, v, BothText(Front(e.left), Front(e.right)), BothText(Back(e.left), Back(e.right)), m, n);
  }

  lemma CutShortens(u: string, v: string, atStart: bool, atEnd: bool, m: nat, n: nat)
    requires n <= |u| && n <= |v| && n == (if atEnd then CommonSuffix(u, v) else 0)
    requires m == (if atStart then CommonPrefix(u[..|u| - n], v[..|v| - n]) else 0)
    requires m + n <= |u| && m + n <= |v|
    ensures Shortened(u, v, atStart, atEnd, u[..m], u[|u| - n..], u[m..|u| - n], v[m..|v| - n])
  {
    hide CommonPrefix, CommonSuffix, StartAlike, EndAlike, StartSame, EndSame;
    var u', v' := u[..|u| - n], v[..|v| - n];
    EndCut(u, v, n);
    StartCut(u', v', m);
    CutParts(u, m, n);
    CutParts(v, m, n);
    assert v[|v| - n..] == u[|u| - n..] && v'[..m] == u'[..m];
  }

  lemma CutParts(u: string, m: nat, n: nat)
    requires m + n <= |u|
    ensures var u' := u[..|u| - n]; u'[..m] == u[..m] && u'[m..] == u[m..|u| - n] && u' == u[..m] + u[m..|u| - n]
    ensures u == u[..m] + u[m..|u| - n] + u[|u| - n..]
  {
  }

  lemma EndCut(u: string, v: string, n: nat)
    requires n == 0 || n == CommonSuffix(u, v)
    ensures n <= |u| && n <= |v| && u[|u| - n..] == v[|v| - n..]
    ensures n == CommonSuffix(u, v) ==> !EndSame(u[..|u| - n], v[..|v| - n])
  {
    hide CommonSuffix;
    SharedEnd(u, v, n);
    if n < |u| && n < |v| {
      assert n == CommonSuffix(u, v) ==> FromEnd(u, n) != FromEnd(v, n);
    }
  }

  lemma StartCut(u: string, v: string, m: nat)
    requires m == 0 || m == CommonPrefix(u, v)
    ensures m <= |u| && m <= |v| && u[..m] == v[..m]
    ensures m == CommonPrefix(u, v) ==> !StartSame(u[m..], v[m..])
  {
    hide CommonPrefix;
  }

  /** A stretch of well cut segments is well cut. */
  lemma {:induction false} PartWellCut(segs: seq<Segment>, i: nat, j: nat)
    requires WellCut(segs) && i + j < |segs|
    ensures WellCut(Between(segs, i, j))
    decreases |segs|
  {
    if i > 0 {
      PartWellCut(segs[1..], i - 1, j);
      assert Between(segs[1..], i - 1, j) == Between(segs, i, j);
    } else if j < |segs| - 1 {
      PartWellCut(segs[1..], 0, j);
      assert Between(segs, 0, j)[1..] == Between(segs[1..], 0, j);
    } else {
      assert Between(segs, 0, j)[1..] == [];
    }
  }

  lemma SomethingDiffers(left: string, right: string, i: nat, j: nat)
    requires Apart(Segments(left), Segments(right), i, j)
    ensures Text(Between(Segments(left), i, j)) != Text(Between(Segments(right), i, j))
  {
    hide Segments, WellCut, Text;
    var l, r := Segments(left), Segments(right);
    SegmentsFaithful(left);
    SegmentsFaithful(right);
    PartWellCut(l, i, j);
    PartWellCut(r, i, j);
    SegmentsUnique(Between(l, i, j));
    SegmentsUnique(Between(r, i, j));
    assert Between(l, i, j)[0] == l[i] && Between(r, i, j)[0] == r[i];
  }

  lemma SameSegments(l: seq<Segment>, r: seq<Segment>, m: nat, n: nat)
    requires m <= |l| && m <= |r| && n <= |l| && n <= |r| && l[..m] == r[..m] && l[|l| - n..] == r[|r| - n..]
    ensures forall k: nat :: k < m ==> l[k] == r[k]
    ensures forall k: nat :: k < n ==> Last(l, k) == Last(r, k)
  {
    forall k: nat | k < m ensures l[k] == r[k] {
      assert l[..m][k] == r[..m][k];
    }
    forall k: nat | k < n ensures Last(l, k) == Last(r, k) {
      assert l[|l| - n..][n - 1 - k] == r[|r| - n..][n - 1 - k];
    }
  }

  lemma ApartStops(p: string, s: string, l: seq<Segment>, r: seq<Segment>, i: nat, j: nat)
    requires Apart(l, r, i, j)
    ensures MatchEnds(Begin(p, s, l, r)) == Stopped(p, s, l, r, i, j)
  {
    hide MatchEnds, Text, Swallows, Last;
    LoopUses(p, s, l, r);
    NotSwallowed(l, r, i, j);
    var f, b := LoopMatches(p, s, l, r);
    SameSegments(l, r, i, j);
    SameSegments(l, r, f, b);
    WhereStopped(p, s, l, r, f, b);
  }

  lemma WhereStopped(p: string, s: string, l: seq<Segment>, r: seq<Segment>, f: nat, b: nat)
    requires Matched(l, r, f, b)
    ensures var e := Stopped(p, s, l, r, f, b);
      && (Open(e) <==> f + b + 1 < |l| && f + b + 1 < |r|)
      && Front(e.left) == l[f] && Front(e.right) == r[f] && Back(e.left) == Last(l, b) && Back(e.right) == Last(r, b)
  {
    hide Text;
  }

  lemma NotSwallowed(l: seq<Segment>, r: seq<Segment>, i: nat, j: nat)
    requires Apart(l, r, i, j)
    ensures !Swallows(l, r) && !Swallows(r, l)
  {
    hide Last;
    if Swallows(l, r) {
      SameSegments(l, r, |r| / 2, |r| / 2);
    }
    if Swallows(r, l) {
      SameSegments(r, l, |l| / 2, |l| / 2);
    }
  }

  /** Where the segments of two texts come apart at both ends, the difference is what lies between, without
      the characters that text at its ends shares; only a left text that the right one starts with is shown
      as a whole. */
  lemma DifferenceShown(left: string, right: string, i: nat, j: nat) returns (x: string, y: string, dl: string, dr: string)
    requires Apart(Segments(left), Segments(right), i, j)
    ensures var l, r := Segments(left), Segments(right);
      && Shortened(Text(Between(l, i, j)), Text(Between(r, i, j)),
                   BothText(l[i], r[i]), BothText(Last(l, j), Last(r, j)), x, y, dl, dr)
      && (dl != "" || dr != "")
      && Differ(left, right) ==
           if dl == "" && left <= right then Split(left, "", "", right[|left|..])
           else Split(Text(l[..i]) + x, y + Text(l[|l| - j..]), dl, dr)
  {
    hide Segments, Text, Trim, MatchEnds, Shortened;
    var l, r := Segments(left), Segments(right);
    ApartStops("", "", l, r, i, j);
    var e := Stopped("", "", l, r, i, j);
    assert e.prefix == Text(l[..i]) && e.suffix == Text(l[|l| - j..]);
    x, y, dl, dr := TrimShortens(e);
    SomethingDiffers(left, right, i, j);
    ShortenedDiffers(Text(e.left), Text(e.right), BothText(l[i], r[i]), BothText(Last(l, j), Last(r, j)), x, y, dl, dr);
    assert Front(e.left) == l[i] && Front(e.right) == r[i];
    assert Back(e.left) == Last(l, j) && Back(e.right) == Last(r, j);
    assert MatchSingle(e) == e;
  }

  lemma ShortenedDiffers(u: string, v: string, atStart: bool, atEnd: bool, x: string, y: string, du: string, dv: string)
    requires Shortened(u, v, atStart, atEnd, x, y, du, dv) && u != v
    ensures du != "" || dv != ""
  {
  }

  lemma EqualSingles(e: Ends)
    requires e.Unused() && |e.left| == 1 && e.right == e.left && Front(e.left).kind == TEXT
    ensures Trim(e).left == "" && Trim(e).right == ""
  {
    hide Text, Trim;
    var x, y, du, dv := TrimShortens(e);
    assert x + du + y == x + dv + y;
    assert |du| == |dv| && du == (x + du + y)[|x|..|x| + |du|] && dv == (x + dv + y)[|x|..|x| + |dv|];
  }

  /** A single segment that was used, or that is at an end of the other side, leaves nothing to show. */
  lemma SingleLeft(e: Ends)
    requires |e.left| == 1 && e.right != [] && (e.rightUsed ==> e.leftUsed && |e.right| == 1)
    requires e.leftUsed || Front(e.left) == Front(e.right) || Back(e.left) == Back(e.right)
    ensures Trim(MatchSingle(e)).left == ""
  {
    hide Text, Trim;
    TrimUsed(MatchSingle(e));
    if !MatchSingle(e).leftUsed {
      EqualSingles(e);
    }
  }

  lemma SingleRight(e: Ends)
    requires |e.right| == 1 && e.left != [] && (e.leftUsed ==> e.rightUsed && |e.left| == 1)
    requires e.rightUsed || Front(e.left) == Front(e.right) || Back(e.left) == Back(e.right)
    ensures Trim(MatchSingle(e)).right == ""
  {
    hide Text, Trim;
    TrimUsed(MatchSingle(e));
    if !MatchSingle(e).rightUsed {
      EqualSingles(e);
    }
  }

  predicate Meet(l: seq<Segment>, r: seq<Segment>) {
    forall i, j :: 0 <= i < |l| && 0 <= j < |l| ==> !Apart(l, r, i, j)
  }

  /** The side with no more segments ends as a single one that is found on the other. */
  lemma LastSingle(l: seq<Segment>, r: seq<Segment>)
    requires l != [] && r != [] && Meet(l, r)
    ensures var e := MatchEnds(Begin("", "", l, r));
      && e.left != [] && e.right != []
      && (|l| <= |r| ==> |e.left| == 1 && (e.rightUsed ==> e.leftUsed && |e.right| == 1))
      && (|l| >= |r| ==> |e.right| == 1 && (e.leftUsed ==> e.rightUsed && |e.left| == 1))
      && (!e.Unused() || Front(e.left) == Front(e.right) || Back(e.left) == Back(e.right))
  {
    hide MatchEnds, Text, AgreeEnds, Last, Front, Back;
    LoopUses("", "", l, r);
    if |l| == |r| {
      SameSizeSwallows(l, r);
    }
    var e := MatchEnds(Begin("", "", l, r));
    var f, b := LoopMatches("", "", l, r);
    if e.Unused() {
      WhereStopped("", "", l, r, f, b);
      assert !Apart(l, r, f, b);
    }
  }

  /** Where the segments do not come apart, nothing is shown of a side that has no more of them than the other. */
  lemma NothingShown(left: string, right: string)
    requires Meet(Segments(left), Segments(right))
    ensures |Segments(left)| <= |Segments(right)| ==> Differ(left, right).left == ""
    ensures |Segments(left)| >= |Segments(right)| ==> Differ(left, right).right == ""
  {
    hide Segments, Text, Trim, MatchEnds, MatchSingle, WellCut, Meet;
    SegmentsFaithful(left);
    SegmentsFaithful(right);
    NoText();
    var l, r := Segments(left), Segments(right);
    if l != [] && r != [] {
      LastSingle(l, r);
      var e := MatchEnds(Start(left, right));
      if |l| <= |r| {
        SingleLeft(e);
      }
      if |l| >= |r| {
        SingleRight(e);
      }
    }
  }

  /** Text that the two sides share at a border is never shown as a difference, whatever the texts. */
  lemma BordersDiffer(left: string, right: string) returns (i: nat, j: nat)
    requires Differ(left, right).left != "" && Differ(left, right).right != ""
    ensures var l, r, d := Segments(left), Segments(right), Differ(left, right);
      && Apart(l, r, i, j)
      && (BothText(l[i], r[i]) ==> !StartSame(d.left, d.right))
      && (BothText(Last(l, j), Last(r, j)) ==> !EndSame(d.left, d.right))
  {
    hide Segments, Differ, Apart, Last, Text;
    var l, r := Segments(left), Segments(right);
    if Meet(l, r) {
      NothingShown(left, right);
      assert false;
    }
    i, j :| 0 <= i < |l| && 0 <= j < |l| && Apart(l, r, i, j);
    var x, y, dl, dr := DifferenceShown(left, right, i, j);
    assert dl == Differ(left, right).left && dr == Differ(left, right).right;
    assert dl != "" && dr != "" ==> (x + dl)[|x + dl| - 1] == dl[|dl| - 1] && (x + dr)[|x + dr| - 1] == dr[|dr| - 1];
  }
}
