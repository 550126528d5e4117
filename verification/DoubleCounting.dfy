/** When exactly a split fails to reconstruct its inputs: a segment counted at both ends. */
module DoubleCounting {
  import opened Wrappers
  import opened Segmentation
  import opened Affixes
  import opened DiffSplit

  /** The loop matches all of a in pairs: its first half starts b, its second half ends b. */
  predicate Swallows(b: seq<Segment>, a: seq<Segment>) {
    |a| > 0 && |a| % 2 == 0 && |a| <= |b| && AgreeEnds(b, a, |a| / 2)
  }

  /** The first n and the last n segments are the same. */
  predicate AgreeEnds(b: seq<Segment>, a: seq<Segment>, n: nat)
    requires n <= |a| && n <= |b|
  {
    a[..n] == b[..n] && a[|a| - n..] == b[|b| - n..]
  }

  /** What is left of b when n segments were matched at both ends. */
  function Middle(b: seq<Segment>, n: nat): seq<Segment>
    requires 1 <= n && 2 * n <= |b|
  {
    if |b| == 2 * n then [b[n]] else b[n..|b| - n]
  }

  function Begin(p: string, s: string, l: seq<Segment>, r: seq<Segment>): Ends {
    Ends(p, s, l, false, r, false)
  }

  lemma {:induction false} FrontsDiffer(p: string, s: string, l: seq<Segment>, r: seq<Segment>)
    requires l != [] && r != [] && l[0] != r[0]
    ensures MatchEnds(Begin(p, s, l, r)).Unused()
    decreases |l| + |r|
  {
    var e := Begin(p, s, l, r);
    if Open(e) && !Stuck(e) {
      var e' := MatchBoth(e);
      FrontsDiffer(p, e'.suffix, e'.left, e'.right);
    }
  }

  lemma {:induction false} BacksDiffer(p: string, s: string, l: seq<Segment>, r: seq<Segment>)
    requires l != [] && r != [] && Back(l) != Back(r)
    ensures MatchEnds(Begin(p, s, l, r)).Unused()
    decreases |l| + |r|
  {
    var e := Begin(p, s, l, r);
    if Open(e) && !Stuck(e) {
      var e' := MatchBoth(e);
      BacksDiffer(e'.prefix, s, e'.left, e'.right);
    }
  }

  /** One round that matches at both ends. */
  lemma MatchPair(p: string, s: string, l: seq<Segment>, r: seq<Segment>)
    requires |l| > 1 && |r| > 1 && l[0] == r[0] && Back(l) == Back(r)
    ensures MatchEnds(Begin(p, s, l, r)) == MatchEnds(MatchBoth(Begin(p, s, l, r)))
    ensures MatchBoth(Begin(p, s, l, r)) ==
      Ends(p + l[0].value, Back(l).value + s,
           if |l| > 2 then l[1..|l| - 1] else l[1..], |l| == 2,
           if |r| > 2 then r[1..|r| - 1] else r[1..], |r| == 2)
  {
    if |l| > 2 {
      assert Init(Tail(l)) == l[1..|l| - 1];
    }
    if |r| > 2 {
      assert Init(Tail(r)) == r[1..|r| - 1];
    }
  }

  lemma AgreeOuter(b: seq<Segment>, a: seq<Segment>, n: nat)
    requires 1 <= n <= |a| && n <= |b|
    ensures AgreeEnds(b, a, n) ==> a[0] == b[0] && Back(a) == Back(b)
    ensures n == 1 && a[0] == b[0] && Back(a) == Back(b) ==> AgreeEnds(b, a, n)
  {
    assert a[..n][0] == a[0] && b[..n][0] == b[0];
    assert a[|a| - n..][n - 1] == Back(a) && b[|b| - n..][n - 1] == Back(b);
  }

  /** Two sequences with ends added agree exactly when the ends and the rest agree. */
  lemma EndsAgree<T>(x: T, s: seq<T>, y: T, t: seq<T>)
    ensures [x] + s == [y] + t <==> x == y && s == t
    ensures s + [x] == t + [y] <==> x == y && s == t
  {
    if [x] + s == [y] + t {
      assert ([x] + s)[0] == ([y] + t)[0] && ([x] + s)[1..] == s && ([y] + t)[1..] == t;
    }
    if s + [x] == t + [y] {
      assert |s + [x]| == |t + [y]|;
      assert (s + [x])[|s|] == (t + [y])[|t|] && (s + [x])[..|s|] == s && (t + [y])[..|t|] == t;
    }
  }

  lemma Halves(b: seq<Segment>, n: nat)
    requires 1 <= n < |b|
    ensures b[..n] == [b[0]] + b[1..|b| - 1][..n - 1]
    ensures b[|b| - n..] == b[1..|b| - 1][|b| - 2 - (n - 1)..] + [Back(b)]
  {
  }

  lemma AgreeInner(b: seq<Segment>, a: seq<Segment>, n: nat)
    requires 1 <= n < |a| && n < |b|
    ensures AgreeEnds(b, a, n) <==>
      a[0] == b[0] && Back(a) == Back(b) && AgreeEnds(b[1..|b| - 1], a[1..|a| - 1], n - 1)
  {
    hide Back;
    var a', b' := a[1..|a| - 1], b[1..|b| - 1];
    Halves(a, n);
    Halves(b, n);
    EndsAgree(a[0], a'[..n - 1], b[0], b'[..n - 1]);
    EndsAgree(Back(a), a'[|a'| - (n - 1)..], Back(b), b'[|b'| - (n - 1)..]);
  }

  lemma InnerSwallows(b: seq<Segment>, a: seq<Segment>)
    requires |a| > 2 && |b| > 2
    ensures Swallows(b, a) <==>
      a[0] == b[0] && Back(a) == Back(b) && Swallows(b[1..|b| - 1], a[1..|a| - 1])
  {
    hide AgreeEnds, Back;
    if |a| % 2 == 0 && |a| <= |b| {
      AgreeInner(b, a, |a| / 2);
    }
  }

  lemma InnerMiddle(b: seq<Segment>, n: nat)
    requires 2 <= n && 2 * n <= |b|
    ensures Middle(b[1..|b| - 1], n - 1) == Middle(b, n)
    ensures b[1..|b| - 1][n - 1] == b[n]
  {
    if |b| > 2 * n {
      SliceOfSlice(b, 1, |b| - 1, n - 1, |b| - 1 - n);
    }
  }

  lemma SliceOfSlice<T>(s: seq<T>, lo: nat, hi: nat, i: nat, j: nat)
    requires lo <= hi <= |s| && i <= j <= hi - lo
    ensures s[lo..hi][i..j] == s[lo + i..lo + j]
  {
    var t := s[lo..hi];
    var u, v := t[i..j], s[lo + i..lo + j];
    assert |u| == |v|;
    forall k | 0 <= k < |u| ensures u[k] == v[k] {
      assert u[k] == t[i + k] && t[i + k] == s[lo + (i + k)] && v[k] == s[(lo + i) + k];
    }
  }

  lemma SmallSwallows(b: seq<Segment>, a: seq<Segment>)
    requires a != [] && b != []
    ensures |a| == 1 || (|b| <= 2 && |a| > |b|) ==> !Swallows(b, a)
    ensures |a| == 2 && |b| >= 2 ==> (Swallows(b, a) <==> a[0] == b[0] && Back(a) == Back(b))
    ensures |a| == 2 && |b| > 2 ==> Middle(b, 1) == b[1..|b| - 1]
    ensures |a| == 2 && |b| == 2 ==> Middle(b, 1) == b[1..]
  {
    if |a| == 2 && |b| >= 2 {
      AgreeOuter(b, a, 1);
    }
  }

  lemma SwallowsEnds(b: seq<Segment>, a: seq<Segment>)
    requires Swallows(b, a)
    ensures a[0] == b[0] && Back(a) == Back(b)
  {
    AgreeOuter(b, a, |a| / 2);
  }

  /** The flags and what is left when the loop ends, in closed form. */
  lemma {:induction false} LoopUses(p: string, s: string, l: seq<Segment>, r: seq<Segment>)
    requires l != [] && r != []
    ensures var e := MatchEnds(Begin(p, s, l, r));
      (e.leftUsed <==> Swallows(r, l)) && (e.rightUsed <==> Swallows(l, r)) &&
      (e.leftUsed ==> e.left == [l[|l| / 2]] && e.right == Middle(r, |l| / 2)) &&
      (e.rightUsed ==> e.right == [r[|r| / 2]] && e.left == Middle(l, |r| / 2))
    decreases |l| + |r|
  {
    hide AgreeEnds, Middle, MatchBoth;
    SmallSwallows(l, r);
    SmallSwallows(r, l);
    if Swallows(r, l) {
      SwallowsEnds(r, l);
    }
    if Swallows(l, r) {
      SwallowsEnds(l, r);
    }
    if l[0] != r[0] {
      FrontsDiffer(p, s, l, r);
    } else if Back(l) != Back(r) {
      BacksDiffer(p, s, l, r);
    } else if |l| > 1 && |r| > 1 {
      MatchPair(p, s, l, r);
      if |l| > 2 && |r| > 2 {
        InnerUses(p, s, l, r);
      }
    }
  }

  lemma InnerUses(p: string, s: string, l: seq<Segment>, r: seq<Segment>)
    requires |l| > 2 && |r| > 2 && l[0] == r[0] && Back(l) == Back(r)
    ensures var e := MatchEnds(Begin(p, s, l, r));
      (e.leftUsed <==> Swallows(r, l)) && (e.rightUsed <==> Swallows(l, r)) &&
      (e.leftUsed ==> e.left == [l[|l| / 2]] && e.right == Middle(r, |l| / 2)) &&
      (e.rightUsed ==> e.right == [r[|r| / 2]] && e.left == Middle(l, |r| / 2))
    decreases |l| + |r|, 0
  {
    hide AgreeEnds, Middle, MatchBoth, MatchEnds, Back;
    MatchPair(p, s, l, r);
    InnerSwallows(r, l);
    InnerSwallows(l, r);
    LoopUses(p + l[0].value, Back(l).value + s, l[1..|l| - 1], r[1..|r| - 1]);
    if Swallows(r, l) {
      InnerMiddle(r, |l| / 2);
      InnerMiddle(l, |l| / 2);
    }
    if Swallows(l, r) {
      InnerMiddle(l, |r| / 2);
      InnerMiddle(r, |r| / 2);
    }
  }

  // ---- the consequence for the whole function ----

  predicate NoneEmpty(segs: seq<Segment>) {
    forall i :: 0 <= i < |segs| ==> segs[i].value != ""
  }

  lemma {:induction false} WellCutNoneEmpty(segs: seq<Segment>)
    requires WellCut(segs)
    ensures NoneEmpty(segs)
  {
    if segs != [] {
      WellCutNoneEmpty(segs[1..]);
      assert forall i :: 0 < i < |segs| ==> segs[i] == segs[1..][i - 1];
    }
  }

  /** The segment a that was matched at the back of rest's neighbour matches rest again. */
  predicate MatchesAgain(a: Segment, rest: seq<Segment>)
    requires rest != []
  {
    if |rest| == 1 then a == rest[0] && a.kind == MARKER
    else a == rest[0] || a == Back(rest)
  }

  lemma TrimUsed(e: Ends)
    requires e.Nonempty()
    ensures e.leftUsed && |e.left| == 1 ==>
      Trim(e) == Split(e.prefix, e.suffix, "", Remainder(e.right, e.rightUsed))
    ensures e.rightUsed && |e.right| == 1 ==>
      Trim(e) == Split(e.prefix, e.suffix, Remainder(e.left, e.leftUsed), "")
  {
    hide CommonPrefix, CommonSuffix, Text, Parts, Front, Back;
    if (e.leftUsed && |e.left| == 1) || (e.rightUsed && |e.right| == 1) {
      NoText();
      var l, r := Remainder(e.left, e.leftUsed), Remainder(e.right, e.rightUsed);
      EndAlikeSize(l, r);
      assert l[..|l|] == l && r[..|r|] == r;
      assert Trim(e) == Parts(e, l, r, 0, 0);
      CutNothing(e, l, r);
    }
  }

  lemma CutNothing(e: Ends, l: string, r: string)
    ensures Parts(e, l, r, 0, 0) == Split(e.prefix, e.suffix, l, r)
  {
    assert l[..0] == "" && l[|l|..] == "" && l[0..|l|] == l && r[0..|r|] == r;
    assert e.prefix + "" == e.prefix && "" + e.suffix == e.suffix;
  }

  lemma NoText()
    ensures forall segs: seq<Segment> | |segs| == 0 :: Text(segs) == ""
  {
  }

  lemma TextNonempty(segs: seq<Segment>)
    requires segs != [] && NoneEmpty(segs)
    ensures Text(segs) != ""
  {
  }

  /** A text put together with a nonempty piece too many is another text. */
  lemma OneTooMany(d: Split, left: string, right: string, extra: string)
    requires extra != ""
    ensures d.left == "" && |d.prefix| + |d.suffix| == |left| + |extra| ==> !Reconstructs(d, left, right)
    ensures d.right == "" && |d.prefix| + |d.suffix| == |right| + |extra| ==> !Reconstructs(d, left, right)
  {
  }

  lemma UsedSize(e: Ends, left: string, right: string)
    requires e.Nonempty() && Accounts(e, left, right)
    ensures e.leftUsed && |e.left| == 1 ==> |left| == |e.prefix| + |e.suffix|
    ensures e.rightUsed && |e.right| == 1 ==> |right| == |e.prefix| + |e.suffix|
  {
    hide Text;
    NoText();
  }

  lemma StartsReconstructs(d: Split, left: string, right: string)
    requires d.left == "" && d.right != "" && left <= right
    ensures Reconstructs(Tidy(d, left, right), left, right)
  {
    assert left + "" + "" == left && left + right[|left|..] + "" == right;
  }

  /** One segment of left was matched at the back and is matched a second time. */
  lemma LeftTwice(e: Ends, left: string, right: string)
    requires e.leftUsed && !e.rightUsed && |e.left| == 1 && e.right != []
    requires NoneEmpty(e.left) && NoneEmpty(e.right) && Accounts(e, left, right)
    requires MatchesAgain(e.left[0], e.right)
    ensures Reconstructs(Tidy(Trim(MatchSingle(e)), left, right), left, right) <==>
      (|e.right| > 1 && left <= right)
  {
    hide Text, Accounts, Reconstructs, Trim, NoneEmpty;
    var e', x := MatchSingle(e), e.left[0].value;
    assert x != "" by { NonemptyAt(e.left, 0); }
    UsedSize(e, left, right);
    TrimUsed(e');
    var d := Trim(e');
    assert |d.prefix| + |d.suffix| == |left| + |x|;
    if |e.right| == 1 {
      assert d.right == "" by { NoText(); }
      OneMarkerMore(e, left, right);
    } else {
      assert d.right != "" by { RestNonempty(e.right); }
      OneTooMany(d, left, right, x);
      if left <= right {
        StartsReconstructs(d, left, right);
      }
    }
  }

  lemma NonemptyAt(segs: seq<Segment>, i: nat)
    requires NoneEmpty(segs) && i < |segs|
    ensures segs[i].value != ""
  {
  }

  lemma RestNonempty(segs: seq<Segment>)
    requires NoneEmpty(segs) && |segs| > 1
    ensures Text(Init(segs)) != "" && Text(Tail(segs)) != ""
  {
    TextNonempty(Init(segs));
    TextNonempty(Tail(segs));
  }

  /** Left is shown as all there is, but right has one marker more. */
  lemma OneMarkerMore(e: Ends, left: string, right: string)
    requires e.leftUsed && !e.rightUsed && |e.left| == 1 && |e.right| == 1
    requires NoneEmpty(e.right) && Accounts(e, left, right)
    ensures forall d: Split | d.left == "" && d.right == "" ::
      !Reconstructs(Tidy(d, left, right), left, right)
  {
    NonemptyAt(e.right, 0);
    OneSegment(e.right[0]);
    assert e.right == [e.right[0]];
  }

  lemma LeftAgain(e: Ends, left: string, right: string)
    requires e.leftUsed && !e.rightUsed && |e.left| == 1 && e.right != []
    requires NoneEmpty(e.left) && NoneEmpty(e.right) && Accounts(e, left, right)
    ensures Reconstructs(Tidy(Trim(MatchSingle(e)), left, right), left, right) <==>
      !(MatchesAgain(e.left[0], e.right) && (|e.right| > 1 ==> !(left <= right)))
  {
    if MatchesAgain(e.left[0], e.right) {
      LeftTwice(e, left, right);
    } else {
      assert MatchSingle(e) == e;
      AccountsReconstructs(e, left, right);
    }
  }

  /** One segment of right was matched at the back; nothing repairs a second match. */
  lemma RightAgain(e: Ends, left: string, right: string)
    requires e.rightUsed && !e.leftUsed && |e.right| == 1 && e.left != []
    requires NoneEmpty(e.left) && NoneEmpty(e.right) && Accounts(e, left, right)
    ensures Reconstructs(Tidy(Trim(MatchSingle(e)), left, right), left, right) <==>
      !MatchesAgain(e.right[0], e.left)
  {
    if MatchesAgain(e.right[0], e.left) {
      RightTwice(e, left, right);
    } else {
      assert MatchSingle(e) == e;
      AccountsReconstructs(e, left, right);
    }
  }

  lemma RightTwice(e: Ends, left: string, right: string)
    requires e.rightUsed && !e.leftUsed && |e.right| == 1 && e.left != []
    requires NoneEmpty(e.left) && NoneEmpty(e.right) && Accounts(e, left, right)
    requires MatchesAgain(e.right[0], e.left)
    ensures !Reconstructs(Tidy(Trim(MatchSingle(e)), left, right), left, right)
  {
    hide Text, Accounts, Reconstructs, Trim, NoneEmpty;
    var e', x := MatchSingle(e), e.right[0].value;
    assert x != "" by { NonemptyAt(e.right, 0); }
    UsedSize(e, left, right);
    TrimUsed(e');
    var d := Trim(e');
    assert |d.prefix| + |d.suffix| == |right| + |x|;
    if |e.left| == 1 {
      assert d.left == "" by { NoText(); }
      OneMarkerLess(e, left, right);
    } else {
      assert d.left != "" by { RestNonempty(e.left); }
      OneTooMany(d, left, right, x);
    }
  }

  lemma OneMarkerLess(e: Ends, left: string, right: string)
    requires e.rightUsed && !e.leftUsed && |e.left| == 1 && |e.right| == 1
    requires NoneEmpty(e.left) && Accounts(e, left, right)
    ensures forall d: Split | d.left == "" && d.right == "" ::
      !Reconstructs(Tidy(d, left, right), left, right)
  {
    NonemptyAt(e.left, 0);
    OneSegment(e.left[0]);
    assert e.left == [e.left[0]];
  }

  lemma BothUsed(e: Ends, left: string, right: string)
    requires e.leftUsed && e.rightUsed && |e.left| == 1 && |e.right| == 1
    requires Accounts(e, left, right)
    ensures left == right && Reconstructs(Tidy(Trim(MatchSingle(e)), left, right), left, right)
  {
    hide Text, Trim;
    NoText();
    TrimUsed(MatchSingle(e));
    assert left + "" + "" == left;
  }

  // ---- the exact condition ----

  /** Left's segments are matched in pairs inside a longer right, the last of them matches what is
      left of right once more, and right does not simply start with left. */
  predicate LeftCountedTwice(left: string, right: string) {
    var l, r := Segments(left), Segments(right);
    Swallows(r, l) && |r| > |l| && MatchesAgain(l[|l| / 2], r[|l| / 2..|r| - |l| / 2]) &&
    (|r| == |l| + 1 || !(left <= right))
  }

  predicate RightCountedTwice(left: string, right: string) {
    var l, r := Segments(left), Segments(right);
    Swallows(l, r) && |l| > |r| && MatchesAgain(r[|r| / 2], l[|r| / 2..|l| - |r| / 2])
  }

  /** The split puts both texts back together exactly when no segment is counted twice. */
  lemma ReconstructsExactly(left: string, right: string)
    ensures Reconstructs(Differ(left, right), left, right) <==>
      !LeftCountedTwice(left, right) && !RightCountedTwice(left, right)
  {
    hide Segments, MatchEnds, MatchSingle, Trim, Tidy, Accounts, Reconstructs, AgreeEnds, WellCut, MatchesAgain;
    SegmentsFaithful(left);
    SegmentsFaithful(right);
    if left == "" || right == "" {
      EmptyReconstructs(left, right);
      EmptyNotSwallowed(left, right);
    } else {
      NonemptyExactly(left, right);
    }
  }

  lemma EmptyNotSwallowed(left: string, right: string)
    requires left == "" || right == ""
    ensures !Swallows(Segments(right), Segments(left)) && !Swallows(Segments(left), Segments(right))
  {
  }

  lemma SameSizeSwallows(b: seq<Segment>, a: seq<Segment>)
    requires |a| == |b|
    ensures Swallows(b, a) <==> Swallows(a, b)
  {
  }

  lemma NonemptyExactly(left: string, right: string)
    requires left != "" && right != ""
    ensures Reconstructs(Differ(left, right), left, right) <==>
      !LeftCountedTwice(left, right) && !RightCountedTwice(left, right)
  {
    hide Segments, MatchEnds, MatchSingle, Trim, Tidy, Accounts, Reconstructs, AgreeEnds, WellCut, MatchesAgain, NoneEmpty;
    var l, r := Segments(left), Segments(right);
    StartAccounts(left, right);
    var e := MatchEnds(Start(left, right));
    LoopAccounts(Start(left, right), left, right);
    LoopUses("", "", l, r);
    if |l| == |r| {
      SameSizeSwallows(r, l);
    }
    if e.leftUsed {
      PartsNoneEmpty(right, left);
      if e.rightUsed {
        BothUsed(e, left, right);
      } else {
        LeftAgain(e, left, right);
      }
    } else if e.rightUsed {
      PartsNoneEmpty(left, right);
      RightAgain(e, left, right);
    } else {
      UnusedReconstructs(left, right);
    }
  }

  lemma PartsNoneEmpty(longer: string, swallowed: string)
    requires Swallows(Segments(longer), Segments(swallowed))
    ensures var b, a := Segments(longer), Segments(swallowed);
      NoneEmpty([a[|a| / 2]]) && NoneEmpty(Middle(b, |a| / 2))
  {
    hide Segments, AgreeEnds, WellCut;
    SegmentsFaithful(longer);
    SegmentsFaithful(swallowed);
    WellCutNoneEmpty(Segments(longer));
    WellCutNoneEmpty(Segments(swallowed));
  }

  // ---- consequences ----

  predicate Distinct(segs: seq<Segment>) {
    forall i, j :: 0 <= i < j < |segs| ==> segs[i] != segs[j]
  }

  /** Only a text that repeats a segment can be split wrongly. */
  lemma DistinctReconstructs(left: string, right: string)
    requires Distinct(Segments(left)) && Distinct(Segments(right))
    ensures Reconstructs(Differ(left, right), left, right)
  {
    hide Segments, Differ, Reconstructs, Swallows;
    ReconstructsExactly(left, right);
    var l, r := Segments(left), Segments(right);
    if Swallows(r, l) && |r| > |l| {
      DistinctOnce(r, l);
    }
    if Swallows(l, r) && |l| > |r| {
      DistinctOnce(l, r);
    }
  }

  lemma DistinctOnce(b: seq<Segment>, a: seq<Segment>)
    requires Swallows(b, a) && |b| > |a| && Distinct(b)
    ensures !MatchesAgain(a[|a| / 2], b[|a| / 2..|b| - |a| / 2])
  {
    var half := |a| / 2;
    assert a[half..][0] == a[half] && b[|b| - half..][0] == b[|b| - half];
    var rest := b[half..|b| - half];
    assert rest[0] == b[half] && Back(rest) == b[|b| - half - 1];
  }

  lemma {:induction false} SameEnds(p: string, s: string, l: seq<Segment>)
    requires l != []
    ensures var e := MatchEnds(Begin(p, s, l, l));
      e.left == e.right && |e.left| == 1 && e.leftUsed == e.rightUsed
    decreases |l|
  {
    if |l| > 1 {
      hide MatchEnds;
      MatchPair(p, s, l, l);
      var e := MatchBoth(Begin(p, s, l, l));
      if |l| == 2 {
        Done(e);
      } else {
        SameEnds(e.prefix, e.suffix, e.left);
      }
    }
  }

  /** Equal texts are shown as having no difference. */
  lemma EqualTexts(s: string)
    ensures Differ(s, s) == Split(s, "", "", "")
  {
    hide Segments, MatchEnds, Text, CommonPrefix, CommonSuffix;
    SegmentsFaithful(s);
    if Segments(s) == [] {
      NoText();
    } else {
      SameEnds("", "", Segments(s));
      var e := MatchEnds(Start(s, s));
      var e' := MatchSingle(e);
      if e'.leftUsed {
        TrimUsed(e');
        NoText();
      } else {
        var x := Text(e.left);
        CommonSuffixIs(x, x, |x|);
        assert x[..0] == "";
        EndAlikeSize(x[..0], x[..0]);
      }
    }
  }

  lemma Trimmed(l: string, r: string)
    ensures var n := CommonSuffix(l, r);
      n <= |l| && n <= |r| &&
      var l', r' := l[..|l| - n], r[..|r| - n];
      var m := CommonPrefix(l', r');
      m <= |l'| && m <= |r'| &&
      (m < |l'| && m < |r'| ==> l'[m] != r'[m] && l'[|l'| - 1] != r'[|r'| - 1])
  {
    hide CommonSuffix, CommonPrefix, EndAlike, StartAlike;
    EndAlikeSize(l, r);
    var n := CommonSuffix(l, r);
    EndAlikeSize(l[..|l| - n], r[..|r| - n]);
    assert n < |l| && n < |r| ==> FromEnd(l, n) != FromEnd(r, n);
  }

  lemma TrimPlain(left: string, right: string)
    ensures var e := Begin("", "", [Segment(TEXT, left)], [Segment(TEXT, right)]);
      var d := Trim(e);
      MatchEnds(e) == e && MatchSingle(e) == e &&
      (d.left != "" && d.right != "" ==>
        d.left[0] != d.right[0] && d.left[|d.left| - 1] != d.right[|d.right| - 1])
  {
    hide Text, CommonPrefix, CommonSuffix, PrefixStops, SuffixStops;
    OneSegment(Segment(TEXT, left));
    OneSegment(Segment(TEXT, right));
    Trimmed(left, right);
  }

  /** Between plain texts the split is as short as can be: what differs has neither its first nor
      its last character in common. */
  lemma PlainTexts(left: string, right: string)
    requires NoOpener(left) && NoOpener(right)
    ensures var d := Differ(left, right);
      Reconstructs(d, left, right) &&
      (d.left != "" && d.right != "" ==>
        d.left[0] != d.right[0] && d.left[|d.left| - 1] != d.right[|d.right| - 1])
  {
    hide Reconstructs, Trim, MatchEnds, MatchSingle;
    if left == "" || right == "" {
      EmptyReconstructs(left, right);
      assert Segments("") == [];
    } else {
      hide Segments;
      LastText(left, false, left[0]);
      LastText(right, false, right[0]);
      TrimPlain(left, right);
      UnusedReconstructs(left, right);
    }
  }

  /** "<a><b>" against "<a><b><b>" is shown as no difference at all. */
  lemma MissedDifference()
    ensures Differ("<a><b>", "<a><b><b>") == Split("<a><b>", "", "", "")
    ensures !Reconstructs(Differ("<a><b>", "<a><b><b>"), "<a><b>", "<a><b><b>")
  {
    hide Segments, IsMarker, MatchEnds, Text, WellCut, MatchBoth;
    var a, b := Segment(MARKER, "<a>"), Segment(MARKER, "<b>");
    SmallMarkers();
    OneSegment(b);
    MoreSegments(b, [b]);
    MoreSegments(a, [b]);
    MoreSegments(a, [b, b]);
    assert [b] + [b] == [b, b] && [a] + [b] == [a, b] && [a] + [b, b] == [a, b, b];
    assert "<a>" + "<b>" == "<a><b>" && "<b>" + "<b>" == "<b><b>" && "<a>" + "<b><b>" == "<a><b><b>";
    SegmentsUnique([a, b]);
    SegmentsUnique([a, b, b]);
    MatchPair("", "", [a, b], [a, b, b]);
    assert [a, b][1..] == [b] && [a, b, b][1..2] == [b];
    var e := Ends("<a>", "<b>", [b], true, [b], false);
    assert MatchBoth(Start("<a><b>", "<a><b><b>")) == e;
    Done(e);
    var e' := Ends("<a><b>", "<b>", [b], true, [b], true);
    assert MatchSingle(e) == e';
    TrimUsed(e');
    NoText();
    assert Init([b]) == [];
    assert Trim(e') == Split("<a><b>", "<b>", "", "");
  }

  lemma SmallMarkers()
    ensures IsMarker("<a>") && IsMarker("<b>")
  {
  }
}
