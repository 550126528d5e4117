/** Splitting a rendered template into markers such as <tag> or [tag] and the text between them. */
module Segmentation {
  import opened Wrappers

  datatype SegmentType = TEXT | MARKER

  datatype Segment = Segment(kind: SegmentType, value: string)

  predicate IsOpener(c: char) {
    c == '<' || c == '['
  }

  predicate Closes(opener: char, c: char) {
    (opener == '<' && c == '>') || (opener == '[' && c == ']')
  }

  function Text(segs: seq<Segment>): string {
    if segs == [] then [] else segs[0].value + Text(segs[1..])
  }

  predicate NoOpener(s: string) {
    forall i :: 0 <= i < |s| ==> !IsOpener(s[i])
  }

  /** s starts a marker that is not closed inside s. */
  predicate Unclosed(s: string) {
    s != [] && IsOpener(s[0]) && forall i :: 0 < i < |s| ==> !Closes(s[0], s[i])
  }

  /** s is one whole marker: an opener, and its first matching closer at the very end. */
  predicate IsMarker(s: string) {
    |s| >= 2 && Unclosed(s[..|s| - 1]) && Closes(s[0], s[|s| - 1])
  }

  function FirstOpener(s: string): (n: nat)
    ensures n <= |s| && NoOpener(s[..n]) && (n < |s| ==> IsOpener(s[n]))
  {
    if s == [] || IsOpener(s[0]) then 0
    else
      var n := 1 + FirstOpener(s[1..]);
      assert forall i :: 0 < i < n ==> s[i] == s[1..][i - 1];
      n
  }

  /** Position of the closer of the marker that s starts, searched from n on. */
  function CloserFrom(s: string, n: nat): (r: Option<nat>)
    requires 0 < n <= |s| && Unclosed(s[..n])
    ensures r.None? <==> Unclosed(s)
    ensures r.Some? ==> n <= r.value < |s| && IsMarker(s[..r.value + 1])
    decreases |s| - n
  {
    if n == |s| then
      assert s[..n] == s;
      None
    else if Closes(s[0], s[n]) then
      assert s[..n + 1][..n] == s[..n];
      Some(n)
    else CloserFrom(s, n + 1)
  }

  /** The segments of a text: a whole marker where one starts here, all of the text where a marker
      starts but never ends, and otherwise the text up to the next opener. */
  function Segments(s: string): (segs: seq<Segment>)
    decreases |s|
  {
    if s == [] then []
    else if IsOpener(s[0]) then
      match CloserFrom(s, 1)
      case None => [Segment(TEXT, s)]
      case Some(n) => [Segment(MARKER, s[..n + 1])] + Segments(s[n + 1..])
    else
      var n := FirstOpener(s);
      [Segment(TEXT, s[..n])] + Segments(s[n..])
  }

  /** The scanning loop: one flag, the current opener, and the border up to which segments were cut. */
  method SegmentizeMarkers(text: string) returns (retval: seq<Segment>)
    ensures retval == Segments(text)
  {
    hide Segments, Unclosed, NoOpener, IsOpener, Closes;
    retval := [];
    var inMarker, markerOpener := false, '\0';
    var lastBorder := 0;
    assert text[0..] == text && text[0..0] == [];
    ScanStarts();
    for curPos := 0 to |text|
      invariant lastBorder <= curPos
      invariant retval + Segments(text[lastBorder..]) == Segments(text)
      invariant Scanning(text[lastBorder..curPos], inMarker, markerOpener)
    {
      ghost var before := retval;
      ScanStep(text, lastBorder, curPos, inMarker, markerOpener);
      if !inMarker && IsOpener(text[curPos]) {
        if lastBorder < curPos {
          retval := retval + [Segment(TEXT, text[lastBorder..curPos])];
        }
        Appended(before, Cut(text[lastBorder..curPos], TEXT), Segments(text[curPos..]), Segments(text));
        lastBorder := curPos;
        inMarker := true;
        markerOpener := text[curPos];
      } else if inMarker && Closes(markerOpener, text[curPos]) {
        retval := retval + [Segment(MARKER, text[lastBorder..curPos + 1])];
        Appended(before, [Segment(MARKER, text[lastBorder..curPos + 1])], Segments(text[curPos + 1..]), Segments(text));
        lastBorder := curPos + 1;
        inMarker := false;
        markerOpener := '\0';
      }
    }
    assert text[lastBorder..|text|] == text[lastBorder..];
    LastText(text[lastBorder..], inMarker, markerOpener);
    if lastBorder < |text| {
      retval := retval + [Segment(TEXT, text[lastBorder..])];
    }
  }

  function Cut(s: string, kind: SegmentType): seq<Segment> {
    if s == [] then [] else [Segment(kind, s)]
  }

  lemma Appended(before: seq<Segment>, cut: seq<Segment>, rest: seq<Segment>, all: seq<Segment>)
    requires before + (cut + rest) == all
    ensures before + cut + rest == all
    ensures cut == [] ==> before + rest == all
  {
    assert before + (cut + rest) == before + cut + rest;
    assert cut == [] ==> cut + rest == rest;
  }

  /** What the loop knows about the part that is not cut yet. */
  ghost predicate Scanning(part: string, inMarker: bool, markerOpener: char) {
    if inMarker then Unclosed(part) && markerOpener == part[0] else NoOpener(part)
  }

  lemma ScanStarts()
    ensures Scanning([], false, '\0')
  {
  }

  lemma ScanStep(text: string, lastBorder: nat, curPos: nat, inMarker: bool, markerOpener: char)
    requires lastBorder <= curPos < |text| && Scanning(text[lastBorder..curPos], inMarker, markerOpener)
    ensures !inMarker && IsOpener(text[curPos]) ==>
      && Segments(text[lastBorder..]) == Cut(text[lastBorder..curPos], TEXT) + Segments(text[curPos..])
      && Scanning(text[curPos..curPos + 1], true, text[curPos])
    ensures inMarker && Closes(markerOpener, text[curPos]) ==>
      && Segments(text[lastBorder..]) == [Segment(MARKER, text[lastBorder..curPos + 1])] + Segments(text[curPos + 1..])
      && Scanning(text[curPos + 1..curPos + 1], false, '\0')
    ensures !(!inMarker && IsOpener(text[curPos])) && !(inMarker && Closes(markerOpener, text[curPos])) ==>
      Scanning(text[lastBorder..curPos + 1], inMarker, markerOpener)
  {
    hide Segments;
    var rest, n := text[lastBorder..], curPos - lastBorder;
    assert rest[..n] == text[lastBorder..curPos] && rest[n..] == text[curPos..];
    assert text[lastBorder..curPos + 1] == text[lastBorder..curPos] + [text[curPos]];
    if !inMarker && IsOpener(text[curPos]) {
      TextEnds(rest, n);
    } else if inMarker && Closes(markerOpener, text[curPos]) {
      assert rest[n + 1..] == text[curPos + 1..] && rest[..n + 1] == text[lastBorder..curPos + 1];
      assert rest[0] == rest[..n][0];
      MarkerEnds(rest, n);
    }
  }

  lemma FirstOpenerIs(s: string, n: nat)
    requires n <= |s| && NoOpener(s[..n]) && (n < |s| ==> IsOpener(s[n]))
    ensures FirstOpener(s) == n
  {
    var m := FirstOpener(s);
    forall i | 0 <= i < n ensures !IsOpener(s[i]) {
      assert !IsOpener(s[..n][i]);
    }
    forall i | 0 <= i < m ensures !IsOpener(s[i]) {
      assert !IsOpener(s[..m][i]);
    }
  }

  lemma TextEnds(s: string, n: nat)
    requires n < |s| && NoOpener(s[..n]) && IsOpener(s[n])
    ensures Segments(s) == Cut(s[..n], TEXT) + Segments(s[n..])
  {
    if n > 0 {
      assert !IsOpener(s[..n][0]);
      FirstOpenerIs(s, n);
    } else {
      assert s[0..] == s;
    }
  }

  lemma MarkerEnds(s: string, n: nat)
    requires 0 < n < |s| && Unclosed(s[..n]) && Closes(s[0], s[n])
    ensures Segments(s) == [Segment(MARKER, s[..n + 1])] + Segments(s[n + 1..])
  {
    CloserIs(s, 1, n);
  }

  lemma {:induction false} CloserIs(s: string, from: nat, n: nat)
    requires 0 < from <= n < |s| && Unclosed(s[..n]) && Closes(s[0], s[n])
    ensures Unclosed(s[..from]) && CloserFrom(s, from) == Some(n)
    decreases n - from
  {
    if from < n {
      assert !Closes(s[..n][0], s[..n][from]);
      CloserIs(s, from + 1, n);
    }
  }

  lemma LastText(s: string, inMarker: bool, markerOpener: char)
    requires Scanning(s, inMarker, markerOpener)
    ensures Segments(s) == Cut(s, TEXT)
  {
    if s != [] && !inMarker {
      FirstOpenerIs(s, |s|);
      assert s[..|s|] == s;
    }
  }

  // ---- what a segmentation is ----

  predicate StartsMarker(seg: Segment) {
    seg.value != [] && IsOpener(seg.value[0])
  }

  /** Markers are whole markers. Text is not empty, has no opener and runs up to the next opener,
      except that the last text may be a marker that is never closed. */
  predicate WellCut(segs: seq<Segment>) {
    segs == [] ||
    (WellCut(segs[1..]) &&
     match segs[0].kind
     case MARKER => IsMarker(segs[0].value)
     case TEXT =>
       segs[0].value != [] &&
       if |segs| == 1 then NoOpener(segs[0].value) || Unclosed(segs[0].value)
       else NoOpener(segs[0].value) && StartsMarker(segs[1]))
  }

  lemma NoSegments()
    ensures Text([]) == "" && WellCut([])
  {
  }

  lemma OpenerUnclosed(s: string)
    requires s != [] && IsOpener(s[0])
    ensures Unclosed(s[..1])
  {
  }

  lemma OneSegment(seg: Segment)
    ensures Text([seg]) == seg.value
    ensures WellCut([seg]) <==>
      match seg.kind
      case MARKER => IsMarker(seg.value)
      case TEXT => seg.value != [] && (NoOpener(seg.value) || Unclosed(seg.value))
  {
    assert [seg][1..] == [] && seg.value + [] == seg.value;
  }

  lemma MoreSegments(seg: Segment, segs: seq<Segment>)
    ensures Text([seg] + segs) == seg.value + Text(segs)
    ensures segs != [] ==>
      (WellCut([seg] + segs) <==>
       WellCut(segs) &&
       match seg.kind
       case MARKER => IsMarker(seg.value)
       case TEXT => seg.value != [] && NoOpener(seg.value) && StartsMarker(segs[0]))
    ensures segs == [] ==> [seg] + segs == [seg]
  {
    assert ([seg] + segs)[1..] == segs;
  }

  /** The segments are well cut and concatenate to the text. */
  lemma {:induction false} SegmentsFaithful(s: string)
    ensures Text(Segments(s)) == s && WellCut(Segments(s))
    decreases |s|
  {
    hide Segments, CloserFrom, FirstOpener, WellCut, Text, IsMarker, Unclosed, NoOpener, StartsMarker;
    NoSegments();
    SegmentsCases(s);
    if s != [] && IsOpener(s[0]) {
      OpenerUnclosed(s);
      match CloserFrom(s, 1)
      case None =>
        OneSegment(Segment(TEXT, s));
      case Some(n) =>
        var rest := s[n + 1..];
        SegmentsFaithful(rest);
        MoreSegments(Segment(MARKER, s[..n + 1]), Segments(rest));
        OneSegment(Segment(MARKER, s[..n + 1]));
        assert s[..n + 1] + rest == s;
    } else if s != [] {
      var n := FirstOpener(s);
      var rest := s[n..];
      SegmentsFaithful(rest);
      MoreSegments(Segment(TEXT, s[..n]), Segments(rest));
      assert s[..n] + rest == s;
      if n < |s| {
        StartsWithMarker(rest);
      } else {
        SegmentsCases(rest);
        OneSegment(Segment(TEXT, s[..n]));
      }
    }
  }

  lemma SegmentsCases(s: string)
    ensures s == [] ==> Segments(s) == []
    ensures s != [] && !IsOpener(s[0]) ==>
      FirstOpener(s) > 0 && Segments(s) == [Segment(TEXT, s[..FirstOpener(s)])] + Segments(s[FirstOpener(s)..])
    ensures s != [] && IsOpener(s[0]) ==>
      Unclosed(s[..1]) &&
      Segments(s) == match CloserFrom(s, 1)
        case None => [Segment(TEXT, s)]
        case Some(n) => [Segment(MARKER, s[..n + 1])] + Segments(s[n + 1..])
  {
    if s != [] && IsOpener(s[0]) {
      OpenerUnclosed(s);
    }
  }

  lemma StartsWithMarker(s: string)
    requires s != [] && IsOpener(s[0])
    ensures Segments(s) != [] && StartsMarker(Segments(s)[0])
  {
  }

  /** Conversely there is no other way to cut a text well. */
  lemma {:induction false} SegmentsUnique(segs: seq<Segment>)
    requires WellCut(segs)
    ensures Segments(Text(segs)) == segs
  {
    hide Segments, NoOpener, Unclosed;
    if segs == [] {
      LastText([], false, '\0') by { ScanStarts(); }
    } else {
      var v, rest := segs[0].value, segs[1..];
      SegmentsUnique(rest);
      var s := v + Text(rest);
      assert segs == [segs[0]] + rest;
      if segs[0].kind == MARKER {
        var n := |v| - 1;
        assert s[..n] == v[..n] && s[..n + 1] == v && s[n + 1..] == Text(rest);
        assert s[0] == v[0] && s[n] == v[n];
        MarkerEnds(s, n);
      } else if |segs| == 1 {
        assert Text(rest) == [] && s == v;
        LastText(v, !NoOpener(v), v[0]);
      } else {
        var n := |v|;
        assert s[..n] == v && s[n..] == Text(rest);
        assert Text(rest) == rest[0].value + Text(rest[1..]);
        assert s[n] == rest[0].value[0];
        TextEnds(s, n);
      }
    }
  }

  /** A marker segmented again is that marker alone. */
  lemma MarkerAlone(s: string, i: nat)
    requires i < |Segments(s)| && Segments(s)[i].kind == MARKER
    ensures Segments(Segments(s)[i].value) == [Segments(s)[i]]
  {
    SegmentsFaithful(s);
    PartsWellCut(Segments(s), i);
    var seg := Segments(s)[i];
    assert WellCut([seg]);
    assert seg.value + [] == seg.value && Text([seg]) == seg.value;
    SegmentsUnique([seg]);
  }

  lemma {:induction false} PartsWellCut(segs: seq<Segment>, i: nat)
    requires WellCut(segs) && i < |segs|
    ensures segs[i].value != []
    ensures segs[i].kind == MARKER ==> IsMarker(segs[i].value)
  {
    if i > 0 {
      PartsWellCut(segs[1..], i - 1);
    }
  }

  lemma {:induction false} TextOfConcat(a: seq<Segment>, b: seq<Segment>)
    ensures Text(a + b) == Text(a) + Text(b)
  {
    if a == [] {
      assert a + b == b;
    } else {
      TextOfConcat(a[1..], b);
      assert (a + b)[1..] == a[1..] + b;
      assert a[0].value + (Text(a[1..]) + Text(b)) == Text(a) + Text(b);
    }
  }

  // ---- the cut written out ----

  predicate IsBetween(v: string, opener: char, closer: char) {
    |v| >= 2 && v[0] == opener && v[|v| - 1] == closer && forall i :: 0 < i < |v| - 1 ==> v[i] != closer
  }

  predicate IsCutOff(v: string, opener: char, closer: char) {
    v != "" && v[0] == opener && closer !in v
  }

  predicate BeginsMarker(v: string) {
    v != "" && (v[0] == '<' || v[0] == '[')
  }

  /** Segment i: a marker up to its first closer; or text without markers, up to the next of them; or at the very
      end a marker that is never closed. */
  predicate SegmentIs(segs: seq<Segment>, i: int)
    requires 0 <= i < |segs|
  {
    var v := segs[i].value;
    if segs[i].kind == MARKER then IsBetween(v, '<', '>') || IsBetween(v, '[', ']')
    else
      || (v != "" && '<' !in v && '[' !in v && (i == |segs| - 1 || BeginsMarker(segs[i + 1].value)))
      || (i == |segs| - 1 && (IsCutOff(v, '<', '>') || IsCutOff(v, '[', ']')))
  }

  lemma {:induction false} WellCutIs(segs: seq<Segment>)
    ensures WellCut(segs) <==> forall i :: 0 <= i < |segs| ==> SegmentIs(segs, i)
  {
    hide SegmentIs;
    if segs != [] {
      WellCutIs(segs[1..]);
      forall i | 0 <= i < |segs| - 1 ensures SegmentIs(segs[1..], i) <==> SegmentIs(segs, i + 1) {
        SameSegment(segs, i);
      }
      assert forall i :: 1 <= i < |segs| ==> (SegmentIs(segs, i) <==> SegmentIs(segs[1..], i - 1));
      if WellCut(segs[1..]) {
        FirstIs(segs);
      }
    }
  }

  lemma SameSegment(segs: seq<Segment>, i: int)
    requires 0 <= i < |segs| - 1
    ensures SegmentIs(segs[1..], i) <==> SegmentIs(segs, i + 1)
  {
    hide IsBetween, IsCutOff, BeginsMarker;
  }

  lemma FirstIs(segs: seq<Segment>)
    requires segs != [] && WellCut(segs[1..])
    ensures WellCut(segs) <==> SegmentIs(segs, 0)
  {
  }

  /** The segments of a text are the only ones of this kind that make it up. */
  lemma SegmentsWritten(s: string, segs: seq<Segment>)
    ensures Segments(s) == segs <==> Text(segs) == s && forall i :: 0 <= i < |segs| ==> SegmentIs(segs, i)
  {
    hide Segments, WellCut, SegmentIs;
    SegmentsFaithful(s);
    WellCutIs(segs);
    if WellCut(segs) {
      SegmentsUnique(segs);
    }
  }
}
