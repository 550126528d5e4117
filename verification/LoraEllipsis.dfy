/** An ellipsis in a tuple index: when the factors give what torch gives. */
module LoraEllipsis {
  import opened Wrappers
  import opened Tensors
  import opened Lora
  import opened LoraIndexing
  import opened LoraTuples
  import opened LoraLists

  function FullSlices(n: nat): (r: seq<Ix>)
    ensures |r| == n && forall i :: 0 <= i < n ==> r[i] == EVERYTHING
  {
    seq(n, _ => EVERYTHING)
  }

  /** before + [...] + after as __getitem__ expands it: one full slice for every other component. */
  function ExpandEllipsis(before: seq<Ix>, after: seq<Ix>): seq<Ix> {
    if after == [] then before else before + FullSlices(|before| + |after|) + after
  }

  /** The same components as torch reads them on n axes: as many full slices as fill the tuple. */
  function TorchEllipsis(before: seq<Ix>, after: seq<Ix>, n: nat): (full: seq<Ix>)
    requires |before| + |after| <= n
    ensures |full| == n
  {
    before + FullSlices(n - |before| - |after|) + after
  }

  /** t[before, ..., after] on the factors gives what torch gives on the product. */
  ghost predicate EllipsisFaithful(m: Factors, before: seq<Ix>, after: seq<Ix>)
    requires Denotable(m)
  {
    var n, r := |m.a.shape|, TorchTuple(m, ExpandEllipsis(before, after));
    && |before| + |after| <= n && r.Some? && Denotable(r.value)
    && TorchIndex(Dense(m), TorchEllipsis(before, after, n)) == Some(Dense(r.value))
  }

  ghost predicate EllipsisFaithfulForAll(l: Factors, before: seq<Ix>, after: seq<Ix>)
    requires Denotable(l)
  {
    forall m :: SameFactorShapes(l, m) ==> Denotable(m) && EllipsisFaithful(m, before, after)
  }

  // ---- counting what is written ----

  lemma {:induction false} CountsBelow(a: seq<Ix>, b: seq<Ix>, k: nat)
    requires k <= |b|
    ensures ListsBelow(a + b, |a| + k) == Lists(a) + ListsBelow(b, k)
    ensures KeptBelow(a + b, |a| + k) == KeptBelow(a, |a|) + KeptBelow(b, k)
  {
    if k > 0 {
      CountsBelow(a, b, k - 1);
      assert (a + b)[|a| + k - 1] == b[k - 1];
    } else {
      SameCounts(a + b, a, |a|);
    }
  }

  lemma CountsConcat(a: seq<Ix>, b: seq<Ix>)
    ensures Lists(a + b) == Lists(a) + Lists(b)
    ensures KeptBelow(a + b, |a + b|) == KeptBelow(a, |a|) + KeptBelow(b, |b|)
  {
    CountsBelow(a, b, |b|);
  }

  lemma {:induction false} FullCounts(xs: seq<Ix>, k: nat)
    requires k <= |xs| && forall i :: 0 <= i < |xs| ==> xs[i] == EVERYTHING
    ensures ListsBelow(xs, k) == 0 && KeptBelow(xs, k) == k
  {
    if k > 0 {
      FullCounts(xs, k - 1);
    }
  }

  /** Full slices before and behind the last components do not change the counts. */
  lemma SameWritten(before: seq<Ix>, after: seq<Ix>, n: nat)
    requires |before| + |after| <= n && |ExpandEllipsis(before, after)| <= n
    ensures var got, want := Pad(ExpandEllipsis(before, after), n), TorchEllipsis(before, after, n);
      |got| == |want| == n && Lists(got) == Lists(want) && KeptBelow(got, n) == KeptBelow(want, n)
  {
    hide Lists, KeptBelow;
    var k := |before| + |after|;
    var got, want, fill := Pad(ExpandEllipsis(before, after), n), TorchEllipsis(before, after, n), FullSlices(n - k);
    FillCounts(n - k);
    CountsConcat(before, fill);
    CountsConcat(before + fill, after);
    if after == [] {
      assert got == want;
    } else {
      FillCounts(k);
      FillCounts(n - 2 * k);
      CountsConcat(before, FullSlices(k));
      CountsConcat(before + FullSlices(k), after);
      CountsConcat(before + FullSlices(k) + after, FullSlices(n - 2 * k));
      assert got == before + FullSlices(k) + after + FullSlices(n - 2 * k);
    }
  }

  lemma FillCounts(n: nat)
    ensures Lists(FullSlices(n)) == 0 && KeptBelow(FullSlices(n), n) == n
  {
    FullCounts(FullSlices(n), n);
  }

  // ---- factors that count on B ----

  /** Factors m whose B counts axis i, and what a selection makes of them. */
  ghost predicate CountedOnB(m: Factors, m': Factors, s: Selection, i: nat) {
    && Denotable(m) && Denotable(m') && Rank(m') == Rank(m) && i < |s.lead| == |m.a.shape| - 2
    && m.a == Constant(m.a.shape) && m.b == Counting(m.b.shape, i)
    && Fits(s.OnA(Rank(m)), m.a.shape) && Fits(s.OnB(Rank(m)), m.b.shape)
    && m' == Factors(Select(m.a, s.OnA(Rank(m))), Select(m.b, s.OnB(Rank(m))))
    && Shape(m') == KeptShape(s.OnProduct()) && s.lead[i].Keep?
  }

  lemma CountedOnBTerm(m: Factors, m': Factors, s: Selection, i: nat, idx: seq<nat>, k: nat)
    requires CountedOnB(m, m', s, i) && Within(Shape(m'), idx) && k < Rank(m')
    ensures var x := KeptIndex(s.OnProduct(), i);
      x < |idx| && idx[x] < |s.lead[i].ps| && Term(m', idx, k) == s.lead[i].ps[idx[x]] as real
  {
    hide Size, At, Make, Dense, KeptShape, Expand, Ravel;
    TermIndices(m', idx, k);
    var ib := IndexB(idx, k);
    LeadKept(s, Rank(m), i, |idx|);
    ExpandAt(s.OnB(Rank(m)), m.b.shape, ib, i);
    assert At(m'.a, IndexA(m'.a.shape, idx, k)) == 1.0;
  }

  /** The leading axes of B and of the product are the same. */
  lemma LeadKept(s: Selection, rank: nat, i: nat, n: nat)
    requires i < |s.lead| && s.lead[i].Keep? && n == |KeptShape(s.OnProduct())|
    ensures s.OnB(rank)[i] == s.OnProduct()[i] == s.lead[i]
    ensures KeptIndex(s.OnB(rank), i) == KeptIndex(s.OnProduct(), i) < n - 2
  {
    hide KeptShape;
    assert s.OnB(rank)[..i] == s.lead[..i] && s.OnProduct()[..i] == s.lead[..i];
    KeptAxisSize(s.lead, i);
    KeptTwo(s.lead, s.rows, s.columns);
  }

  lemma CountedOnBEntry(m: Factors, m': Factors, s: Selection, i: nat, idx: seq<nat>)
    requires CountedOnB(m, m', s, i) && Within(Shape(m'), idx)
    ensures var x := KeptIndex(s.OnProduct(), i);
      x < |idx| && idx[x] < |s.lead[i].ps| && At(Dense(m'), idx) == Times(Rank(m) as real, s.lead[i].ps[idx[x]] as real)
  {
    hide Size, At, Make, KeptShape, Term, Fits, Select, Constant, Counting;
    LeadKept(s, Rank(m), i, |idx|);
    var x := KeptIndex(s.OnProduct(), i);
    assert idx[x] < |s.lead[i].ps| by { KeptAxisSize(s.OnProduct(), i); }
    forall k: nat | k < Rank(m') ensures Term(m', idx, k) == s.lead[i].ps[idx[x]] as real {
      CountedOnBTerm(m, m', s, i, idx, k);
    }
    EqualTerms(m', idx, s.lead[i].ps[idx[x]] as real, Rank(m'));
  }

  // ---- when the factors give what torch gives ----

  /** The factors give something else than a selection of the product. */
  ghost predicate Misread(m: Factors, ixs: seq<Ix>, sw: seq<Sel>) {
    && Denotable(m) && Fits(sw, Shape(m)) && IndexTuple(m, ixs).Some? && Denotable(IndexTuple(m, ixs).value)
    && Select(Dense(m), sw) != Dense(IndexTuple(m, ixs).value)
  }

  lemma ReadByA(l: Factors, m': Factors, s: Selection, i: nat, sw: seq<Sel>, idx: seq<nat>)
    requires Denotable(l) && Rank(l) > 0 && i < |l.a.shape| - 2 && Counted(Showing(l, i, true), m', s, i)
    requires Fits(sw, Shape(l)) && Within(Shape(m'), idx) && Within(KeptShape(sw), idx)
    requires Select(Dense(Showing(l, i, true)), sw) == Dense(m')
    ensures sw[i].Keep? ==> KeptIndex(sw, i) < |idx| && idx[KeptIndex(sw, i)] < |sw[i].ps|
    ensures KeptIndex(s.OnProduct(), i) < |idx|
    ensures SourceAt(sw[i], idx, KeptIndex(sw, i)) == idx[KeptIndex(s.OnProduct(), i)]
  {
    hide Size, At, Make, Dense, KeptShape, Showing, Select, Fits, Counted, KeptIndex, SourceAt, Times;
    CountedShape(Showing(l, i, true), m', s, i);
    ShowsSelected(l, i, true, sw, idx);
    CountedEntry(Showing(l, i, true), m', s, i, idx);
    CountedTimes(Rank(l), idx, KeptIndex(s.OnProduct(), i));
    SameTimes(Rank(l), SourceAt(sw[i], idx, KeptIndex(sw, i)), idx[KeptIndex(s.OnProduct(), i)]);
  }

  lemma ReadByB(l: Factors, m': Factors, s: Selection, i: nat, sw: seq<Sel>, idx: seq<nat>)
    requires Denotable(l) && Rank(l) > 0 && i < |l.a.shape| - 2 && CountedOnB(Showing(l, i, false), m', s, i)
    requires Fits(sw, Shape(l)) && Within(Shape(m'), idx) && Within(KeptShape(sw), idx)
    requires Select(Dense(Showing(l, i, false)), sw) == Dense(m')
    ensures sw[i].Keep? ==> KeptIndex(sw, i) < |idx| && idx[KeptIndex(sw, i)] < |sw[i].ps|
    ensures var x := KeptIndex(s.OnProduct(), i);
      x < |idx| && idx[x] < |s.lead[i].ps| && SourceAt(sw[i], idx, KeptIndex(sw, i)) == s.lead[i].ps[idx[x]]
  {
    hide Size, At, Make, Dense, KeptShape, Showing, Select, Fits, KeptIndex, SourceAt, Times;
    ShowsSelected(l, i, false, sw, idx);
    CountedOnBEntry(Showing(l, i, false), m', s, i, idx);
    SameTimes(Rank(l), SourceAt(sw[i], idx, KeptIndex(sw, i)), s.lead[i].ps[idx[KeptIndex(s.OnProduct(), i)]]);
  }

  lemma SameTimes(rank: nat, x: nat, y: nat)
    requires rank > 0 && Times(rank as real, x as real) == Times(rank as real, y as real)
    ensures x == y
  {
    if x != y {
      Apart(rank, x, y);
    }
  }

  /** A leading component that is not harmless cannot give any selection of the product for all factors:
      those that count on A show that its axis is kept as it is, those that count on B that it is not. */
  lemma NoOtherReading(l: Factors, ixs: seq<Ix>, i: nat, sw: seq<Sel>)
    requires Denotable(l) && IndexTuple(l, ixs).Some? && !Pad(ixs, |l.a.shape|)[|l.a.shape| - 2].One?
    requires |Pad(ixs, |l.a.shape|)| == |l.a.shape| && AllFit(l, Pad(ixs, |l.a.shape|)) && i < |l.a.shape| - 2
    requires !Harmless(Pad(ixs, |l.a.shape|)[i], l.a.shape[i], l.b.shape[i])
    requires Rank(l) > 0 && 0 !in Shape(IndexTuple(l, ixs).value)
    requires Fits(sw, Shape(l)) && KeptShape(sw) == Shape(IndexTuple(l, ixs).value)
    ensures Misread(Showing(l, i, true), ixs, sw) || Misread(Showing(l, i, false), ixs, sw)
  {
    hide Size, At, Make, Dense, Pad, IndexTuple, TupleSelection, KeptShape, Showing, Select, Expand, ResolveAll,
      Harmless, Fitting, Fits, Counted, CountedOnB, KeptIndex, SourceAt;
    var full, byA, byB := Pad(ixs, |l.a.shape|), Showing(l, i, true), Showing(l, i, false);
    var s := TupleSelection(l, full);
    var ps, p := MovedPosition(l, full, i);
    BothCounted(l, ixs, i);
    TupleParts(l, ixs);
    var a', b' := IndexTuple(byA, ixs).value, IndexTuple(byB, ixs).value;
    var idx := MovedIndex(s, i, p);
    if Select(Dense(byA), sw) == Dense(a') && Select(Dense(byB), sw) == Dense(b') {
      ReadByA(l, a', s, i, sw, idx);
      ReadByB(l, b', s, i, sw, idx);
    }
  }

  lemma BothCounted(l: Factors, ixs: seq<Ix>, i: nat)
    requires Denotable(l) && IndexTuple(l, ixs).Some? && !Pad(ixs, |l.a.shape|)[|l.a.shape| - 2].One?
    requires |Pad(ixs, |l.a.shape|)| == |l.a.shape| && AllFit(l, Pad(ixs, |l.a.shape|)) && i < |l.a.shape| - 2
    requires !Harmless(Pad(ixs, |l.a.shape|)[i], l.a.shape[i], l.b.shape[i])
    ensures forall byA :: var m := Showing(l, i, byA);
      IndexTuple(m, ixs).Some? && Denotable(IndexTuple(m, ixs).value) && Shape(IndexTuple(m, ixs).value) == Shape(IndexTuple(l, ixs).value)
    ensures var s := TupleSelection(l, Pad(ixs, |l.a.shape|));
      && Counted(Showing(l, i, true), IndexTuple(Showing(l, i, true), ixs).value, s, i)
      && CountedOnB(Showing(l, i, false), IndexTuple(Showing(l, i, false), ixs).value, s, i)
  {
    hide Size, At, Make, Dense, Pad, IndexTuple, TupleSelection, KeptShape, Showing, Select, Harmless, Fitting, Fits, Counted, CountedOnB;
    IsCounted(l, ixs, i);
    IsCountedOnB(l, ixs, i);
    forall byA ensures var m := Showing(l, i, byA);
      IndexTuple(m, ixs).Some? && Denotable(IndexTuple(m, ixs).value) && Shape(IndexTuple(m, ixs).value) == Shape(IndexTuple(l, ixs).value)
    {
      SameAcceptance(l, Showing(l, i, byA), ixs);
      IndexTupleCommutes(Showing(l, i, byA), ixs);
    }
  }

  /** An index of the result that is p on the axis of a leading selection and 0 elsewhere. */
  lemma MovedIndex(s: Selection, i: nat, p: nat) returns (idx: seq<nat>)
    requires i < |s.lead| && s.lead[i].Keep? && p < |s.lead[i].ps| && 0 !in KeptShape(s.OnProduct())
    ensures Within(KeptShape(s.OnProduct()), idx)
    ensures KeptIndex(s.OnProduct(), i) < |idx| && idx[KeptIndex(s.OnProduct(), i)] == p
  {
    hide KeptShape, KeptIndex;
    assert s.OnProduct()[i] == s.lead[i];
    KeptAxisSize(s.OnProduct(), i);
    idx := ZerosBut(|KeptShape(s.OnProduct())|, KeptIndex(s.OnProduct(), i), p);
  }

  lemma CountedTimes(rank: nat, idx: seq<nat>, x: nat)
    requires x < |idx|
    ensures rank as real * Coordinate(idx, x) == Times(rank as real, idx[x] as real)
  {
  }

  lemma IsCountedOnB(l: Factors, ixs: seq<Ix>, i: nat)
    requires Denotable(l) && IndexTuple(l, ixs).Some? && !Pad(ixs, |l.a.shape|)[|l.a.shape| - 2].One?
    requires |Pad(ixs, |l.a.shape|)| == |l.a.shape| && AllFit(l, Pad(ixs, |l.a.shape|)) && i < |l.a.shape| - 2
    requires !Harmless(Pad(ixs, |l.a.shape|)[i], l.a.shape[i], l.b.shape[i])
    ensures IndexTuple(Showing(l, i, false), ixs).Some?
    ensures CountedOnB(Showing(l, i, false), IndexTuple(Showing(l, i, false), ixs).value, TupleSelection(l, Pad(ixs, |l.a.shape|)), i)
  {
    hide Size, At, Make, Dense, Pad, IndexTuple, TupleSelection, KeptShape, Select, Expand, ResolveAll, Harmless, Fitting, Fits;
    var m := Showing(l, i, false);
    SameAcceptance(l, m, ixs);
    var ps, p := MovedPosition(l, Pad(ixs, |l.a.shape|), i);
    TupleParts(m, ixs);
    IndexTupleCommutes(m, ixs);
  }

  /** The factors keep these axes of the tuple, whatever the lists among them. */
  lemma EllipsisPlain(l: Factors, before: seq<Ix>, after: seq<Ix>)
    requires Denotable(l) && EllipsisFaithful(l, before, after)
    ensures var full := Pad(ExpandEllipsis(before, after), |l.a.shape|);
      Plain(full) && Lists(TorchEllipsis(before, after, |l.a.shape|)) <= 1
  {
    hide Size, Make, At, ResolveAll, Pad, ComponentsOfA, KeptBelow, TorchIndex, Lists, Dense, TorchEllipsis, ExpandEllipsis;
    var n, ixs := |l.a.shape|, ExpandEllipsis(before, after);
    var full, want := Pad(ixs, n), TorchEllipsis(before, after, n);
    SameWritten(before, after, n);
    FactorAxes(l, ixs);
    TorchAxes(Dense(l), want);
    KeptLastTwo(full);
  }

  /** An ellipsis on the factors gives what torch gives on the product, for all factors of a shape, exactly
      when indexing by the tuple it is expanded to is right and, unless it comes last or stands for as many
      axes as there are other components, both readings mean the same. */
  lemma EllipsisExactly(l: Factors, before: seq<Ix>, after: seq<Ix>)
    requires Denotable(l)
    ensures EllipsisFaithfulForAll(l, before, after) <==>
      var k, n := |before| + |after|, |l.a.shape|;
      && Sound(l, ExpandEllipsis(before, after))
      && (after == [] || n == 2 * k ||
          (n > 2 * k && SameMeaning(Pad(ExpandEllipsis(before, after), n), TorchEllipsis(before, after, n), Shape(l), Rank(l))))
  {
    hide Size, Make, At, Dense, TorchTuple, TorchIndex, Lists, Pad, SameMeaning, Sound, TorchEllipsis;
    var k, n, ixs := |before| + |after|, |l.a.shape|, ExpandEllipsis(before, after);
    if EllipsisFaithfulForAll(l, before, after) {
      assert SameFactorShapes(l, l) && EllipsisFaithful(l, before, after);
      EllipsisSound(l, before, after);
    }
    if Sound(l, ixs) {
      SoundFits(l, ixs);
      ReadingsAgree(l, before, after);
      if after == [] || n == 2 * k {
        SameExpansion(before, after, n);
        SameTuple(TorchEllipsis(before, after, n), Shape(l), Rank(l));
      }
    }
  }

  lemma SoundFits(l: Factors, ixs: seq<Ix>)
    requires Denotable(l) && Sound(l, ixs)
    ensures ixs != [] && |ixs| <= |l.a.shape|
  {
    hide Size, Make, At, Dense, TorchTuple;
  }

  lemma SameExpansion(before: seq<Ix>, after: seq<Ix>, n: nat)
    requires |before| + |after| <= n && (after == [] || n == 2 * (|before| + |after|))
    ensures Pad(ExpandEllipsis(before, after), n) == TorchEllipsis(before, after, n)
  {
  }

  lemma EllipsisSound(l: Factors, before: seq<Ix>, after: seq<Ix>)
    requires Denotable(l) && EllipsisFaithfulForAll(l, before, after)
    ensures Sound(l, ExpandEllipsis(before, after))
  {
    hide Size, Make, At, Dense, Index, TorchTuple, TorchIndex, IndexTuple, Lists, Pad, TorchEllipsis, ExpandEllipsis, Harmless, Fitting, ResolveAll, Select, KeptShape;
    var n, ixs := |l.a.shape|, ExpandEllipsis(before, after);
    var full, want := Pad(ixs, n), TorchEllipsis(before, after, n);
    assert SameFactorShapes(l, l) && EllipsisFaithful(l, before, after);
    EllipsisPlain(l, before, after);
    OneListApart(l, ixs);
    IndexTupleCommutes(l, ixs);
    var l' := IndexTuple(l, ixs).value;
    if !(AllHarmless(l, full) || Rank(l) == 0 || 0 in Shape(l')) {
      var i: nat :| i < n - 2 && !Harmless(full[i], l.a.shape[i], l.b.shape[i]);
      var sw := WantedSelection(l, want);
      assert KeptShape(sw) == Shape(l');
      NoOtherReading(l, ixs, i, sw);
      var m := Showing(l, i, Misread(Showing(l, i, true), ixs, sw));
      assert SameFactorShapes(l, m) && EllipsisFaithful(m, before, after);
      OneListApart(m, ixs);
      SelectedOf(m, want, sw);
      assert false;
    }
  }

  lemma WantedSelection(l: Factors, want: seq<Ix>) returns (sw: seq<Sel>)
    requires Denotable(l) && Lists(want) <= 1 && TorchIndex(Dense(l), want).Some?
    ensures ResolveAll(want, Shape(l)) == Some(sw) && Fits(sw, Shape(l))
    ensures KeptShape(sw) == TorchIndex(Dense(l), want).value.shape
  {
    hide Size, Make, At, KeptShape, ResolveAll, Fits;
    sw := ResolveAll(want, Shape(l)).value;
  }

  lemma SelectedOf(m: Factors, want: seq<Ix>, sw: seq<Sel>)
    requires Denotable(m) && Lists(want) <= 1 && ResolveAll(want, Shape(m)) == Some(sw)
    ensures TorchIndex(Dense(m), want) == Some(Select(Dense(m), sw))
  {
    hide Size, Make, At, KeptShape, ResolveAll, Select;
  }

  /** Where the expanded tuple is right, the ellipsis is if and only if both readings mean the same. */
  lemma ReadingsAgree(l: Factors, before: seq<Ix>, after: seq<Ix>)
    requires Denotable(l) && Sound(l, ExpandEllipsis(before, after)) && |before| + |after| <= |l.a.shape|
    ensures |ExpandEllipsis(before, after)| <= |l.a.shape|
    ensures EllipsisFaithfulForAll(l, before, after) <==>
      SameMeaning(Pad(ExpandEllipsis(before, after), |l.a.shape|), TorchEllipsis(before, after, |l.a.shape|), Shape(l), Rank(l))
  {
    hide Size, Make, At, Dense, TorchTuple, TorchIndex, Lists, Pad, SameMeaning, TorchEllipsis, ExpandEllipsis, AllFit, AllHarmless, Index;
    var n, ixs := |l.a.shape|, ExpandEllipsis(before, after);
    var full, want := Pad(ixs, n), TorchEllipsis(before, after, n);
    SoundFits(l, ixs);
    SameWritten(before, after, n);
    FaithfulExactly(l, ixs);
    MeaningExactly(l, full, want);
    forall m | SameFactorShapes(l, m)
      ensures Denotable(m) && (EllipsisFaithful(m, before, after) <==> SameResults(m, full, want))
    {
      assert Faithful(m, ixs);
      OneListIndex(Dense(m), full);
      OneListIndex(Dense(m), want);
    }
  }

  lemma SameTuple(x: seq<Ix>, s: seq<nat>, rank: nat)
    ensures SameMeaning(x, x, s, rank)
  {
    hide KeptShape, Resolve, KeptIndex;
    if ResolveAll(x, s).Some? && 0 !in KeptShape(ResolveAll(x, s).value) {
      var sx := ResolveAll(x, s).value;
      forall i | 0 <= i < |sx| ensures SameAxis(sx, sx, i) {
        if sx[i].Drop? {
          assert IsFixed(sx[i], sx[i].p);
        }
      }
    }
  }

  lemma SameWhereKept(sx: seq<Sel>, sy: seq<Sel>, i: nat)
    requires SameDrops(sx, sy) && KeptShape(sx) == KeptShape(sy) && i < |sx| && SameAxis(sx, sy, i)
    ensures sx[i] == sy[i]
  {
    hide KeptShape;
    if sx[i].Keep? {
      KeptAxisSize(sx, i);
      KeptAxisSize(sy, i);
      SameDropCount(sx[..i], sy[..i]);
    }
  }

  /** Without an integer behind it, both readings mean the same exactly when they resolve to the same
      selection, or to two of one shape without elements: what counts of a component are its positions. */
  lemma EllipsisOfSlices(before: seq<Ix>, after: seq<Ix>, s: seq<nat>, rank: nat)
    requires |s| > 2 * (|before| + |after|) && forall i :: 0 <= i < |after| ==> !after[i].One?
    ensures var got, want := ResolveAll(Pad(ExpandEllipsis(before, after), |s|), s), ResolveAll(TorchEllipsis(before, after, |s|), s);
      SameMeaning(Pad(ExpandEllipsis(before, after), |s|), TorchEllipsis(before, after, |s|), s, rank) <==>
        || got == want
        || (got.Some? && want.Some? && KeptShape(got.value) == KeptShape(want.value) && (rank == 0 || 0 in KeptShape(want.value)))
  {
    hide KeptShape, Resolve, ResolveAll, KeptIndex, SameAxis;
    var x, y := Pad(ExpandEllipsis(before, after), |s|), TorchEllipsis(before, after, |s|);
    var rx, ry := ResolveAll(x, s), ResolveAll(y, s);
    SameTuple(x, s, rank);
    if rx.Some? && ry.Some? && KeptShape(rx.value) == KeptShape(ry.value) && SameAxes(rx.value, ry.value) {
      var sx, sy := rx.value, ry.value;
      forall i: nat | i < |s| ensures sx[i].Drop? <==> sy[i].Drop? {
        Integers(x, s, sx, i);
        Integers(y, s, sy, i);
      }
      forall i | 0 <= i < |s| ensures sx[i] == sy[i] {
        assert SameAxis(sx, sy, i);
        SameWhereKept(sx, sy, i);
      }
      assert sx == sy;
    }
  }

  lemma WrittenOnThree(first: Ix)
    ensures ExpandEllipsis([], [first]) == [EVERYTHING, first] && Pad([EVERYTHING, first], 3) == [EVERYTHING, first, EVERYTHING]
    ensures TorchEllipsis([], [first], 3) == [EVERYTHING, EVERYTHING, first]
    ensures [EVERYTHING, first, EVERYTHING][..2] == [EVERYTHING, first]
  {
  }

  lemma ThreeAxes(l: Factors)
    requires Denotable(l) && |l.a.shape| == 3
    ensures Shape(l) == [l.b.shape[0], l.b.shape[1], l.a.shape[2]]
    ensures l.a.shape == [l.a.shape[0], Rank(l), l.a.shape[2]] && l.b.shape == [l.b.shape[0], l.b.shape[1], Rank(l)]
  {
  }

  lemma NoListsWritten(first: Ix)
    requires first.Range?
    ensures Lists([EVERYTHING, first, EVERYTHING]) == Lists([EVERYTHING, EVERYTHING, first]) == 0
  {
    NoLists([EVERYTHING, first, EVERYTHING], 3);
    NoLists([EVERYTHING, EVERYTHING, first], 3);
  }

  /** What the converter makes of [..., :1] on three axes. */
  lemma RowsTaken(l: Factors)
    requires Denotable(l) && |l.a.shape| == 3 && l.b.shape[1] > 0 && l.a.shape[2] > 0
    ensures var ixs := [EVERYTHING, Range(None, Some(1), 1)];
      && IndexTuple(l, ixs).Some? && Shape(IndexTuple(l, ixs).value) == [l.b.shape[0], 1, l.a.shape[2]]
  {
    hide Size, At, Make, Dense, KeptShape, Resolve, Select, ResolveAll, ComponentsOfA, Pad;
    var first := Range(None, Some(1), 1);
    WrittenOnThree(first);
    ThreeAxes(l);
    FirstRows(l.a.shape[0], l.b.shape[0], l.b.shape[1], l.a.shape[2], Rank(l));
    NoComponents(l.a.shape);
  }

  /** t[..., :1] on three axes takes the first row of each matrix where torch takes the first column. */
  lemma EllipsisOnRows(l: Factors)
    requires Denotable(l) && |l.a.shape| == 3 && l.b.shape[1] > 0 && l.a.shape[2] > 0
    ensures var first := [Range(None, Some(1), 1)];
      var got := ExpandEllipsis([], first);
      var want := TorchIndex(Dense(l), TorchEllipsis([], first, 3));
      && TorchTuple(l, got).Some? && Faithful(l, got) && Shape(TorchTuple(l, got).value) == [l.b.shape[0], 1, l.a.shape[2]]
      && want.Some? && want.value.shape == [l.b.shape[0], l.b.shape[1], 1]
  {
    hide Size, At, Make, Dense, KeptShape, Resolve, Select, ResolveAll, Harmless, Fitting, Pad, ExpandEllipsis, TorchEllipsis, Shape, IndexTuple, TorchTuple, Lists;
    var first := Range(None, Some(1), 1);
    WrittenOnThree(first);
    ThreeAxes(l);
    FirstRows(l.a.shape[0], l.b.shape[0], l.b.shape[1], l.a.shape[2], Rank(l));
    RowsTaken(l);
    EverythingHarmless(l.a.shape[0], l.b.shape[0]);
    NoListsWritten(first);
    OneListApart(l, [EVERYTHING, first]);
    OneListIndex(Dense(l), [EVERYTHING, EVERYTHING, first]);
    IndexTupleCommutes(l, [EVERYTHING, first]);
  }

  lemma EverythingHarmless(da: nat, db: nat)
    ensures Harmless(EVERYTHING, da, db)
  {
    FullSlice(db);
  }

  lemma NoComponents(s: seq<nat>)
    requires |s| == 3
    ensures ComponentsOfA([EVERYTHING, Range(None, Some(1), 1), EVERYTHING], s) == [EVERYTHING, EVERYTHING, EVERYTHING]
  {
  }

  /** The selections that [:, :1] makes on A and B, and what torch selects. */
  lemma FirstRows(e: nat, d: nat, r: nat, c: nat, rank: nat)
    requires r > 0 && c > 0
    ensures var first := Range(None, Some(1), 1);
      var sa := ResolveAll([EVERYTHING, EVERYTHING, EVERYTHING], [e, rank, c]);
      var sb := ResolveAll([EVERYTHING, first], [d, r, rank]);
      var sw := ResolveAll([EVERYTHING, EVERYTHING, first], [d, r, c]);
      && sa.Some? && KeptShape(sa.value) == [e, rank, c] && sb.Some? && KeptShape(sb.value) == [d, 1, rank]
      && sw.Some? && KeptShape(sw.value) == [d, r, 1]
  {
    hide KeptShape, Resolve;
    FullSlice(e); FullSlice(d); FullSlice(r); FullSlice(c); FullSlice(rank);
    FirstOnly(r); FirstOnly(c);
    var first := Range(None, Some(1), 1);
    var sa := [Keep(All(e)), Keep(All(rank)), Keep(All(c))];
    var sb := [Keep(All(d)), Keep([0]), Keep(All(rank))];
    var sw := [Keep(All(d)), Keep(All(r)), Keep([0])];
    assert ResolveAll([EVERYTHING, EVERYTHING, EVERYTHING], [e, rank, c]).value == sa;
    assert ResolveAll([EVERYTHING, first], [d, r, rank]).value == sb;
    assert ResolveAll([EVERYTHING, EVERYTHING, first], [d, r, c]).value == sw;
    KeptThree(sa); KeptThree(sb); KeptThree(sw);
  }

  lemma FirstOnly(n: nat)
    requires n > 0
    ensures Resolve(Range(None, Some(1), 1), n) == Some(Keep([0]))
  {
    assert Steps(0, 1, 1) == [0];
  }
}
