/** What a tuple index means for all factors of one shape: when a list of positions on its own, and when
    an ellipsis, gives what torch gives. */
module LoraTuples {
  import opened Wrappers
  import opened Tensors
  import opened Lora
  import opened LoraIndexing

  // ---- where a kept axis ends up ----

  /** The axis of the result that axis i of the source becomes. */
  function KeptIndex(sels: seq<Sel>, i: nat): nat
    requires i <= |sels|
  {
    |KeptShape(sels[..i])|
  }

  /** The position that an index of the result reads on axis i of the source. */
  ghost function SourceAt(sel: Sel, idx: seq<nat>, x: nat): nat
    requires sel.Keep? ==> x < |idx| && idx[x] < |sel.ps|
  {
    match sel
    case Drop(p) => p
    case Keep(ps) => ps[idx[x]]
  }

  lemma {:induction false} KeptAxisSize(sels: seq<Sel>, i: nat)
    requires i < |sels| && sels[i].Keep?
    ensures KeptIndex(sels, i) < |KeptShape(sels)| && KeptShape(sels)[KeptIndex(sels, i)] == |sels[i].ps|
  {
    var k := |sels| - 1;
    KeptSplit(sels);
    if i < k {
      KeptAxisSize(sels[..k], i);
      assert sels[..k][..i] == sels[..i];
    }
  }

  lemma {:induction false} ExpandAt(sels: seq<Sel>, s: seq<nat>, idx: seq<nat>, i: nat)
    requires Fits(sels, s) && Within(KeptShape(sels), idx) && i < |sels|
    ensures sels[i].Keep? ==> KeptIndex(sels, i) < |idx| && idx[KeptIndex(sels, i)] < |sels[i].ps|
    ensures Expand(sels, s, idx)[i] == SourceAt(sels[i], idx, KeptIndex(sels, i))
  {
    hide Size, KeptShape;
    var k := |sels| - 1;
    KeptLast(sels, idx);
    KeptSplit(sels);
    if i == k {
      assert sels[..i] == sels[..k];
    } else {
      var rest := if sels[k].Drop? then idx else idx[..|idx| - 1];
      ExpandAt(sels[..k], s[..k], rest, i);
      assert sels[..k][..i] == sels[..i];
    }
  }

  // ---- factors that show a coordinate ----

  ghost predicate SameFactorShapes(l: Factors, m: Factors) {
    l.a.shape == m.a.shape && l.b.shape == m.b.shape
  }

  function Coordinate(idx: seq<nat>, i: nat): real
    requires i < |idx|
  {
    idx[i] as real
  }

  /** The tensor whose elements are their own coordinate on one axis. */
  ghost function Counting(s: seq<nat>, i: nat): (t: Tensor)
    requires i < |s|
    ensures t.shape == s
    ensures forall idx :: Within(s, idx) ==> At(t, idx) == Coordinate(idx, i)
  {
    Make(s, idx requires Within(s, idx) => Coordinate(idx, i))
  }

  ghost function Constant(s: seq<nat>): (t: Tensor)
    ensures t.shape == s
    ensures forall idx :: Within(s, idx) ==> At(t, idx) == 1.0
  {
    Make(s, idx => 1.0)
  }

  lemma {:induction false} EqualTerms(l: Factors, idx: seq<nat>, v: real, k: nat)
    requires Denotable(l) && Within(Shape(l), idx) && k <= Rank(l)
    requires forall j: nat :: j < Rank(l) ==> Term(l, idx, j) == v
    ensures Dot(l, idx, k) == k as real * v
  {
    hide Term, Size, Make, Dense, At;
    if k > 0 {
      EqualTerms(l, idx, v, k - 1);
    }
  }

  /** Factors of the given shapes whose product shows the coordinate on axis i, by A or by B. */
  ghost function Showing(l: Factors, i: nat, byA: bool): (m: Factors)
    requires Denotable(l) && i < |l.a.shape|
    ensures SameFactorShapes(l, m) && Denotable(m) && Rank(m) == Rank(l) && Shape(m) == Shape(l)
  {
    if byA then Factors(Counting(l.a.shape, i), Constant(l.b.shape))
    else Factors(Constant(l.a.shape), Counting(l.b.shape, i))
  }

  lemma ShowingTerm(l: Factors, i: nat, byA: bool, idx: seq<nat>, k: nat)
    requires Denotable(l) && i < |l.a.shape| && Within(Shape(l), idx) && k < Rank(l)
    requires if byA then i != |l.a.shape| - 2 && (i < |l.a.shape| - 2 ==> l.a.shape[i] != 1) else i != |l.a.shape| - 1
    ensures Term(Showing(l, i, byA), idx, k) == Coordinate(idx, i)
  {
    hide Size, Make, Dense, At;
    TermIndices(Showing(l, i, byA), idx, k);
  }

  lemma ShowsCoordinate(l: Factors, i: nat, byA: bool, idx: seq<nat>)
    requires Denotable(l) && i < |l.a.shape| && Within(Shape(l), idx)
    requires if byA then i != |l.a.shape| - 2 && (i < |l.a.shape| - 2 ==> l.a.shape[i] != 1) else i != |l.a.shape| - 1
    ensures At(Dense(Showing(l, i, byA)), idx) == Times(Rank(l) as real, Coordinate(idx, i))
  {
    hide Size, Make, At, Term, Showing, Dense, Dot, Coordinate;
    var m := Showing(l, i, byA);
    forall k: nat | k < Rank(l) ensures Term(m, idx, k) == Coordinate(idx, i) {
      ShowingTerm(l, i, byA, idx, k);
    }
    EqualTerms(m, idx, Coordinate(idx, i), Rank(l));
  }

  /** A selection of such a product shows which position of axis i it reads. */
  lemma ShowsSelected(l: Factors, i: nat, byA: bool, sels: seq<Sel>, idx: seq<nat>)
    requires Denotable(l) && i < |l.a.shape| && Fits(sels, Shape(l)) && Within(KeptShape(sels), idx)
    requires if byA then i != |l.a.shape| - 2 && (i < |l.a.shape| - 2 ==> l.a.shape[i] != 1) else i != |l.a.shape| - 1
    ensures sels[i].Keep? ==> KeptIndex(sels, i) < |idx| && idx[KeptIndex(sels, i)] < |sels[i].ps|
    ensures At(Select(Dense(Showing(l, i, byA)), sels), idx)
         == Times(Rank(l) as real, SourceAt(sels[i], idx, KeptIndex(sels, i)) as real)
  {
    hide Size, Make, At, Term, Showing, Expand, KeptShape, KeptIndex, Dense, SourceAt, Times;
    ExpandAt(sels, Shape(l), idx, i);
    ShowsCoordinate(l, i, byA, Expand(sels, Shape(l), idx));
  }

  lemma Apart(r: nat, x: nat, y: nat)
    requires r > 0 && x != y
    ensures Times(r as real, x as real) != Times(r as real, y as real)
  {
  }

  lemma NoRank(l: Factors, idx: seq<nat>)
    requires Denotable(l) && Rank(l) == 0 && Within(Shape(l), idx)
    ensures At(Dense(l), idx) == 0.0
  {
    hide Size, Make, At, Term;
  }

  /** The index that is 0 everywhere but on one axis. */
  function ZerosBut(n: nat, x: nat, q: nat): (idx: seq<nat>)
    ensures |idx| == n && forall i :: 0 <= i < n ==> idx[i] == if i == x then q else 0
  {
    seq(n, i => if i == x then q else 0)
  }

  // ---- one index tuple for all factors of a shape ----

  ghost predicate AllFit(l: Factors, full: seq<Ix>)
    requires Constructible(l) && |full| == |l.a.shape|
  {
    forall i :: 0 <= i < |full| - 2 ==> Fitting(full[i], l.a.shape[i], l.b.shape[i])
  }

  ghost predicate AllHarmless(l: Factors, full: seq<Ix>)
    requires Constructible(l) && |full| == |l.a.shape|
  {
    forall i :: 0 <= i < |full| - 2 ==> Harmless(full[i], l.a.shape[i], l.b.shape[i])
  }

  /** The indexed factors stand for the indexed product. */
  ghost predicate Right(m: Factors, ixs: seq<Ix>)
    requires Denotable(m)
  {
    && IndexTuple(m, ixs).Some? && Denotable(IndexTuple(m, ixs).value)
    && Index(Dense(m), Pad(ixs, |m.a.shape|)) == Some(Dense(IndexTuple(m, ixs).value))
  }

  ghost predicate RightForAll(l: Factors, ixs: seq<Ix>)
    requires Denotable(l)
  {
    forall m :: SameFactorShapes(l, m) ==> Denotable(m) && Right(m, ixs)
  }

  lemma SameIndexShape(t: Tensor, u: Tensor, ixs: seq<Ix>)
    requires t.shape == u.shape
    ensures Index(t, ixs).Some? <==> Index(u, ixs).Some?
    ensures Index(t, ixs).Some? ==> Index(t, ixs).value.shape == Index(u, ixs).value.shape
  {
    hide KeptShape, Make, At, ResolveAll;
  }

  lemma SameSelection(l: Factors, m: Factors, full: seq<Ix>)
    requires Denotable(l) && Denotable(m) && SameFactorShapes(l, m) && |full| == |l.a.shape|
    ensures TupleSelection(l, full) == TupleSelection(m, full)
  {
    hide Resolve;
    var x, y := TupleSelection(l, full), TupleSelection(m, full);
    assert x.leadA == y.leadA;
    assert x.lead == y.lead;
  }

  lemma SameAcceptance(l: Factors, m: Factors, ixs: seq<Ix>)
    requires Denotable(l) && SameFactorShapes(l, m) && IndexTuple(l, ixs).Some?
    ensures Denotable(m) && IndexTuple(m, ixs).Some? && SameFactorShapes(IndexTuple(l, ixs).value, IndexTuple(m, ixs).value)
    ensures Rank(m) == Rank(l) && Shape(m) == Shape(l) && TupleSelection(m, Pad(ixs, |l.a.shape|)) == TupleSelection(l, Pad(ixs, |l.a.shape|))
  {
    hide Size, At, Make, Dense, Resolve, Pad, ComponentsOfA, Index, TupleSelection;
    var full := Pad(ixs, |l.a.shape|);
    SameIndexShape(l.a, m.a, ComponentsOfA(full, l.a.shape));
    SameIndexShape(l.b, m.b, full[..|full| - 1]);
    SameSelection(l, m, full);
  }

  /** With lists that select on their own, a tuple is right for all factors of a shape exactly when the factors fit each other
      afterwards and either every leading list keeps its axis as it is, or there is nothing to get wrong. */
  lemma {:induction false} TupleRightExactly(l: Factors, ixs: seq<Ix>)
    requires Denotable(l) && IndexTuple(l, ixs).Some?
    requires !Pad(ixs, |l.a.shape|)[|l.a.shape| - 2].One?
    ensures |Pad(ixs, |l.a.shape|)| == |l.a.shape|
    ensures RightForAll(l, ixs) <==>
      var full := Pad(ixs, |l.a.shape|);
      AllFit(l, full) && (AllHarmless(l, full) || Rank(l) == 0 || 0 in Shape(IndexTuple(l, ixs).value))
  {
    hide Size, At, Make, Dense, Pad, Index, IndexTuple, TupleSelection, Harmless, Fitting;
    var full, l' := Pad(ixs, |l.a.shape|), IndexTuple(l, ixs).value;
    FullSize(l, ixs);
    IndexTupleCommutes(l, ixs);
    if !AllFit(l, full) {
      assert SameFactorShapes(l, l) && !Right(l, ixs);
    } else if AllHarmless(l, full) || Rank(l) == 0 || 0 in Shape(l') {
      forall m | SameFactorShapes(l, m) ensures Denotable(m) && Right(m, ixs) {
        RightWhere(l, m, ixs);
      }
    } else {
      var i: nat :| i < |full| - 2 && !Harmless(full[i], l.a.shape[i], l.b.shape[i]);
      ListWrong(l, ixs, i);
      assert SameFactorShapes(l, Showing(l, i, true));
    }
  }

  lemma FullSize(l: Factors, ixs: seq<Ix>)
    requires Constructible(l) && IndexTuple(l, ixs).Some?
    ensures |Pad(ixs, |l.a.shape|)| == |l.a.shape|
  {
    hide Size, At, Make;
  }

  lemma RightWhere(l: Factors, m: Factors, ixs: seq<Ix>)
    requires Denotable(l) && IndexTuple(l, ixs).Some? && SameFactorShapes(l, m)
    requires !Pad(ixs, |l.a.shape|)[|l.a.shape| - 2].One?
    requires |Pad(ixs, |l.a.shape|)| == |l.a.shape| && AllFit(l, Pad(ixs, |l.a.shape|))
    requires AllHarmless(l, Pad(ixs, |l.a.shape|)) || Rank(l) == 0 || 0 in Shape(IndexTuple(l, ixs).value)
    ensures Denotable(m) && Right(m, ixs)
  {
    hide Size, At, Make, Dense, Pad, IndexTuple, TupleSelection, Harmless, Fitting, Select, ResolveAll;
    var full := Pad(ixs, |l.a.shape|);
    SameAcceptance(l, m, ixs);
    var m' := IndexTuple(m, ixs).value;
    IndexTupleCommutes(m, ixs);
    if !AllHarmless(l, full) {
      NothingWrong(m, ixs);
    }
  }

  /** Without elements, or without a rank, both products are the same anyway. */
  lemma NothingWrong(m: Factors, ixs: seq<Ix>)
    requires Denotable(m) && IndexTuple(m, ixs).Some? && Denotable(IndexTuple(m, ixs).value)
    requires !Pad(ixs, |m.a.shape|)[|m.a.shape| - 2].One?
    requires Rank(m) == 0 || 0 in Shape(IndexTuple(m, ixs).value)
    ensures Right(m, ixs)
  {
    hide Size, At, Make, Dense, Pad, IndexTuple, TupleSelection, Select, ResolveAll, Fits, KeptShape;
    var full, m' := Pad(ixs, |m.a.shape|), IndexTuple(m, ixs).value;
    TupleParts(m, ixs);
    var t := Index(Dense(m), full).value;
    forall idx | Within(t.shape, idx) ensures At(t, idx) == At(Dense(m'), idx) {
      NoZero(t.shape, idx);
      TupleProduct(m, ixs, idx);
      NoRank(m, Expand(TupleSelection(m, full).OnProduct(), Shape(m), idx));
      NoRank(m', idx);
    }
    SameElements(t, Dense(m'));
  }

  lemma NoZero(s: seq<nat>, idx: seq<nat>)
    requires Within(s, idx)
    ensures 0 !in s
  {
  }

  lemma TupleParts(l: Factors, ixs: seq<Ix>)
    requires Denotable(l) && IndexTuple(l, ixs).Some? && !Pad(ixs, |l.a.shape|)[|l.a.shape| - 2].One?
    ensures var full, l' := Pad(ixs, |l.a.shape|), IndexTuple(l, ixs).value;
      var s := TupleSelection(l, full);
      && |s.leadA| == |s.lead| == |full| - 2 && SameDrops(s.leadA, s.lead)
      && Fits(s.OnA(Rank(l)), l.a.shape) && Fits(s.OnB(Rank(l)), l.b.shape) && Fits(s.OnProduct(), Shape(l))
      && ResolveAll(full, Shape(l)) == Some(s.OnProduct())
      && l' == Factors(Select(l.a, s.OnA(Rank(l))), Select(l.b, s.OnB(Rank(l))))
      && Rank(l') == Rank(l) && Shape(l') == KeptShape(s.OnProduct())
      && l'.a.shape == KeptShape(s.leadA) + [Rank(l)] + [|s.columns|]
      && Index(Dense(l), full) == Some(Select(Dense(l), s.OnProduct()))
  {
    hide Size, At, Make, Dense, Pad, IndexTuple, TupleSelection, Select, KeptShape;
    FullSize(l, ixs);
    TupleAccepted(l, ixs);
    TupleFits(l, Pad(ixs, |l.a.shape|), IndexTuple(l, ixs).value);
    SelectionSize(l, Pad(ixs, |l.a.shape|));
  }

  lemma TupleProduct(l: Factors, ixs: seq<Ix>, idx: seq<nat>)
    requires Denotable(l) && IndexTuple(l, ixs).Some? && !Pad(ixs, |l.a.shape|)[|l.a.shape| - 2].One?
    requires Within(Shape(IndexTuple(l, ixs).value), idx)
    ensures var full := Pad(ixs, |l.a.shape|);
      var sels := TupleSelection(l, full).OnProduct();
      && Index(Dense(l), full).Some? && Index(Dense(l), full).value.shape == Shape(IndexTuple(l, ixs).value)
      && Fits(sels, Shape(l)) && Within(KeptShape(sels), idx)
      && At(Index(Dense(l), full).value, idx) == At(Dense(l), Expand(sels, Shape(l), idx))
  {
    hide Size, At, Make, Dense, Pad, IndexTuple, TupleSelection, KeptShape;
    TupleParts(l, ixs);
  }

  /** A list that keeps as many positions as the axis has, but not all in order, moves one. */
  lemma MovedPosition(l: Factors, full: seq<Ix>, i: nat) returns (ps: seq<nat>, p: nat)
    requires Denotable(l) && |full| == |l.a.shape| && i < |full| - 2
    requires AllFit(l, full) && !Harmless(full[i], l.a.shape[i], l.b.shape[i])
    ensures Resolve(full[i], Shape(l)[i]) == Some(Keep(ps)) && TupleSelection(l, full).lead[i] == Keep(ps)
    ensures p < |ps| == l.a.shape[i] == l.b.shape[i] && ps[p] != p && l.a.shape[i] != 1
    ensures TupleSelection(l, full).leadA[i] == Keep(All(l.a.shape[i])) && !full[i].One?
  {
    hide Size, SelFits;
    assert Shape(l)[i] == l.b.shape[i];
    assert Fitting(full[i], l.a.shape[i], l.b.shape[i]);
    ps := Resolve(full[i], l.b.shape[i]).value.ps;
    assert ps != All(|ps|);
    p :| 0 <= p < |ps| && ps[p] != p;
  }

  /** Factors m whose A counts axis i, and what a selection that leaves that axis of A alone makes of them. */
  ghost predicate Counted(m: Factors, m': Factors, s: Selection, i: nat) {
    && Denotable(m) && Denotable(m') && Rank(m') == Rank(m)
    && |s.leadA| == |s.lead| == |m.a.shape| - 2 && SameDrops(s.leadA, s.lead) && i < |s.lead|
    && m.a == Counting(m.a.shape, i) && m.b == Constant(m.b.shape)
    && Fits(s.OnA(Rank(m)), m.a.shape) && Fits(s.OnB(Rank(m)), m.b.shape)
    && m' == Factors(Select(m.a, s.OnA(Rank(m))), Select(m.b, s.OnB(Rank(m))))
    && m'.a.shape == KeptShape(s.leadA) + [Rank(m)] + [|s.columns|] && Shape(m') == KeptShape(s.OnProduct())
    && m.a.shape[i] != 1 && s.leadA[i] == Keep(All(m.a.shape[i]))
  }

  lemma CountedTerm(m: Factors, m': Factors, s: Selection, i: nat, idx: seq<nat>, k: nat)
    requires Counted(m, m', s, i) && Within(Shape(m'), idx) && k < Rank(m')
    ensures KeptIndex(s.OnProduct(), i) < |idx| && Term(m', idx, k) == Coordinate(idx, KeptIndex(s.OnProduct(), i))
  {
    hide Size, At, Make, Dense, KeptShape, Expand, Ravel;
    var x := KeptIndex(s.OnProduct(), i);
    TermIndices(m', idx, k);
    var ia := IndexA(m'.a.shape, idx, k);
    SameKeptIndex(s, Rank(m), i);
    ExpandAt(s.OnA(Rank(m)), m.a.shape, ia, i);
    KeptAxisSize(s.leadA, i);
    assert m'.a.shape[x] == m.a.shape[i];
    assert At(m'.b, IndexB(idx, k)) == 1.0;
  }

  lemma CountedEntry(m: Factors, m': Factors, s: Selection, i: nat, idx: seq<nat>)
    requires Counted(m, m', s, i) && Within(Shape(m'), idx)
    ensures KeptIndex(s.OnProduct(), i) < |idx|
    ensures At(Dense(m'), idx) == Rank(m) as real * Coordinate(idx, KeptIndex(s.OnProduct(), i))
  {
    hide Size, At, Make, KeptShape, Term, Fits, Select, SameDrops;
    KeptInIndex(m, m', s, i, idx);
    forall k: nat | k < Rank(m') ensures Term(m', idx, k) == Coordinate(idx, KeptIndex(s.OnProduct(), i)) {
      CountedTerm(m, m', s, i, idx, k);
    }
    EqualTerms(m', idx, Coordinate(idx, KeptIndex(s.OnProduct(), i)), Rank(m'));
  }

  lemma KeptInIndex(m: Factors, m': Factors, s: Selection, i: nat, idx: seq<nat>)
    requires Counted(m, m', s, i) && Within(Shape(m'), idx)
    ensures KeptIndex(s.OnProduct(), i) < |idx|
  {
    hide Size, At, Make, Dense, KeptShape;
    assert s.OnProduct()[i] == s.lead[i];
    KeptAxisSize(s.OnProduct(), i);
  }

  /** A leading list that fits but does not keep its axis: factors whose A shows the coordinate on that
      axis get a wrong product. */
  lemma {:induction false} ListWrong(l: Factors, ixs: seq<Ix>, i: nat)
    requires Denotable(l) && IndexTuple(l, ixs).Some? && !Pad(ixs, |l.a.shape|)[|l.a.shape| - 2].One?
    requires |Pad(ixs, |l.a.shape|)| == |l.a.shape| && AllFit(l, Pad(ixs, |l.a.shape|)) && i < |l.a.shape| - 2
    requires !Harmless(Pad(ixs, |l.a.shape|)[i], l.a.shape[i], l.b.shape[i])
    requires Rank(l) > 0 && 0 !in Shape(IndexTuple(l, ixs).value)
    ensures Denotable(Showing(l, i, true)) && !Right(Showing(l, i, true), ixs)
  {
    hide Size, At, Make, Dense, Pad, IndexTuple, TupleSelection, KeptShape, Showing, Select, Expand, ResolveAll,
      Harmless, Fitting, Fits, Counted;
    var full, m := Pad(ixs, |l.a.shape|), Showing(l, i, true);
    SameAcceptance(l, m, ixs);
    var ps, p := MovedPosition(l, full, i);
    IsCounted(l, ixs, i);
    TupleParts(m, ixs);
    CountedWrong(l, IndexTuple(m, ixs).value, TupleSelection(l, full), i, ps, p);
  }

  lemma CountedWrong(l: Factors, m': Factors, s: Selection, i: nat, ps: seq<nat>, p: nat)
    requires Denotable(l) && i < |l.a.shape| - 2 && Rank(l) > 0
    requires Counted(Showing(l, i, true), m', s, i) && Fits(s.OnProduct(), Shape(l)) && 0 !in Shape(m')
    requires s.lead[i] == Keep(ps) && p < |ps| && ps[p] != p
    ensures Select(Dense(Showing(l, i, true)), s.OnProduct()) != Dense(m')
  {
    hide Size, At, Make, Dense, KeptShape, Showing, Expand, Fits, Counted, Select, KeptIndex;
    var m, sels := Showing(l, i, true), s.OnProduct();
    CountedShape(m, m', s, i);
    assert i < |sels| && sels[i] == s.lead[i];
    var x := KeptIndex(sels, i);
    KeptAxisSize(sels, i);
    var idx := ZerosBut(|Shape(m')|, x, p);
    assert Within(Shape(m'), idx);
    ShowsSelected(l, i, true, sels, idx);
    CountedEntry(m, m', s, i, idx);
    Apart(Rank(l), ps[p], p);
  }

  lemma CountedShape(m: Factors, m': Factors, s: Selection, i: nat)
    requires Counted(m, m', s, i)
    ensures Denotable(m) && Denotable(m') && Shape(m') == KeptShape(s.OnProduct()) && m.a.shape[i] != 1
    ensures |s.lead| == |m.a.shape| - 2 && i < |s.lead|
  {
    hide Size, KeptShape, Fits, Select;
  }

  lemma IsCounted(l: Factors, ixs: seq<Ix>, i: nat)
    requires Denotable(l) && IndexTuple(l, ixs).Some? && !Pad(ixs, |l.a.shape|)[|l.a.shape| - 2].One?
    requires |Pad(ixs, |l.a.shape|)| == |l.a.shape| && AllFit(l, Pad(ixs, |l.a.shape|)) && i < |l.a.shape| - 2
    requires !Harmless(Pad(ixs, |l.a.shape|)[i], l.a.shape[i], l.b.shape[i])
    ensures IndexTuple(Showing(l, i, true), ixs).Some?
    ensures Counted(Showing(l, i, true), IndexTuple(Showing(l, i, true), ixs).value, TupleSelection(l, Pad(ixs, |l.a.shape|)), i)
  {
    hide Size, At, Make, Dense, Pad, IndexTuple, TupleSelection, KeptShape, Select, Expand, ResolveAll, Harmless, Fitting, Fits;
    var m := Showing(l, i, true);
    SameAcceptance(l, m, ixs);
    var ps, p := MovedPosition(l, Pad(ixs, |l.a.shape|), i);
    TupleParts(m, ixs);
    IndexTupleCommutes(m, ixs);
  }

  /** The leading axes of A and of the product are kept in parallel. */
  lemma SameKeptIndex(s: Selection, rank: nat, i: nat)
    requires SameDrops(s.leadA, s.lead) && i < |s.lead|
    ensures KeptIndex(s.OnA(rank), i) == KeptIndex(s.OnProduct(), i) == KeptIndex(s.leadA, i)
    ensures s.OnA(rank)[i] == s.leadA[i] && s.OnProduct()[i] == s.lead[i]
  {
    hide KeptShape;
    assert s.OnA(rank)[..i] == s.leadA[..i] && s.OnProduct()[..i] == s.lead[..i];
    SameDropCount(s.leadA[..i], s.lead[..i]);
  }

  // ---- when two tuples mean the same ----

  predicate IsFixed(sel: Sel, p: nat) {
    match sel
    case Drop(q) => q == p
    case Keep(ps) => ps != [] && forall i :: 0 <= i < |ps| ==> ps[i] == p
  }

  /** Two selections read the same of axis i: a fixed position, or the same positions for the same axis
      of the result. */
  ghost predicate SameAxis(sx: seq<Sel>, sy: seq<Sel>, i: nat)
    requires i < |sx| && i < |sy|
  {
    || (exists p :: IsFixed(sx[i], p) && IsFixed(sy[i], p))
    || (sx[i].Keep? && sx[i] == sy[i] && KeptIndex(sx, i) == KeptIndex(sy, i))
  }

  ghost predicate SameAxes(sx: seq<Sel>, sy: seq<Sel>) {
    |sx| == |sy| && forall i :: 0 <= i < |sx| ==> SameAxis(sx, sy, i)
  }

  /** What x and y select from a tensor of shape s is the same, or both are refused. Without a rank the
      elements of a product are all 0, so that only their number matters. */
  ghost predicate SameMeaning(x: seq<Ix>, y: seq<Ix>, s: seq<nat>, rank: nat) {
    match ResolveAll(x, s)
    case None => ResolveAll(y, s) == None
    case Some(sx) => match ResolveAll(y, s)
      case None => false
      case Some(sy) => KeptShape(sx) == KeptShape(sy) && (rank == 0 || 0 in KeptShape(sx) || SameAxes(sx, sy))
  }

  ghost predicate SameResults(m: Factors, x: seq<Ix>, y: seq<Ix>)
    requires Denotable(m)
  {
    Index(Dense(m), x) == Index(Dense(m), y)
  }

  ghost predicate SameForAll(l: Factors, x: seq<Ix>, y: seq<Ix>)
    requires Denotable(l)
  {
    forall m :: SameFactorShapes(l, m) ==> Denotable(m) && SameResults(m, x, y)
  }

  /** Two tuples give the same for all products of a shape exactly when they mean the same. */
  lemma MeaningExactly(l: Factors, x: seq<Ix>, y: seq<Ix>)
    requires Denotable(l)
    ensures SameForAll(l, x, y) <==> SameMeaning(x, y, Shape(l), Rank(l))
  {
    hide Size, At, Make, Dense, KeptShape, Resolve, ResolveAll, Select, SameAxes;
    var rx, ry := ResolveAll(x, Shape(l)), ResolveAll(y, Shape(l));
    if SameMeaning(x, y, Shape(l), Rank(l)) {
      forall m | SameFactorShapes(l, m) ensures Denotable(m) && SameResults(m, x, y) {
        if rx.Some? && Rank(l) == 0 {
          ZeroSelected(m, rx.value, ry.value);
        } else if rx.Some? {
          SameSelected(Dense(m), rx.value, ry.value);
        }
      }
    } else if rx.Some? && ry.Some? && KeptShape(rx.value) == KeptShape(ry.value) {
      var i := OtherAxis(rx.value, ry.value);
      OtherResult(l, rx.value, ry.value, i);
      assert SameFactorShapes(l, Showing(l, i, i == |l.a.shape| - 1));
    } else {
      assert SameFactorShapes(l, l);
    }
  }

  lemma ZeroSelected(m: Factors, sx: seq<Sel>, sy: seq<Sel>)
    requires Denotable(m) && Rank(m) == 0 && Fits(sx, Shape(m)) && Fits(sy, Shape(m)) && KeptShape(sx) == KeptShape(sy)
    ensures Select(Dense(m), sx) == Select(Dense(m), sy)
  {
    hide Size, At, Make, Dense, KeptShape, Expand, Fits;
    forall idx | Within(KeptShape(sx), idx) ensures At(Select(Dense(m), sx), idx) == At(Select(Dense(m), sy), idx) {
      NoRank(m, Expand(sx, Shape(m), idx));
      NoRank(m, Expand(sy, Shape(m), idx));
    }
    SameElements(Select(Dense(m), sx), Select(Dense(m), sy));
  }

  lemma OtherAxis(sx: seq<Sel>, sy: seq<Sel>) returns (i: nat)
    requires |sx| == |sy| && !SameAxes(sx, sy)
    ensures i < |sx| && !SameAxis(sx, sy, i)
  {
    i :| i < |sx| && !SameAxis(sx, sy, i);
  }

  lemma SameSelected(t: Tensor, sx: seq<Sel>, sy: seq<Sel>)
    requires Fits(sx, t.shape) && Fits(sy, t.shape) && KeptShape(sx) == KeptShape(sy)
    requires 0 in KeptShape(sx) || SameAxes(sx, sy)
    ensures Select(t, sx) == Select(t, sy)
  {
    hide Size, At, Make, KeptShape, Expand, Fits, SameAxes;
    forall idx | Within(KeptShape(sx), idx) ensures At(Select(t, sx), idx) == At(Select(t, sy), idx) {
      NoZero(KeptShape(sx), idx);
      SameSource(t.shape, sx, sy, idx);
    }
    SameElements(Select(t, sx), Select(t, sy));
  }

  lemma SameSource(s: seq<nat>, sx: seq<Sel>, sy: seq<Sel>, idx: seq<nat>)
    requires Fits(sx, s) && Fits(sy, s) && KeptShape(sx) == KeptShape(sy) && SameAxes(sx, sy)
    requires Within(KeptShape(sx), idx)
    ensures Expand(sx, s, idx) == Expand(sy, s, idx)
  {
    hide Size, KeptShape, Expand, KeptIndex;
    forall i | 0 <= i < |s| ensures Expand(sx, s, idx)[i] == Expand(sy, s, idx)[i] {
      ExpandAt(sx, s, idx, i);
      ExpandAt(sy, s, idx, i);
      assert SameAxis(sx, sy, i);
    }
  }

  /** Where two selections differ on an axis, some index of the result reads different positions. */
  lemma Distinguish(sx: seq<Sel>, sy: seq<Sel>, s: seq<nat>, i: nat) returns (idx: seq<nat>)
    requires Fits(sx, s) && Fits(sy, s) && KeptShape(sx) == KeptShape(sy) && 0 !in KeptShape(sx)
    requires i < |s| && !SameAxis(sx, sy, i)
    ensures Within(KeptShape(sx), idx)
    ensures sx[i].Keep? ==> KeptIndex(sx, i) < |idx| && idx[KeptIndex(sx, i)] < |sx[i].ps|
    ensures sy[i].Keep? ==> KeptIndex(sy, i) < |idx| && idx[KeptIndex(sy, i)] < |sy[i].ps|
    ensures SourceAt(sx[i], idx, KeptIndex(sx, i)) != SourceAt(sy[i], idx, KeptIndex(sy, i))
  {
    hide Size, KeptShape, KeptIndex, SelFits;
    var n, x, y := |KeptShape(sx)|, KeptIndex(sx, i), KeptIndex(sy, i);
    if sx[i].Keep? { KeptAxisSize(sx, i); }
    if sy[i].Keep? { KeptAxisSize(sy, i); }
    idx := ZerosBut(n, 0, 0);
    if SourceAt(sx[i], idx, x) == SourceAt(sy[i], idx, y) {
      var p := SourceAt(sx[i], idx, x);
      if !IsFixed(sx[i], p) {
        var q :| 0 <= q < |sx[i].ps| && sx[i].ps[q] != p;
        idx := ZerosBut(n, x, q);
        if sy[i].Keep? && x == y {
          assert sx[i].ps != sy[i].ps;
          q :| 0 <= q < |sx[i].ps| && sx[i].ps[q] != sy[i].ps[q];
          idx := ZerosBut(n, x, q);
        }
      } else {
        assert !IsFixed(sy[i], p);
        var q :| 0 <= q < |sy[i].ps| && sy[i].ps[q] != p;
        idx := ZerosBut(n, y, q);
        assert sx[i].Keep? ==> sx[i].ps[idx[x]] == p;
      }
    }
  }

  lemma OtherResult(l: Factors, sx: seq<Sel>, sy: seq<Sel>, i: nat)
    requires Denotable(l) && Rank(l) > 0 && Fits(sx, Shape(l)) && Fits(sy, Shape(l))
    requires KeptShape(sx) == KeptShape(sy) && 0 !in KeptShape(sx) && i < |sx| && !SameAxis(sx, sy, i)
    ensures var m := Showing(l, i, i == |l.a.shape| - 1); Select(Dense(m), sx) != Select(Dense(m), sy)
  {
    hide Size, KeptShape, KeptIndex, At, Make, Dense, Select, Showing, SameAxis, Fits, SourceAt;
    SelectionAxes(l, sx);
    var idx := Distinguish(sx, sy, Shape(l), i);
    OtherEntry(l, sx, sy, i, i == |l.a.shape| - 1, idx);
  }

  lemma OtherEntry(l: Factors, sx: seq<Sel>, sy: seq<Sel>, i: nat, byA: bool, idx: seq<nat>)
    requires Denotable(l) && Rank(l) > 0 && Fits(sx, Shape(l)) && Fits(sy, Shape(l)) && i < |l.a.shape|
    requires byA <==> i == |l.a.shape| - 1
    requires Within(KeptShape(sx), idx) && Within(KeptShape(sy), idx)
    requires sx[i].Keep? ==> KeptIndex(sx, i) < |idx| && idx[KeptIndex(sx, i)] < |sx[i].ps|
    requires sy[i].Keep? ==> KeptIndex(sy, i) < |idx| && idx[KeptIndex(sy, i)] < |sy[i].ps|
    requires SourceAt(sx[i], idx, KeptIndex(sx, i)) != SourceAt(sy[i], idx, KeptIndex(sy, i))
    ensures At(Select(Dense(Showing(l, i, byA)), sx), idx) != At(Select(Dense(Showing(l, i, byA)), sy), idx)
  {
    hide Size, KeptShape, KeptIndex, At, Make, Dense, Select, Showing, SourceAt, Fits, Times;
    ShowsSelected(l, i, byA, sx, idx);
    ShowsSelected(l, i, byA, sy, idx);
    Apart(Rank(l), SourceAt(sx[i], idx, KeptIndex(sx, i)), SourceAt(sy[i], idx, KeptIndex(sy, i)));
  }

  lemma SelectionAxes(l: Factors, sx: seq<Sel>)
    requires Denotable(l) && Fits(sx, Shape(l))
    ensures |sx| == |Shape(l)| == |l.a.shape|
  {
    hide SelFits, Size;
  }
}
