/** Indexing, stacking and concatenating LoraTorchTensors. */
module LoraIndexing {
  import opened Wrappers
  import opened Tensors
  import opened Lora

  // ---- selecting positions in both factors ----

  /** What a leading axis of A may do while the same axis of B and of the product does sd. */
  predicate Follows(sa: Sel, sd: Sel, da: nat, db: nat) {
    || (da == db && sa == sd)
    || (da == 1 && sd.Drop? && sa == Drop(0))
    || (da == 1 && sd.Keep? && sa == Keep([0]))
    || (da == 1 && sd == Keep([]) && sa == Keep([]))
  }

  ghost predicate AllFollow(sa: seq<Sel>, sd: seq<Sel>, da: seq<nat>, db: seq<nat>) {
    && |sa| == |sd| == |da| == |db|
    && Fits(sa, da) && Fits(sd, db)
    && forall i :: 0 <= i < |sa| ==> Follows(sa[i], sd[i], da[i], db[i])
  }

  /** A leading index of the selected A: position 0 where the axis is broadcast. */
  ghost predicate Broadcasts(sa: seq<nat>, la: seq<nat>, ld: seq<nat>) {
    |sa| == |la| == |ld| && forall i :: 0 <= i < |sa| ==> la[i] == if sa[i] == 1 then 0 else ld[i]
  }

  lemma {:induction false} FollowingShapes(sa: seq<Sel>, sd: seq<Sel>, da: seq<nat>, db: seq<nat>)
    requires AllFollow(sa, sd, da, db)
    ensures |KeptShape(sa)| == |KeptShape(sd)|
    ensures forall i :: 0 <= i < |KeptShape(sa)| ==> KeptShape(sa)[i] == 1 || KeptShape(sa)[i] == KeptShape(sd)[i]
  {
    if sa != [] {
      var k := |sa| - 1;
      assert Follows(sa[k], sd[k], da[k], db[k]);
      FollowingShapes(sa[..k], sd[..k], da[..k], db[..k]);
    }
  }

  lemma FollowPrefix(sa: seq<Sel>, sd: seq<Sel>, da: seq<nat>, db: seq<nat>)
    requires AllFollow(sa, sd, da, db) && sa != []
    ensures var k := |sa| - 1;
      && AllFollow(sa[..k], sd[..k], da[..k], db[..k]) && Follows(sa[k], sd[k], da[k], db[k])
      && SelFits(sa[k], da[k]) && SelFits(sd[k], db[k])
  {
    hide Follows;
  }

  lemma KeptLast(sels: seq<Sel>, idx: seq<nat>)
    requires sels != [] && Within(KeptShape(sels), idx)
    ensures var k := |sels| - 1;
      if sels[k].Drop? then Within(KeptShape(sels[..k]), idx)
      else
        && KeptShape(sels) == KeptShape(sels[..k]) + [|sels[k].ps|] && |idx| > 0
        && Within(KeptShape(sels[..k]), idx[..|idx| - 1]) && idx[|idx| - 1] < |sels[k].ps|
  {
    var k := |sels| - 1;
    KeptSplit(sels);
    if sels[k].Keep? {
      WithinInit(KeptShape(sels[..k]), |sels[k].ps|, idx);
    }
  }

  lemma KeptSplit(sels: seq<Sel>)
    requires sels != []
    ensures var k := |sels| - 1;
      KeptShape(sels) == KeptShape(sels[..k]) + (if sels[k].Drop? then [] else [|sels[k].ps|])
  {
  }

  lemma WithinInit(s: seq<nat>, d: nat, idx: seq<nat>)
    requires Within(s + [d], idx)
    ensures |idx| > 0 && Within(s, idx[..|idx| - 1]) && idx[|idx| - 1] < d
  {
    assert (s + [d])[|s|] == d;
    forall i | 0 <= i < |s| ensures idx[i] < s[i] {
      assert (s + [d])[i] == s[i];
    }
  }

  /** The selected A reads the same leading position, up to broadcasting, as the selected product. */
  lemma {:induction false} FollowingReads(sa: seq<Sel>, sd: seq<Sel>, da: seq<nat>, db: seq<nat>, la: seq<nat>, ld: seq<nat>)
    requires AllFollow(sa, sd, da, db)
    requires Within(KeptShape(sa), la) && Within(KeptShape(sd), ld)
    requires Broadcasts(KeptShape(sa), la, ld)
    ensures Broadcasts(da, Expand(sa, da, la), Expand(sd, db, ld))
  {
    hide Size, Follows, KeptShape, Within;
    if sa != [] {
      var k := |sa| - 1;
      FollowPrefix(sa, sd, da, db);
      FollowingKind(sa[k], sd[k], da[k], db[k]);
      KeptLast(sa, la);
      KeptLast(sd, ld);
      assert da == da[..k] + [da[k]];
      if sd[k].Drop? {
        assert KeptShape(sa) == KeptShape(sa[..k]) by { KeptDrop(sa); }
        FollowingReads(sa[..k], sd[..k], da[..k], db[..k], la, ld);
        BroadcastSnoc(da[..k], Expand(sa[..k], da[..k], la), Expand(sd[..k], db[..k], ld), da[k], sa[k].p, sd[k].p);
      } else {
        var m := |la| - 1;
        FollowingPosition(sa[k], sd[k], da[k], db[k], la[m], ld[m]);
        FollowingReads(sa[..k], sd[..k], da[..k], db[..k], la[..m], ld[..m]);
        BroadcastSnoc(da[..k], Expand(sa[..k], da[..k], la[..m]), Expand(sd[..k], db[..k], ld[..m]),
          da[k], sa[k].ps[la[m]], sd[k].ps[ld[m]]);
      }
    }
  }

  lemma KeptDrop(sels: seq<Sel>)
    requires sels != [] && sels[|sels| - 1].Drop?
    ensures KeptShape(sels) == KeptShape(sels[..|sels| - 1])
  {
  }

  lemma FollowingKind(sa: Sel, sd: Sel, da: nat, db: nat)
    requires Follows(sa, sd, da, db) && SelFits(sa, da)
    ensures sa.Drop? <==> sd.Drop?
    ensures sa.Drop? ==> sa.p == if da == 1 then 0 else sd.p
  {
  }

  lemma FollowingPosition(sa: Sel, sd: Sel, da: nat, db: nat, x: nat, y: nat)
    requires Follows(sa, sd, da, db) && SelFits(sa, da) && sa.Keep? && sd.Keep?
    requires x < |sa.ps| && y < |sd.ps| && x == if |sa.ps| == 1 then 0 else y
    ensures sa.ps[x] == if da == 1 then 0 else sd.ps[y]
  {
  }

  lemma BroadcastSnoc(s: seq<nat>, la: seq<nat>, ld: seq<nat>, d: nat, x: nat, y: nat)
    requires Broadcasts(s, la, ld) && x == if d == 1 then 0 else y
    ensures Broadcasts(s + [d], la + [x], ld + [y])
  {
  }

  /** A selection on the product: leading selections, rows and columns. */
  datatype Selection = Selection(leadA: seq<Sel>, lead: seq<Sel>, rows: seq<nat>, columns: seq<nat>)
  {
    function OnProduct(): seq<Sel> { lead + [Keep(rows)] + [Keep(columns)] }
    function OnA(rank: nat): seq<Sel> { leadA + [Keep(All(rank))] + [Keep(columns)] }
    function OnB(rank: nat): seq<Sel> { lead + [Keep(rows)] + [Keep(All(rank))] }

    ghost predicate Applies(l: Factors) {
      && Denotable(l)
      && var n := |l.a.shape|;
      && AllFollow(leadA, lead, l.a.shape[..n - 2], l.b.shape[..n - 2])
      && SelFits(Keep(rows), l.b.shape[n - 2]) && SelFits(Keep(columns), l.a.shape[n - 1])
    }
  }

  lemma SelectionFits(l: Factors, s: Selection)
    requires s.Applies(l)
    ensures Fits(s.OnProduct(), Shape(l)) && Fits(s.OnA(Rank(l)), l.a.shape) && Fits(s.OnB(Rank(l)), l.b.shape)
  {
  }

  ghost function SelectFactors(l: Factors, s: Selection): Factors
    requires s.Applies(l)
  {
    SelectionFits(l, s);
    Factors(Select(l.a, s.OnA(Rank(l))), Select(l.b, s.OnB(Rank(l))))
  }

  lemma KeptTwo(lead: seq<Sel>, ps: seq<nat>, qs: seq<nat>)
    ensures KeptShape(lead + [Keep(ps)] + [Keep(qs)]) == KeptShape(lead) + [|ps|] + [|qs|]
  {
    assert (lead + [Keep(ps)])[..|lead|] == lead;
    assert (lead + [Keep(ps)] + [Keep(qs)])[..|lead| + 1] == lead + [Keep(ps)];
  }

  lemma ExpandTwo(lead: seq<Sel>, s: seq<nat>, idx: seq<nat>, ps: seq<nat>, d: nat, x: nat, qs: seq<nat>, e: nat, y: nat)
    requires Fits(lead, s) && Within(KeptShape(lead), idx)
    requires SelFits(Keep(ps), d) && x < |ps| && SelFits(Keep(qs), e) && y < |qs|
    ensures var sels := lead + [Keep(ps)] + [Keep(qs)];
      && Fits(sels, s + [d] + [e]) && Within(KeptShape(sels), idx + [x] + [y])
      && Expand(sels, s + [d] + [e], idx + [x] + [y]) == Expand(lead, s, idx) + [ps[x]] + [qs[y]]
  {
    hide Fits, Within, Expand, KeptShape, Make, Dense;
    ExpandKeep(lead, s, idx, ps, d, x);
    ExpandKeep(lead + [Keep(ps)], s + [d], idx + [x], qs, e, y);
  }

  lemma SelectedShape(l: Factors, s: Selection)
    requires s.Applies(l)
    ensures var l' := SelectFactors(l, s);
      && Denotable(l') && Rank(l') == Rank(l)
      && Shape(l') == KeptShape(s.lead) + [|s.rows|] + [|s.columns|]
      && Fits(s.OnProduct(), Shape(l)) && KeptShape(s.OnProduct()) == Shape(l')
      && l'.a.shape == KeptShape(s.leadA) + [Rank(l)] + [|s.columns|]
      && |KeptShape(s.leadA)| == |KeptShape(s.lead)|
  {
    hide At, Ravel, Size, Select, Make, Dense;
    var n := |l.a.shape|;
    SelectionFits(l, s);
    KeptTwo(s.lead, s.rows, s.columns);
    KeptTwo(s.lead, s.rows, All(Rank(l)));
    KeptTwo(s.leadA, All(Rank(l)), s.columns);
    FollowingShapes(s.leadA, s.lead, l.a.shape[..n - 2], l.b.shape[..n - 2]);
  }

  /** Selecting positions in the factors selects them in the product. */
  lemma SelectCommutes(l: Factors, s: Selection)
    requires s.Applies(l)
    ensures Fits(s.OnProduct(), Shape(l))
    ensures var l' := SelectFactors(l, s);
      Denotable(l') && Rank(l') == Rank(l) && Select(Dense(l), s.OnProduct()) == Dense(l')
  {
    hide At, Ravel, Size, Make, Dense;
    SelectedShape(l, s);
    var l' := SelectFactors(l, s);
    var t := Select(Dense(l), s.OnProduct());
    forall idx | Within(t.shape, idx) ensures At(t, idx) == At(Dense(l'), idx) {
      SelectedEntry(l, s, l', idx);
    }
    SameElements(t, Dense(l'));
  }

  lemma SelectedEntry(l: Factors, s: Selection, l': Factors, idx: seq<nat>)
    requires s.Applies(l) && l' == SelectFactors(l, s) && Denotable(l') && Rank(l) == Rank(l')
    requires Fits(s.OnProduct(), Shape(l)) && KeptShape(s.OnProduct()) == Shape(l') && Within(Shape(l'), idx)
    ensures At(Select(Dense(l), s.OnProduct()), idx) == At(Dense(l'), idx)
  {
    hide At, Ravel, Size, KeptShape, Follows, Term, Expand, Make, Dense, Select, Fits;
    SelectedShape(l, s);
    var n, m := |l.a.shape|, |idx|;
    var ld, i, j := idx[..m - 2], idx[m - 2], idx[m - 1];
    assert idx == ld + [i] + [j];
    assert Within(KeptShape(s.lead), ld);
    var lead, d, e := l.b.shape[..n - 2], l.b.shape[n - 2], l.a.shape[n - 1];
    assert Shape(l) == lead + [d] + [e];
    SelectTwoAt(Dense(l), s.lead, lead, ld, s.rows, d, i, s.columns, e, j);
    var src := Expand(s.lead, lead, ld) + [s.rows[i]] + [s.columns[j]];
    forall k: nat | k < Rank(l) ensures Term(l, src, k) == Term(l', idx, k) {
      SelectedTerm(l, s, l', ld, i, j, k);
    }
    SameDot(l, src, l', idx, Rank(l));
  }

  lemma SelectTwoAt(t: Tensor, lead: seq<Sel>, s: seq<nat>, ld: seq<nat>, ps: seq<nat>, d: nat, x: nat, qs: seq<nat>, e: nat, y: nat)
    requires t.shape == s + [d] + [e] && Fits(lead, s) && Within(KeptShape(lead), ld)
    requires SelFits(Keep(ps), d) && x < |ps| && SelFits(Keep(qs), e) && y < |qs|
    ensures var sels := lead + [Keep(ps)] + [Keep(qs)];
      && Fits(sels, t.shape) && Within(KeptShape(sels), ld + [x] + [y])
      && Within(t.shape, Expand(lead, s, ld) + [ps[x]] + [qs[y]])
      && At(Select(t, sels), ld + [x] + [y]) == At(t, Expand(lead, s, ld) + [ps[x]] + [qs[y]])
  {
    hide At, Ravel, Size, KeptShape, Fits, Make, Dense;
    ExpandTwo(lead, s, ld, ps, d, x, qs, e, y);
  }

  lemma SelectedTerm(l: Factors, s: Selection, l': Factors, ld: seq<nat>, i: nat, j: nat, k: nat)
    requires s.Applies(l) && l' == SelectFactors(l, s) && Denotable(l') && Rank(l) == Rank(l') && k < Rank(l)
    requires Within(KeptShape(s.lead), ld) && i < |s.rows| && j < |s.columns|
    requires Within(Shape(l'), ld + [i] + [j])
    ensures var src := Expand(s.lead, l.b.shape[..|l.b.shape| - 2], ld) + [s.rows[i]] + [s.columns[j]];
      Within(Shape(l), src) && Term(l, src, k) == Term(l', ld + [i] + [j], k)
  {
    hide At, Ravel, Size, KeptShape, Expand, Select, Follows, Fits, Make, Dense, IndexA, IndexB, Times;
    var lead, idx := l.b.shape[..|l.b.shape| - 2], ld + [i] + [j];
    var src := Expand(s.lead, lead, ld) + [s.rows[i]] + [s.columns[j]];
    SelectedWithin(l, s, l', ld, i, j);
    TermIndices(l, src, k);
    TermIndices(l', idx, k);
    SelectedOfB(l, s, l', ld, i, j, k);
    SelectedOfA(l, s, l', ld, i, j, k);
  }

  lemma SelectedWithin(l: Factors, s: Selection, l': Factors, ld: seq<nat>, i: nat, j: nat)
    requires s.Applies(l) && l' == SelectFactors(l, s) && Within(KeptShape(s.lead), ld) && i < |s.rows| && j < |s.columns|
    ensures Within(Shape(l), Expand(s.lead, l.b.shape[..|l.b.shape| - 2], ld) + [s.rows[i]] + [s.columns[j]])
  {
    hide At, Ravel, Size, KeptShape, Expand, Select, Follows, Fits, Make, Dense;
    SelectedShape(l, s);
    var n := |l.a.shape|;
    assert Shape(l) == l.b.shape[..n - 2] + [l.b.shape[n - 2]] + [l.a.shape[n - 1]];
  }

  /** B is read in the row that is selected. */
  lemma SelectedOfB(l: Factors, s: Selection, l': Factors, ld: seq<nat>, i: nat, j: nat, k: nat)
    requires s.Applies(l) && l' == SelectFactors(l, s) && Denotable(l') && Rank(l) == Rank(l') && k < Rank(l)
    requires Within(KeptShape(s.lead), ld) && i < |s.rows| && j < |s.columns| && Within(Shape(l'), ld + [i] + [j])
    requires Within(l'.b.shape, IndexB(ld + [i] + [j], k))
    ensures var src := IndexB(Expand(s.lead, l.b.shape[..|l.b.shape| - 2], ld) + [s.rows[i]] + [s.columns[j]], k);
      Within(l.b.shape, src) && At(l.b, src) == At(l'.b, IndexB(ld + [i] + [j], k))
  {
    hide At, Ravel, Size, KeptShape, Expand, Select, Follows, Fits, Make, Dense;
    SelectedShape(l, s);
    var n, r := |l.b.shape|, Rank(l);
    var lead, d := l.b.shape[..n - 2], l.b.shape[n - 2];
    assert l.b.shape == lead + [d] + [r];
    assert IndexB(ld + [i] + [j], k) == ld + [i] + [k];
    assert IndexB(Expand(s.lead, lead, ld) + [s.rows[i]] + [s.columns[j]], k) == Expand(s.lead, lead, ld) + [s.rows[i]] + [k];
    SelectTwoAt(l.b, s.lead, lead, ld, s.rows, d, i, All(r), r, k);
  }

  /** A is read in the column that is selected. */
  lemma SelectedOfA(l: Factors, s: Selection, l': Factors, ld: seq<nat>, i: nat, j: nat, k: nat)
    requires s.Applies(l) && l' == SelectFactors(l, s) && Denotable(l') && Rank(l) == Rank(l') && k < Rank(l)
    requires Within(KeptShape(s.lead), ld) && i < |s.rows| && j < |s.columns| && Within(Shape(l'), ld + [i] + [j])
    requires Within(l'.a.shape, IndexA(l'.a.shape, ld + [i] + [j], k))
    ensures var src := IndexA(l.a.shape, Expand(s.lead, l.b.shape[..|l.b.shape| - 2], ld) + [s.rows[i]] + [s.columns[j]], k);
      Within(l.a.shape, src) && At(l.a, src) == At(l'.a, IndexA(l'.a.shape, ld + [i] + [j], k))
  {
    hide At, Ravel, Size, KeptShape, Expand, Select, Follows, Fits, Make, Dense;
    SelectedShape(l, s);
    var n, r := |l.a.shape|, Rank(l);
    var leadA, lead, e := l.a.shape[..n - 2], l.b.shape[..n - 2], l.a.shape[n - 1];
    assert l.a.shape == leadA + [r] + [e];
    var src, idx := Expand(s.lead, lead, ld) + [s.rows[i]] + [s.columns[j]], ld + [i] + [j];
    var at := IndexA(l'.a.shape, idx, k);
    var la := at[..|ld|];
    assert at == la + [k] + [j];
    assert Within(KeptShape(s.leadA), la);
    SelectTwoAt(l.a, s.leadA, leadA, la, All(r), r, k, s.columns, e, j);
    FollowingReads(s.leadA, s.lead, leadA, lead, la, ld);
    assert IndexA(l.a.shape, src, k) == Expand(s.leadA, leadA, la) + [k] + [s.columns[j]];
  }

  // ---- __getitem__ ----

  /** t[ix] with one integer or slice. */
  ghost function IndexFirst(l: Factors, ix: Ix): (r: Option<Factors>)
    requires Constructible(l) && !ix.Pick?
    ensures r.Some? ==> Constructible(r.value)
  {
    if |l.a.shape| > 2 then
      var a, b := Index(l.a, [ix]), Index(l.b, [ix]);
      if a.None? || b.None? then None else Construct(a.value, b.value)
    else if ix.One? then None
    else
      var b := Index(l.b, [ix]);
      if b.None? then None else Construct(l.a, b.value)
  }

  /** Full slices up to n components. */
  function Pad(ixs: seq<Ix>, n: nat): (full: seq<Ix>)
    ensures |ixs| <= n ==> |full| == n
  {
    ixs + seq(if |ixs| < n then n - |ixs| else 0, _ => EVERYTHING)
  }

  /** The components that t[ixs] applies to A: integers wrap around the axis of A, other leading
      components become full slices, and only the last component reaches the columns. */
  function ComponentsOfA(full: seq<Ix>, s: seq<nat>): seq<Ix>
    requires |full| == |s| >= 2 && forall i :: 0 <= i < |s| - 2 && full[i].One? ==> s[i] != 0
  {
    var n := |s|;
    seq(n - 2, i requires 0 <= i < n - 2 => if full[i].One? then One(full[i].j % s[i]) else EVERYTHING)
      + [EVERYTHING] + [full[n - 1]]
  }

  /** t[ixs] with a tuple of components. */
  ghost function IndexTuple(l: Factors, ixs: seq<Ix>): (r: Option<Factors>)
    requires Constructible(l)
    ensures r.Some? ==> Constructible(r.value)
  {
    var n := |l.a.shape|;
    var full := Pad(ixs, n);
    if ixs == [] || |ixs| > n then None
    else if exists i :: 0 <= i < n - 2 && full[i].One? && l.a.shape[i] == 0 then None
    else
      var a, b := Index(l.a, ComponentsOfA(full, l.a.shape)), Index(l.b, full[..n - 1]);
      if a.None? || b.None? then None else Construct(a.value, b.value)
  }

  /** A leading component is harmless if it is an integer, if A is broadcast along its axis,
      or if it keeps the axis as it is. */
  predicate Harmless(ix: Ix, da: nat, db: nat) {
    ix.One? || da == 1 || Resolve(ix, db) == Some(Keep(All(db)))
  }

  /** The factors still fit each other along an axis that keeps as many positions as it has. */
  predicate Fitting(ix: Ix, da: nat, db: nat) {
    ix.One? || da == 1 || match Resolve(ix, db) case Some(Keep(ps)) => |ps| == db case _ => false
  }

  predicate SameDrops(sa: seq<Sel>, sd: seq<Sel>) {
    |sa| == |sd| && forall i :: 0 <= i < |sa| ==> (sa[i].Drop? <==> sd[i].Drop?)
  }

  lemma {:induction false} SameDropCount(sa: seq<Sel>, sd: seq<Sel>)
    requires SameDrops(sa, sd)
    ensures |KeptShape(sa)| == |KeptShape(sd)|
  {
    if sa != [] {
      SameDropCount(sa[..|sa| - 1], sd[..|sd| - 1]);
    }
  }

  /** Every kept component of two parallel selections shows up at the same place of their shapes. */
  lemma {:induction false} KeptAxis(sa: seq<Sel>, sd: seq<Sel>, i: nat) returns (x: nat)
    requires SameDrops(sa, sd) && i < |sa| && sa[i].Keep?
    ensures x < |KeptShape(sa)| == |KeptShape(sd)|
    ensures KeptShape(sa)[x] == |sa[i].ps| && KeptShape(sd)[x] == |sd[i].ps|
  {
    var k := |sa| - 1;
    SameDropCount(sa, sd);
    SameDropCount(sa[..k], sd[..k]);
    if i == k {
      x := |KeptShape(sa[..k])|;
    } else {
      x := KeptAxis(sa[..k], sd[..k], i);
    }
  }

  lemma FullRange(ix: Ix, n: nat)
    requires ix.Range? && Resolve(ix, n).Some? && |Resolve(ix, n).value.ps| == n
    ensures Resolve(ix, n) == Some(Keep(All(n)))
  {
    StepsFull(0, n, ix.step);
    assert Resolve(ix, n).value.ps == All(n);
  }

  lemma FullSlice(n: nat)
    ensures Resolve(EVERYTHING, n) == Some(Keep(All(n)))
  {
    OneByOne(0, n);
    FullRange(EVERYTHING, n);
  }

  lemma {:induction false} OneByOne(lo: nat, hi: nat)
    requires lo <= hi
    ensures |Steps(lo, hi, 1)| == hi - lo
    decreases hi - lo
  {
    if lo < hi {
      OneByOne(lo + 1, hi);
    }
  }

  /** What a successful tuple index selects. */
  ghost function TupleSelection(l: Factors, full: seq<Ix>): Selection
    requires Denotable(l) && |full| == |l.a.shape|
  {
    var n := |full|;
    var at := (i: nat) requires i < n => Resolve(full[i], Shape(l)[i]);
    Selection(
      seq(n - 2, i requires 0 <= i < n - 2 =>
        if full[i].One? && l.a.shape[i] != 0 then Drop(full[i].j % l.a.shape[i]) else Keep(All(l.a.shape[i]))),
      seq(n - 2, i requires 0 <= i < n - 2 => if at(i).Some? then at(i).value else Keep([])),
      if at(n - 2).Some? && at(n - 2).value.Keep? then at(n - 2).value.ps else [],
      if at(n - 1).Some? && at(n - 1).value.Keep? then at(n - 1).value.ps else [])
  }

  lemma TuplePartsOfA(l: Factors, full: seq<Ix>, sa: seq<Sel>)
    requires Denotable(l) && |full| == |l.a.shape| && !full[|full| - 1].One?
    requires forall i :: 0 <= i < |full| - 2 && full[i].One? ==> l.a.shape[i] != 0
    requires ResolveAll(ComponentsOfA(full, l.a.shape), l.a.shape) == Some(sa)
    ensures var s := TupleSelection(l, full);
      && sa == s.OnA(Rank(l))
      && Fits(s.leadA, l.a.shape[..|full| - 2]) && SelFits(Keep(s.columns), l.a.shape[|full| - 1])
    ensures Resolve(full[|full| - 1], l.a.shape[|full| - 1]).Some?
  {
    hide Size, Resolve, All, SelFits;
    var n, s := |full|, TupleSelection(l, full);
    var cs := ComponentsOfA(full, l.a.shape);
    assert Resolve(cs[n - 1], l.a.shape[n - 1]) == Some(sa[n - 1]);
    assert Fits(sa, l.a.shape);
    forall i | 0 <= i < n ensures sa[i] == s.OnA(Rank(l))[i] {
      assert Resolve(cs[i], l.a.shape[i]) == Some(sa[i]);
      if i < n - 1 {
        if cs[i].One? {
          DropOne(cs[i], l.a.shape[i]);
        } else {
          FullSlice(l.a.shape[i]);
        }
      }
    }
    assert sa == s.OnA(Rank(l));
    forall i | 0 <= i < n - 2 ensures SelFits(s.leadA[i], l.a.shape[i]) {
      assert s.leadA[i] == sa[i];
    }
  }

  /** A non-negative integer in range fixes that position. */
  lemma DropOne(ix: Ix, n: nat)
    requires ix.One? && 0 <= ix.j < n
    ensures Resolve(ix, n) == Some(Drop(ix.j))
  {
  }

  lemma TuplePartsOfB(l: Factors, full: seq<Ix>, sa: seq<Sel>, sb: seq<Sel>)
    requires Denotable(l) && |full| == |l.a.shape| && !full[|full| - 2].One? && !full[|full| - 1].One?
    requires sa == TupleSelection(l, full).OnA(Rank(l)) && Resolve(full[|full| - 1], l.a.shape[|full| - 1]).Some?
    requires ResolveAll(full[..|full| - 1], l.b.shape) == Some(sb)
    requires forall i :: 0 <= i < |full| - 2 && full[i].One? ==> l.a.shape[i] != 0
    ensures var s := TupleSelection(l, full);
      && SameDrops(s.leadA, s.lead) && sb == s.OnB(Rank(l)) && ResolveAll(full, Shape(l)) == Some(s.OnProduct())
      && Fits(s.lead, l.b.shape[..|full| - 2]) && SelFits(Keep(s.rows), l.b.shape[|full| - 2])
  {
    hide Size, Make, Dense;
    var n, s := |full|, TupleSelection(l, full);
    assert forall i :: 0 <= i < n - 1 ==> Resolve(full[i], l.b.shape[i]) == Some(sb[i]);
    assert sb == s.OnB(Rank(l));
    forall i | 0 <= i < n ensures Resolve(full[i], Shape(l)[i]) == Some(s.OnProduct()[i]) {
      assert i < n - 1 ==> Resolve(full[i], l.b.shape[i]) == Some(sb[i]);
    }
    assert ResolveAll(full, Shape(l)).value == s.OnProduct();
  }

  lemma ResolvedAt(ixs: seq<Ix>, s: seq<nat>, sels: seq<Sel>, i: nat)
    requires ResolveAll(ixs, s) == Some(sels) && i < |ixs|
    ensures |ixs| <= |s| == |sels| && (sels[i].Drop? <==> ixs[i].One?)
  {
    hide Resolve;
    assert Resolve(ixs[i], s[i]) == Some(sels[i]);
  }

  /** A's components are integers where the tuple has them, but for the row. */
  lemma ComponentKind(full: seq<Ix>, s: seq<nat>, i: nat)
    requires |full| == |s| >= 2 && forall i :: 0 <= i < |s| - 2 && full[i].One? ==> s[i] != 0
    requires i < |s|
    ensures |ComponentsOfA(full, s)| == |s|
    ensures ComponentsOfA(full, s)[i].One? <==> full[i].One? && i != |s| - 2
  {
  }

  /** An accepted tuple index whose row component is not an integer has no integer for the columns either:
      the factors would have different numbers of axes. */
  lemma {:induction false} NoIntegerColumn(l: Factors, full: seq<Ix>, sa: seq<Sel>, sb: seq<Sel>)
    requires Denotable(l) && |full| == |l.a.shape| && !full[|full| - 2].One?
    requires forall i :: 0 <= i < |full| - 2 && full[i].One? ==> l.a.shape[i] != 0
    requires ResolveAll(ComponentsOfA(full, l.a.shape), l.a.shape) == Some(sa)
    requires ResolveAll(full[..|full| - 1], l.b.shape) == Some(sb)
    requires |KeptShape(sa)| == |KeptShape(sb)|
    ensures !full[|full| - 1].One?
  {
    hide Size, Make, Dense, Resolve, ResolveAll, KeptShape, ComponentsOfA;
    var n := |full|;
    var cs := ComponentsOfA(full, l.a.shape);
    forall i | 0 <= i < n - 1 ensures sa[i].Drop? <==> sb[i].Drop? {
      ComponentKind(full, l.a.shape, i);
      ResolvedAt(cs, l.a.shape, sa, i);
      ResolvedAt(full[..n - 1], l.b.shape, sb, i);
    }
    ComponentKind(full, l.a.shape, n - 1);
    ResolvedAt(cs, l.a.shape, sa, n - 1);
    SameDropCount(sa[..n - 1], sb[..n - 1]);
    KeptSplit(sa);
    KeptSplit(sb);
  }

  lemma WrapAround(j: int, d: nat)
    requires 0 <= j + d < 2 * d
    ensures j % d == if j < 0 then j + d else j
  {
  }

  lemma HarmlessFollows(l: Factors, full: seq<Ix>, i: nat)
    requires Denotable(l) && |full| == |l.a.shape| && i < |full| - 2 && (full[i].One? ==> l.a.shape[i] != 0)
    requires Resolve(full[i], l.b.shape[i]).Some? && Harmless(full[i], l.a.shape[i], l.b.shape[i])
    ensures Follows(TupleSelection(l, full).leadA[i], TupleSelection(l, full).lead[i], l.a.shape[i], l.b.shape[i])
  {
    var da, db := l.a.shape[i], l.b.shape[i];
    if full[i].One? && da == db {
      WrapAround(full[i].j, da);
    } else if !full[i].One? && da == 1 {
      assert All(da) == [0];
    }
  }

  /** Tuple indexing commutes with the product when every leading component is harmless: a proper slice
      or a list on an axis that A really has is applied to B only. There is a product at all exactly when
      every leading component keeps the factors fitting. */
  lemma {:induction false} IndexTupleCommutes(l: Factors, ixs: seq<Ix>)
    requires Denotable(l) && IndexTuple(l, ixs).Some? && !Pad(ixs, |l.a.shape|)[|l.a.shape| - 2].One?
    ensures var n, full, l' := |l.a.shape|, Pad(ixs, |l.a.shape|), IndexTuple(l, ixs).value;
      (forall i :: 0 <= i < n - 2 ==> Harmless(full[i], l.a.shape[i], l.b.shape[i])) ==>
        Denotable(l') && Rank(l') == Rank(l) && Index(Dense(l), full) == Some(Dense(l'))
    ensures var n, full, l' := |l.a.shape|, Pad(ixs, |l.a.shape|), IndexTuple(l, ixs).value;
      Denotable(l') <==> forall i :: 0 <= i < n - 2 ==> Fitting(full[i], l.a.shape[i], l.b.shape[i])
  {
    hide Size, At, Ravel, KeptShape, Select, TupleSelection, ComponentsOfA, Dense, Pad, Index, Fits, Make, Harmless, Fitting;
    var n, full, l' := |l.a.shape|, Pad(ixs, |l.a.shape|), IndexTuple(l, ixs).value;
    TupleAccepted(l, ixs);
    TupleFits(l, full, l');
    if forall i :: 0 <= i < n - 2 ==> Harmless(full[i], l.a.shape[i], l.b.shape[i]) {
      TupleHarmless(l, full, l');
    }
  }

  lemma TupleFits(l: Factors, full: seq<Ix>, l': Factors)
    requires Denotable(l) && |full| == |l.a.shape|
    requires forall i :: 0 <= i < |full| - 2 && full[i].One? ==> l.a.shape[i] != 0
    requires var s := TupleSelection(l, full);
      && SameDrops(s.leadA, s.lead) && Fits(s.OnA(Rank(l)), l.a.shape) && Fits(s.OnB(Rank(l)), l.b.shape)
      && ResolveAll(full, Shape(l)) == Some(s.OnProduct())
      && l' == Factors(Select(l.a, s.OnA(Rank(l))), Select(l.b, s.OnB(Rank(l))))
    ensures Denotable(l') <==> forall i :: 0 <= i < |full| - 2 ==> Fitting(full[i], l.a.shape[i], l.b.shape[i])
    ensures Constructible(l') && Rank(l') == Rank(l)
    ensures var s := TupleSelection(l, full);
      Shape(l') == KeptShape(s.OnProduct()) && l'.a.shape == KeptShape(s.leadA) + [Rank(l)] + [|s.columns|]
  {
    hide Size, At, Ravel, KeptShape, Select, TupleSelection, Make, Dense, Fits, Fitting;
    var s, n := TupleSelection(l, full), |full|;
    KeptTwo(s.leadA, All(Rank(l)), s.columns);
    KeptTwo(s.lead, s.rows, All(Rank(l)));
    KeptTwo(s.lead, s.rows, s.columns);
    SameDropCount(s.leadA, s.lead);
    forall i | 0 <= i < n - 2 ensures Fitting(full[i], l.a.shape[i], l.b.shape[i]) <==> SameAxisSize(s.leadA[i], s.lead[i]) {
      AxisFits(l, full, i);
    }
    assert |s.leadA| == n - 2 by { SelectionSize(l, full); }
    SameSizes(s.leadA, s.lead);
    assert forall x :: 0 <= x < |KeptShape(s.leadA)| ==>
      l'.a.shape[x] == KeptShape(s.leadA)[x] && l'.b.shape[x] == KeptShape(s.lead)[x];
  }

  lemma SelectionSize(l: Factors, full: seq<Ix>)
    requires Denotable(l) && |full| == |l.a.shape|
    ensures |TupleSelection(l, full).leadA| == |TupleSelection(l, full).lead| == |full| - 2
  {
    hide Resolve, Size;
  }

  predicate SameAxisSize(sa: Sel, sd: Sel) {
    sa.Drop? || sd.Drop? || |sa.ps| == 1 || |sa.ps| == |sd.ps|
  }

  lemma AxisFits(l: Factors, full: seq<Ix>, i: nat)
    requires Denotable(l) && |full| == |l.a.shape| && i < |full| - 2
    requires full[i].One? ==> l.a.shape[i] != 0
    requires Resolve(full[i], Shape(l)[i]).Some?
    ensures var s := TupleSelection(l, full);
      && i < |s.leadA| && i < |s.lead|
      && (Fitting(full[i], l.a.shape[i], l.b.shape[i]) <==> SameAxisSize(s.leadA[i], s.lead[i]))
  {
    hide Size, Resolve, SelFits;
    assert Shape(l)[i] == l.b.shape[i];
  }

  /** Broadcastable axes are kept as broadcastable ones, and no others are. */
  lemma {:induction false} SameSizes(sa: seq<Sel>, sd: seq<Sel>)
    requires SameDrops(sa, sd)
    ensures |KeptShape(sa)| == |KeptShape(sd)|
    ensures (forall i :: 0 <= i < |sa| ==> SameAxisSize(sa[i], sd[i])) <==>
      forall x :: 0 <= x < |KeptShape(sa)| ==> KeptShape(sa)[x] == 1 || KeptShape(sa)[x] == KeptShape(sd)[x]
  {
    SameDropCount(sa, sd);
    if sa != [] {
      var k := |sa| - 1;
      SameSizes(sa[..k], sd[..k]);
      KeptSplit(sa);
      KeptSplit(sd);
      var m := |KeptShape(sa[..k])|;
      assert forall i :: 0 <= i < k ==> sa[..k][i] == sa[i] && sd[..k][i] == sd[i];
      assert forall x :: 0 <= x < m ==> KeptShape(sa)[x] == KeptShape(sa[..k])[x] && KeptShape(sd)[x] == KeptShape(sd[..k])[x];
      if sa[k].Keep? {
        assert KeptShape(sa)[m] == |sa[k].ps| && KeptShape(sd)[m] == |sd[k].ps|;
      }
    }
  }

  lemma TupleHarmless(l: Factors, full: seq<Ix>, l': Factors)
    requires Denotable(l) && |full| == |l.a.shape|
    requires forall i :: 0 <= i < |full| - 2 ==> Harmless(full[i], l.a.shape[i], l.b.shape[i])
    requires forall i :: 0 <= i < |full| - 2 && full[i].One? ==> l.a.shape[i] != 0
    requires var s := TupleSelection(l, full);
      && Fits(s.leadA, l.a.shape[..|full| - 2]) && Fits(s.lead, l.b.shape[..|full| - 2])
      && SelFits(Keep(s.rows), l.b.shape[|full| - 2]) && SelFits(Keep(s.columns), l.a.shape[|full| - 1])
      && ResolveAll(full, Shape(l)) == Some(s.OnProduct())
      && Fits(s.OnA(Rank(l)), l.a.shape) && Fits(s.OnB(Rank(l)), l.b.shape)
      && l' == Factors(Select(l.a, s.OnA(Rank(l))), Select(l.b, s.OnB(Rank(l))))
    ensures Denotable(l') && Rank(l') == Rank(l) && Index(Dense(l), full) == Some(Dense(l'))
  {
    hide Size, At, Ravel, KeptShape, Harmless, Select, TupleSelection, Make, Dense;
    TupleApplies(l, full);
    SelectCommutes(l, TupleSelection(l, full));
  }

  lemma TupleAccepted(l: Factors, ixs: seq<Ix>)
    requires Denotable(l) && IndexTuple(l, ixs).Some? && !Pad(ixs, |l.a.shape|)[|l.a.shape| - 2].One?
    ensures var full := Pad(ixs, |l.a.shape|);
      var s := TupleSelection(l, full);
      && (forall i :: 0 <= i < |full| - 2 && full[i].One? ==> l.a.shape[i] != 0)
      && SameDrops(s.leadA, s.lead) && Fits(s.OnA(Rank(l)), l.a.shape) && Fits(s.OnB(Rank(l)), l.b.shape)
      && Fits(s.leadA, l.a.shape[..|full| - 2]) && Fits(s.lead, l.b.shape[..|full| - 2])
      && SelFits(Keep(s.rows), l.b.shape[|full| - 2]) && SelFits(Keep(s.columns), l.a.shape[|full| - 1])
      && ResolveAll(full, Shape(l)) == Some(s.OnProduct())
      && IndexTuple(l, ixs).value == Factors(Select(l.a, s.OnA(Rank(l))), Select(l.b, s.OnB(Rank(l))))
  {
    hide Size, At, Ravel, KeptShape, TupleSelection, ComponentsOfA, SelFits, Make, Dense, Pad, Resolve, Select;
    var n, full := |l.a.shape|, Pad(ixs, |l.a.shape|);
    var sa := ResolveAll(ComponentsOfA(full, l.a.shape), l.a.shape).value;
    var sb := ResolveAll(full[..n - 1], l.b.shape).value;
    NoIntegerColumn(l, full, sa, sb);
    TuplePartsOfA(l, full, sa);
    TuplePartsOfB(l, full, sa, sb);
  }

  lemma TupleApplies(l: Factors, full: seq<Ix>)
    requires Denotable(l) && |full| == |l.a.shape|
    requires forall i :: 0 <= i < |full| - 2 ==> Harmless(full[i], l.a.shape[i], l.b.shape[i])
    requires forall i :: 0 <= i < |full| - 2 && full[i].One? ==> l.a.shape[i] != 0
    requires ResolveAll(full, Shape(l)).Some?
    requires var s := TupleSelection(l, full);
      && Fits(s.leadA, l.a.shape[..|full| - 2]) && Fits(s.lead, l.b.shape[..|full| - 2])
      && SelFits(Keep(s.rows), l.b.shape[|full| - 2]) && SelFits(Keep(s.columns), l.a.shape[|full| - 1])
    ensures TupleSelection(l, full).Applies(l)
  {
    hide Size, TupleSelection, Harmless, Follows, Make, Dense;
    var n, s := |full|, TupleSelection(l, full);
    forall i | 0 <= i < n - 2 ensures Follows(s.leadA[i], s.lead[i], l.a.shape[i], l.b.shape[i]) {
      assert Resolve(full[i], Shape(l)[i]).Some?;
      HarmlessFollows(l, full, i);
    }
  }

  /** With an integer for the row, the constructor accepts only if there is one for the column too, and
      then the result always has one axis more than torch leaves. */
  lemma {:induction false} IntegerRowNeverRight(l: Factors, ixs: seq<Ix>)
    requires Denotable(l) && IndexTuple(l, ixs).Some? && Pad(ixs, |l.a.shape|)[|l.a.shape| - 2].One?
    ensures var full := Pad(ixs, |l.a.shape|);
      && full[|full| - 1].One? && Index(Dense(l), full).Some?
      && |Shape(IndexTuple(l, ixs).value)| == |Index(Dense(l), full).value.shape| + 1
  {
    hide Size, At, Ravel, KeptShape, ComponentsOfA, SelFits, Make, Dense, Pad, Resolve;
    var n, full := |l.a.shape|, Pad(ixs, |l.a.shape|);
    var cs := ComponentsOfA(full, l.a.shape);
    var sa := ResolveAll(cs, l.a.shape).value;
    var sb := ResolveAll(full[..n - 1], l.b.shape).value;
    IntegerRowParts(l, full, sa, sb);
    var sp := ResolveAll(full, Shape(l)).value;
    SameDropCount(sa[..n - 2], sb[..n - 2]);
    SameDropCount(sp[..n - 2], sb[..n - 2]);
    KeptEnd(sa);
    KeptEnd(sb);
    KeptEnd(sp);
  }

  lemma KeptEnd(sels: seq<Sel>)
    requires |sels| >= 2
    ensures var n := |sels|;
      |KeptShape(sels)| == |KeptShape(sels[..n - 2])| +
        (if sels[n - 2].Drop? then 0 else 1) + (if sels[n - 1].Drop? then 0 else 1)
  {
    var n := |sels|;
    assert sels[..n - 1][..n - 2] == sels[..n - 2];
    KeptSplit(sels);
    KeptSplit(sels[..n - 1]);
  }

  lemma {:induction false} IntegerRowParts(l: Factors, full: seq<Ix>, sa: seq<Sel>, sb: seq<Sel>)
    requires Denotable(l) && |full| == |l.a.shape| && full[|full| - 2].One?
    requires forall i :: 0 <= i < |full| - 2 && full[i].One? ==> l.a.shape[i] != 0
    requires ResolveAll(ComponentsOfA(full, l.a.shape), l.a.shape) == Some(sa)
    requires ResolveAll(full[..|full| - 1], l.b.shape) == Some(sb)
    ensures ResolveAll(full, Shape(l)).Some?
    ensures var n, sp := |full|, ResolveAll(full, Shape(l)).value;
      && |sa| == |sb| == |sp| == n && SameDrops(sa[..n - 2], sb[..n - 2]) && SameDrops(sp[..n - 2], sb[..n - 2])
      && sa[n - 2].Keep? && sb[n - 2].Drop? && sp[n - 2].Drop? && sb[n - 1].Keep?
      && (sa[n - 1].Drop? <==> full[n - 1].One?) && (sp[n - 1].Drop? <==> full[n - 1].One?)
  {
    hide Size, Make, Dense, KeptShape, SelFits;
    var n, cs := |full|, ComponentsOfA(full, l.a.shape);
    forall i | 0 <= i < n ensures Resolve(full[i], Shape(l)[i]).Some? {
      assert i < n - 1 ==> Resolve(full[..n - 1][i], l.b.shape[i]) == Some(sb[i]);
      assert Resolve(cs[i], l.a.shape[i]) == Some(sa[i]);
    }
    var sp := ResolveAll(full, Shape(l)).value;
    forall i | 0 <= i < n
      ensures sa[i].Drop? <==> cs[i].One?
      ensures sb[i].Drop? <==> i < n - 1 && full[i].One?
      ensures sp[i].Drop? <==> full[i].One?
    {
      assert Resolve(cs[i], l.a.shape[i]) == Some(sa[i]);
      assert i < n - 1 ==> Resolve(full[..n - 1][i], l.b.shape[i]) == Some(sb[i]);
      assert Resolve(full[i], Shape(l)[i]) == Some(sp[i]);
    }
  }

  lemma IntegersWritten()
    ensures var ixs := [EVERYTHING, One(0), One(0)];
      && Pad(ixs, 3) == ixs && ixs[..2] == [EVERYTHING, One(0)]
      && ComponentsOfA(ixs, [1, 1, 1]) == [EVERYTHING, EVERYTHING, One(0)]
  {
    assert One(0 % 1) == One(0);
  }

  /** Such an index is accepted, for instance, whenever the leading size happens to equal the rank. */
  lemma IntegerRowAndColumn()
    ensures var l, ixs := Scalar(), [EVERYTHING, One(0), One(0)];
      && Denotable(l) && IndexTuple(l, ixs).Some? && |Shape(IndexTuple(l, ixs).value)| == 2
      && Index(Dense(l), ixs).Some? && |Index(Dense(l), ixs).value.shape| == 1
  {
    hide Size, At, Ravel, Make, Dense, Resolve, ResolveAll, KeptShape, Select, Scalar, Pad, ComponentsOfA;
    var l, ixs := Scalar(), [EVERYTHING, One(0), One(0)];
    var all := Keep(All(1));
    IntegersWritten();
    ResolveScalar([EVERYTHING, EVERYTHING, One(0)], [all, all, Drop(0)]);
    ResolveScalar([EVERYTHING, One(0)], [all, Drop(0), all]);
    ResolveScalar(ixs, [all, Drop(0), Drop(0)]);
    assert Shape(l) == [1, 1, 1];
  }

  /** The 1 by 1 by 1 product of two 1 by 1 by 1 factors. */
  function Scalar(): (l: Factors)
    ensures Denotable(l) && l.a.shape == l.b.shape == [1, 1, 1]
  {
    SizeOnes(3);
    assert Ones(3) == [1, 1, 1];
    Factors(RawTensor.Tensor([1, 1, 1], [0.0]), RawTensor.Tensor([1, 1, 1], [0.0]))
  }

  lemma ResolvedOnOne()
    ensures Resolve(EVERYTHING, 1) == Some(Keep(All(1))) && Resolve(One(0), 1) == Some(Drop(0))
  {
    FullRange(EVERYTHING, 1);
  }

  lemma ResolveScalar(ixs: seq<Ix>, sels: seq<Sel>)
    requires |ixs| <= 3 == |sels|
    requires forall i :: 0 <= i < |ixs| ==>
      || (ixs[i] == EVERYTHING && sels[i] == Keep(All(1)))
      || (ixs[i] == One(0) && sels[i] == Drop(0))
    requires forall i :: |ixs| <= i < 3 ==> sels[i] == Keep(All(1))
    ensures ResolveAll(ixs, [1, 1, 1]) == Some(sels)
    ensures KeptShape(sels) == KeptOne(sels[0]) + KeptOne(sels[1]) + KeptOne(sels[2])
  {
    hide KeptShape, Resolve;
    ResolvedOnOne();
    assert ResolveAll(ixs, [1, 1, 1]).value == sels;
    KeptThree(sels);
  }

  lemma KeptThree(sels: seq<Sel>)
    requires |sels| == 3
    ensures KeptShape(sels) == KeptOne(sels[0]) + KeptOne(sels[1]) + KeptOne(sels[2])
  {
    assert sels[..2][..1][..0] == [] && sels[..2][..1] == [sels[0]] && sels[..2] == [sels[0], sels[1]];
    assert KeptShape(sels[..2][..1]) == KeptOne(sels[0]);
    assert KeptShape(sels[..2]) == KeptOne(sels[0]) + KeptOne(sels[1]);
  }

  function KeptOne(s: Sel): seq<nat> {
    match s case Drop(_) => [] case Keep(ps) => [|ps|]
  }

  /** When the first axis of A is selected as that of B is. */
  lemma LeadHarmless(l: Factors, ix: Ix)
    requires Denotable(l) && |l.a.shape| > 2 && !ix.Pick? && Resolve(ix, l.a.shape[0]).Some? && Resolve(ix, l.b.shape[0]).Some?
    ensures var s := LeadSelection(l, ix);
      Follows(s.leadA[0], s.lead[0], l.a.shape[0], l.b.shape[0]) <==>
        || ix.One? || l.a.shape[0] == l.b.shape[0]
        || Resolve(ix, 1) == Some(Keep([0])) || Resolve(ix, l.b.shape[0]) == Some(Keep([]))
  {
    if ix.Range? && l.a.shape[0] == 1 {
      SliceOfBroadcastAxis(ix);
    }
  }

  lemma IndexLead(l: Factors, ix: Ix)
    requires Denotable(l) && |l.a.shape| > 2 && !ix.Pick? && IndexFirst(l, ix).Some?
    ensures var l' := IndexFirst(l, ix).value;
      Denotable(l') <==>
        || ix.One? || l.a.shape[0] == l.b.shape[0]
        || Resolve(ix, 1) == Some(Keep([0])) || Resolve(ix, l.b.shape[0]) == Some(Keep([]))
    ensures var l' := IndexFirst(l, ix).value;
      Denotable(l') ==> Rank(l') == Rank(l) && Index(Dense(l), [ix]) == Some(Dense(l'))
  {
    hide At, Ravel, Size, Select, Make, Dense, Resolve, ResolveAll, LeadSelection, Follows, KeptShape;
    var s := LeadSelection(l, ix);
    LeadParts(l, ix);
    LeadFollows(l, ix);
    LeadHarmless(l, ix);
    if Follows(s.leadA[0], s.lead[0], l.a.shape[0], l.b.shape[0]) {
      SelectCommutes(l, s);
    } else {
      LeadNotDenotable(l, ix);
    }
  }

  ghost function LeadSelection(l: Factors, ix: Ix): Selection
    requires Denotable(l) && |l.a.shape| > 2 && Resolve(ix, l.a.shape[0]).Some? && Resolve(ix, l.b.shape[0]).Some?
  {
    var n := |l.a.shape|;
    Selection(
      [Resolve(ix, l.a.shape[0]).value] + seq(n - 3, i requires 0 <= i < n - 3 => Keep(All(l.a.shape[i + 1]))),
      [Resolve(ix, l.b.shape[0]).value] + seq(n - 3, i requires 0 <= i < n - 3 => Keep(All(l.b.shape[i + 1]))),
      All(l.b.shape[n - 2]), All(l.a.shape[n - 1]))
  }

  lemma LeadComponents(ix: Ix, s: seq<nat>, sels: seq<Sel>)
    requires |sels| == |s| > 0 && Resolve(ix, s[0]) == Some(sels[0])
    requires forall i :: 0 < i < |s| ==> sels[i] == Keep(All(s[i]))
    ensures ResolveAll([ix], s) == Some(sels)
  {
    hide Resolve, SelFits, All;
    assert ResolveAll([ix], s).value == sels;
  }

  lemma LeadParts(l: Factors, ix: Ix)
    requires Denotable(l) && |l.a.shape| > 2 && Resolve(ix, l.a.shape[0]).Some? && Resolve(ix, l.b.shape[0]).Some?
    ensures var s := LeadSelection(l, ix);
      && ResolveAll([ix], l.a.shape) == Some(s.OnA(Rank(l))) && ResolveAll([ix], l.b.shape) == Some(s.OnB(Rank(l)))
      && ResolveAll([ix], Shape(l)) == Some(s.OnProduct())
  {
    hide At, Ravel, Size, Select, Make, Dense, Resolve, ResolveAll, LeadSelection;
    LeadPartA(l, ix);
    LeadPartB(l, ix);
    LeadPartProduct(l, ix);
  }

  lemma LeadPartA(l: Factors, ix: Ix)
    requires Denotable(l) && |l.a.shape| > 2 && Resolve(ix, l.a.shape[0]).Some? && Resolve(ix, l.b.shape[0]).Some?
    ensures ResolveAll([ix], l.a.shape) == Some(LeadSelection(l, ix).OnA(Rank(l)))
  {
    hide Size, Resolve, ResolveAll, All, SelFits;
    LeadComponents(ix, l.a.shape, LeadSelection(l, ix).OnA(Rank(l)));
  }

  lemma LeadPartB(l: Factors, ix: Ix)
    requires Denotable(l) && |l.a.shape| > 2 && Resolve(ix, l.a.shape[0]).Some? && Resolve(ix, l.b.shape[0]).Some?
    ensures ResolveAll([ix], l.b.shape) == Some(LeadSelection(l, ix).OnB(Rank(l)))
  {
    hide Size, Resolve, ResolveAll, All, SelFits;
    LeadComponents(ix, l.b.shape, LeadSelection(l, ix).OnB(Rank(l)));
  }

  lemma LeadPartProduct(l: Factors, ix: Ix)
    requires Denotable(l) && |l.a.shape| > 2 && Resolve(ix, l.a.shape[0]).Some? && Resolve(ix, l.b.shape[0]).Some?
    ensures ResolveAll([ix], Shape(l)) == Some(LeadSelection(l, ix).OnProduct())
  {
    hide Size, Resolve, ResolveAll, All, SelFits;
    LeadComponents(ix, Shape(l), LeadSelection(l, ix).OnProduct());
  }

  lemma LeadAxis(l: Factors, ix: Ix, i: nat)
    requires Denotable(l) && |l.a.shape| > 2 && Resolve(ix, l.a.shape[0]).Some? && Resolve(ix, l.b.shape[0]).Some?
    requires i < |l.a.shape| - 2
    ensures var s := LeadSelection(l, ix);
      && (s.leadA[i].Drop? <==> s.lead[i].Drop?)
      && SelFits(s.leadA[i], l.a.shape[i]) && SelFits(s.lead[i], l.b.shape[i])
      && (i > 0 ==> Follows(s.leadA[i], s.lead[i], l.a.shape[i], l.b.shape[i]))
  {
    hide At, Ravel, Size;
    var s := LeadSelection(l, ix);
    if i > 0 {
      assert s.leadA[i] == Keep(All(l.a.shape[i])) && s.lead[i] == Keep(All(l.b.shape[i]));
      assert All(1) == [0];
    } else {
      assert s.leadA[0] == Resolve(ix, l.a.shape[0]).value && s.lead[0] == Resolve(ix, l.b.shape[0]).value;
    }
  }

  lemma LeadFollows(l: Factors, ix: Ix)
    requires Denotable(l) && |l.a.shape| > 2 && Resolve(ix, l.a.shape[0]).Some? && Resolve(ix, l.b.shape[0]).Some?
    ensures var s := LeadSelection(l, ix);
      && SameDrops(s.leadA, s.lead)
      && (Follows(s.leadA[0], s.lead[0], l.a.shape[0], l.b.shape[0]) ==> s.Applies(l))
  {
    hide At, Ravel, Size, Resolve, Follows, LeadSelection, SelFits;
    var n, s := |l.a.shape|, LeadSelection(l, ix);
    LeadSelectionSizes(l, ix);
    forall i | 0 <= i < n - 2
      ensures s.leadA[i].Drop? <==> s.lead[i].Drop?
      ensures SelFits(s.leadA[i], l.a.shape[i]) && SelFits(s.lead[i], l.b.shape[i])
      ensures i > 0 ==> Follows(s.leadA[i], s.lead[i], l.a.shape[i], l.b.shape[i])
    {
      LeadAxis(l, ix, i);
    }
  }

  lemma LeadSelectionSizes(l: Factors, ix: Ix)
    requires Denotable(l) && |l.a.shape| > 2 && Resolve(ix, l.a.shape[0]).Some? && Resolve(ix, l.b.shape[0]).Some?
    ensures var s, n := LeadSelection(l, ix), |l.a.shape|;
      && |s.leadA| == |s.lead| == n - 2
      && SelFits(Keep(s.rows), l.b.shape[n - 2]) && SelFits(Keep(s.columns), l.a.shape[n - 1])
  {
    hide Size, Resolve;
  }

  lemma SliceOfBroadcastAxis(ix: Ix)
    requires ix.Range? && Resolve(ix, 1).Some?
    ensures Resolve(ix, 1) == Some(Keep([0])) || Resolve(ix, 1) == Some(Keep([]))
  {
    var ps := Resolve(ix, 1).value.ps;
    assert ps == [] || ps == [0];
  }

  lemma LeadNotDenotable(l: Factors, ix: Ix)
    requires Denotable(l) && |l.a.shape| > 2 && !ix.Pick? && IndexFirst(l, ix).Some?
    requires var s := LeadSelection(l, ix);
      SameDrops(s.leadA, s.lead) && !Follows(s.leadA[0], s.lead[0], l.a.shape[0], l.b.shape[0])
    ensures !Denotable(IndexFirst(l, ix).value)
  {
    hide At, Ravel, Size, Select, KeptShape, Make, Dense;
    var s := LeadSelection(l, ix);
    LeadParts(l, ix);
    LeadFollows(l, ix);
    assert l.a.shape[0] == 1 && s.leadA[0].Keep?;
    SliceOfBroadcastAxis(ix);
    LeadMismatch(s);
    KeptTwo(s.leadA, All(Rank(l)), s.columns);
    KeptTwo(s.lead, s.rows, All(Rank(l)));
    var x :| 0 <= x < |KeptShape(s.leadA)| == |KeptShape(s.lead)|
      && KeptShape(s.leadA)[x] != 1 && KeptShape(s.leadA)[x] != KeptShape(s.lead)[x];
    var l' := IndexFirst(l, ix).value;
    assert l'.a.shape[x] == KeptShape(s.leadA)[x] && l'.b.shape[x] == KeptShape(s.lead)[x];
  }

  lemma LeadMismatch(s: Selection)
    requires SameDrops(s.leadA, s.lead) && s.leadA != [] && s.leadA[0].Keep? && s.lead[0].Keep?
    requires |s.leadA[0].ps| != 1 && |s.leadA[0].ps| != |s.lead[0].ps|
    ensures exists x ::
      && 0 <= x < |KeptShape(s.leadA)| == |KeptShape(s.lead)|
      && KeptShape(s.leadA)[x] != 1 && KeptShape(s.leadA)[x] != KeptShape(s.lead)[x]
  {
    var x := KeptAxis(s.leadA, s.lead, 0);
  }

  /** One integer or slice on the first axis. A slice of a broadcast axis must keep position 0 of A,
      or nothing at all of B. */
  lemma IndexFirstCommutes(l: Factors, ix: Ix)
    requires Denotable(l) && !ix.Pick? && IndexFirst(l, ix).Some?
    ensures var l' := IndexFirst(l, ix).value;
      Denotable(l') <==>
        || |l.a.shape| == 2 || ix.One? || l.a.shape[0] == l.b.shape[0]
        || Resolve(ix, 1) == Some(Keep([0])) || Resolve(ix, l.b.shape[0]) == Some(Keep([]))
    ensures var l' := IndexFirst(l, ix).value;
      Denotable(l') ==> Rank(l') == Rank(l) && Index(Dense(l), [ix]) == Some(Dense(l'))
  {
    if |l.a.shape| == 2 {
      IndexRows(l, ix);
    } else {
      IndexLead(l, ix);
    }
  }

  ghost function RowSelection(l: Factors, ps: seq<nat>): Selection
    requires Constructible(l)
  {
    Selection([], [], ps, All(l.a.shape[|l.a.shape| - 1]))
  }

  lemma SelectEverything(t: Tensor, sels: seq<Sel>)
    requires |sels| == |t.shape| && forall i :: 0 <= i < |sels| ==> sels[i] == Keep(All(t.shape[i]))
    ensures Fits(sels, t.shape) && Select(t, sels) == t
  {
    forall idx | Within(KeptShape(sels), idx) ensures Expand(sels, t.shape, idx) == idx {
      ExpandEverything(sels, t.shape, idx);
    }
    KeepEverything(sels, t.shape);
    SameElements(Select(t, sels), t);
  }

  lemma {:induction false} KeepEverything(sels: seq<Sel>, s: seq<nat>)
    requires |sels| == |s| && forall i :: 0 <= i < |sels| ==> sels[i] == Keep(All(s[i]))
    ensures KeptShape(sels) == s
  {
    if sels != [] {
      KeepEverything(sels[..|s| - 1], s[..|s| - 1]);
    }
  }

  lemma {:induction false} ExpandEverything(sels: seq<Sel>, s: seq<nat>, idx: seq<nat>)
    requires |sels| == |s| && (forall i :: 0 <= i < |sels| ==> sels[i] == Keep(All(s[i])))
    requires Within(KeptShape(sels), idx)
    ensures Fits(sels, s) && Expand(sels, s, idx) == idx
    decreases |sels|, 1
  {
    if sels != [] {
      ExpandEverythingStep(sels, s, idx);
    }
  }

  lemma {:induction false} ExpandEverythingStep(sels: seq<Sel>, s: seq<nat>, idx: seq<nat>)
    requires |sels| == |s| > 0 && (forall i :: 0 <= i < |sels| ==> sels[i] == Keep(All(s[i])))
    requires Within(KeptShape(sels), idx)
    ensures Fits(sels, s) && Expand(sels, s, idx) == idx
    decreases |sels|, 0
  {
    hide Size, KeptShape, Expand;
    var k := |s| - 1;
    KeepEverything(sels, s);
    KeptLast(sels, idx);
    ExpandEverything(sels[..k], s[..k], idx[..k]);
    ExpandKeep(sels[..k], s[..k], idx[..k], All(s[k]), s[k], idx[k]);
    assert sels == sels[..k] + [Keep(All(s[k]))] && s == s[..k] + [s[k]] && idx == idx[..k] + [idx[k]];
  }

  lemma IndexRows(l: Factors, ix: Ix)
    requires Denotable(l) && |l.a.shape| == 2 && ix.Range? && IndexFirst(l, ix).Some?
    ensures var l' := IndexFirst(l, ix).value;
      Denotable(l') && Rank(l') == Rank(l) && Index(Dense(l), [ix]) == Some(Dense(l'))
  {
    hide At, Ravel, Size, Select, Make, Dense;
    var ps := Resolve(ix, l.b.shape[0]).value.ps;
    var s := RowSelection(l, ps);
    assert s.Applies(l);
    SelectCommutes(l, s);
    SelectEverything(l.a, s.OnA(Rank(l)));
    assert ResolveAll([ix], l.b.shape).value == s.OnB(Rank(l));
    assert ResolveAll([ix], Shape(l)).value == s.OnProduct();
  }
}
