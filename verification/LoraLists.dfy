/** Tuples with several lists of positions, which torch pairs up, and when indexing the factors by any
    tuple is right. */
module LoraLists {
  import opened Wrappers
  import opened Tensors
  import opened Lora
  import opened LoraIndexing
  import opened LoraTuples

  // ---- counting components ----

  predicate IsList(xs: seq<Ix>, i: nat) {
    i < |xs| && xs[i].Pick?
  }

  predicate IsInteger(xs: seq<Ix>, i: nat) {
    i < |xs| && xs[i].One?
  }

  function ListsBelow(xs: seq<Ix>, k: nat): nat {
    if k == 0 then 0 else ListsBelow(xs, k - 1) + if IsList(xs, k - 1) then 1 else 0
  }

  function Lists(xs: seq<Ix>): nat {
    ListsBelow(xs, |xs|)
  }

  /** The axes below k that no integer removes. */
  function KeptBelow(xs: seq<Ix>, k: nat): nat {
    if k == 0 then 0 else KeptBelow(xs, k - 1) + if IsInteger(xs, k - 1) then 0 else 1
  }

  lemma {:induction false} SameCounts(xs: seq<Ix>, ys: seq<Ix>, k: nat)
    requires forall i: nat :: i < k ==> (IsList(xs, i) <==> IsList(ys, i)) && (IsInteger(xs, i) <==> IsInteger(ys, i))
    ensures ListsBelow(xs, k) == ListsBelow(ys, k) && KeptBelow(xs, k) == KeptBelow(ys, k)
  {
    if k > 0 {
      SameCounts(xs, ys, k - 1);
    }
  }

  lemma {:induction false} NoListsAbove(xs: seq<Ix>, k: nat)
    requires |xs| <= k
    ensures ListsBelow(xs, k) == Lists(xs)
  {
    if |xs| < k {
      NoListsAbove(xs, k - 1);
    }
  }

  lemma {:induction false} ListCounts(xs: seq<Ix>, i: nat, k: nat)
    requires i < k && IsList(xs, i)
    ensures ListsBelow(xs, k) >= ListsBelow(xs, i) + 1
  {
    if i < k - 1 {
      ListCounts(xs, i, k - 1);
    }
  }

  lemma {:induction false} SomeList(xs: seq<Ix>, k: nat) returns (i: nat)
    requires ListsBelow(xs, k) > 0
    ensures i < k && IsList(xs, i) && forall j: nat :: j < i ==> !IsList(xs, j)
  {
    if ListsBelow(xs, k - 1) > 0 {
      i := SomeList(xs, k - 1);
    } else {
      i := k - 1;
      forall j: nat | j < i ensures !IsList(xs, j) {
        if IsList(xs, j) {
          ListCounts(xs, j, i);
        }
      }
    }
  }

  // ---- lists in pairs ----

  /** The sizes of the kept axes that no list selects from. */
  function Others(xs: seq<Ix>, sels: seq<Sel>): seq<nat> {
    if sels == [] then []
    else
      var k := |sels| - 1;
      Others(xs, sels[..k]) + if sels[k].Drop? || IsList(xs, k) then [] else [|sels[k].ps|]
  }

  predicate Pairs(xs: seq<Ix>, sels: seq<Sel>, i: nat, n: nat)
    requires i < |sels|
  {
    IsList(xs, i) && sels[i].Keep? ==> |sels[i].ps| == 1 || |sels[i].ps| == n
  }

  /** All lists have n positions, or one that stands for n. */
  ghost predicate PairedLength(xs: seq<Ix>, sels: seq<Sel>, n: nat) {
    && (forall i: nat :: i < |sels| ==> Pairs(xs, sels, i, n))
    && exists i: nat :: i < |sels| && IsList(xs, i) && sels[i].Keep? && |sels[i].ps| == n
  }

  lemma {:induction false} OtherSize(xs: seq<Ix>, sels: seq<Sel>, i: nat)
    requires i < |sels| && sels[i].Keep? && !IsList(xs, i)
    ensures |Others(xs, sels[..i])| < |Others(xs, sels)| && Others(xs, sels)[|Others(xs, sels[..i])|] == |sels[i].ps|
  {
    var k := |sels| - 1;
    if i < k {
      OtherSize(xs, sels[..k], i);
      assert sels[..k][..i] == sels[..i];
    }
  }

  /** The position read on axis i: position at of a list, and by rest otherwise. */
  ghost function PairedPosition(xs: seq<Ix>, sels: seq<Sel>, rest: seq<nat>, at: nat, n: nat, i: nat): (p: nat)
    requires Within(Others(xs, sels), rest) && at < n && i < |sels| && Pairs(xs, sels, i, n)
    ensures forall d: nat :: SelFits(sels[i], d) ==> p < d
  {
    match sels[i]
    case Drop(p) => p
    case Keep(ps) =>
      if IsList(xs, i) then ps[if |ps| == 1 then 0 else at]
      else
        OtherSize(xs, sels, i);
        ps[rest[|Others(xs, sels[..i])|]]
  }

  /** Where an entry is read. */
  ghost function PairedSource(xs: seq<Ix>, sels: seq<Sel>, s: seq<nat>, rest: seq<nat>, at: nat, n: nat): (src: seq<nat>)
    requires Fits(sels, s) && Within(Others(xs, sels), rest) && at < n
    requires forall i: nat :: i < |sels| ==> Pairs(xs, sels, i, n)
    ensures Within(s, src)
  {
    hide Pairs, Others, SelFits;
    seq(|s|, i requires 0 <= i < |s| => PairedPosition(xs, sels, rest, at, n, i))
  }

  ghost predicate IsFirst(xs: seq<Ix>, f: nat) {
    IsList(xs, f) && forall j: nat :: j < f ==> !IsList(xs, j)
  }

  /** No axis is kept between two lists. */
  ghost predicate Adjacent(xs: seq<Ix>, sels: seq<Sel>) {
    forall i: nat, j: nat, k: nat :: i < j < k < |sels| && IsList(xs, i) && IsList(xs, k) ==> IsList(xs, j) || sels[j].Drop?
  }

  /** The axis of the lists comes where the first of them was if they are adjacent, and else in front. */
  ghost function Place(xs: seq<Ix>, sels: seq<Sel>): (p: nat)
    ensures p <= |Others(xs, sels)|
  {
    if Adjacent(xs, sels) && exists f: nat :: f < |sels| && IsFirst(xs, f) then
      var f: nat :| f < |sels| && IsFirst(xs, f);
      OthersGrow(xs, sels, f);
      |Others(xs, sels[..f])|
    else 0
  }

  lemma {:induction false} OthersGrow(xs: seq<Ix>, sels: seq<Sel>, f: nat)
    requires f <= |sels|
    ensures |Others(xs, sels[..f])| <= |Others(xs, sels)|
  {
    var k := |sels| - 1;
    if f <= k {
      assert sels[..k][..f] == sels[..f];
      OthersGrow(xs, sels[..k], f);
    } else {
      assert sels[..f] == sels;
    }
  }

  ghost function PickPaired(t: Tensor, xs: seq<Ix>, sels: seq<Sel>, n: nat): (r: Tensor)
    requires Fits(sels, t.shape) && PairedLength(xs, sels, n)
    ensures |r.shape| == |Others(xs, sels)| + 1
  {
    var p, others := Place(xs, sels), Others(xs, sels);
    var shape := others[..p] + [n] + others[p..];
    Make(shape, idx requires Within(shape, idx) =>
      PairedIndex(others, n, p, idx);
      At(t, PairedSource(xs, sels, t.shape, idx[..p] + idx[p + 1..], idx[p], n)))
  }

  lemma PairedIndex(others: seq<nat>, n: nat, p: nat, idx: seq<nat>)
    requires p <= |others| && Within(others[..p] + [n] + others[p..], idx)
    ensures Within(others, idx[..p] + idx[p + 1..]) && idx[p] < n
  {
    var shape := others[..p] + [n] + others[p..];
    assert forall i :: p < i < |shape| ==> shape[i] == others[i - 1];
  }

  /** t[xs] for a tensor: one list selects on its own, several are paired up. */
  ghost function TorchIndex(t: Tensor, xs: seq<Ix>): Option<Tensor> {
    if Lists(xs) <= 1 then Index(t, xs)
    else match ResolveAll(xs, t.shape)
      case None => None
      case Some(sels) =>
        if n: nat :| PairedLength(xs, sels, n) then Some(PickPaired(t, xs, sels, n)) else None
  }

  lemma {:induction false} OthersCount(xs: seq<Ix>, sels: seq<Sel>)
    requires forall i: nat :: i < |sels| ==> (sels[i].Drop? <==> IsInteger(xs, i))
    ensures |KeptShape(sels)| == KeptBelow(xs, |sels|)
    ensures |Others(xs, sels)| + ListsBelow(xs, |sels|) == KeptBelow(xs, |sels|)
  {
    if sels != [] {
      var k := |sels| - 1;
      assert forall i: nat :: i < k ==> sels[..k][i] == sels[i];
      OthersCount(xs, sels[..k]);
    }
  }

  lemma Integers(xs: seq<Ix>, s: seq<nat>, sels: seq<Sel>, i: nat)
    requires ResolveAll(xs, s) == Some(sels) && i < |s|
    ensures |sels| == |s| && (sels[i].Drop? <==> IsInteger(xs, i))
  {
    hide Resolve, SelFits;
    if i < |xs| {
      assert Resolve(xs[i], s[i]) == Some(sels[i]);
    } else {
      assert sels[i] == Keep(All(s[i]));
    }
  }

  /** Integers remove their axes, and several lists leave one axis for all of them. */
  lemma TorchAxes(t: Tensor, xs: seq<Ix>)
    requires TorchIndex(t, xs).Some?
    ensures |TorchIndex(t, xs).value.shape| + (if Lists(xs) <= 1 then 0 else Lists(xs) - 1) == KeptBelow(xs, |t.shape|)
  {
    hide Make, At, ResolveAll, KeptShape, Others, KeptBelow, PairedLength;
    var sels := ResolveAll(xs, t.shape).value;
    forall i: nat | i < |t.shape| ensures sels[i].Drop? <==> IsInteger(xs, i) {
      Integers(xs, t.shape, sels, i);
    }
    OthersCount(xs, sels);
    NoListsAbove(xs, |t.shape|);
  }

  // ---- indexing the factors ----

  /** t[ixs] with a tuple of components, several lists among them paired up by torch on B. */
  ghost function TorchTuple(l: Factors, ixs: seq<Ix>): (r: Option<Factors>)
    requires Constructible(l)
    ensures r.Some? ==> Constructible(r.value) && ixs != [] && |ixs| <= |l.a.shape|
  {
    var n := |l.a.shape|;
    var full := Pad(ixs, n);
    if ixs == [] || |ixs| > n then None
    else if exists i :: 0 <= i < n - 2 && full[i].One? && l.a.shape[i] == 0 then None
    else
      var a, b := TorchIndex(l.a, ComponentsOfA(full, l.a.shape)), TorchIndex(l.b, full[..n - 1]);
      if a.None? || b.None? then None else Construct(a.value, b.value)
  }

  /** A sees at most the list for the columns. */
  lemma ComponentCounts(full: seq<Ix>, s: seq<nat>)
    requires |full| == |s| >= 2 && forall i :: 0 <= i < |s| - 2 && full[i].One? ==> s[i] != 0
    ensures var cs, n := ComponentsOfA(full, s), |s|;
      Lists(cs) <= 1 && KeptBelow(cs, n) == KeptBelow(full, n - 2) + 1 + if full[n - 1].One? then 0 else 1
  {
    var cs, n := ComponentsOfA(full, s), |s|;
    assert forall i: nat :: i < n - 2 ==> !IsList(cs, i) && (IsInteger(cs, i) <==> IsInteger(full, i));
    assert cs[n - 2] == EVERYTHING && cs[n - 1] == full[n - 1];
    SameKept(cs, full, n - 2);
    NoLists(cs, n - 2);
    assert ListsBelow(cs, n) == ListsBelow(cs, n - 1) + (if IsList(cs, n - 1) then 1 else 0);
    assert ListsBelow(cs, n - 1) == ListsBelow(cs, n - 2);
    assert KeptBelow(cs, n) == KeptBelow(cs, n - 1) + (if IsInteger(cs, n - 1) then 0 else 1);
    assert KeptBelow(cs, n - 1) == KeptBelow(cs, n - 2) + 1;
  }

  lemma {:induction false} NoLists(xs: seq<Ix>, k: nat)
    requires forall i: nat :: i < k ==> !IsList(xs, i)
    ensures ListsBelow(xs, k) == 0
  {
    if k > 0 {
      NoLists(xs, k - 1);
    }
  }

  lemma {:induction false} SameKept(xs: seq<Ix>, ys: seq<Ix>, k: nat)
    requires forall i: nat :: i < k ==> (IsInteger(xs, i) <==> IsInteger(ys, i))
    ensures KeptBelow(xs, k) == KeptBelow(ys, k)
  {
    if k > 0 {
      SameKept(xs, ys, k - 1);
    }
  }

  lemma KeptLastTwo(full: seq<Ix>)
    requires |full| >= 2
    ensures var n := |full|;
      KeptBelow(full, n) == KeptBelow(full, n - 2) + (if full[n - 2].One? then 0 else 1) + if full[n - 1].One? then 0 else 1
  {
    var n := |full|;
    assert KeptBelow(full, n) == KeptBelow(full, n - 1) + (if IsInteger(full, n - 1) then 0 else 1);
    assert KeptBelow(full, n - 1) == KeptBelow(full, n - 2) + (if IsInteger(full, n - 2) then 0 else 1);
  }

  /** Tuples whose result has as many axes as torch leaves. */
  predicate Plain(full: seq<Ix>) {
    |full| >= 2 && !full[|full| - 2].One? && Lists(full) <= 1
  }

  lemma FactorAxes(l: Factors, ixs: seq<Ix>)
    requires Denotable(l) && TorchTuple(l, ixs).Some?
    ensures var full := Pad(ixs, |l.a.shape|);
      |full| == |l.a.shape| &&
      |Shape(TorchTuple(l, ixs).value)| == KeptBelow(full, |full| - 2) + 1 + if full[|full| - 1].One? then 0 else 1
  {
    hide Size, Make, At, ResolveAll, Pad, ComponentsOfA, KeptBelow, TorchIndex, Lists, Dense;
    var full := Pad(ixs, |l.a.shape|);
    ComponentCounts(full, l.a.shape);
    TorchAxes(l.a, ComponentsOfA(full, l.a.shape));
  }

  /** An integer for the row, or several lists, leave the factors with more axes than torch leaves. */
  lemma TupleAxes(l: Factors, ixs: seq<Ix>)
    requires Denotable(l) && TorchTuple(l, ixs).Some? && TorchIndex(Dense(l), Pad(ixs, |l.a.shape|)).Some?
    ensures var full := Pad(ixs, |l.a.shape|);
      var x, y := |Shape(TorchTuple(l, ixs).value)|, |TorchIndex(Dense(l), full).value.shape|;
      y <= x && (y == x <==> Plain(full))
  {
    hide Size, Make, At, ResolveAll, Pad, ComponentsOfA, KeptBelow, TorchIndex, Lists, Dense, TorchTuple;
    var full := Pad(ixs, |l.a.shape|);
    FactorAxes(l, ixs);
    TorchAxes(Dense(l), full);
    KeptLastTwo(full);
  }

  lemma OneListOnB(full: seq<Ix>)
    requires full != [] && Lists(full) <= 1
    ensures Lists(full[..|full| - 1]) <= 1
  {
    var k := |full| - 1;
    SameCounts(full[..k], full, k);
  }

  /** One list on its own is what the other modules speak of. */
  lemma OneListApart(l: Factors, ixs: seq<Ix>)
    requires Denotable(l) && Lists(Pad(ixs, |l.a.shape|)) <= 1
    ensures TorchTuple(l, ixs) == IndexTuple(l, ixs)
    ensures TorchIndex(Dense(l), Pad(ixs, |l.a.shape|)) == Index(Dense(l), Pad(ixs, |l.a.shape|))
  {
    hide Size, Make, At, Index, Pad, ComponentsOfA, Lists, Dense, TorchIndex;
    var n, full := |l.a.shape|, Pad(ixs, |l.a.shape|);
    OneListIndex(Dense(l), full);
    if |ixs| <= n && !(exists i :: 0 <= i < n - 2 && full[i].One? && l.a.shape[i] == 0) {
      ComponentCounts(full, l.a.shape);
      OneListOnB(full);
      OneListIndex(l.a, ComponentsOfA(full, l.a.shape));
      OneListIndex(l.b, full[..n - 1]);
    }
  }

  lemma OneListIndex(t: Tensor, xs: seq<Ix>)
    requires Lists(xs) <= 1
    ensures TorchIndex(t, xs) == Index(t, xs)
  {
    hide Index;
  }

  /** An accepted tuple without an integer for the row and with at most one list commutes when every
      leading component is harmless, and leaves a product exactly when every leading component keeps the
      factors fitting. Any other leaves more axes than torch does. */
  lemma TupleCommutes(l: Factors, ixs: seq<Ix>)
    requires Denotable(l) && TorchTuple(l, ixs).Some?
    ensures var full, l' := Pad(ixs, |l.a.shape|), TorchTuple(l, ixs).value;
      && |full| == |l.a.shape|
      && (Plain(full) ==> (Denotable(l') <==> AllFit(l, full)))
      && (Plain(full) && AllHarmless(l, full) ==>
            Denotable(l') && Rank(l') == Rank(l) && TorchIndex(Dense(l), full) == Some(Dense(l')))
      && (!Plain(full) && TorchIndex(Dense(l), full).Some? ==>
            |Shape(l')| > |TorchIndex(Dense(l), full).value.shape|)
  {
    hide Size, Make, At, Dense, Index, IndexTuple, TorchTuple, TorchIndex, Harmless, Fitting, Lists, Pad;
    var full := Pad(ixs, |l.a.shape|);
    PadSize(ixs, |l.a.shape|);
    if Plain(full) {
      OneListApart(l, ixs);
      IndexTupleCommutes(l, ixs);
    } else if TorchIndex(Dense(l), full).Some? {
      TupleAxes(l, ixs);
    }
  }

  lemma PadSize(ixs: seq<Ix>, n: nat)
    requires |ixs| <= n
    ensures |Pad(ixs, n)| == n
  {
  }

  /** The indexed factors stand for the indexed product. */
  ghost predicate Faithful(m: Factors, ixs: seq<Ix>)
    requires Denotable(m)
  {
    && TorchTuple(m, ixs).Some? && Denotable(TorchTuple(m, ixs).value)
    && TorchIndex(Dense(m), Pad(ixs, |m.a.shape|)) == Some(Dense(TorchTuple(m, ixs).value))
  }

  ghost predicate FaithfulForAll(l: Factors, ixs: seq<Ix>)
    requires Denotable(l)
  {
    forall m :: SameFactorShapes(l, m) ==> Denotable(m) && Faithful(m, ixs)
  }

  /** What the components must be for that. */
  ghost predicate Sound(l: Factors, ixs: seq<Ix>)
    requires Denotable(l)
  {
    TorchTuple(l, ixs).Some? &&
    var full := Pad(ixs, |l.a.shape|);
    Plain(full) && AllFit(l, full) &&
    (AllHarmless(l, full) || Rank(l) == 0 || 0 in Shape(TorchTuple(l, ixs).value))
  }

  /** A tuple is right for all factors of a shape exactly when it is accepted, has no integer for the row and
      at most one list, the factors fit each other afterwards, and either every leading component keeps its
      axis as it is, or there is nothing to get wrong. */
  lemma FaithfulExactly(l: Factors, ixs: seq<Ix>)
    requires Denotable(l)
    ensures FaithfulForAll(l, ixs) <==> Sound(l, ixs)
  {
    hide Size, Make, At, Dense, Index, IndexTuple, TorchTuple, TorchIndex, AllHarmless, AllFit, Lists, Pad, Right;
    var full := Pad(ixs, |l.a.shape|);
    if TorchTuple(l, ixs).None? {
      assert SameFactorShapes(l, l) && !Faithful(l, ixs);
    } else if !Plain(full) {
      PadSize(ixs, |l.a.shape|);
      if Faithful(l, ixs) {
        TupleAxes(l, ixs);
      }
      assert SameFactorShapes(l, l);
    } else {
      OneListApart(l, ixs);
      TupleRightExactly(l, ixs);
      SameRight(l, ixs);
    }
  }

  lemma SameRight(l: Factors, ixs: seq<Ix>)
    requires Denotable(l) && Lists(Pad(ixs, |l.a.shape|)) <= 1
    ensures FaithfulForAll(l, ixs) <==> RightForAll(l, ixs)
  {
    hide Size, Make, At, Dense, Index, IndexTuple, TorchTuple, TorchIndex, Lists, Pad;
    forall m | SameFactorShapes(l, m) && Denotable(m) ensures Faithful(m, ixs) <==> Right(m, ixs) {
      OneListApart(m, ixs);
    }
  }
}
