/** What a component of an index reads, written out: integers, slices and lists, on tensors and on factors. */
module Slices {
  import opened Wrappers
  import opened Tensors
  import opened Lora
  import opened LoraIndexing
  import opened LoraJoining
  import opened LoraTuples
  import opened LoraLists

  /** A bound of a slice counts from the end when it is negative, and stops at either end. */
  function Bound(j: int, n: nat): (r: nat)
    ensures r <= n
  {
    if j >= n then n else if j >= 0 then j else if n + j >= 0 then n + j else 0
  }

  function First(ix: Ix, n: nat): nat
    requires ix.Range?
  {
    if ix.lo == None then 0 else Bound(ix.lo.value, n)
  }

  function Stop(ix: Ix, n: nat): nat
    requires ix.Range?
  {
    if ix.hi == None then n else Bound(ix.hi.value, n)
  }

  predicate InBounds(j: int, n: nat) {
    0 <= n + j && j < n
  }

  function Wrapped(j: int, n: nat): int {
    if j < 0 then n + j else j
  }

  /** Integers and positions of a list lie on the axis, counted from either end; steps go forward. */
  predicate Accepts(ix: Ix, n: nat) {
    match ix
    case One(j) => InBounds(j, n)
    case Range(_, _, step) => step > 0
    case Pick(js) => forall x :: 0 <= x < |js| ==> InBounds(js[x], n)
  }

  /** The axis has m positions after the component. */
  ghost predicate HasSize(ix: Ix, n: nat, m: nat) {
    match ix
    case One(_) => false
    case Range(_, _, step) => forall x: nat :: x < m <==> StillBelow(First(ix, n), x, step, Stop(ix, n))
    case Pick(js) => m == |js|
  }

  predicate StillBelow(from: nat, x: nat, step: int, stop: nat) {
    from + x * step < stop
  }

  /** What is at x afterwards was at p. */
  predicate ReadsFrom(ix: Ix, n: nat, x: nat, p: nat) {
    match ix
    case One(j) => p == Wrapped(j, n)
    case Range(_, _, step) => p == First(ix, n) + x * step
    case Pick(js) => x < |js| && p == Wrapped(js[x], n)
  }

  lemma {:induction false} StepsCount(lo: nat, hi: nat, step: nat, x: nat)
    requires step > 0
    ensures x < |Steps(lo, hi, step)| <==> StillBelow(lo, x, step, hi)
    decreases x
  {
    if x == 0 {
    } else if lo < hi {
      StepsCount(lo + step, hi, step, x - 1);
      assert lo + step + (x - 1) * step == lo + x * step;
    } else {
      assert x * step >= 0;
    }
  }

  lemma SameBound(j: int, n: nat)
    ensures Clamp(j, n) == Bound(j, n)
  {
  }

  lemma ResolveAccepts(ix: Ix, n: nat)
    ensures Resolve(ix, n).Some? <==> Accepts(ix, n)
  {
    hide Steps;
    if ix.Pick? {
      assert forall x :: 0 <= x < |ix.js| ==> (InBounds(ix.js[x], n) <==> 0 <= ix.js[x] + n < 2 * n);
    }
  }

  lemma ResolveReads(ix: Ix, n: nat)
    requires Resolve(ix, n).Some?
    ensures match Resolve(ix, n).value
            case Drop(p) => ix.One? && ReadsFrom(ix, n, 0, p)
            case Keep(ps) => HasSize(ix, n, |ps|) && forall x :: 0 <= x < |ps| ==> ReadsFrom(ix, n, x, ps[x])
  {
    hide Steps;
    if ix.Range? {
      var lo, hi := First(ix, n), Stop(ix, n);
      if ix.lo.Some? { SameBound(ix.lo.value, n); }
      if ix.hi.Some? { SameBound(ix.hi.value, n); }
      var ps := Resolve(ix, n).value.ps;
      assert ps == Steps(lo, hi, ix.step);
      forall x: nat ensures x < |ps| <==> StillBelow(lo, x, ix.step, hi) {
        StepsCount(lo, hi, ix.step, x);
      }
      forall x: nat | x < |ps| ensures ps[x] == lo + x * ix.step {
        StepsAt(lo, hi, ix.step, x);
      }
    }
  }

  // ---- whole tuples ----

  /** The component for axis i; a short tuple leaves the last axes alone. */
  function ComponentOf(ixs: seq<Ix>, i: nat): Ix {
    if i < |ixs| then ixs[i] else EVERYTHING
  }

  /** The position of an entry on the axis that axis i has become. */
  function PlaceOf(ixs: seq<Ix>, idx: seq<nat>, i: nat): nat {
    if IsInteger(ixs, i) || KeptBelow(ixs, i) >= |idx| then 0 else idx[KeptBelow(ixs, i)]
  }

  ghost predicate ReadsEach(ixs: seq<Ix>, s: seq<nat>, idx: seq<nat>, src: seq<nat>) {
    Within(s, src) && forall i: nat :: i < |s| ==> ReadsFrom(ComponentOf(ixs, i), s[i], PlaceOf(ixs, idx, i), src[i])
  }

  ghost predicate SizesEach(ixs: seq<Ix>, s: seq<nat>, kept: seq<nat>) {
    && |kept| == KeptBelow(ixs, |s|)
    && forall i: nat :: i < |s| && !IsInteger(ixs, i) ==>
         KeptBelow(ixs, i) < |kept| && HasSize(ComponentOf(ixs, i), s[i], kept[KeptBelow(ixs, i)])
  }

  lemma ComponentReads(ixs: seq<Ix>, s: seq<nat>, sels: seq<Sel>, i: nat)
    requires ResolveAll(ixs, s) == Some(sels) && i < |s|
    ensures |sels| == |s|
    ensures match sels[i]
            case Drop(p) => IsInteger(ixs, i) && ReadsFrom(ComponentOf(ixs, i), s[i], 0, p)
            case Keep(ps) => (
              && !IsInteger(ixs, i) && HasSize(ComponentOf(ixs, i), s[i], |ps|)
              && forall x :: 0 <= x < |ps| ==> ReadsFrom(ComponentOf(ixs, i), s[i], x, ps[x]))
  {
    hide Resolve, HasSize, ReadsFrom, SelFits;
    if i < |ixs| {
      assert Resolve(ixs[i], s[i]) == Some(sels[i]);
      ResolveReads(ixs[i], s[i]);
    } else {
      FullSlice(s[i]);
      ResolveReads(EVERYTHING, s[i]);
    }
  }

  /** The axes before i that are kept. */
  lemma PlaceKept(ixs: seq<Ix>, s: seq<nat>, sels: seq<Sel>, i: nat)
    requires ResolveAll(ixs, s) == Some(sels) && i <= |s|
    ensures |sels| == |s| && KeptIndex(sels, i) == KeptBelow(ixs, i)
  {
    hide Resolve, SelFits, KeptBelow, Others;
    forall k: nat | k < i ensures sels[..i][k].Drop? <==> IsInteger(ixs, k) {
      Integers(ixs, s, sels, k);
    }
    OthersCount(ixs, sels[..i]);
  }

  /** t[ixs] is accepted exactly when every component is; each kept axis has the size that its component
      leaves, and each entry is read where its components say. */
  lemma IndexReads(t: Tensor, ixs: seq<Ix>)
    ensures Index(t, ixs).Some? <==> |ixs| <= |t.shape| && forall i :: 0 <= i < |ixs| ==> Accepts(ixs[i], t.shape[i])
    ensures Index(t, ixs).Some? ==> SizesEach(ixs, t.shape, Index(t, ixs).value.shape)
    ensures Index(t, ixs).Some? ==> forall idx :: Within(Index(t, ixs).value.shape, idx) ==>
      exists src :: ReadsEach(ixs, t.shape, idx, src) && At(Index(t, ixs).value, idx) == At(t, src)
  {
    hide Make, At, Resolve, KeptShape, Expand, HasSize, ReadsFrom, Accepts, SelFits, KeptIndex, KeptBelow;
    forall i | 0 <= i < |ixs| && i < |t.shape| ensures Resolve(ixs[i], t.shape[i]).Some? <==> Accepts(ixs[i], t.shape[i]) {
      ResolveAccepts(ixs[i], t.shape[i]);
    }
    if Index(t, ixs).Some? {
      var sels := ResolveAll(ixs, t.shape).value;
      TupleSizes(ixs, t.shape, sels);
      forall idx | Within(Index(t, ixs).value.shape, idx)
        ensures exists src :: ReadsEach(ixs, t.shape, idx, src) && At(Index(t, ixs).value, idx) == At(t, src)
      {
        TupleReads(ixs, t.shape, sels, idx);
        var src := Expand(sels, t.shape, idx);
        assert ReadsEach(ixs, t.shape, idx, src);
      }
    }
  }

  lemma TupleSizes(ixs: seq<Ix>, s: seq<nat>, sels: seq<Sel>)
    requires ResolveAll(ixs, s) == Some(sels)
    ensures SizesEach(ixs, s, KeptShape(sels))
  {
    hide Resolve, ResolveAll, KeptShape, HasSize, ReadsFrom, SelFits, KeptIndex, KeptBelow;
    PlaceKept(ixs, s, sels, |s|);
    assert sels[..|sels|] == sels;
    assert KeptIndex(sels, |s|) == |KeptShape(sels)| by { WholeKept(sels); }
    forall i: nat | i < |s| && !IsInteger(ixs, i)
      ensures KeptBelow(ixs, i) < |KeptShape(sels)| && HasSize(ComponentOf(ixs, i), s[i], KeptShape(sels)[KeptBelow(ixs, i)])
    {
      ComponentReads(ixs, s, sels, i);
      PlaceKept(ixs, s, sels, i);
      KeptAxisSize(sels, i);
    }
  }

  lemma WholeKept(sels: seq<Sel>)
    ensures KeptIndex(sels, |sels|) == |KeptShape(sels)|
  {
    assert sels[..|sels|] == sels;
  }

  lemma TupleReads(ixs: seq<Ix>, s: seq<nat>, sels: seq<Sel>, idx: seq<nat>)
    requires ResolveAll(ixs, s) == Some(sels) && Within(KeptShape(sels), idx)
    ensures ReadsEach(ixs, s, idx, Expand(sels, s, idx))
  {
    hide Resolve, ResolveAll, KeptShape, HasSize, ReadsFrom, SelFits, KeptIndex, KeptBelow, Expand;
    forall i: nat | i < |s| ensures ReadsFrom(ComponentOf(ixs, i), s[i], PlaceOf(ixs, idx, i), Expand(sels, s, idx)[i]) {
      ComponentReads(ixs, s, sels, i);
      PlaceKept(ixs, s, sels, i);
      ExpandAt(sels, s, idx, i);
    }
  }

  // ---- which tuples the factors accept ----

  predicate OneListAtMost(ixs: seq<Ix>) {
    forall i, j :: 0 <= i < j < |ixs| ==> !(ixs[i].Pick? && ixs[j].Pick?)
  }

  lemma {:induction false} FewLists(full: seq<Ix>, k: nat)
    requires OneListAtMost(full)
    ensures ListsBelow(full, k) <= 1
  {
    if k > 0 {
      FewLists(full, k - 1);
      if ListsBelow(full, k - 1) > 0 {
        var i := SomeList(full, k - 1);
        assert i < |full| && full[i].Pick? && !IsList(full, k - 1);
      }
    }
  }

  /** Component i lies in its axis: that of A for the columns, where it is no integer, and that of B for the others,
      where A has positions for an integer. */
  predicate ComponentFits(l: Factors, ixs: seq<Ix>, i: nat)
    requires Constructible(l) && i < |l.a.shape|
  {
    var ix := ComponentOf(ixs, i);
    if i == |l.a.shape| - 1 then Accepts(ix, l.a.shape[i]) && !ix.One?
    else Accepts(ix, l.b.shape[i]) && (i < |l.a.shape| - 2 && ix.One? ==> l.a.shape[i] != 0)
  }

  /** A tuple with at most one list and no integer for the row is accepted exactly when it is not empty, names no more
      axes than there are, and all of its components fit. */
  lemma TupleAcceptsExactly(l: Factors, ixs: seq<Ix>)
    requires Denotable(l) && OneListAtMost(ixs) && !ComponentOf(ixs, |l.a.shape| - 2).One?
    ensures TorchTuple(l, ixs).Some? <==>
      0 < |ixs| <= |l.a.shape| && forall i: nat :: i < |l.a.shape| ==> ComponentFits(l, ixs, i)
  {
    hide Make, At, Index, ComponentsOfA, Accepts, Dense, TorchTuple, TorchIndex, Denotable, Pad, Lists, IndexTuple, ComponentFits;
    var n := |l.a.shape|;
    Built(l);
    if 0 < |ixs| <= n {
      var full := Pad(ixs, n);
      Padded(ixs, n);
      FewLists(full, |full|);
      OneListApart(l, ixs);
      PaddedFits(l, ixs);
      PaddedAccepted(l, ixs);
    } else {
      Refused(l, ixs);
    }
  }

  lemma Padded(ixs: seq<Ix>, n: nat)
    requires |ixs| <= n && OneListAtMost(ixs)
    ensures var full := Pad(ixs, n);
      && |full| == n && (forall i: nat :: i < n ==> full[i] == ComponentOf(ixs, i))
      && OneListAtMost(full) && Lists(full) == ListsBelow(full, |full|)
  {
  }

  predicate LeadFits(l: Factors, full: seq<Ix>)
    requires Constructible(l) && |full| == |l.a.shape|
  {
    forall i :: 0 <= i < |full| - 2 && full[i].One? ==> l.a.shape[i] != 0
  }

  lemma PaddedFits(l: Factors, ixs: seq<Ix>)
    requires Constructible(l) && |ixs| <= |l.a.shape| && |Pad(ixs, |l.a.shape|)| == |l.a.shape|
    requires forall i: nat :: i < |l.a.shape| ==> Pad(ixs, |l.a.shape|)[i] == ComponentOf(ixs, i)
    ensures var full, n := Pad(ixs, |l.a.shape|), |l.a.shape|;
      (forall i: nat :: i < n ==> ComponentFits(l, ixs, i)) <==>
        && LeadFits(l, full) && Accepts(full[n - 1], l.a.shape[n - 1]) && !full[n - 1].One?
        && forall i :: 0 <= i < n - 1 ==> Accepts(full[i], l.b.shape[i])
  {
    hide Pad, Accepts, ComponentOf;
    var full, n := Pad(ixs, |l.a.shape|), |l.a.shape|;
    if forall i: nat :: i < n ==> ComponentFits(l, ixs, i) {
      forall i | 0 <= i < n - 1 ensures Accepts(full[i], l.b.shape[i]) {
        assert ComponentFits(l, ixs, i);
      }
      forall i | 0 <= i < n - 2 && full[i].One? ensures l.a.shape[i] != 0 {
        assert ComponentFits(l, ixs, i);
      }
      assert ComponentFits(l, ixs, n - 1);
    }
  }

  lemma PaddedAccepted(l: Factors, ixs: seq<Ix>)
    requires Constructible(l) && 0 < |ixs| <= |l.a.shape| && |Pad(ixs, |l.a.shape|)| == |l.a.shape|
    requires !Pad(ixs, |l.a.shape|)[|l.a.shape| - 2].One?
    ensures var full, n := Pad(ixs, |l.a.shape|), |l.a.shape|;
      IndexTuple(l, ixs).Some? <==>
        && LeadFits(l, full) && Accepts(full[n - 1], l.a.shape[n - 1]) && !full[n - 1].One?
        && forall i :: 0 <= i < n - 1 ==> Accepts(full[i], l.b.shape[i])
  {
    hide Pad, Accepts, Make, At, Index, ComponentsOfA;
    var full, n := Pad(ixs, |l.a.shape|), |l.a.shape|;
    if LeadFits(l, full) {
      AcceptedByA(l, full);
      AcceptedByB(l, full);
      var a, b := Index(l.a, ComponentsOfA(full, l.a.shape)), Index(l.b, full[..n - 1]);
      if a.Some? && b.Some? {
        PartsFit(l, full, a.value, b.value);
      }
    }
  }

  lemma Built(l: Factors)
    requires Denotable(l)
    ensures Constructible(l) && |l.a.shape| == |l.b.shape| >= 2
  {
  }

  lemma Refused(l: Factors, ixs: seq<Ix>)
    requires Constructible(l) && !(0 < |ixs| <= |l.a.shape|)
    ensures TorchTuple(l, ixs).None?
  {
  }

  lemma AcceptedByA(l: Factors, full: seq<Ix>)
    requires Constructible(l) && |full| == |l.a.shape|
    requires forall i :: 0 <= i < |full| - 2 && full[i].One? ==> l.a.shape[i] != 0
    ensures Index(l.a, ComponentsOfA(full, l.a.shape)).Some? <==> Accepts(full[|full| - 1], l.a.shape[|full| - 1])
  {
    hide Make, At, Index, SizesEach, ReadsEach;
    var cs, n := ComponentsOfA(full, l.a.shape), |full|;
    IndexReads(l.a, cs);
    forall i | 0 <= i < n - 1 ensures Accepts(cs[i], l.a.shape[i]) {
      if i < n - 2 && full[i].One? {
        assert cs[i] == One(full[i].j % l.a.shape[i]);
      } else {
        assert cs[i] == EVERYTHING;
      }
    }
    assert cs[n - 1] == full[n - 1];
  }

  lemma AcceptedByB(l: Factors, full: seq<Ix>)
    requires Constructible(l) && |full| == |l.b.shape|
    ensures Index(l.b, full[..|full| - 1]).Some? <==> forall i :: 0 <= i < |full| - 1 ==> Accepts(full[i], l.b.shape[i])
  {
    hide Make, At, Index, SizesEach, ReadsEach, Accepts;
    IndexReads(l.b, full[..|full| - 1]);
  }

  lemma PartsFit(l: Factors, full: seq<Ix>, a: Tensor, b: Tensor)
    requires Constructible(l) && |full| == |l.a.shape| && !full[|full| - 2].One?
    requires forall i :: 0 <= i < |full| - 2 && full[i].One? ==> l.a.shape[i] != 0
    requires Index(l.a, ComponentsOfA(full, l.a.shape)) == Some(a) && Index(l.b, full[..|full| - 1]) == Some(b)
    ensures Construct(a, b).Some? <==> !full[|full| - 1].One?
  {
    hide Make, At, Index, ReadsEach, HasSize, ComponentsOfA, KeptBelow, ListsBelow;
    var n, cs, bs := |full|, ComponentsOfA(full, l.a.shape), full[..|full| - 1];
    var k := KeptBelow(full, n - 2);
    IndexReads(l.a, cs);
    IndexReads(l.b, bs);
    ComponentCounts(full, l.a.shape);
    CountsOfB(full);
    MiddleOfA(full, l.a.shape);
    WholeSize(l.a.shape[n - 2], a.shape[k]);
    assert ComponentOf(bs, n - 1) == EVERYTHING && !IsInteger(bs, n - 1);
    WholeSize(l.b.shape[n - 1], b.shape[k + 1]);
  }

  lemma WholeSize(n: nat, m: nat)
    requires HasSize(EVERYTHING, n, m)
    ensures m == n
  {
    assert n < m <==> StillBelow(First(EVERYTHING, n), n, 1, Stop(EVERYTHING, n));
    assert m < m <==> StillBelow(First(EVERYTHING, n), m, 1, Stop(EVERYTHING, n));
  }

  lemma CountsOfB(full: seq<Ix>)
    requires |full| >= 2 && !full[|full| - 2].One?
    ensures var n, bs := |full|, full[..|full| - 1];
      KeptBelow(bs, n - 1) == KeptBelow(full, n - 2) + 1 && KeptBelow(bs, n) == KeptBelow(full, n - 2) + 2
  {
    var n, bs := |full|, full[..|full| - 1];
    SameKept(bs, full, n - 2);
    assert KeptBelow(bs, n - 1) == KeptBelow(bs, n - 2) + (if IsInteger(bs, n - 2) then 0 else 1);
    assert KeptBelow(bs, n) == KeptBelow(bs, n - 1) + (if IsInteger(bs, n - 1) then 0 else 1);
  }

  lemma MiddleOfA(full: seq<Ix>, s: seq<nat>)
    requires |full| == |s| >= 2 && forall i :: 0 <= i < |s| - 2 && full[i].One? ==> s[i] != 0
    ensures var cs, n := ComponentsOfA(full, s), |s|;
      KeptBelow(cs, n - 2) == KeptBelow(full, n - 2) && ComponentOf(cs, n - 2) == EVERYTHING && !IsInteger(cs, n - 2)
  {
    var cs, n := ComponentsOfA(full, s), |s|;
    assert forall i: nat :: i < n - 2 ==> (IsInteger(cs, i) <==> IsInteger(full, i));
    SameKept(cs, full, n - 2);
  }

  lemma {:induction false} KeptAfterFirst(ix: Ix, k: nat)
    requires k > 0
    ensures KeptBelow([ix], k) == if ix.One? then k - 1 else k
  {
    if k > 1 {
      KeptAfterFirst(ix, k - 1);
    } else {
      assert KeptBelow([ix], 1) == KeptBelow([ix], 0) + if IsInteger([ix], 0) then 0 else 1;
    }
  }

  /** A single integer or slice is accepted exactly when it lies in the first axis of both factors; on a matrix only a
      slice is, and it need only suit B. */
  lemma FirstAcceptsExactly(l: Factors, ix: Ix)
    requires Constructible(l) && !ix.Pick?
    ensures IndexFirst(l, ix).Some? <==>
      if |l.a.shape| == 2 then !ix.One? && Accepts(ix, l.b.shape[0])
      else Accepts(ix, l.a.shape[0]) && Accepts(ix, l.b.shape[0])
  {
    hide Make, At, Index, Accepts, SizesEach, ReadsEach;
    var n := |l.a.shape|;
    IndexReads(l.a, [ix]);
    IndexReads(l.b, [ix]);
    var a, b := Index(l.a, [ix]), Index(l.b, [ix]);
    if n > 2 && a.Some? && b.Some? {
      SizesAfterFirst(ix, l.a.shape, a.value.shape, n - 2);
      SizesAfterFirst(ix, l.b.shape, b.value.shape, n - 1);
    } else if n == 2 && b.Some? && ix.Range? {
      SizesAfterFirst(ix, l.b.shape, b.value.shape, 1);
    }
  }

  lemma SizesAfterFirst(ix: Ix, s: seq<nat>, kept: seq<nat>, i: nat)
    requires s != [] && SizesEach([ix], s, kept) && 0 < i < |s|
    ensures var one := if ix.One? then 1 else 0;
      |kept| == |s| - one && kept[i - one] == s[i]
  {
    hide HasSize;
    KeptAfterFirst(ix, |s|);
    KeptAfterFirst(ix, i);
    assert !IsInteger([ix], i) && ComponentOf([ix], i) == EVERYTHING;
    WholeSize(s[i], kept[KeptBelow([ix], i)]);
  }

  // ---- one slice of the first axis ----

  /** The positions of a slice, in order: from its first bound on, below the other one, in steps. */
  ghost predicate Kept(ix: Ix, n: nat, ps: seq<nat>)
    requires ix.Range? && ix.step > 0
  {
    && (forall x, y :: 0 <= x < y < |ps| ==> ps[x] < ps[y])
    && forall p: nat :: p in ps <==> First(ix, n) <= p < Stop(ix, n) && (p - First(ix, n)) % ix.step == 0
  }

  /** A slice with a positive step keeps exactly these positions of the first axis, and all else as it is. */
  lemma SliceKeeps(t: Tensor, lo: Option<int>, hi: Option<int>, step: int) returns (ps: seq<nat>)
    requires t.shape != [] && step > 0
    ensures Kept(Range(lo, hi, step), t.shape[0], ps) && forall x :: 0 <= x < |ps| ==> ps[x] < t.shape[0]
    ensures Index(t, [Range(lo, hi, step)]).Some?
    ensures var u := Index(t, [Range(lo, hi, step)]).value;
      && u.shape == [|ps|] + t.shape[1..]
      && forall x: nat, rest :: x < |ps| && Within(t.shape[1..], rest) ==> HeadAt(u, x, rest) == HeadAt(t, ps[x], rest)
  {
    hide Make, At, Resolve, KeptShape, Expand, HeadAt;
    var ix, n := Range(lo, hi, step), t.shape[0];
    ResolveAccepts(ix, n);
    ResolveReads(ix, n);
    ps := Resolve(ix, n).value.ps;
    PositionsKept(ix, n, ps);
    FirstAxis(t, ix, ps);
  }

  lemma PositionsKept(ix: Ix, n: nat, ps: seq<nat>)
    requires ix.Range? && ix.step > 0 && HasSize(ix, n, |ps|) && forall x :: 0 <= x < |ps| ==> ReadsFrom(ix, n, x, ps[x])
    ensures Kept(ix, n, ps)
  {
    hide HasSize, ReadsFrom, First, Stop, StillBelow;
    forall x, y | 0 <= x < y < |ps| ensures ps[x] < ps[y] {
      PlaceIs(ix, n, ps, x);
      PlaceIs(ix, n, ps, y);
      Later(x, y, ix.step);
    }
    forall p: nat ensures p in ps <==> First(ix, n) <= p < Stop(ix, n) && (p - First(ix, n)) % ix.step == 0 {
      if p in ps {
        var x :| 0 <= x < |ps| && ps[x] == p;
        PlaceIs(ix, n, ps, x);
        Multiple(x, ix.step);
      }
      if First(ix, n) <= p < Stop(ix, n) && (p - First(ix, n)) % ix.step == 0 {
        PlaceOfKept(ix, n, ps, p);
      }
    }
  }

  lemma PlaceIs(ix: Ix, n: nat, ps: seq<nat>, x: nat)
    requires ix.Range? && HasSize(ix, n, |ps|) && x < |ps| && ReadsFrom(ix, n, x, ps[x])
    ensures ps[x] == First(ix, n) + x * ix.step < Stop(ix, n)
  {
    assert StillBelow(First(ix, n), x, ix.step, Stop(ix, n));
  }

  lemma Later(x: nat, y: nat, step: int)
    requires x < y && step > 0
    ensures x * step < y * step
  {
  }

  lemma PlaceOfKept(ix: Ix, n: nat, ps: seq<nat>, p: nat)
    requires ix.Range? && ix.step > 0 && HasSize(ix, n, |ps|) && forall x :: 0 <= x < |ps| ==> ReadsFrom(ix, n, x, ps[x])
    requires First(ix, n) <= p < Stop(ix, n) && (p - First(ix, n)) % ix.step == 0
    ensures p in ps
  {
    hide First, Stop;
    var from, step := First(ix, n), ix.step;
    var x := (p - from) / step;
    WholeSteps(p - from, step);
    assert StillBelow(from, x, step, Stop(ix, n));
    assert ps[x] == p;
  }

  lemma WholeSteps(q: nat, step: int)
    requires step > 0 && q % step == 0
    ensures q / step >= 0 && q == (q / step) * step
  {
  }

  lemma Multiple(x: nat, step: int)
    requires step > 0
    ensures x * step % step == 0 && x * step >= 0
  {
    DivMod(x * step, step);
    HornerUnique(x * step / step, x * step % step, x, 0, step);
  }

  /** These positions of the first axis, and all of the others. */
  function FirstOnly(ps: seq<nat>, s: seq<nat>): (sels: seq<Sel>)
    requires s != []
    ensures |sels| == |s| && sels[0] == Keep(ps) && forall i :: 1 <= i < |sels| ==> sels[i] == Keep(All(s[i]))
  {
    seq(|s|, i requires 0 <= i < |s| => if i == 0 then Keep(ps) else Keep(All(s[i])))
  }

  lemma FirstAxis(t: Tensor, ix: Ix, ps: seq<nat>)
    requires t.shape != [] && Resolve(ix, t.shape[0]) == Some(Keep(ps))
    ensures Index(t, [ix]).Some? && Index(t, [ix]).value.shape == [|ps|] + t.shape[1..]
    ensures forall x: nat, rest :: x < |ps| && Within(t.shape[1..], rest) ==>
      HeadAt(Index(t, [ix]).value, x, rest) == HeadAt(t, ps[x], rest)
  {
    hide Resolve, ResolveAll, FirstOnly, HeadAt, Select, SelFits;
    FirstResolved(t.shape, ix, ps);
    FirstSelected(t, ps);
  }

  lemma FirstResolved(s: seq<nat>, ix: Ix, ps: seq<nat>)
    requires s != [] && Resolve(ix, s[0]) == Some(Keep(ps))
    ensures ResolveAll([ix], s) == Some(FirstOnly(ps, s)) && SelFits(Keep(ps), s[0])
  {
    hide Resolve, FirstOnly;
    assert ResolveAll([ix], s).Some?;
    assert ResolveAll([ix], s).value == FirstOnly(ps, s);
  }

  lemma FirstSelected(t: Tensor, ps: seq<nat>)
    requires t.shape != [] && SelFits(Keep(ps), t.shape[0])
    ensures Fits(FirstOnly(ps, t.shape), t.shape)
    ensures var u := Select(t, FirstOnly(ps, t.shape));
      && u.shape == [|ps|] + t.shape[1..]
      && forall x: nat, rest :: x < |ps| && Within(t.shape[1..], rest) ==> HeadAt(u, x, rest) == HeadAt(t, ps[x], rest)
  {
    hide Make, At, KeptShape, Expand, FirstOnly;
    var sels := FirstOnly(ps, t.shape);
    AllKept(sels, [|ps|] + t.shape[1..]);
    var u := Select(t, sels);
    forall x: nat, rest | x < |ps| && Within(t.shape[1..], rest) ensures HeadAt(u, x, rest) == HeadAt(t, ps[x], rest) {
      FirstExpanded(t.shape, ps, sels, x, rest);
    }
  }

  lemma {:induction false} AllKept(sels: seq<Sel>, sizes: seq<nat>)
    requires |sels| == |sizes| && forall i :: 0 <= i < |sels| ==> sels[i].Keep? && |sels[i].ps| == sizes[i]
    ensures KeptShape(sels) == sizes
  {
    if sels != [] {
      var k := |sels| - 1;
      AllKept(sels[..k], sizes[..k]);
      assert sizes == sizes[..k] + [sizes[k]];
    }
  }

  lemma FirstExpanded(s: seq<nat>, ps: seq<nat>, sels: seq<Sel>, x: nat, rest: seq<nat>)
    requires s != [] && Fits(sels, s) && sels[0] == Keep(ps) && forall i :: 1 <= i < |s| ==> sels[i] == Keep(All(s[i]))
    requires KeptShape(sels) == [|ps|] + s[1..] && x < |ps| && Within(s[1..], rest)
    ensures Within(KeptShape(sels), [x] + rest) && Expand(sels, s, [x] + rest) == [ps[x]] + rest
  {
    hide KeptShape, Expand;
    var idx := [x] + rest;
    assert Within(KeptShape(sels), idx);
    forall i: nat | i < |s| ensures Expand(sels, s, idx)[i] == ([ps[x]] + rest)[i] {
      ExpandAt(sels, s, idx, i);
      assert KeptIndex(sels, i) == i by { PrefixKept(sels, i); }
    }
  }

  lemma PrefixKept(sels: seq<Sel>, i: nat)
    requires i <= |sels| && forall k :: 0 <= k < i ==> sels[k].Keep?
    ensures KeptIndex(sels, i) == i
  {
    hide KeptShape;
    AllKept(sels[..i], seq(i, k requires 0 <= k < i => |sels[k].ps|));
  }

  // ---- cutting in two ----

  function Upto(k: int): Ix { Range(None, Some(k), 1) }
  function From(k: int): Ix { Range(Some(k), None, 1) }

  lemma Consecutive(ix: Ix, n: nat, ps: seq<nat>, from: nat, stop: nat)
    requires ix.Range? && ix.step == 1 && HasSize(ix, n, |ps|) && forall x :: 0 <= x < |ps| ==> ReadsFrom(ix, n, x, ps[x])
    requires from == First(ix, n) <= stop == Stop(ix, n)
    ensures |ps| == stop - from && forall x :: 0 <= x < |ps| ==> ps[x] == from + x
  {
    assert (stop - from) < |ps| <==> StillBelow(from, stop - from, 1, stop);
    if stop > from {
      assert (stop - from - 1) < |ps| <==> StillBelow(from, stop - from - 1, 1, stop);
    }
  }

  /** t[:k] keeps what is before row k, counted from either end, and t[k:] the rest. */
  lemma Halves(t: Tensor, k: int)
    requires t.shape != []
    ensures Index(t, [Upto(k)]).Some? && Index(t, [From(k)]).Some?
    ensures var n, u, v := Bound(k, t.shape[0]), Index(t, [Upto(k)]).value, Index(t, [From(k)]).value;
      && u.shape == [n] + t.shape[1..] && v.shape == [t.shape[0] - n] + t.shape[1..]
      && (forall i: nat, rest :: i < n && Within(t.shape[1..], rest) ==> HeadAt(u, i, rest) == HeadAt(t, i, rest))
      && (forall i: nat, rest :: i < t.shape[0] - n && Within(t.shape[1..], rest) ==> HeadAt(v, i, rest) == HeadAt(t, n + i, rest))
  {
    hide Make, At, Resolve, HasSize, ReadsFrom, HeadAt, Index;
    var size := t.shape[0];
    var n := Bound(k, size);
    ResolveAccepts(Upto(k), size); ResolveAccepts(From(k), size);
    ResolveReads(Upto(k), size); ResolveReads(From(k), size);
    var ps, qs := Resolve(Upto(k), size).value.ps, Resolve(From(k), size).value.ps;
    Consecutive(Upto(k), size, ps, 0, n);
    Consecutive(From(k), size, qs, n, size);
    FirstAxis(t, Upto(k), ps);
    FirstAxis(t, From(k), qs);
  }

  /** Cut in two anywhere and joined again, a tensor is what it was. */
  lemma CutAndJoined(t: Tensor, k: int)
    requires t.shape != []
    ensures Index(t, [Upto(k)]).Some? && Index(t, [From(k)]).Some?
    ensures Cat([Index(t, [Upto(k)]).value, Index(t, [From(k)]).value]) == Some(t)
  {
    hide Make, At, Index, HeadAt, Bound, Cat;
    Halves(t, k);
    TwoJoined(t, Bound(k, t.shape[0]), Index(t, [Upto(k)]).value, Index(t, [From(k)]).value);
  }

  lemma TwoCat(u: Tensor, v: Tensor)
    requires Joinable(u.shape, v.shape)
    ensures Cat([u, v]) == Some(Joined(u, v))
  {
    hide Joined;
    assert [u, v][1..] == [v] && Cat([v]) == Some(v);
  }

  lemma TwoJoined(t: Tensor, n: nat, u: Tensor, v: Tensor)
    requires t.shape != [] && n <= t.shape[0]
    requires u.shape == [n] + t.shape[1..] && v.shape == [t.shape[0] - n] + t.shape[1..]
    requires forall i: nat, rest :: i < n && Within(t.shape[1..], rest) ==> HeadAt(u, i, rest) == HeadAt(t, i, rest)
    requires forall i: nat, rest :: i < t.shape[0] - n && Within(t.shape[1..], rest) ==> HeadAt(v, i, rest) == HeadAt(t, n + i, rest)
    ensures Cat([u, v]) == Some(t)
  {
    hide Make, At, HeadAt, Joined, Cat;
    TwoCat(u, v);
    forall i: nat, rest | i < t.shape[0] && Within(t.shape[1..], rest) ensures HeadAt(Joined(u, v), i, rest) == HeadAt(t, i, rest) {
      JoinedAt(u, v, i, rest);
      if i >= n {
        assert HeadAt(v, i - n, rest) == HeadAt(t, n + (i - n), rest);
      }
    }
    assert Joined(u, v).shape == t.shape;
    SameHeads(Joined(u, v), t);
  }

  /** The same for factors of a matrix, or with an A that owns the first axis; the rows of the two are those
      of the product before row k and from it on. */
  lemma FactorsCutAndJoined(l: Factors, k: int) returns (u: Factors, v: Factors)
    requires Denotable(l) && (|l.a.shape| == 2 || l.a.shape[0] == l.b.shape[0])
    ensures IndexFirst(l, Upto(k)) == Some(u) && IndexFirst(l, From(k)) == Some(v)
    ensures Denotable(u) && Some(Dense(u)) == Index(Dense(l), [Upto(k)])
    ensures Denotable(v) && Some(Dense(v)) == Index(Dense(l), [From(k)])
    ensures CatFactors([u, v]) == Some(l)
  {
    hide Make, At, Index, Dense, Cat, IndexFirst, CatFactors;
    u := HalfOf(l, Upto(k), k);
    v := HalfOf(l, From(k), k);
    JoinedHalves(l, k, u, v);
  }

  lemma HalfOf(l: Factors, ix: Ix, k: int) returns (u: Factors)
    requires Denotable(l) && (|l.a.shape| == 2 || l.a.shape[0] == l.b.shape[0]) && (ix == Upto(k) || ix == From(k))
    ensures IndexFirst(l, ix) == Some(u)
    ensures Denotable(u) && Some(Dense(u)) == Index(Dense(l), [ix])
  {
    hide Make, At, Index, Dense, Bound;
    Halves(l.b, k);
    Halves(l.a, k);
    IndexFirstCommutes(l, ix);
    u := IndexFirst(l, ix).value;
  }

  lemma JoinedHalves(l: Factors, k: int, u: Factors, v: Factors)
    requires Denotable(l) && IndexFirst(l, Upto(k)) == Some(u) && IndexFirst(l, From(k)) == Some(v)
    requires |l.a.shape| == 2 || l.a.shape[0] == l.b.shape[0]
    requires Constructible(u) && Constructible(v)
    ensures CatFactors([u, v]) == Some(l)
  {
    hide Make, At, Index, Cat, CatFactors, IndexFirst;
    PartsOf(l, Upto(k));
    PartsOf(l, From(k));
    CutAndJoined(l.b, k);
    if |l.a.shape| > 2 {
      CutAndJoined(l.a, k);
    }
    PairJoined(u, v, l);
  }

  lemma PartsOf(l: Factors, ix: Ix)
    requires Constructible(l) && ix.Range? && IndexFirst(l, ix).Some?
    ensures Some(IndexFirst(l, ix).value.b) == Index(l.b, [ix])
    ensures if |l.a.shape| > 2 then Some(IndexFirst(l, ix).value.a) == Index(l.a, [ix]) else IndexFirst(l, ix).value.a == l.a
  {
    hide Index;
  }

  lemma PairJoined(u: Factors, v: Factors, l: Factors)
    requires Constructible(u) && Constructible(v) && Constructible(l)
    requires Cat([u.b, v.b]) == Some(l.b)
    requires if |l.a.shape| > 2 then Cat([u.a, v.a]) == Some(l.a) else u.a == v.a == l.a
    ensures CatFactors([u, v]) == Some(l)
  {
    hide Make, At, Joined;
    assert FactorsB([u, v]) == [u.b, v.b] && FactorsA([u, v]) == [u.a, v.a];
  }
}
