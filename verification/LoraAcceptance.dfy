/** Which operations on the factors succeed: reshaping, permuting, transposing, joining and the head permutation exactly,
    and the regrouping on every matrix of the right shape. */
module LoraAcceptance {
  import opened Wrappers
  import opened Tensors
  import opened Lora
  import opened LoraIndexing
  import opened LoraJoining
  import opened LoraHeads
  import HeadRows

  predicate UnitLead(l: Factors) {
    forall i :: 0 <= i < |l.a.shape| - 2 ==> l.a.shape[i] == 1
  }

  lemma {:induction false} SizeUnits(s: seq<nat>)
    requires forall i :: 0 <= i < |s| ==> s[i] == 1
    ensures Size(s) == 1
  {
    if s != [] {
      SizeUnits(s[..|s| - 1]);
    }
  }

  lemma SizeTwoMore(s: seq<nat>, r: nat, c: nat)
    requires Size(s) == 1
    ensures Size(s + [r] + [c]) == r * c
  {
    SizeSnoc(s, r);
    SizeSnoc(s + [r], c);
  }

  /** Reshape accepts exactly the shapes that keep the columns and the number of rows, when A is
      broadcast; without a rank, or without columns, torch does not notice a wrong number. */
  lemma {:induction false} ReshapeAcceptsExactly(l: Factors, s: seq<nat>)
    requires Denotable(l)
    ensures var n, c := |l.a.shape|, l.a.shape[|l.a.shape| - 1];
      ReshapeFactors(l, s).Some? <==>
        |s| >= 2 && s[|s| - 1] == c &&
        (Rank(l) == 0 || ((c == 0 || Size(l.a.shape[..n - 2]) == 1) && Size(s[..|s| - 1]) == Size(l.b.shape[..n - 1])))
    ensures ReshapeFactors(l, s).Some? ==> var l' := ReshapeFactors(l, s).value;
      l'.a.shape == Ones(|s| - 2) + [Rank(l)] + [s[|s| - 1]] && l'.a.data == l.a.data &&
      l'.b.shape == s[..|s| - 1] + [Rank(l)]
  {
    hide Size;
    var n, r := |l.a.shape|, Rank(l);
    ResolvePlain(Size(Shape(l)), s);
    if |s| >= 2 && s[|s| - 1] == Shape(l)[|Shape(l)| - 1] {
      var c := s[|s| - 1];
      SizeOnes(|s| - 2);
      SizeTwoMore(Ones(|s| - 2), r, c);
      SizeLast(l.a.shape[..n - 2], r, c);
      assert l.a.shape == l.a.shape[..n - 2] + [r] + [c];
      assert l.b.shape == l.b.shape[..n - 1] + [r];
      SizeSnoc(l.b.shape[..n - 1], r);
      SizeSnoc(s[..|s| - 1], r);
      SameRows(Size(s[..|s| - 1]), Size(l.b.shape[..n - 1]), r);
      SameRows(Size(l.a.shape[..n - 2]), 1, r * c);
    }
  }

  lemma SizeLast(s: seq<nat>, r: nat, c: nat)
    ensures Size(s + [r] + [c]) == Size(s) * (r * c)
  {
    hide Size;
    SizeSnoc(s, r);
    SizeSnoc(s + [r], c);
    assert Size(s) * r * c == Size(s) * (r * c);
  }

  lemma SameRows(x: nat, y: nat, r: nat)
    ensures x * r == y * r <==> r == 0 || x == y
  {
    if r > 0 && x * r == y * r {
      CancelFactor(x, y, r);
    }
  }

  lemma SizeOne(a: nat)
    ensures Size([a]) == a
  {
    assert [a][..0] == [];
  }

  lemma {:induction false} SizeThree(a: nat, b: nat, c: nat)
    ensures Size([a, b, c]) == a * b * c
  {
    hide Size;
    SizeOne(a);
    SizeSnoc([a], b);
    SizeSnoc([a, b], c);
    assert [a] + [b] == [a, b] && [a, b] + [c] == [a, b, c];
  }

  // ---- the head permutation ----

  /** Swapping the middle axes of rows that were split in three is always accepted after a reshape. */
  lemma {:induction false} SwapAccepts(l: Factors, d0: nat, d2: nat, mid: seq<nat>, r: nat, c: nat)
    requires l.a.shape == Ones(|mid| + 2) + [r] + [c] && l.b.shape == [d0, 2, d2] + (mid + [r])
    ensures Constructible(l) && TransposeFactors(l, 1, 2).Some?
    ensures var l' := TransposeFactors(l, 1, 2).value;
      l'.a == l.a && l'.b.shape == [d0, d2, 2] + (mid + [r]) && Rank(l') == r && Denotable(l')
  {
    hide Size, Permuted, SwapAxes;
    HeadRows.SwapShape(l.b, d0, d2, mid + [r]);
    var n := |l.a.shape|;
    var dims := SwapAxes(n, 1, 2).value;
    assert NormalizeAxes(dims, n).value == dims;
    assert forall i :: 0 <= i < n - 2 ==> l.a.shape[i] == 1;
  }

  /** After a split that was accepted, merging is too if the rows are as many. */
  lemma SplitMerges(split: Factors, s: seq<nat>, heads: nat, half: nat, mid: seq<nat>, r: nat, c: nat)
    requires split.a.shape == Ones(|mid| + 2) + [r] + [c] && split.b.shape == [heads, 2, half] + mid + [r]
    requires |s| == |mid| + 2 && s[|s| - 1] == c
    ensures Constructible(split) && TransposeFactors(split, 1, 2).Some?
    ensures ReshapeFactors(TransposeFactors(split, 1, 2).value, s).Some? <==>
      r == 0 || Size(s[..|s| - 1]) == Size([heads, 2, half] + mid)
  {
    hide Size, ReshapeFactors, TransposeFactors;
    assert split.b.shape == [heads, 2, half] + (mid + [r]);
    SwapAccepts(split, heads, half, mid, r, c);
    var swapped := TransposeFactors(split, 1, 2).value;
    SwappedRows(heads, half, mid);
    var n := |swapped.a.shape|;
    assert swapped.b.shape[..n - 1] == [heads, half, 2] + mid;
    SizeUnits(swapped.a.shape[..n - 2]);
    ReshapeAcceptsExactly(swapped, s);
  }

  /** Which factors have their heads permuted, whatever their axes: those whose rows are as many as the split
      rows of heads, and whose A has only broadcast leading axes; without a rank torch notices nothing. */
  lemma {:induction false} PermuteHeadsAccepts(l: Factors, nHead: nat, nHeadKv: Option<nat>)
    requires Denotable(l)
    ensures var n, heads := |l.a.shape|, Heads(nHead, nHeadKv);
      PermuteHeadsOfFactors(l, nHead, nHeadKv).Some? <==>
        heads > 0 &&
        (Rank(l) == 0 ||
         ((l.a.shape[n - 1] == 0 || Size(l.a.shape[..n - 2]) == 1) &&
          Size(SplitShape(Shape(l), heads)[..n + 1]) == Size(l.b.shape[..n - 1])))
  {
    hide Size, ReshapeFactors, TransposeFactors;
    var n, r, heads := |l.a.shape|, Rank(l), Heads(nHead, nHeadKv);
    if heads > 0 {
      var s, c := SplitShape(Shape(l), heads), l.a.shape[n - 1];
      var half, mid := s[2], Shape(l)[1..n - 1];
      assert s == [heads, 2, half] + (mid + [c]) && s[..n + 1] == [heads, 2, half] + mid;
      ReshapeAcceptsExactly(l, s);
      var split := ReshapeFactors(l, s);
      if split.Some? {
        SplitMerges(split.value, Shape(l), heads, half, mid, r, c);
        assert Shape(l)[..n - 1] == l.b.shape[..n - 1];
      }
    }
  }

  lemma SwappedRows(heads: nat, half: nat, mid: seq<nat>)
    ensures Size([heads, half, 2] + mid) == Size([heads, 2, half] + mid)
  {
    hide Size, HeadRows.Rows;
    HeadRows.MergedSize(heads, half, 2, mid);
    HeadRows.MergedSize(heads, 2, half, mid);
    HeadRows.SwapFactors(heads, half);
  }

  // ---- the Falcon regroup ----

  /** The positions a part keeps on the axis of the heads of a group. */
  function Kept(ix: Ix, g: nat): seq<nat>
    requires Resolve(ix, g).Some? && !ix.One?
  {
    Resolve(ix, g).value.ps
  }

  lemma KeptFour(p: seq<nat>, q: seq<nat>, u: seq<nat>, v: seq<nat>)
    ensures KeptShape([Keep(p), Keep(q), Keep(u), Keep(v)]) == [|p|, |q|, |u|, |v|]
  {
    var s := [Keep(p), Keep(q), Keep(u), Keep(v)];
    var s3, s2, s1 := [Keep(p), Keep(q), Keep(u)], [Keep(p), Keep(q)], [Keep(p)];
    assert s[..3] == s3 && s3[..2] == s2 && s2[..1] == s1 && s1[..0] == [];
    assert KeptShape(s1) == [|p|];
    assert KeptShape(s2) == [|p|] + [|q|];
    assert KeptShape(s3) == KeptShape(s2) + [|u|];
    assert KeptShape(s) == KeptShape(s3) + [|v|];
  }

  /** Taking a part of the heads of every group leaves A as it is. */
  lemma {:induction false} PartAccepts(l: Factors, ix: Ix, kv: nat, g: nat, hd: nat, r: nat, c: nat)
    requires l.a.shape == [1, 1, r, c] && l.b.shape == [kv, g, hd, r] && !ix.One? && Resolve(ix, g).Some?
    ensures Constructible(l) && IndexTuple(l, [EVERYTHING, ix]).Some?
    ensures var l' := IndexTuple(l, [EVERYTHING, ix]).value;
      l'.a == l.a && l'.b.shape == [kv, |Kept(ix, g)|, hd, r]
  {
    hide At, Ravel, Size, Make, Select, Resolve, KeptShape;
    var full := Pad([EVERYTHING, ix], 4);
    assert full == [EVERYTHING, ix, EVERYTHING, EVERYTHING];
    var cs := ComponentsOfA(full, l.a.shape);
    assert cs == [EVERYTHING, EVERYTHING, EVERYTHING, EVERYTHING];
    forall i | 0 <= i < 4 ensures Resolve(EVERYTHING, l.a.shape[i]) == Some(Keep(All(l.a.shape[i]))) {
      FullSlice(l.a.shape[i]);
    }
    var sa := ResolveAll(cs, l.a.shape).value;
    SelectEverything(l.a, sa);
    FullSlice(kv);
    FullSlice(hd);
    assert full[..3] == [EVERYTHING, ix, EVERYTHING];
    var sb := ResolveAll(full[..3], l.b.shape).value;
    assert sb == [Keep(All(kv)), Keep(Kept(ix, g)), Keep(All(hd)), Keep(All(r))];
    KeptFour(All(kv), Kept(ix, g), All(hd), All(r));
  }

  /** A part of the heads, laid out as a matrix again. */
  lemma {:induction false} PartMatrixAccepts(l: Factors, ix: Ix, kv: nat, g: nat, hd: nat, r: nat, c: nat, rows: nat)
    requires Denotable(l)
    requires l.a.shape == [1, 1, r, c] && l.b.shape == [kv, g, hd, r] && !ix.One? && Resolve(ix, g).Some?
    requires kv * |Kept(ix, g)| * hd == rows
    ensures RegroupPartOfFactors(l, [EVERYTHING, ix], [rows, c]).Some?
    ensures var l' := RegroupPartOfFactors(l, [EVERYTHING, ix], [rows, c]).value;
      l'.a == RawTensor.Tensor([r, c], l.a.data) && l'.b.shape == [rows, r]
  {
    hide At, Ravel, Size, Make, Resolve, IndexTuple, ReshapeFactors, Kept, Dense;
    PartAccepts(l, ix, kv, g, hd, r, c);
    var part := IndexTuple(l, [EVERYTHING, ix]).value;
    SizeThree(kv, |Kept(ix, g)|, hd);
    SizeOne(rows);
    assert part.b.shape[..3] == [kv, |Kept(ix, g)|, hd] && [rows, c][..1] == [rows];
    SizeUnits(part.a.shape[..2]);
    ReshapeAcceptsExactly(part, [rows, c]);
    assert Ones(0) + [r] + [c] == [r, c] && [rows] + [r] == [rows, r];
  }

  lemma GroupSizes(g: nat)
    requires g >= 2
    ensures Resolve(Range(None, Some(-2), 1), g).Some? && Resolve(Pick([-2]), g).Some? && Resolve(Pick([-1]), g).Some?
    ensures |Kept(Range(None, Some(-2), 1), g)| == g - 2 && |Kept(Pick([-2]), g)| == 1 && |Kept(Pick([-1]), g)| == 1
  {
    OneByOne(0, g - 2);
  }

  lemma {:induction false} CatThreeAccepts(q: Factors, k: Factors, v: Factors, r: nat, m: nat, n: nat)
    requires Constructible(q) && Constructible(k) && Constructible(v)
    requires q.a == k.a == v.a && |q.a.shape| == 2 && q.b.shape == [m, r] && k.b.shape == v.b.shape == [n, r]
    ensures CatThree(q, k, v).Some?
    ensures CatThree(q, k, v).value.a == q.a && CatThree(q, k, v).value.b.shape == [m + (n + n), r]
  {
    hide At, Ravel, Size, Make, Cat, Joined;
    var bs := [q.b, k.b, v.b];
    assert FactorsB([q, k, v]) == bs;
    CatThreeMatrices(q.b, k.b, v.b, r, m, n);
  }

  lemma {:induction false} CatThreeMatrices(x: Tensor, y: Tensor, z: Tensor, r: nat, m: nat, n: nat)
    requires x.shape == [m, r] && y.shape == z.shape == [n, r]
    ensures Cat([x, y, z]).Some? && Cat([x, y, z]).value.shape == [m + (n + n), r]
  {
    hide At, Ravel, Size, Make, Joined;
    assert [x, y, z][1..] == [y, z] && [y, z][1..] == [z];
    assert Cat([z]) == Some(z);
    assert Cat([y, z]) == Some(Joined(y, z)) && Joined(y, z).shape == [n + n, r];
    assert Cat([x, y, z]) == Some(Joined(x, Joined(y, z)));
  }

  lemma GroupRows(g: nat, kv: nat, hd: nat)
    ensures kv * (g + 2) * hd == (g * kv + 2 * kv) * hd
    ensures kv * g * hd == g * kv * hd && kv * 1 * hd == kv * hd
    ensures g * kv * hd + (kv * hd + kv * hd) == (g * kv + 2 * kv) * hd
  {
    assert (g * kv + 2 * kv) * hd == g * kv * hd + 2 * kv * hd;
    assert kv * (g + 2) == g * kv + 2 * kv;
  }

  lemma {:induction false} GroupAccepts(l: Factors, f: Fused, g: nat)
    requires Denotable(l) && |l.a.shape| == 2
    requires f.nHeadKv > 0 && f.nHead == g * f.nHeadKv
    requires Shape(l) == [(f.nHead + 2 * f.nHeadKv) * f.headDim, f.headDim * f.nHead]
    ensures ReshapeFactors(l, f.Grouped()).Some?
    ensures var l' := ReshapeFactors(l, f.Grouped()).value;
      Denotable(l') && l'.a.shape == [1, 1, Rank(l), f.headDim * f.nHead] &&
      l'.b.shape == [f.nHeadKv, g + 2, f.headDim, Rank(l)]
  {
    hide Size, ReshapeFactors, Dense;
    var kv, hd, c, r := f.nHeadKv, f.headDim, f.headDim * f.nHead, Rank(l);
    ExactQuotient(g, kv);
    assert f.Grouped() == [kv, g + 2, hd, c];
    GroupRows(g, kv, hd);
    assert Shape(l)[1] == l.a.shape[1];
    assert Shape(l)[0] == kv * (g + 2) * hd && l.a.shape[1] == c;
    SizeThree(kv, g + 2, hd);
    SizeOne(Shape(l)[0]);
    assert l.b.shape[..1] == [Shape(l)[0]] && f.Grouped()[..3] == [kv, g + 2, hd];
    SizeUnits(l.a.shape[..0]);
    ReshapeAcceptsExactly(l, f.Grouped());
    assert Ones(2) + [r] + [c] == [1, 1, r, c] && [kv, g + 2, hd] + [r] == [kv, g + 2, hd, r];
  }

  lemma {:induction false} PartsAccept(l: Factors, f: Fused, g: nat, ix: Ix, rows: nat)
    requires Denotable(l) && g >= 2 && f.nHeadKv > 0
    requires l.a.shape == [1, 1, Rank(l), f.headDim * f.nHead] && l.b.shape == [f.nHeadKv, g, f.headDim, Rank(l)]
    requires ix in {Range(None, Some(-2), 1), Pick([-2]), Pick([-1])}
    requires rows == f.nHeadKv * (if ix.Range? then g - 2 else 1) * f.headDim
    ensures var r := RegroupPartOfFactors(l, [EVERYTHING, ix], [rows, f.headDim * f.nHead]);
      r.Some? && r.value.a == RawTensor.Tensor([Rank(l), f.headDim * f.nHead], l.a.data) && r.value.b.shape == [rows, Rank(l)]
  {
    hide Size, RegroupPartOfFactors, Kept, Denotable, Resolve;
    GroupSizes(g);
    PartMatrixAccepts(l, ix, f.nHeadKv, g, f.headDim, Rank(l), f.headDim * f.nHead, rows);
  }

  /** Every fused projection with whole groups of heads is regrouped. */
  lemma {:induction false} RegroupAccepts(l: Factors, f: Fused, g: nat)
    requires Denotable(l) && |l.a.shape| == 2
    requires f.nHeadKv > 0 && f.nHead == g * f.nHeadKv
    requires Shape(l) == [(f.nHead + 2 * f.nHeadKv) * f.headDim, f.headDim * f.nHead]
    ensures RegroupFactors(l, f).Some?
  {
    hide Size, ReshapeFactors, RegroupPartOfFactors, CatThree;
    var kv, hd, r := f.nHeadKv, f.headDim, Rank(l);
    GroupAccepts(l, f, g);
    var qkv := ReshapeFactors(l, f.Grouped()).value;
    GroupRows(g, kv, hd);
    PartsAccept(qkv, f, g + 2, Range(None, Some(-2), 1), f.nHead * hd);
    PartsAccept(qkv, f, g + 2, Pick([-2]), kv * hd);
    PartsAccept(qkv, f, g + 2, Pick([-1]), kv * hd);
    var q := RegroupPartOfFactors(qkv, QUERIES, f.Queries()).value;
    var k := RegroupPartOfFactors(qkv, KEYS, f.Keys()).value;
    var v := RegroupPartOfFactors(qkv, VALUES, f.Keys()).value;
    CatThreeAccepts(q, k, v, r, f.nHead * hd, kv * hd);
    JoinedAccepts(l, CatThree(q, k, v).value, f, g);
  }

  lemma {:induction false} JoinedAccepts(l: Factors, joined: Factors, f: Fused, g: nat)
    requires Constructible(l) && |l.a.shape| == 2 && Constructible(joined) && |joined.a.shape| == 2
    requires f.nHead == g * f.nHeadKv
    requires Shape(l) == [(f.nHead + 2 * f.nHeadKv) * f.headDim, f.headDim * f.nHead]
    requires joined.a.shape[1] == f.headDim * f.nHead
    requires joined.b.shape[0] == f.nHead * f.headDim + (f.nHeadKv * f.headDim + f.nHeadKv * f.headDim)
    ensures ReshapeFactors(joined, Shape(l)).Some?
  {
    hide Size, ReshapeFactors;
    GroupRows(g, f.nHeadKv, f.headDim);
    assert joined.b.shape[..1] == [Shape(l)[0]] && Shape(l)[..1] == [Shape(l)[0]];
    MatrixDenotable(joined);
    SizeUnits(joined.a.shape[..0]);
    ReshapeAcceptsExactly(joined, Shape(l));
  }

  lemma MatrixDenotable(l: Factors)
    requires Constructible(l) && |l.a.shape| == 2
    ensures Denotable(l) && UnitLead(l)
  {
  }

  // ---- axes ----

  /** dims names every axis once, from the front or, when negative, from the back. */
  predicate NamesAxes(dims: seq<int>, n: nat, axes: seq<nat>) {
    && |dims| == |axes| == n
    && (forall i :: 0 <= i < n ==> axes[i] < n && (dims[i] == axes[i] || dims[i] == axes[i] - n))
    && (forall i, j :: 0 <= i < j < n ==> axes[i] != axes[j])
  }

  lemma AxesNamed(dims: seq<int>, n: nat, axes: seq<nat>)
    requires NamesAxes(dims, n, axes)
    ensures NormalizeAxes(dims, n) == Some(axes) && IsPermutation(axes, n)
  {
    assert seq(|dims|, i requires 0 <= i < |dims| => if dims[i] < 0 then dims[i] + n else dims[i]) == axes;
  }

  /** A permutation is accepted exactly when it leaves the last axis in its place and A is broadcast, or exchanges the
      axes of a matrix; the product is then permuted by the axes named. */
  lemma PermuteAcceptsExactly(l: Factors, dims: seq<int>, axes: seq<nat>)
    requires Denotable(l)
    ensures var n := |l.a.shape|;
      NamesAxes(dims, n, axes) ==>
        && (PermuteFactors(l, dims).Some? <==> (axes[n - 1] == n - 1 && UnitLead(l)) || (n == 2 && axes == [1, 0]))
        && (PermuteFactors(l, dims).Some? ==> PermuteAxes(Dense(l), axes) == Some(Dense(PermuteFactors(l, dims).value)))
    ensures PermuteFactors(l, dims).Some? ==> exists named :: NamesAxes(dims, |l.a.shape|, named)
  {
    hide PermuteFactors, NormalizeAxes, PermuteAxes, Dense, NamesAxes, UnitLead;
    var n := |l.a.shape|;
    if NamesAxes(dims, n, axes) {
      NamedAccepted(l, dims, axes);
      AxesNamed(dims, n, axes);
      if PermuteFactors(l, dims).Some? {
        PermuteCommutes(l, dims);
      }
    }
    if PermuteFactors(l, dims).Some? {
      SomeAxes(l, dims);
    }
  }

  lemma NamedAccepted(l: Factors, dims: seq<int>, axes: seq<nat>)
    requires Denotable(l) && NamesAxes(dims, |l.a.shape|, axes)
    ensures var n := |l.a.shape|;
      |axes| == n >= 2 && (PermuteFactors(l, dims).Some? <==> (axes[n - 1] == n - 1 && UnitLead(l)) || (n == 2 && axes == [1, 0]))
  {
    hide Permuted, PermutedShape, Dense, NormalizeAxes;
    var n := |l.a.shape|;
    AxesNamed(dims, n, axes);
    if axes[n - 1] == n - 1 {
      LastSizeKept(l, axes);
    } else if n == 2 && axes == [1, 0] {
      TransposeMatrix(l);
    }
  }

  lemma LastSizeKept(l: Factors, axes: seq<nat>)
    requires Constructible(l) && IsPermutation(axes, |l.a.shape|) && axes[|axes| - 1] == |axes| - 1
    ensures Constructible(Factors(l.a, Permuted(l.b, axes)))
  {
    hide At, Make;
  }

  lemma SomeAxes(l: Factors, dims: seq<int>)
    requires Constructible(l) && PermuteFactors(l, dims).Some?
    ensures exists named :: NamesAxes(dims, |l.a.shape|, named)
  {
    hide Permuted, PermutedShape;
    var n := |l.a.shape|;
    var axes := NormalizeAxes(dims, n).value;
    assert IsPermutation(axes, n);
    assert NamesAxes(dims, n, axes);
  }

  predicate IsAxis(axis: int, n: nat, i: nat) {
    i < n && (axis == i || axis == i - n)
  }

  function Swapped<T>(s: seq<T>, i: nat, j: nat): seq<T>
    requires i < |s| && j < |s|
  {
    s[i := s[j]][j := s[i]]
  }

  /** Exchanging axes i and j of a tensor exchanges them in its shape and in every index. */
  lemma AxesSwap(t: Tensor, axis0: int, axis1: int, i: nat, j: nat, src: seq<nat>)
    requires IsAxis(axis0, |t.shape|, i) && IsAxis(axis1, |t.shape|, j) && Within(t.shape, src)
    ensures Transpose(t, axis0, axis1).Some?
    ensures var r := Transpose(t, axis0, axis1).value;
      r.shape == Swapped(t.shape, i, j) && Within(r.shape, Swapped(src, i, j)) && At(r, Swapped(src, i, j)) == At(t, src)
  {
    hide At, Make, PermuteAxes;
    var n := |t.shape|;
    var dims := SwapAxes(n, axis0, axis1).value;
    SwapIs(n, axis0, axis1, i, j);
    AxesMove(t, dims, src, Swapped(src, i, j));
    assert PermuteAxes(t, dims).value.shape == Swapped(t.shape, i, j);
  }

  lemma SwapIs(n: nat, axis0: int, axis1: int, i: nat, j: nat)
    requires IsAxis(axis0, n, i) && IsAxis(axis1, n, j)
    ensures SwapAxes(n, axis0, axis1).Some?
    ensures var dims := SwapAxes(n, axis0, axis1).value;
      IsPermutation(dims, n) && forall k :: 0 <= k < n ==> dims[k] == if k == i then j else if k == j then i else k
  {
  }

  /** It is accepted exactly for two leading axes or one axis twice, where A is broadcast, and for the axes of a matrix. */
  lemma TransposeAcceptsExactly(l: Factors, axis0: int, axis1: int, i: nat, j: nat)
    requires Denotable(l) && IsAxis(axis0, |l.a.shape|, i) && IsAxis(axis1, |l.a.shape|, j)
    ensures var n := |l.a.shape|;
      TransposeFactors(l, axis0, axis1).Some? <==>
        (UnitLead(l) && (i == j || (i < n - 1 && j < n - 1))) || (n == 2 && i != j)
  {
    hide PermuteFactors, UnitLead, Dense, PermuteAxes;
    var n := |l.a.shape|;
    SwapIs(n, axis0, axis1, i, j);
    var dims := SwapAxes(n, axis0, axis1).value;
    PermuteAcceptsExactly(l, dims, dims);
    assert NamesAxes(dims, n, dims);
    assert n == 2 ==> (dims == [1, 0] <==> i != j);
  }

  // ---- joining ----

  ghost predicate AllConstructible(ls: seq<Factors>) {
    forall i :: 0 <= i < |ls| ==> Constructible(ls[i])
  }

  /** Stacking is accepted exactly for factors of one shape. */
  lemma StackAcceptsExactly(ls: seq<Factors>)
    requires AllConstructible(ls)
    ensures StackFactors(ls).Some? <==>
      ls != [] && forall i :: 0 <= i < |ls| ==> ls[i].a.shape == ls[0].a.shape && ls[i].b.shape == ls[0].b.shape
  {
    hide At, Make;
    var a, b := FactorsA(ls), FactorsB(ls);
    if ls != [] && SameShapes(a) && SameShapes(b) {
      assert Constructible(ls[0]);
    }
  }

  /** Concatenating is accepted exactly for matrices that share A, and for higher tensors that are alike in all axes but
      the first. */
  lemma CatAcceptsExactly(ls: seq<Factors>)
    requires AllConstructible(ls)
    ensures CatFactors(ls).Some? <==>
      ls != [] &&
      if |ls[0].a.shape| == 2 then forall i :: 0 <= i < |ls| ==> ls[i].a == ls[0].a
      else forall i :: 0 <= i < |ls| ==>
        ls[i].a.shape[1..] == ls[0].a.shape[1..] && ls[i].b.shape[1..] == ls[0].b.shape[1..]
  {
    hide At, Make, Cat, RowsBefore;
    var a, b := FactorsA(ls), FactorsB(ls);
    CatAccepted(a);
    CatAccepted(b);
    if ls != [] {
      assert Constructible(ls[0]);
      if |ls[0].a.shape| == 2 {
        MatricesJoin(ls);
      } else {
        TensorsJoin(ls);
      }
    }
  }

  lemma MatricesJoin(ls: seq<Factors>)
    requires AllConstructible(ls) && ls != [] && |ls[0].a.shape| == 2
    ensures (forall i :: 0 <= i < |ls| ==> ls[i].a == ls[0].a) ==> AllJoin(FactorsB(ls))
  {
    if forall i :: 0 <= i < |ls| ==> ls[i].a == ls[0].a {
      forall i | 0 <= i < |ls| ensures Joinable(FactorsB(ls)[i].shape, FactorsB(ls)[0].shape) {
        assert Constructible(ls[i]) && Constructible(ls[0]);
      }
    }
  }

  lemma TensorsJoin(ls: seq<Factors>)
    requires AllConstructible(ls) && ls != [] && |ls[0].a.shape| > 2
    ensures AllJoin(FactorsA(ls)) && AllJoin(FactorsB(ls)) <==>
      forall i :: 0 <= i < |ls| ==>
        ls[i].a.shape[1..] == ls[0].a.shape[1..] && ls[i].b.shape[1..] == ls[0].b.shape[1..]
  {
    assert forall i :: 0 <= i < |ls| ==> Constructible(ls[i]);
    if AllJoin(FactorsA(ls)) && AllJoin(FactorsB(ls)) {
      forall i | 0 <= i < |ls| ensures ls[i].a.shape[1..] == ls[0].a.shape[1..] && ls[i].b.shape[1..] == ls[0].b.shape[1..] {
        assert Joinable(FactorsA(ls)[i].shape, FactorsA(ls)[0].shape) && Joinable(FactorsB(ls)[i].shape, FactorsB(ls)[0].shape);
      }
    }
  }
}
