/** LoraTorchTensor: a matrix kept as two factors (A, B), rewritten factor by factor. */
module Lora {
  import opened Wrappers
  import opened Tensors

  /** _lora_A has shape (.., rank, columns) and _lora_B has shape (.., rows, rank). */
  datatype Factors = Factors(a: Tensor, b: Tensor)

  /** The two assertions of the constructor. */
  predicate Constructible(l: Factors) {
    var n := |l.a.shape|;
    n == |l.b.shape| && n >= 2 && l.a.shape[n - 2] == l.b.shape[n - 1]
  }

  function Construct(a: Tensor, b: Tensor): (r: Option<Factors>)
    ensures r.Some? ==> Constructible(r.value)
  {
    if Constructible(Factors(a, b)) then Some(Factors(a, b)) else None
  }

  function Rank(l: Factors): nat
    requires Constructible(l)
  {
    l.b.shape[|l.b.shape| - 1]
  }

  function Shape(l: Factors): (s: seq<nat>)
    requires Constructible(l)
  {
    var n := |l.a.shape|;
    l.b.shape[..n - 1] + [l.a.shape[n - 1]]
  }

  /** B times A exists and has the advertised shape: the leading axes of A agree with those of B
      or are broadcast from size 1. */
  ghost predicate Denotable(l: Factors) {
    && Constructible(l)
    && forall i :: 0 <= i < |l.a.shape| - 2 ==> l.a.shape[i] == 1 || l.a.shape[i] == l.b.shape[i]
  }

  /** Where entry idx of the product reads column k of B. */
  function IndexB(idx: seq<nat>, k: nat): seq<nat>
    requires |idx| >= 1
  {
    idx[..|idx| - 1] + [k]
  }

  /** Where entry idx of the product reads row k of A. */
  function IndexA(s: seq<nat>, idx: seq<nat>, k: nat): seq<nat>
    requires |idx| == |s| >= 2
  {
    var n := |s|;
    seq(n - 2, i requires 0 <= i < n - 2 => if s[i] == 1 then 0 else idx[i]) + [k] + [idx[n - 1]]
  }

  function Times(x: real, y: real): real {
    x * y
  }

  ghost function Term(l: Factors, idx: seq<nat>, k: nat): real
    requires Denotable(l) && Within(Shape(l), idx) && k < Rank(l)
  {
    Times(At(l.b, IndexB(idx, k)), At(l.a, IndexA(l.a.shape, idx, k)))
  }

  /** The factors are only read inside their shapes. */
  lemma TermIndices(l: Factors, idx: seq<nat>, k: nat)
    requires Denotable(l) && Within(Shape(l), idx) && k < Rank(l)
    ensures Within(l.b.shape, IndexB(idx, k)) && Within(l.a.shape, IndexA(l.a.shape, idx, k))
    ensures Term(l, idx, k) == Times(At(l.b, IndexB(idx, k)), At(l.a, IndexA(l.a.shape, idx, k)))
  {
    hide At, Ravel, Size, Make, Dense;
  }

  ghost function Dot(l: Factors, idx: seq<nat>, k: nat): real
    requires Denotable(l) && Within(Shape(l), idx) && k <= Rank(l)
  {
    if k == 0 then 0.0 else Dot(l, idx, k - 1) + Term(l, idx, k - 1)
  }

  /** The dense tensor B times A that the factors stand for. */
  ghost function Dense(l: Factors): (t: Tensor)
    requires Denotable(l)
    ensures t.shape == Shape(l)
    ensures forall idx :: Within(Shape(l), idx) ==> At(t, idx) == Dot(l, idx, Rank(l))
  {
    Make(Shape(l), idx requires Within(Shape(l), idx) => Dot(l, idx, Rank(l)))
  }

  /** Entries whose products agree term by term are equal. */
  lemma {:induction false} SameDot(l: Factors, idx: seq<nat>, l': Factors, idx': seq<nat>, k: nat)
    requires Denotable(l) && Within(Shape(l), idx) && k <= Rank(l)
    requires Denotable(l') && Within(Shape(l'), idx') && k <= Rank(l')
    requires forall j: nat :: j < k ==> Term(l, idx, j) == Term(l', idx', j)
    ensures Dot(l, idx, k) == Dot(l', idx', k)
  {
    hide At, Ravel, Size, Make, Dense;
    if k > 0 {
      SameDot(l, idx, l', idx', k - 1);
    }
  }

  // ---- reshape ----

  function Ones(n: nat): seq<nat> {
    seq(n, _ => 1)
  }

  function ReshapeFactors(l: Factors, dims: seq<int>): (r: Option<Factors>)
    requires Constructible(l)
    ensures r.Some? ==> Constructible(r.value)
  {
    var orig := Shape(l);
    var n := |dims|;
    match ResolveShape(Size(orig), dims)
    case None => None
    case Some(s) =>
      if |s| < 2 || s[|s| - 1] != orig[|orig| - 1] then None
      else
        var a := Reshape(l.a, Ones(|s| - 2) + [Rank(l)] + [orig[|orig| - 1]]);
        var b := Reshape(l.b, s[..|s| - 1] + [Rank(l)]);
        if a.None? || b.None? then None else Construct(a.value, b.value)
  }

  /** Leading axes whose sizes multiply to 1 all have size 1 and are always read at position 0. */
  lemma {:induction false} UnitAxes(s: seq<nat>, idx: seq<nat>)
    requires Size(s) == 1 && Within(s, idx)
    ensures forall i :: 0 <= i < |s| ==> s[i] == 1
    ensures Ravel(s, idx) == 0
  {
    if s != [] {
      var k := |s| - 1;
      UnitFactors(Size(s[..k]), s[k]);
      UnitAxes(s[..k], idx[..k]);
    }
  }

  lemma UnitFactors(x: nat, y: nat)
    requires x * y == 1
    ensures x == 1 && y == 1
  {
    assert x != 0 && y != 0;
    assert x >= 2 ==> x * y >= 2 * y;
    assert y >= 2 ==> x * y >= x * 2;
  }

  lemma {:induction false} SizeOnes(n: nat)
    ensures Size(Ones(n)) == 1
  {
    if n != 0 {
      SizeOnes(n - 1);
      assert Ones(n)[..n - 1] == Ones(n - 1);
    }
  }

  /** A at shape s + [r, c] with unit leading axes is the plain r by c matrix. */
  lemma ReadUnitLead(s: seq<nat>, idx: seq<nat>, r: nat, k: nat, c: nat, j: nat)
    requires Size(s) == 1 && Within(s, idx) && k < r && j < c
    ensures Within(s + [r] + [c], idx + [k] + [j])
    ensures Ravel(s + [r] + [c], idx + [k] + [j]) == k * c + j
  {
    UnitAxes(s, idx);
    RavelSnoc(s, idx, r, k);
    RavelSnoc(s + [r], idx + [k], c, j);
  }

  lemma SameAsSizes(x: nat, r: nat, c: nat)
    requires x * r * c == 1 * r * c && r > 0 && c > 0
    ensures x == 1
  {
    assert x * r * c == x * (r * c);
    assert r * c > 0;
    assert x >= 2 ==> x * (r * c) >= 2 * (r * c);
  }

  lemma CancelFactor(x: nat, y: nat, r: nat)
    requires x * r == y * r && r > 0
    ensures x == y
  {
    assert x < y ==> (x + 1) * r <= y * r;
    assert y < x ==> (y + 1) * r <= x * r;
  }

  /** What reshaping makes of the factors. */
  lemma ReshapedFactors(l: Factors, dims: seq<int>)
    requires Denotable(l) && ReshapeFactors(l, dims).Some?
    ensures ResolveShape(Size(Shape(l)), dims).Some?
    ensures var l', s := ReshapeFactors(l, dims).value, ResolveShape(Size(Shape(l)), dims).value;
      && Denotable(l') && Rank(l') == Rank(l) && Shape(l') == s && |s| >= 2 && s[|s| - 1] == l.a.shape[|l.a.shape| - 1]
      && l'.a.shape == Ones(|s| - 2) + [Rank(l)] + [s[|s| - 1]] && l'.b.shape == s[..|s| - 1] + [Rank(l)]
      && l'.a.data == l.a.data && l'.b.data == l.b.data
      && (forall i :: 0 <= i < |l'.a.shape| - 2 ==> l'.a.shape[i] == 1)
  {
    hide At, Ravel, Make, Dense, Size, ResolveShape;
    var l', s := ReshapeFactors(l, dims).value, ResolveShape(Size(Shape(l)), dims).value;
    assert s == s[..|s| - 1] + [s[|s| - 1]];
    assert l'.a.shape == Ones(|s| - 2) + [Rank(l)] + [s[|s| - 1]];
  }

  /** Reshaping the factors reshapes the product. The number of rows is only checked by torch
      through B, so this needs a positive rank; ReshapeExactly treats rank 0. */
  lemma {:induction false} ReshapeCommutes(l: Factors, dims: seq<int>)
    requires Denotable(l) && Rank(l) > 0 && ReshapeFactors(l, dims).Some?
    ensures var l' := ReshapeFactors(l, dims).value;
      && Denotable(l') && Rank(l') == Rank(l)
      && (forall i :: 0 <= i < |l'.a.shape| - 2 ==> l'.a.shape[i] == 1)
      && Reshape(Dense(l), ResolveShape(Size(Shape(l)), dims).value) == Some(Dense(l'))
  {
    hide At, Ravel, Make, Dense, Size, ResolveShape, ReshapeFactors, Denotable, Reshape;
    Axes(l);
    ReshapedFactors(l, dims);
    var l' := ReshapeFactors(l, dims).value;
    var s := ResolveShape(Size(Shape(l)), dims).value;
    var m, n, r := |s|, |l.a.shape|, Rank(l);
    var c := s[m - 1];
    var lead0, lead1 := l.b.shape[..n - 1], s[..m - 1];
    assert l.b.shape == lead0 + [r] && s == lead1 + [c];
    assert Size(lead0) == Size(lead1) by {
      SizeSnoc(lead0, r); SizeSnoc(lead1, r);
      CancelFactor(Size(lead0), Size(lead1), r);
    }
    ReshapedProduct(l, l', lead0, lead1, c);
  }

  lemma Axes(l: Factors)
    requires Denotable(l)
    ensures Constructible(l) && |l.a.shape| == |l.b.shape| >= 2 && l.b.shape[|l.b.shape| - 1] == Rank(l)
  {
  }

  ghost predicate Reshaped(l: Factors, l': Factors, lead0: seq<nat>, lead1: seq<nat>, c: nat) {
    && Denotable(l) && Denotable(l') && Rank(l) == Rank(l')
    && |lead0| >= 1 && |lead1| >= 1 && Size(lead0) == Size(lead1)
    && Shape(l) == lead0 + [c] && Shape(l') == lead1 + [c]
    && l.b.shape == lead0 + [Rank(l)] && l'.b.shape == lead1 + [Rank(l)]
    && l'.a.shape == Ones(|lead1| - 1) + [Rank(l)] + [c]
    && l'.a.data == l.a.data && l'.b.data == l.b.data
  }

  lemma ReshapedProduct(l: Factors, l': Factors, lead0: seq<nat>, lead1: seq<nat>, c: nat)
    requires Reshaped(l, l', lead0, lead1, c)
    ensures Reshape(Dense(l), lead1 + [c]) == Some(Dense(l'))
  {
    hide At, Ravel, Size, Make, Dense;
    SizeSnoc(lead0, c); SizeSnoc(lead1, c);
    var t := Reshape(Dense(l), lead1 + [c]).value;
    forall idx | Within(t.shape, idx) ensures At(t, idx) == At(Dense(l'), idx) {
      assert idx == idx[..|lead1|] + [idx[|lead1|]];
      ReshapedEntry(l, l', lead0, lead1, c, idx[..|lead1|], idx[|lead1|]);
      AtPosition(t, idx);
    }
    SameElements(t, Dense(l'));
  }

  lemma ReshapedEntry(l: Factors, l': Factors, lead0: seq<nat>, lead1: seq<nat>, c: nat, rows: seq<nat>, j: nat)
    requires Reshaped(l, l', lead0, lead1, c) && Within(lead1, rows) && j < c
    ensures Within(lead1 + [c], rows + [j])
    ensures Ravel(lead1 + [c], rows + [j]) < Size(Shape(l))
    ensures Dense(l).data[Ravel(lead1 + [c], rows + [j])] == At(Dense(l'), rows + [j])
  {
    hide At, Ravel, Size, Make, Dense, Dot, Unravel;
    var n := Ravel(lead1, rows);
    var rows0 := Unravel(lead0, n);
    RavelUnravel(lead0, n);
    RavelSnoc(lead0, rows0, c, j);
    RavelSnoc(lead1, rows, c, j);
    AtPosition(Dense(l), rows0 + [j]);
    ReshapedDot(l, l', lead0, lead1, c, rows0, rows, j);
  }

  lemma ReshapedDot(l: Factors, l': Factors, lead0: seq<nat>, lead1: seq<nat>, c: nat, rows0: seq<nat>, rows: seq<nat>, j: nat)
    requires Reshaped(l, l', lead0, lead1, c)
    requires Within(lead0, rows0) && Within(lead1, rows) && Ravel(lead0, rows0) == Ravel(lead1, rows) && j < c
    ensures Within(Shape(l), rows0 + [j]) && Within(Shape(l'), rows + [j])
    ensures Dot(l, rows0 + [j], Rank(l)) == Dot(l', rows + [j], Rank(l))
  {
    hide At, Ravel, Size, Make, Dense;
    forall k: nat | k < Rank(l) ensures Term(l, rows0 + [j], k) == Term(l', rows + [j], k) {
      ReshapedTerm(l, l', lead0, lead1, c, rows0, rows, j, k);
    }
    SameDot(l, rows0 + [j], l', rows + [j], Rank(l));
  }

  lemma ReadB(l: Factors, rows: seq<nat>, idx: seq<nat>, j: nat, k: nat, n: nat)
    requires Constructible(l) && k < Rank(l)
    requires l.b.shape == rows + [Rank(l)] && Within(rows, idx)
    requires n == Ravel(rows, idx) * Rank(l) + k
    ensures Within(l.b.shape, IndexB(idx + [j], k)) && n < |l.b.data|
    ensures At(l.b, IndexB(idx + [j], k)) == l.b.data[n]
  {
    assert IndexB(idx + [j], k) == idx + [k];
    RavelSnoc(rows, idx, Rank(l), k);
  }

  lemma ReshapedTerm(l: Factors, l': Factors, lead0: seq<nat>, lead1: seq<nat>, c: nat, rows0: seq<nat>, rows: seq<nat>,
        j: nat, k: nat)
    requires Reshaped(l, l', lead0, lead1, c) && k < Rank(l)
    requires Within(lead0, rows0) && Within(lead1, rows) && Ravel(lead0, rows0) == Ravel(lead1, rows) && j < c
    ensures Within(Shape(l), rows0 + [j]) && Within(Shape(l'), rows + [j])
    ensures Term(l, rows0 + [j], k) == Term(l', rows + [j], k)
  {
    hide At, Ravel, Size, Make, Dense;
    var n := Ravel(lead0, rows0) * Rank(l) + k;
    ReadB(l, lead0, rows0, j, k, n);
    ReadB(l', lead1, rows, j, k, n);
    ReshapedRead(l, l', lead0, lead1, c, rows0 + [j], rows + [j], k);
  }

  lemma ReshapedRead(l: Factors, l': Factors, lead0: seq<nat>, lead1: seq<nat>, c: nat, idx0: seq<nat>, idx: seq<nat>, k: nat)
    requires Reshaped(l, l', lead0, lead1, c) && k < Rank(l)
    requires Within(lead0 + [c], idx0) && Within(lead1 + [c], idx) && idx0[|lead0|] == idx[|lead1|]
    ensures At(l.a, IndexA(l.a.shape, idx0, k)) == At(l'.a, IndexA(l'.a.shape, idx, k))
  {
    hide At, Ravel, Size, Make, Dense;
    var r, n := Rank(l), |l.a.shape|;
    assert l.a.shape == l.a.shape[..n - 2] + [r] + [c];
    var ones := Ones(|lead1| - 1);
    SizeOnes(|lead1| - 1);
    SizeSnoc(ones, r); SizeSnoc(ones + [r], c);
    TermIndices(l, idx0, k);
    TermIndices(l', idx, k);
    ReadUnitA(l.a, l.a.shape[..n - 2], r, c, idx0, k);
    ReadUnitA(l'.a, ones, r, c, idx, k);
  }

  /** When A holds no more than one r by c matrix, its leading axes are all read at 0. */
  lemma ReadUnitA(a: Tensor, lead: seq<nat>, r: nat, c: nat, idx: seq<nat>, k: nat)
    requires a.shape == lead + [r] + [c] && |a.data| == 1 * r * c
    requires |idx| == |a.shape| && k < r && idx[|idx| - 1] < c && Within(a.shape, IndexA(a.shape, idx, k))
    ensures k * c + idx[|idx| - 1] < |a.data|
    ensures At(a, IndexA(a.shape, idx, k)) == a.data[k * c + idx[|idx| - 1]]
  {
    var at, j := IndexA(a.shape, idx, k), idx[|idx| - 1];
    SizeSnoc(lead, r); SizeSnoc(lead + [r], c);
    SameAsSizes(Size(lead), r, c);
    assert at == at[..|lead|] + [k] + [j];
    assert Within(lead, at[..|lead|]);
    ReadUnitLead(lead, at[..|lead|], r, k, c, j);
  }

  /** With rank 0 the size of B is 0 whatever its rows are, so any number of rows is accepted:
      the reshaped factors are right exactly when the rank is positive or the sizes agree. */
  lemma {:induction false} ReshapeExactly(l: Factors, dims: seq<int>)
    requires Denotable(l) && ReshapeFactors(l, dims).Some?
    ensures var l', s := ReshapeFactors(l, dims).value, ResolveShape(Size(Shape(l)), dims).value;
      && Denotable(l') && Rank(l') == Rank(l) && Shape(l') == s
      && (forall i :: 0 <= i < |l'.a.shape| - 2 ==> l'.a.shape[i] == 1)
      && (Reshape(Dense(l), s) == Some(Dense(l')) <==> Rank(l) > 0 || Size(s) == Size(Shape(l)))
  {
    hide At, Ravel, Make, Dense, Size, ResolveShape, ReshapeFactors;
    ReshapedFactors(l, dims);
    if Rank(l) > 0 {
      ReshapeCommutes(l, dims);
    } else {
      var l', s := ReshapeFactors(l, dims).value, ResolveShape(Size(Shape(l)), dims).value;
      if Size(s) == Size(Shape(l)) {
        var t := Reshape(Dense(l), s).value;
        forall n | 0 <= n < |t.data| ensures t.data[n] == Dense(l').data[n] {
          NoRankNoProduct(l, n);
          NoRankNoProduct(l', n);
        }
        assert t.data == Dense(l').data;
      }
    }
  }

  lemma {:induction false} NoRankNoProduct(l: Factors, n: nat)
    requires Denotable(l) && Rank(l) == 0 && n < Size(Shape(l))
    ensures Dense(l).data[n] == 0.0
  {
    var idx := Unravel(Shape(l), n);
    RavelUnravel(Shape(l), n);
    assert At(Dense(l), idx) == Dot(l, idx, 0);
  }

  // ---- permute ----

  /** Axis numbers of permute, counted from the front or, when negative, from the back. */
  function NormalizeAxes(dims: seq<int>, n: nat): Option<seq<nat>> {
    if forall i :: 0 <= i < |dims| ==> 0 <= dims[i] + n < 2 * n then
      Some(seq(|dims|, i requires 0 <= i < |dims| => if dims[i] < 0 then dims[i] + n else dims[i]))
    else None
  }

  ghost function PermuteFactors(l: Factors, dims: seq<int>): (r: Option<Factors>)
    requires Constructible(l)
    ensures r.Some? ==> Constructible(r.value)
  {
    var n := |l.a.shape|;
    match NormalizeAxes(dims, n)
    case None => None
    case Some(axes) =>
      if axes == [] then None
      else if axes[|axes| - 1] == n - 1 then
        if exists i :: 0 <= i < n - 2 && l.a.shape[i] != 1 then None
        else
          match PermuteAxes(l.b, axes)
          case None => None
          case Some(b) => Construct(l.a, b)
      else if n == 2 && axes == [1, 0] then
        Construct(Permuted(l.b, axes), Permuted(l.a, axes))
      else None
  }

  /** Permuting the factors permutes the product: both the leading-axes case, which only touches B,
      and the matrix transpose, which exchanges the factors. */
  lemma PermuteCommutes(l: Factors, dims: seq<int>)
    requires Denotable(l) && PermuteFactors(l, dims).Some?
    ensures var l' := PermuteFactors(l, dims).value;
      Denotable(l') && Rank(l') == Rank(l)
      && PermuteAxes(Dense(l), NormalizeAxes(dims, |l.a.shape|).value) == Some(Dense(l'))
    ensures NormalizeAxes(dims, |l.a.shape|).value[|dims| - 1] == |l.a.shape| - 1 ==> PermuteFactors(l, dims).value.a == l.a
  {
    hide At, Ravel, Size, Permuted, Term, Make, Dense, PermutedShape, Reads, Within;
    var axes := NormalizeAxes(dims, |l.a.shape|).value;
    if axes[|axes| - 1] == |l.a.shape| - 1 {
      PermuteLead(l, axes);
    } else {
      TransposeMatrix(l);
    }
  }

  lemma PermuteLead(l: Factors, axes: seq<nat>)
    requires Denotable(l) && FixesLast(axes) && |axes| == |l.a.shape|
    requires forall i :: 0 <= i < |l.a.shape| - 2 ==> l.a.shape[i] == 1
    ensures var l' := Factors(l.a, Permuted(l.b, axes));
      Denotable(l') && Rank(l') == Rank(l) && Permuted(Dense(l), axes) == Dense(l')
  {
    hide At, Ravel, Size, Make, Dense;
    var l' := Factors(l.a, Permuted(l.b, axes));
    PermutedLeadShape(l, axes);
    var t := Permuted(Dense(l), axes);
    forall idx | Within(t.shape, idx) ensures At(t, idx) == At(Dense(l'), idx) {
      PermutedEntry(l, l', axes, idx);
    }
    SameElements(t, Dense(l'));
  }

  predicate FixesLast(axes: seq<nat>) {
    |axes| >= 2 && IsPermutation(axes, |axes|) && axes[|axes| - 1] == |axes| - 1
  }

  lemma PermutedLast(s: seq<nat>, x: nat, axes: seq<nat>)
    requires FixesLast(axes) && |s| == |axes|
    ensures PermutedShape(s[..|s| - 1] + [x], axes) == PermutedShape(s, axes)[..|s| - 1] + [x]
  {
    var n := |axes|;
    forall i | 0 <= i < n - 1 ensures axes[i] < n - 1 {
      assert axes[i] != axes[n - 1];
    }
  }

  lemma PermutedLeadShape(l: Factors, axes: seq<nat>)
    requires Denotable(l) && FixesLast(axes) && |axes| == |l.a.shape|
    requires forall i :: 0 <= i < |l.a.shape| - 2 ==> l.a.shape[i] == 1
    ensures var l' := Factors(l.a, Permuted(l.b, axes));
      Denotable(l') && Rank(l') == Rank(l) && PermutedShape(Shape(l), axes) == Shape(l')
  {
    hide At, Ravel, Size, Make, Dense;
    PermutedLast(l.b.shape, l.a.shape[|axes| - 1], axes);
  }

  lemma PermutedEntry(l: Factors, l': Factors, axes: seq<nat>, idx: seq<nat>)
    requires Denotable(l) && Denotable(l') && FixesLast(axes) && |axes| == |l.a.shape|
    requires forall i :: 0 <= i < |l.a.shape| - 2 ==> l.a.shape[i] == 1
    requires l' == Factors(l.a, Permuted(l.b, axes)) && PermutedShape(Shape(l), axes) == Shape(l')
    requires Within(Shape(l'), idx) && Rank(l) == Rank(l')
    ensures At(Permuted(Dense(l), axes), idx) == At(Dense(l'), idx)
  {
    hide At, Ravel, Size, Make, Dense;
    PermutedAt(Dense(l), axes, idx);
    var src := SourceIndex(axes, idx);
    forall k: nat | k < Rank(l) ensures Term(l, src, k) == Term(l', idx, k) {
      PermutedTerm(l, l', axes, idx, src, k);
    }
    SameDot(l, src, l', idx, Rank(l));
  }

  lemma PermutedTerm(l: Factors, l': Factors, axes: seq<nat>, idx: seq<nat>, src: seq<nat>, k: nat)
    requires Denotable(l) && Denotable(l') && FixesLast(axes) && |axes| == |l.a.shape|
    requires forall i :: 0 <= i < |l.a.shape| - 2 ==> l.a.shape[i] == 1
    requires l' == Factors(l.a, Permuted(l.b, axes)) && Rank(l) == Rank(l')
    requires Within(Shape(l'), idx) && Within(Shape(l), src) && Reads(axes, idx, src) && k < Rank(l)
    ensures Term(l, src, k) == Term(l', idx, k)
  {
    hide At, Ravel, Size, Make, Dense;
    TermIndices(l', idx, k);
    PermutedReadB(l.b, axes, idx, src, k);
    PermutedReadA(l.a.shape, axes, idx, src, k);
  }

  lemma PermutedReadA(s: seq<nat>, axes: seq<nat>, idx: seq<nat>, src: seq<nat>, k: nat)
    requires |s| == |idx| == |src| == |axes| >= 2 && Reads(axes, idx, src) && axes[|axes| - 1] == |axes| - 1
    requires forall i :: 0 <= i < |s| - 2 ==> s[i] == 1
    ensures IndexA(s, idx, k) == IndexA(s, src, k)
  {
    hide At, Ravel, Size, Make, Dense;
    assert src[axes[|axes| - 1]] == idx[|axes| - 1];
  }

  lemma PermutedReadB(b: Tensor, axes: seq<nat>, idx: seq<nat>, src: seq<nat>, k: nat)
    requires FixesLast(axes) && |idx| == |src| == |axes| == |b.shape|
    requires Reads(axes, idx, src) && Within(PermutedShape(b.shape, axes), IndexB(idx, k))
    ensures Within(b.shape, IndexB(src, k))
    ensures At(Permuted(b, axes), IndexB(idx, k)) == At(b, IndexB(src, k))
  {
    hide At, Ravel, Size, Make, Dense;
    var n := |axes|;
    var at, at' := IndexB(src, k), IndexB(idx, k);
    forall i | 0 <= i < n ensures at[axes[i]] == at'[i] {
      assert i < n - 1 ==> axes[i] != axes[n - 1];
      assert src[axes[i]] == idx[i];
    }
    assert Reads(axes, at', at);
    PermutedAt(b, axes, at');
  }

  ghost function TransposeDense(t: Tensor): (r: Tensor)
    requires |t.shape| == 2
    ensures r.shape == [t.shape[1], t.shape[0]]
  {
    Permuted(t, [1, 0])
  }

  lemma TransposedAt(t: Tensor, i: nat, j: nat)
    requires |t.shape| == 2 && i < t.shape[1] && j < t.shape[0]
    ensures Within(TransposeDense(t).shape, [i, j]) && Within(t.shape, [j, i])
    ensures At(TransposeDense(t), [i, j]) == At(t, [j, i])
  {
    hide At, Ravel, Size, Make, Dense;
    assert Reads([1, 0], [i, j], [j, i]);
    PermutedAt(t, [1, 0], [i, j]);
  }

  lemma TransposeMatrix(l: Factors)
    requires Denotable(l) && |l.a.shape| == 2
    ensures var l' := Factors(TransposeDense(l.b), TransposeDense(l.a));
      Denotable(l') && Rank(l') == Rank(l) && TransposeDense(Dense(l)) == Dense(l')
  {
    hide At, Ravel, Size, Permuted, Term, Times, Make, Dense;
    var l' := Factors(TransposeDense(l.b), TransposeDense(l.a));
    var t := TransposeDense(Dense(l));
    forall i: nat, j: nat | i < l.a.shape[1] && j < l.b.shape[0]
      ensures Within(t.shape, [i, j]) && Within(Shape(l'), [i, j])
      ensures At(t, [i, j]) == At(Dense(l'), [i, j])
    {
      TransposedEntry(l, l', i, j);
    }
    SameMatrix(t, Dense(l'), l.a.shape[1], l.b.shape[0]);
  }

  lemma SameMatrix(t: Tensor, u: Tensor, m: nat, n: nat)
    requires t.shape == u.shape == [m, n]
    requires forall i: nat, j: nat :: i < m && j < n ==> Within([m, n], [i, j]) && At(t, [i, j]) == At(u, [i, j])
    ensures t == u
  {
    hide At, Ravel, Size, Make, Dense;
    forall idx | Within(t.shape, idx) ensures At(t, idx) == At(u, idx) {
      assert idx[0] < t.shape[0] && idx[1] < t.shape[1];
      assert idx == [idx[0], idx[1]];
    }
    SameElements(t, u);
  }

  lemma TransposedEntry(l: Factors, l': Factors, i: nat, j: nat)
    requires Denotable(l) && Denotable(l') && |l.a.shape| == 2
    requires l' == Factors(TransposeDense(l.b), TransposeDense(l.a))
    requires i < l.a.shape[1] && j < l.b.shape[0]
    ensures Within(TransposeDense(Dense(l)).shape, [i, j]) && Within(Shape(l'), [i, j])
    ensures At(TransposeDense(Dense(l)), [i, j]) == At(Dense(l'), [i, j])
  {
    hide At, Ravel, Size, TransposeDense, Term, Times, Make, Dense;
    TransposedAt(Dense(l), i, j);
    forall k: nat | k < Rank(l) ensures Term(l, [j, i], k) == Term(l', [i, j], k) {
      TransposedTerm(l, l', i, j, k);
    }
    SameDot(l, [j, i], l', [i, j], Rank(l));
  }

  lemma TransposedTerm(l: Factors, l': Factors, i: nat, j: nat, k: nat)
    requires Denotable(l) && Denotable(l') && |l.a.shape| == 2
    requires l' == Factors(TransposeDense(l.b), TransposeDense(l.a))
    requires i < l.a.shape[1] && j < l.b.shape[0] && k < Rank(l)
    ensures Within(Shape(l), [j, i]) && Within(Shape(l'), [i, j])
    ensures Term(l, [j, i], k) == Term(l', [i, j], k)
  {
    hide At, Ravel, Size, Make, Dense;
    MatrixTerm(l, j, i, k);
    MatrixTerm(l', i, j, k);
    TransposedAt(l.a, i, k);
    TransposedAt(l.b, k, j);
    Commute(At(l.b, [j, k]), At(l.a, [k, i]));
  }

  lemma Commute(x: real, y: real)
    ensures Times(x, y) == Times(y, x)
  {
  }

  lemma MatrixTerm(l: Factors, i: nat, j: nat, k: nat)
    requires Denotable(l) && |l.a.shape| == 2 && k < Rank(l)
    requires i < l.b.shape[0] && j < l.a.shape[1]
    ensures Within(Shape(l), [i, j]) && Within(l.b.shape, [i, k]) && Within(l.a.shape, [k, j])
    ensures Term(l, [i, j], k) == Times(At(l.b, [i, k]), At(l.a, [k, j]))
  {
    hide At, Ravel, Size, Make, Dense;
    assert IndexB([i, j], k) == [i, k];
    assert IndexA(l.a.shape, [i, j], k) == [k, j];
  }

  /** The axis list that transpose and swapaxes hand to permute. */
  function SwapAxes(n: nat, axis0: int, axis1: int): Option<seq<nat>> {
    if 0 <= axis0 + n < 2 * n && 0 <= axis1 + n < 2 * n then
      var i, j := if axis0 < 0 then axis0 + n else axis0, if axis1 < 0 then axis1 + n else axis1;
      Some(All(n)[i := j][j := i])
    else None
  }

  ghost function TransposeFactors(l: Factors, axis0: int, axis1: int): (r: Option<Factors>)
    requires Constructible(l)
    ensures r.Some? ==> Constructible(r.value)
  {
    match SwapAxes(|l.a.shape|, axis0, axis1)
    case None => None
    case Some(dims) => PermuteFactors(l, dims)
  }

  ghost function Transpose(t: Tensor, axis0: int, axis1: int): Option<Tensor> {
    match SwapAxes(|t.shape|, axis0, axis1)
    case None => None
    case Some(dims) => PermuteAxes(t, dims)
  }

  lemma TransposeCommutes(l: Factors, axis0: int, axis1: int)
    requires Denotable(l) && TransposeFactors(l, axis0, axis1).Some?
    ensures var l' := TransposeFactors(l, axis0, axis1).value;
      Denotable(l') && Rank(l') == Rank(l) && Transpose(Dense(l), axis0, axis1) == Some(Dense(l'))
  {
    hide At, Ravel, Size, Permuted, Make, Dense;
    var n := |l.a.shape|;
    var dims := SwapAxes(n, axis0, axis1).value;
    PermuteCommutes(l, dims);
    assert NormalizeAxes(dims, n).value == dims;
  }
}
