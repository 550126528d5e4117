/** Dense row-major tensors and the torch operations that the converters apply to them.
    An operation returns None where torch raises. */
module Tensors {
  import opened Wrappers

  /** Number of elements of a tensor of shape s; the empty product is 1. */
  function Size(s: seq<nat>): nat {
    if s == [] then 1 else Size(s[..|s| - 1]) * s[|s| - 1]
  }

  ghost predicate Within(s: seq<nat>, idx: seq<nat>) {
    |idx| == |s| && forall i :: 0 <= i < |s| ==> idx[i] < s[i]
  }

  /** Position of a multi-index in row-major order. */
  ghost function Ravel(s: seq<nat>, idx: seq<nat>): (n: nat)
    requires Within(s, idx)
    ensures n < Size(s)
  {
    if s == [] then 0
    else
      var k := |s| - 1;
      var n := Ravel(s[..k], idx[..k]);
      HornerBound(n, idx[k], Size(s[..k]), s[k]);
      n * s[k] + idx[k]
  }

  lemma HornerBound(n: nat, x: nat, m: nat, d: nat)
    requires n < m && x < d
    ensures n * d + x < m * d
  {
    assert (n + 1) * d <= m * d;
  }

  /** The multi-index at a row-major position. */
  function Unravel(s: seq<nat>, n: nat): (idx: seq<nat>)
    requires n < Size(s)
    ensures Within(s, idx)
  {
    if s == [] then []
    else
      var k := |s| - 1;
      DivBound(n, Size(s[..k]), s[k]);
      Unravel(s[..k], n / s[k]) + [n % s[k]]
  }

  lemma {:induction false} RavelUnravel(s: seq<nat>, n: nat)
    requires n < Size(s)
    ensures Ravel(s, Unravel(s, n)) == n
  {
    if s != [] {
      var k := |s| - 1;
      DivBound(n, Size(s[..k]), s[k]);
      RavelUnravel(s[..k], n / s[k]);
      assert Unravel(s, n)[..k] == Unravel(s[..k], n / s[k]);
      DivMod(n, s[k]);
    }
  }

  lemma DivMod(n: nat, d: nat)
    requires d != 0
    ensures n == n / d * d + n % d
  {
  }

  lemma DivBound(n: nat, m: nat, d: nat)
    requires n < m * d
    ensures d != 0 && n / d < m
  {
    var q := n / d;
    assert n == q * d + n % d;
    assert q >= m ==> q * d >= m * d;
  }

  lemma HornerUnique(n: nat, x: nat, n': nat, x': nat, d: nat)
    requires x < d && x' < d && n * d + x == n' * d + x'
    ensures n == n' && x == x'
  {
    assert n < n' ==> (n + 1) * d <= n' * d;
    assert n' < n ==> (n' + 1) * d <= n * d;
  }

  /** Two multi-indices with the same position are the same. */
  lemma {:induction false} RavelInjective(s: seq<nat>, idx: seq<nat>, jdx: seq<nat>)
    requires Within(s, idx) && Within(s, jdx) && Ravel(s, idx) == Ravel(s, jdx)
    ensures idx == jdx
  {
    if s != [] {
      var k := |s| - 1;
      HornerUnique(Ravel(s[..k], idx[..k]), idx[k], Ravel(s[..k], jdx[..k]), jdx[k], s[k]);
      RavelInjective(s[..k], idx[..k], jdx[..k]);
      assert idx == idx[..k] + [idx[k]];
      assert jdx == jdx[..k] + [jdx[k]];
    }
  }

  lemma RavelSnoc(s: seq<nat>, idx: seq<nat>, d: nat, x: nat)
    requires Within(s, idx) && x < d
    ensures Within(s + [d], idx + [x])
    ensures Ravel(s + [d], idx + [x]) == Ravel(s, idx) * d + x
    ensures Size(s + [d]) == Size(s) * d
  {
    assert (s + [d])[..|s|] == s;
    assert (idx + [x])[..|s|] == idx;
  }

  lemma Distribute(r: nat, q: nat, p: nat, d: nat, x: nat)
    ensures (r * q + p) * d + x == r * (q * d) + (p * d + x)
  {
    assert r * q * d == r * (q * d);
  }

  /** The position of a multi-index in two parts. */
  lemma {:induction false} RavelConcat(s: seq<nat>, t: seq<nat>, i: seq<nat>, j: seq<nat>)
    requires Within(s, i) && Within(t, j)
    ensures Within(s + t, i + j) && Ravel(s + t, i + j) == Ravel(s, i) * Size(t) + Ravel(t, j)
  {
    hide Ravel, Size;
    if t == [] {
      assert s + t == s && i + j == i;
      NoAxes();
    } else {
      var k := |t| - 1;
      RavelConcat(s, t[..k], i, j[..k]);
      assert s + t == (s + t[..k]) + [t[k]] && i + j == (i + j[..k]) + [j[k]];
      assert t == t[..k] + [t[k]] && j == j[..k] + [j[k]];
      RavelSnoc(s + t[..k], i + j[..k], t[k], j[k]);
      RavelSnoc(t[..k], j[..k], t[k], j[k]);
      Distribute(Ravel(s, i), Size(t[..k]), Ravel(t[..k], j[..k]), t[k], j[k]);
    }
  }

  lemma NoAxes()
    ensures Size([]) == 1 && Within([], []) && Ravel([], []) == 0
  {
  }

  lemma {:induction false} SizeConcat(s: seq<nat>, t: seq<nat>)
    ensures Size(s + t) == Size(s) * Size(t)
  {
    hide Size, Ravel;
    if t == [] {
      assert s + t == s;
      NoAxes();
    } else {
      var k := |t| - 1;
      assert s + t == (s + t[..k]) + [t[k]] && t == t[..k] + [t[k]];
      SizeConcat(s, t[..k]);
      SizeSnoc(s + t[..k], t[k]);
      SizeSnoc(t[..k], t[k]);
      assert Size(s) * Size(t[..k]) * t[k] == Size(s) * (Size(t[..k]) * t[k]);
    }
  }

  lemma SizeSnoc(s: seq<nat>, d: nat)
    ensures Size(s + [d]) == Size(s) * d
  {
    assert (s + [d])[..|s|] == s;
  }

  datatype RawTensor = Tensor(shape: seq<nat>, data: seq<real>)

  type Tensor = t: RawTensor | |t.data| == Size(t.shape) witness RawTensor.Tensor([0], [])

  ghost function At(t: Tensor, idx: seq<nat>): real
    requires Within(t.shape, idx)
  {
    t.data[Ravel(t.shape, idx)]
  }

  lemma AtPosition(t: Tensor, idx: seq<nat>)
    requires Within(t.shape, idx)
    ensures Ravel(t.shape, idx) < |t.data| && At(t, idx) == t.data[Ravel(t.shape, idx)]
  {
    hide Ravel, Size;
  }

  /** The tensor whose element at every multi-index is given by f. */
  ghost function Make(s: seq<nat>, f: seq<nat> --> real): (t: Tensor)
    requires forall idx :: Within(s, idx) ==> f.requires(idx)
    ensures t.shape == s
    ensures forall idx :: Within(s, idx) ==> At(t, idx) == f(idx)
  {
    var t := RawTensor.Tensor(s, seq(Size(s), n requires 0 <= n < Size(s) => f(Unravel(s, n))));
    assert forall idx :: Within(s, idx) ==> At(t, idx) == f(idx) by {
      forall idx | Within(s, idx) ensures At(t, idx) == f(idx) {
        RavelUnravel(s, Ravel(s, idx));
        RavelInjective(s, idx, Unravel(s, Ravel(s, idx)));
      }
    }
    t
  }

  /** Tensors that agree at every multi-index are equal. */
  lemma SameElements(t: Tensor, u: Tensor)
    requires t.shape == u.shape
    requires forall idx :: Within(t.shape, idx) ==> At(t, idx) == At(u, idx)
    ensures t == u
  {
    forall n | 0 <= n < |t.data| ensures t.data[n] == u.data[n] {
      RavelUnravel(t.shape, n);
      assert At(t, Unravel(t.shape, n)) == At(u, Unravel(t.shape, n));
    }
  }

  // ---- shapes ----

  predicate AllNonNegative(dims: seq<int>) {
    forall i :: 0 <= i < |dims| ==> dims[i] >= 0
  }

  function ProductSkippingWildcards(dims: seq<int>): int {
    if dims == [] then 1
    else
      var d := dims[|dims| - 1];
      ProductSkippingWildcards(dims[..|dims| - 1]) * (if d == -1 then 1 else d)
  }

  /** Replaces every -1 by the number of elements that is left over. */
  function ResolveShape(size: nat, dims: seq<int>): Option<seq<nat>> {
    var known := ProductSkippingWildcards(dims);
    if -1 !in dims then
      if AllNonNegative(dims) then Some(ToNats(dims)) else None
    else if known <= 0 || size % known != 0 then None
    else
      var filled := seq(|dims|, i requires 0 <= i < |dims| => if dims[i] == -1 then size / known else dims[i]);
      if AllNonNegative(filled) then Some(ToNats(filled)) else None
  }

  function ToNats(dims: seq<int>): (s: seq<nat>)
    requires AllNonNegative(dims)
    ensures s == dims
  {
    seq(|dims|, i requires 0 <= i < |dims| => dims[i])
  }

  /** The only -1 in dims is at place k, and s has all other sizes of dims. */
  predicate Fills(dims: seq<int>, s: seq<nat>, k: nat) {
    && |s| == |dims| && k < |dims| && dims[k] == -1
    && forall i :: 0 <= i < |dims| && i != k ==> dims[i] != -1 && dims[i] == s[i]
  }

  lemma {:induction false} NoHole(dims: seq<int>, s: seq<nat>)
    requires |s| == |dims| && forall i :: 0 <= i < |dims| ==> dims[i] != -1 && dims[i] == s[i]
    ensures ProductSkippingWildcards(dims) == Size(s)
  {
    if dims != [] {
      NoHole(dims[..|dims| - 1], s[..|s| - 1]);
    }
  }

  lemma {:induction false} OneHole(dims: seq<int>, s: seq<nat>, k: nat)
    requires Fills(dims, s, k)
    ensures Size(s) == ProductSkippingWildcards(dims) * s[k]
  {
    var n := |dims| - 1;
    if k == n {
      NoHole(dims[..n], s[..n]);
    } else {
      OneHole(dims[..n], s[..n], k);
      ExchangeFactors(ProductSkippingWildcards(dims[..n]), s[k], s[n]);
    }
  }

  lemma ExchangeFactors(a: int, b: int, c: int)
    ensures (a * b) * c == (a * c) * b
  {
  }

  lemma {:induction false} HolePositive(dims: seq<int>, s: seq<nat>, k: nat)
    requires Fills(dims, s, k)
    ensures ProductSkippingWildcards(dims) > 0 <==> forall i :: 0 <= i < |dims| && i != k ==> dims[i] > 0
    ensures ProductSkippingWildcards(dims) >= 0
  {
    var n := |dims| - 1;
    if k == n {
      NoHole(dims[..n], s[..n]);
      SizePositive(s[..n]);
      assert forall i :: 0 <= i < n ==> dims[..n][i] == s[..n][i];
    } else {
      HolePositive(dims[..n], s[..n], k);
      PositiveTimes(ProductSkippingWildcards(dims[..n]), dims[n]);
      assert forall i :: 0 <= i < n ==> dims[..n][i] == dims[i];
    }
  }

  lemma {:induction false} SizePositive(s: seq<nat>)
    ensures Size(s) > 0 <==> forall i :: 0 <= i < |s| ==> s[i] > 0
  {
    if s != [] {
      SizePositive(s[..|s| - 1]);
      PositiveTimes(Size(s[..|s| - 1]), s[|s| - 1]);
    }
  }

  lemma PositiveTimes(a: int, b: int)
    requires a >= 0 && b >= 0
    ensures a * b >= 0 && (a * b > 0 <==> a > 0 && b > 0)
  {
  }

  /** A single -1 is filled in so that the number of elements is kept, where the other sizes are positive and
      that is possible; without a -1 the sizes are taken as they are. */
  lemma WildcardFilled(size: nat, dims: seq<int>, s: seq<nat>, k: nat)
    ensures -1 !in dims ==> (ResolveShape(size, dims) == Some(s) <==> s == dims)
    ensures Fills(dims, s, k) ==>
      (ResolveShape(size, dims) == Some(s) <==>
        Size(s) == size && forall i :: 0 <= i < |dims| && i != k ==> dims[i] > 0)
  {
    hide Size, ProductSkippingWildcards;
    if Fills(dims, s, k) {
      var known := ProductSkippingWildcards(dims);
      assert dims[k] == -1;
      OneHole(dims, s, k);
      HolePositive(dims, s, k);
      if known > 0 {
        Divides(size, known, s[k]);
        if size % known == 0 {
          var filled := seq(|dims|, i requires 0 <= i < |dims| => if dims[i] == -1 then size / known else dims[i]);
          assert filled[k] == size / known && forall i :: 0 <= i < |dims| && i != k ==> filled[i] == s[i];
          assert filled == s <==> size / known == s[k];
        }
      }
    }
  }

  lemma Divides(size: nat, known: int, q: nat)
    requires known > 0
    ensures known * q == size <==> size % known == 0 && size / known == q
  {
    DivMod(size, known);
    if known * q == size {
      HornerUnique(q, 0, size / known, size % known, known);
    }
  }

  // ---- torch operations ----

  function Reshape(t: Tensor, s: seq<nat>): Option<Tensor> {
    if Size(s) == Size(t.shape) then Some(RawTensor.Tensor(s, t.data)) else None
  }

  predicate IsPermutation(dims: seq<nat>, n: nat) {
    && |dims| == n
    && (forall i :: 0 <= i < n ==> dims[i] < n)
    && (forall i, j :: 0 <= i < j < n ==> dims[i] != dims[j])
  }

  /** The multi-index idx of the result reads the source at the index whose axis dims[i] is idx[i]. */
  ghost predicate Reads(dims: seq<nat>, idx: seq<nat>, src: seq<nat>) {
    |dims| == |idx| == |src| && forall i :: 0 <= i < |dims| ==> dims[i] < |src| && src[dims[i]] == idx[i]
  }

  function Position(dims: seq<nat>, j: nat): (i: nat)
    requires j in dims
    ensures i < |dims| && dims[i] == j
  {
    if dims[0] == j then 0 else 1 + Position(dims[1..], j)
  }

  ghost function SourceIndex(dims: seq<nat>, idx: seq<nat>): (src: seq<nat>)
    requires IsPermutation(dims, |idx|)
    ensures Reads(dims, idx, src)
    ensures forall other :: Reads(dims, idx, other) ==> other == src
  {
    Surjective(dims);
    var src := seq(|idx|, j requires 0 <= j < |idx| => idx[Position(dims, j)]);
    assert forall other :: Reads(dims, idx, other) ==> other == src by {
      forall other | Reads(dims, idx, other) ensures other == src {
        forall j | 0 <= j < |idx| ensures other[j] == src[j] {
          var i := Position(dims, j);
          assert src[dims[i]] == idx[i];
        }
      }
    }
    src
  }

  /** Axes below |dims| that are all different name every axis. */
  lemma Surjective(dims: seq<nat>)
    requires IsPermutation(dims, |dims|)
    ensures forall j: nat :: j < |dims| ==> j in dims
  {
    var named := Named(dims);
    DistinctCount(dims);
    assert named == Below(|dims|) by {
      assert named <= Below(|dims|);
      if named != Below(|dims|) {
        ProperSubset(named, Below(|dims|));
      }
    }
    forall j: nat | j < |dims| ensures j in dims {
      assert j in named;
    }
  }

  function Named(dims: seq<nat>): (r: set<nat>) {
    set x | x in dims
  }

  function Below(n: nat): (r: set<nat>)
    ensures |r| == n && forall x: nat :: x in r <==> x < n
  {
    if n == 0 then {} else Below(n - 1) + {n - 1}
  }

  lemma ProperSubset<T>(a: set<T>, b: set<T>)
    requires a <= b && a != b
    ensures |a| < |b|
  {
    assert b == a + (b - a);
  }

  lemma {:induction false} DistinctCount(dims: seq<nat>)
    requires forall i, j :: 0 <= i < j < |dims| ==> dims[i] != dims[j]
    ensures |Named(dims)| == |dims|
  {
    if dims != [] {
      var k := |dims| - 1;
      DistinctCount(dims[..k]);
      assert dims == dims[..k] + [dims[k]];
      assert dims[k] !in dims[..k];
      assert Named(dims) == Named(dims[..k]) + {dims[k]};
    }
  }

  function PermutedShape(s: seq<nat>, dims: seq<nat>): seq<nat>
    requires IsPermutation(dims, |s|)
  {
    seq(|s|, i requires 0 <= i < |s| => s[dims[i]])
  }

  lemma SourceWithin(s: seq<nat>, dims: seq<nat>, idx: seq<nat>)
    requires IsPermutation(dims, |s|) && Within(PermutedShape(s, dims), idx)
    ensures Within(s, SourceIndex(dims, idx))
  {
    var src := SourceIndex(dims, idx);
    Surjective(dims);
    forall j | 0 <= j < |s| ensures src[j] < s[j] {
      var i := Position(dims, j);
      assert src[dims[i]] == idx[i];
    }
  }

  ghost function Permuted(t: Tensor, dims: seq<nat>): (r: Tensor)
    requires IsPermutation(dims, |t.shape|)
    ensures r.shape == PermutedShape(t.shape, dims)
  {
    PermutedWithin(t.shape, dims);
    Make(PermutedShape(t.shape, dims),
      idx requires Within(PermutedShape(t.shape, dims), idx) => At(t, SourceIndex(dims, idx)))
  }

  lemma PermutedWithin(s: seq<nat>, dims: seq<nat>)
    requires IsPermutation(dims, |s|)
    ensures forall idx :: Within(PermutedShape(s, dims), idx) ==> Within(s, SourceIndex(dims, idx))
  {
    forall idx | Within(PermutedShape(s, dims), idx) ensures Within(s, SourceIndex(dims, idx)) {
      SourceWithin(s, dims, idx);
    }
  }

  lemma PermutedAt(t: Tensor, dims: seq<nat>, idx: seq<nat>)
    requires IsPermutation(dims, |t.shape|) && Within(PermutedShape(t.shape, dims), idx)
    ensures Within(t.shape, SourceIndex(dims, idx))
    ensures At(Permuted(t, dims), idx) == At(t, SourceIndex(dims, idx))
  {
    PermutedWithin(t.shape, dims);
  }

  ghost function PermuteAxes(t: Tensor, dims: seq<nat>): Option<Tensor> {
    if IsPermutation(dims, |t.shape|) then Some(Permuted(t, dims)) else None
  }

  /** Axis i of the result is axis dims[i] of the source, when each axis is named once. */
  lemma AxesMove(t: Tensor, dims: seq<nat>, src: seq<nat>, idx: seq<nat>)
    requires IsPermutation(dims, |t.shape|) && Within(t.shape, src)
    requires |idx| == |dims| && forall i :: 0 <= i < |dims| ==> idx[i] == src[dims[i]]
    ensures PermuteAxes(t, dims).Some?
    ensures var r := PermuteAxes(t, dims).value;
      && |r.shape| == |dims| && (forall i :: 0 <= i < |dims| ==> r.shape[i] == t.shape[dims[i]])
      && Within(r.shape, idx) && At(r, idx) == At(t, src)
  {
    hide At, Make, Permuted;
    assert Within(PermutedShape(t.shape, dims), idx);
    PermutedAt(t, dims, idx);
    assert Reads(dims, idx, src);
  }

  // ---- indexing ----

  /** One component of an index tuple: an integer, a slice lo:hi:step, or a list of positions. */
  datatype Ix = One(j: int) | Range(lo: Option<int>, hi: Option<int>, step: int) | Pick(js: seq<int>)

  const EVERYTHING := Range(None, None, 1)

  function Clamp(j: int, n: nat): (r: nat)
    ensures r <= n
  {
    var k := if j < 0 then j + n else j;
    if k < 0 then 0 else if k > n then n else k
  }

  /** What an index component does to an axis: fix a position and drop the axis, or keep these positions. */
  datatype Sel = Drop(p: nat) | Keep(ps: seq<nat>)

  function All(n: nat): (ps: seq<nat>)
    ensures |ps| == n && forall i :: 0 <= i < n ==> ps[i] == i
  {
    seq(n, i => i)
  }

  /** The positions of a slice. torch refuses a step that is not positive. */
  function Steps(lo: nat, hi: nat, step: nat): (ps: seq<nat>)
    requires step > 0
    ensures |ps| <= if lo < hi then hi - lo else 0
    ensures forall i :: 0 <= i < |ps| ==> lo <= ps[i] < hi
    decreases if lo < hi then hi - lo else 0
  {
    if lo < hi then [lo] + Steps(lo + step, hi, step) else []
  }

  lemma {:induction false} StepsAt(lo: nat, hi: nat, step: nat, i: nat)
    requires step > 0 && i < |Steps(lo, hi, step)|
    ensures Steps(lo, hi, step)[i] == lo + i * step
    decreases i
  {
    if i > 0 {
      StepsAt(lo + step, hi, step, i - 1);
    }
  }

  /** A slice that keeps as many positions as there are keeps all of them. */
  lemma {:induction false} StepsFull(lo: nat, hi: nat, step: nat)
    requires step > 0 && lo <= hi && |Steps(lo, hi, step)| == hi - lo
    ensures forall i :: 0 <= i < hi - lo ==> Steps(lo, hi, step)[i] == lo + i
    decreases hi - lo
  {
    if lo + 1 < hi {
      StepsFull(lo + 1, hi, step);
    }
  }

  function Resolve(ix: Ix, n: nat): (r: Option<Sel>)
    ensures r.Some? ==> SelFits(r.value, n)
    ensures r.Some? ==> (r.value.Drop? <==> ix.One?)
  {
    match ix
    case One(j) => if 0 <= j + n < 2 * n then Some(Drop(if j < 0 then j + n else j)) else None
    case Range(lo, hi, step) =>
      var from := if lo.Some? then Clamp(lo.value, n) else 0;
      var to := if hi.Some? then Clamp(hi.value, n) else n;
      if step <= 0 then None else Some(Keep(Steps(from, to, step)))
    case Pick(js) =>
      if forall i :: 0 <= i < |js| ==> 0 <= js[i] + n < 2 * n then
        Some(Keep(seq(|js|, i requires 0 <= i < |js| => if js[i] < 0 then js[i] + n else js[i])))
      else None
  }

  predicate SelFits(s: Sel, n: nat) {
    match s
    case Drop(p) => p < n
    case Keep(ps) => forall i :: 0 <= i < |ps| ==> ps[i] < n
  }

  ghost predicate Fits(sels: seq<Sel>, s: seq<nat>) {
    |sels| == |s| && forall i :: 0 <= i < |s| ==> SelFits(sels[i], s[i])
  }

  function KeptShape(sels: seq<Sel>): seq<nat> {
    if sels == [] then []
    else
      var k := |sels| - 1;
      KeptShape(sels[..k]) + match sels[k] case Drop(_) => [] case Keep(ps) => [|ps|]
  }

  /** The index of the source that a kept index denotes. */
  ghost function Expand(sels: seq<Sel>, s: seq<nat>, idx: seq<nat>): (src: seq<nat>)
    requires Fits(sels, s) && Within(KeptShape(sels), idx)
    ensures Within(s, src)
  {
    if sels == [] then []
    else
      var k := |sels| - 1;
      match sels[k]
      case Drop(p) => Expand(sels[..k], s[..k], idx) + [p]
      case Keep(ps) => Expand(sels[..k], s[..k], idx[..|idx| - 1]) + [ps[idx[|idx| - 1]]]
  }

  lemma ExpandKeep(sels: seq<Sel>, s: seq<nat>, idx: seq<nat>, ps: seq<nat>, d: nat, x: nat)
    requires Fits(sels, s) && Within(KeptShape(sels), idx)
    requires SelFits(Keep(ps), d) && x < |ps|
    ensures KeptShape(sels + [Keep(ps)]) == KeptShape(sels) + [|ps|]
    ensures Fits(sels + [Keep(ps)], s + [d]) && Within(KeptShape(sels + [Keep(ps)]), idx + [x])
    ensures Expand(sels + [Keep(ps)], s + [d], idx + [x]) == Expand(sels, s, idx) + [ps[x]]
  {
    assert (sels + [Keep(ps)])[..|sels|] == sels;
    assert (s + [d])[..|s|] == s;
    assert (idx + [x])[..|idx|] == idx;
  }

  ghost function Select(t: Tensor, sels: seq<Sel>): (r: Tensor)
    requires Fits(sels, t.shape)
    ensures r.shape == KeptShape(sels)
    ensures forall idx :: Within(r.shape, idx) ==> At(r, idx) == At(t, Expand(sels, t.shape, idx))
  {
    Make(KeptShape(sels), idx requires Within(KeptShape(sels), idx) => At(t, Expand(sels, t.shape, idx)))
  }

  /** Every component resolved against its axis; torch fills a short tuple with full slices. */
  function ResolveAll(ixs: seq<Ix>, s: seq<nat>): (r: Option<seq<Sel>>)
    ensures r.Some? ==> Fits(r.value, s)
    ensures r.Some? ==> |ixs| <= |s| && forall i :: 0 <= i < |ixs| ==> Resolve(ixs[i], s[i]) == Some(r.value[i])
    ensures r.Some? ==> forall i :: |ixs| <= i < |s| ==> r.value[i] == Keep(All(s[i]))
    ensures r.None? ==> |ixs| > |s| || exists i :: 0 <= i < |ixs| && Resolve(ixs[i], s[i]).None?
  {
    if |ixs| > |s| then None
    else if exists i :: 0 <= i < |ixs| && Resolve(ixs[i], s[i]).None? then None
    else Some(seq(|s|, i requires 0 <= i < |s| => if i < |ixs| then Resolve(ixs[i], s[i]).value else Keep(All(s[i]))))
  }

  ghost function Index(t: Tensor, ixs: seq<Ix>): Option<Tensor> {
    match ResolveAll(ixs, t.shape)
    case None => None
    case Some(sels) => Some(Select(t, sels))
  }

  // ---- joining along the first axis ----

  ghost predicate SameShapes(ts: seq<Tensor>) {
    forall i :: 0 <= i < |ts| ==> ts[i].shape == ts[0].shape
  }

  ghost function Stacked(ts: seq<Tensor>): (r: Tensor)
    requires ts != [] && SameShapes(ts)
    ensures r.shape == [|ts|] + ts[0].shape
  {
    Make([|ts|] + ts[0].shape, idx requires Within([|ts|] + ts[0].shape, idx) => At(ts[idx[0]], idx[1..]))
  }

  lemma StackedAt(ts: seq<Tensor>, i: nat, idx: seq<nat>)
    requires ts != [] && SameShapes(ts) && i < |ts| && Within(ts[i].shape, idx)
    ensures Within([|ts|] + ts[0].shape, [i] + idx)
    ensures At(Stacked(ts), [i] + idx) == At(ts[i], idx)
  {
    assert ([i] + idx)[1..] == idx;
  }

  ghost function Stack(ts: seq<Tensor>): Option<Tensor> {
    if ts != [] && SameShapes(ts) then Some(Stacked(ts)) else None
  }

  predicate Joinable(s: seq<nat>, s': seq<nat>) {
    s != [] && s' != [] && s[1..] == s'[1..]
  }

  ghost function Joined(t: Tensor, u: Tensor): (r: Tensor)
    requires Joinable(t.shape, u.shape)
    ensures r.shape == [t.shape[0] + u.shape[0]] + t.shape[1..]
  {
    var s := [t.shape[0] + u.shape[0]] + t.shape[1..];
    Make(s, idx requires Within(s, idx) => JoinedElement(t, u, idx[0], idx[1..]))
  }

  ghost function JoinedElement(t: Tensor, u: Tensor, i: nat, idx: seq<nat>): real
    requires Joinable(t.shape, u.shape) && i < t.shape[0] + u.shape[0] && Within(t.shape[1..], idx)
  {
    if i < t.shape[0] then HeadAt(t, i, idx) else HeadAt(u, i - t.shape[0], idx)
  }

  ghost function HeadAt(t: Tensor, i: nat, idx: seq<nat>): real
    requires t.shape != [] && i < t.shape[0] && Within(t.shape[1..], idx)
  {
    assert Within(t.shape, [i] + idx);
    At(t, [i] + idx)
  }

  lemma JoinedAt(t: Tensor, u: Tensor, i: nat, idx: seq<nat>)
    requires Joinable(t.shape, u.shape) && i < t.shape[0] + u.shape[0] && Within(t.shape[1..], idx)
    ensures HeadAt(Joined(t, u), i, idx) == if i < t.shape[0] then HeadAt(t, i, idx) else HeadAt(u, i - t.shape[0], idx)
  {
    assert ([i] + idx)[1..] == idx;
  }

  ghost function Cat(ts: seq<Tensor>): Option<Tensor> {
    if ts == [] then None
    else if |ts| == 1 then (if ts[0].shape == [] then None else Some(ts[0]))
    else
      match Cat(ts[1..])
      case None => None
      case Some(rest) => if Joinable(ts[0].shape, rest.shape) then Some(Joined(ts[0], rest)) else None
  }

  /** Where the rows of tensor k begin in the concatenation. */
  function RowsBefore(ts: seq<Tensor>, k: nat): nat
    requires k <= |ts| && forall i :: 0 <= i < |ts| ==> ts[i].shape != []
  {
    if k == 0 then 0 else RowsBefore(ts, k - 1) + ts[k - 1].shape[0]
  }

  lemma {:induction false} RowsBeforeTail(ts: seq<Tensor>, k: nat)
    requires 0 < k <= |ts| && forall i :: 0 <= i < |ts| ==> ts[i].shape != []
    ensures RowsBefore(ts, k) == ts[0].shape[0] + RowsBefore(ts[1..], k - 1)
  {
    if k > 1 {
      RowsBeforeTail(ts, k - 1);
      assert ts[1..][k - 2] == ts[k - 1];
    } else {
      assert RowsBefore(ts, 1) == RowsBefore(ts, 0) + ts[0].shape[0] && RowsBefore(ts[1..], 0) == 0;
    }
  }

  /** All have a first axis, and are alike in the others. */
  predicate AllJoin(ts: seq<Tensor>) {
    ts != [] && forall i :: 0 <= i < |ts| ==> Joinable(ts[i].shape, ts[0].shape)
  }

  lemma AllJoinTail(ts: seq<Tensor>)
    requires |ts| > 1
    ensures AllJoin(ts) <==> AllJoin(ts[1..]) && Joinable(ts[0].shape, ts[1].shape)
  {
    var rest := ts[1..];
    if AllJoin(ts) {
      assert Joinable(ts[1].shape, ts[0].shape);
      forall i | 0 <= i < |rest| ensures Joinable(rest[i].shape, rest[0].shape) {
        assert Joinable(ts[i + 1].shape, ts[0].shape);
      }
    }
    if AllJoin(rest) && Joinable(ts[0].shape, ts[1].shape) {
      forall i | 0 <= i < |ts| ensures Joinable(ts[i].shape, ts[0].shape) {
        assert i > 0 ==> Joinable(rest[i - 1].shape, rest[0].shape);
      }
    }
  }

  lemma CatOfOne(ts: seq<Tensor>)
    requires |ts| == 1
    ensures Cat(ts) == if ts[0].shape == [] then None else Some(ts[0])
    ensures AllJoin(ts) <==> ts[0].shape != []
    ensures AllJoin(ts) ==> RowsBefore(ts, 0) == 0 && RowsBefore(ts, 1) == ts[0].shape[0]
  {
    assert AllJoin(ts) ==> RowsBefore(ts, 1) == RowsBefore(ts, 0) + ts[0].shape[0];
  }

  lemma CatOfMore(ts: seq<Tensor>)
    requires |ts| > 1
    ensures Cat(ts) ==
      if Cat(ts[1..]).Some? && Joinable(ts[0].shape, Cat(ts[1..]).value.shape) then Some(Joined(ts[0], Cat(ts[1..]).value))
      else None
  {
    hide Joined;
  }

  /** Tensors can be concatenated exactly when they are alike in all axes but the first, of which the sizes add up. */
  lemma {:induction false} CatAccepted(ts: seq<Tensor>)
    ensures Cat(ts).Some? <==> AllJoin(ts)
    ensures AllJoin(ts) ==> Cat(ts).value.shape == [RowsBefore(ts, |ts|)] + ts[0].shape[1..]
    decreases |ts|
  {
    hide Joined, Cat, RowsBefore, AllJoin;
    if |ts| == 1 {
      CatOfOne(ts);
      assert AllJoin(ts) ==> ts[0].shape == [ts[0].shape[0]] + ts[0].shape[1..];
    } else if ts == [] {
      NothingJoined(ts);
    } else {
      AllJoinTail(ts);
      CatOfMore(ts);
      CatAccepted(ts[1..]);
      if AllJoin(ts[1..]) {
        AxesPresent(ts[1..]);
      }
      if AllJoin(ts) {
        AxesPresent(ts);
        RowsBeforeTail(ts, |ts|);
      }
    }
  }

  lemma NothingJoined(ts: seq<Tensor>)
    requires ts == []
    ensures Cat(ts) == None && !AllJoin(ts)
  {
  }

  lemma AxesPresent(ts: seq<Tensor>)
    requires AllJoin(ts)
    ensures forall i :: 0 <= i < |ts| ==> ts[i].shape != [] && ts[i].shape[1..] == ts[0].shape[1..]
  {
    forall i | 0 <= i < |ts| ensures ts[i].shape != [] && ts[i].shape[1..] == ts[0].shape[1..] {
      assert Joinable(ts[i].shape, ts[0].shape);
    }
  }

  /** Row i of tensor k is that row behind all rows of the tensors before it. */
  lemma {:induction false} CatReads(ts: seq<Tensor>, k: nat, i: nat, rest: seq<nat>)
    requires AllJoin(ts) && (forall j :: 0 <= j < |ts| ==> ts[j].shape != [])
    requires k < |ts| && i < ts[k].shape[0] && Within(ts[0].shape[1..], rest)
    ensures Cat(ts).Some? && Cat(ts).value.shape == [RowsBefore(ts, |ts|)] + ts[0].shape[1..]
    ensures ts[k].shape[1..] == ts[0].shape[1..] && RowsBefore(ts, k) + i < RowsBefore(ts, |ts|)
    ensures HeadAt(Cat(ts).value, RowsBefore(ts, k) + i, rest) == HeadAt(ts[k], i, rest)
    decreases |ts|
  {
    hide Joined, HeadAt, Cat, RowsBefore, AllJoin, Within;
    CatAccepted(ts);
    AxesPresent(ts);
    if |ts| == 1 {
      CatOfOne(ts);
    } else {
      AllJoinTail(ts);
      CatOfMore(ts);
      CatAccepted(ts[1..]);
      RowsBeforeTail(ts, |ts|);
      var u := Cat(ts[1..]).value;
      if k > 0 {
        CatReads(ts[1..], k - 1, i, rest);
        RowsBeforeTail(ts, k);
      } else {
        NoRowsBefore(ts);
      }
      JoinedAt(ts[0], u, RowsBefore(ts, k) + i, rest);
    }
  }

  lemma NoRowsBefore(ts: seq<Tensor>)
    requires forall j :: 0 <= j < |ts| ==> ts[j].shape != []
    ensures RowsBefore(ts, 0) == 0
  {
  }
}
