/** Which row of a dense tensor goes where when heads are permuted or regrouped. */
module HeadRows {
  import opened Wrappers
  import opened Tensors
  import opened Lora
  import opened LoraIndexing
  import opened LoraJoining
  import opened LoraHeads

  // ---- moving rows ----

  /** The tensor whose row r is row from(r) of t. */
  ghost function MoveRows(t: Tensor, from: nat -> nat): (u: Tensor)
    requires t.shape != [] && forall r: nat :: r < t.shape[0] ==> from(r) < t.shape[0]
    ensures u.shape == t.shape
  {
    Make(t.shape, idx requires Within(t.shape, idx) => HeadAt(t, from(idx[0]), idx[1..]))
  }

  lemma MovedAt(t: Tensor, from: nat -> nat, r: nat, y: seq<nat>)
    requires t.shape != [] && forall r: nat :: r < t.shape[0] ==> from(r) < t.shape[0]
    requires r < t.shape[0] && Within(t.shape[1..], y)
    ensures HeadAt(MoveRows(t, from), r, y) == HeadAt(t, from(r), y)
  {
    hide At, Size, Ravel;
    assert Within(t.shape, [r] + y) && ([r] + y)[1..] == y;
  }

  lemma RowsEqual(t: Tensor, u: Tensor)
    requires t.shape == u.shape != []
    requires forall r: nat, y :: r < t.shape[0] && Within(t.shape[1..], y) ==> HeadAt(t, r, y) == HeadAt(u, r, y)
    ensures t == u
  {
    hide At, Size, Ravel;
    forall idx | Within(t.shape, idx) ensures At(t, idx) == At(u, idx) {
      assert idx == [idx[0]] + idx[1..] && Within(t.shape[1..], idx[1..]);
      assert HeadAt(t, idx[0], idx[1..]) == HeadAt(u, idx[0], idx[1..]);
    }
    SameElements(t, u);
  }

  lemma MovedBy(t: Tensor, u: Tensor, from: nat -> nat)
    requires u.shape == t.shape != [] && forall r: nat :: r < t.shape[0] ==> from(r) < t.shape[0]
    requires forall r: nat, y :: r < t.shape[0] && Within(t.shape[1..], y) ==> HeadAt(u, r, y) == HeadAt(t, from(r), y)
    ensures u == MoveRows(t, from)
  {
    hide At, Size, Ravel, HeadAt, MoveRows, Make;
    var v := MoveRows(t, from);
    forall r: nat, y | r < t.shape[0] && Within(t.shape[1..], y) ensures HeadAt(u, r, y) == HeadAt(v, r, y) {
      MovedAt(t, from, r, y);
    }
    RowsEqual(u, v);
  }

  /** to and from are inverse to each other on the first n rows. */
  ghost predicate Inverse(n: nat, to: nat -> nat, from: nat -> nat) {
    forall r: nat :: r < n ==> to(r) < n && from(r) < n && from(to(r)) == r && to(from(r)) == r
  }

  /** Moving rows by a bijection loses nothing: moving them back gives the tensor again. */
  lemma MovedBack(t: Tensor, to: nat -> nat, from: nat -> nat)
    requires t.shape != [] && Inverse(t.shape[0], to, from)
    ensures MoveRows(MoveRows(t, from), to) == t
  {
    hide At, Size, Ravel, HeadAt, MoveRows;
    var u := MoveRows(t, from);
    forall r: nat, y | r < t.shape[0] && Within(t.shape[1..], y) ensures HeadAt(MoveRows(u, to), r, y) == HeadAt(t, r, y) {
      MovedAt(u, to, r, y);
      MovedAt(t, from, to(r), y);
    }
    RowsEqual(MoveRows(u, to), t);
  }

  // ---- splitting rows in three ----

  function Rows(d0: nat, d1: nat, d2: nat): nat {
    d0 * d1 * d2
  }

  function RowOf(d1: nat, d2: nat, i: nat, x: nat, j: nat): nat {
    (i * d1 + x) * d2 + j
  }

  lemma ThreeAxes(d0: nat, d1: nat, d2: nat, i: nat, x: nat, j: nat)
    requires i < d0 && x < d1 && j < d2
    ensures Within([d0, d1, d2], [i, x, j]) && Ravel([d0, d1, d2], [i, x, j]) == RowOf(d1, d2, i, x, j)
    ensures Size([d0, d1, d2]) == Rows(d0, d1, d2) && RowOf(d1, d2, i, x, j) < Rows(d0, d1, d2)
  {
    hide Size, Ravel;
    OneAxis(d0, i);
    RavelSnoc([d0], [i], d1, x);
    RavelSnoc([d0, d1], [i, x], d2, j);
    assert [d0] + [d1] == [d0, d1] && [d0, d1] + [d2] == [d0, d1, d2];
    assert [i] + [x] == [i, x] && [i, x] + [j] == [i, x, j];
  }

  lemma OneAxis(d: nat, i: nat)
    requires i < d
    ensures Within([d], [i]) && Ravel([d], [i]) == i && Size([d]) == d
  {
    RavelSnoc([], [], d, i);
    assert [] + [d] == [d] && [] + [i] == [i];
  }

  lemma MergedSize(d0: nat, d1: nat, d2: nat, tail: seq<nat>)
    ensures Size([d0, d1, d2] + tail) == Size([Rows(d0, d1, d2)] + tail) == Rows(d0, d1, d2) * Size(tail)
  {
    hide Size;
    SizeConcat([d0, d1, d2], tail);
    SizeConcat([Rows(d0, d1, d2)], tail);
    SizeConcat([d0], [d1]); SizeConcat([d0, d1], [d2]);
    assert [d0] + [d1] == [d0, d1] && [d0, d1] + [d2] == [d0, d1, d2];
    SingleSize(d0); SingleSize(d1); SingleSize(d2); SingleSize(Rows(d0, d1, d2));
  }

  lemma SplitPosition(d0: nat, d1: nat, d2: nat, tail: seq<nat>, i: nat, x: nat, j: nat, y: seq<nat>)
    requires i < d0 && x < d1 && j < d2 && Within(tail, y)
    ensures RowOf(d1, d2, i, x, j) < Rows(d0, d1, d2)
    ensures Within([d0, d1, d2] + tail, [i, x, j] + y) && Within([Rows(d0, d1, d2)] + tail, [RowOf(d1, d2, i, x, j)] + y)
    ensures Ravel([d0, d1, d2] + tail, [i, x, j] + y) == Ravel([Rows(d0, d1, d2)] + tail, [RowOf(d1, d2, i, x, j)] + y)
  {
    hide Size, Ravel, Rows, RowOf;
    ThreeAxes(d0, d1, d2, i, x, j);
    OneAxis(Rows(d0, d1, d2), RowOf(d1, d2, i, x, j));
    RavelConcat([d0, d1, d2], tail, [i, x, j], y);
    RavelConcat([Rows(d0, d1, d2)], tail, [RowOf(d1, d2, i, x, j)], y);
  }

  /** The same element in a tensor of rows and in the tensor with its rows split in three. */
  lemma SplitAt(t: Tensor, d0: nat, d1: nat, d2: nat, tail: seq<nat>, i: nat, x: nat, j: nat, y: seq<nat>)
    requires t.shape == [Rows(d0, d1, d2)] + tail && i < d0 && x < d1 && j < d2 && Within(tail, y)
    ensures RowOf(d1, d2, i, x, j) < Rows(d0, d1, d2)
    ensures Reshape(t, [d0, d1, d2] + tail).Some? && Reshape(t, [d0, d1, d2] + tail).value.shape == [d0, d1, d2] + tail
    ensures Within([d0, d1, d2] + tail, [i, x, j] + y) && Within(t.shape[1..], y)
    ensures At(Reshape(t, [d0, d1, d2] + tail).value, [i, x, j] + y) == HeadAt(t, RowOf(d1, d2, i, x, j), y)
  {
    hide Size, Ravel, Rows, RowOf;
    SplitPosition(d0, d1, d2, tail, i, x, j, y);
    MergedSize(d0, d1, d2, tail);
    assert t.shape[1..] == tail;
  }

  /** The same when the split tensor is given. */
  lemma MergedAt(u: Tensor, d0: nat, d1: nat, d2: nat, tail: seq<nat>, i: nat, x: nat, j: nat, y: seq<nat>)
    requires u.shape == [d0, d1, d2] + tail && i < d0 && x < d1 && j < d2 && Within(tail, y)
    ensures Within(u.shape, [i, x, j] + y) && RowOf(d1, d2, i, x, j) < Rows(d0, d1, d2)
    ensures var t := Reshape(u, [Rows(d0, d1, d2)] + tail);
      && t.Some? && t.value.shape == [Rows(d0, d1, d2)] + tail && Within(t.value.shape[1..], y)
      && HeadAt(t.value, RowOf(d1, d2, i, x, j), y) == At(u, [i, x, j] + y)
  {
    hide Size, Ravel, At, Rows, RowOf, HeadAt;
    MergedSize(d0, d1, d2, tail);
    var t := Reshape(u, [Rows(d0, d1, d2)] + tail).value;
    SplitAt(t, d0, d1, d2, tail, i, x, j, y);
    assert Reshape(t, [d0, d1, d2] + tail).value == u;
    assert t.shape[1..] == tail;
  }

  lemma SingleSize(d: nat)
    ensures Size([d]) == d
  {
    assert [d][..0] == [];
  }

  // ---- the head permutation ----

  lemma SwappedAt(t: Tensor, d0: nat, d2: nat, tail: seq<nat>, i: nat, x: nat, j: nat, y: seq<nat>)
    requires t.shape == [d0, 2, d2] + tail && i < d0 && x < 2 && j < d2 && Within(tail, y)
    ensures Transpose(t, 1, 2).Some? && Transpose(t, 1, 2).value.shape == [d0, d2, 2] + tail
    ensures Within([d0, d2, 2] + tail, [i, j, x] + y) && Within(t.shape, [i, x, j] + y)
    ensures At(Transpose(t, 1, 2).value, [i, j, x] + y) == At(t, [i, x, j] + y)
  {
    hide At, Ravel, Size, Make, Permuted, SourceIndex;
    SwapShape(t, d0, d2, tail);
    var dims := SwapAxes(|t.shape|, 1, 2).value;
    assert Reads(dims, [i, j, x] + y, [i, x, j] + y);
    PermutedAt(t, dims, [i, j, x] + y);
  }

  lemma SwapShape(t: Tensor, d0: nat, d2: nat, tail: seq<nat>)
    requires t.shape == [d0, 2, d2] + tail
    ensures SwapAxes(|t.shape|, 1, 2).Some? && IsPermutation(SwapAxes(|t.shape|, 1, 2).value, |t.shape|)
    ensures Transpose(t, 1, 2).Some? && Transpose(t, 1, 2).value.shape == [d0, d2, 2] + tail
    ensures var dims := SwapAxes(|t.shape|, 1, 2).value;
      dims[0] == 0 && dims[1] == 2 && dims[2] == 1 && forall i :: 3 <= i < |dims| ==> dims[i] == i
  {
    hide At, Ravel, Size, Make, Permuted;
    var dims := SwapAxes(|t.shape|, 1, 2).value;
    assert IsPermutation(dims, |t.shape|);
    assert PermutedShape(t.shape, dims) == [d0, d2, 2] + tail;
  }

  function Quotient(n: nat, d: nat): (q: nat)
    requires d > 0
    ensures q * d <= n
  {
    n / d
  }

  function Remainder(n: nat, d: nat): (r: nat)
    requires d > 0
    ensures r < d
  {
    n % d
  }

  lemma Parts(n: nat, d: nat)
    requires d > 0
    ensures n == Quotient(n, d) * d + Remainder(n, d)
  {
    DivMod(n, d);
  }

  lemma PartsAre(h: nat, q: nat, d: nat)
    requires q < d
    ensures Quotient(h * d + q, d) == h && Remainder(h * d + q, d) == q
  {
    hide Quotient, Remainder;
    Parts(h * d + q, d);
    HornerUnique(Quotient(h * d + q, d), Remainder(h * d + q, d), h, q, d);
  }

  lemma QuotientBelow(n: nat, m: nat, d: nat)
    requires n < m * d
    ensures d > 0 && Quotient(n, d) < m
  {
    DivBound(n, m, d);
  }

  /** Where row r goes: rows j and half + j of a head to rows 2j and 2j + 1 of it. */
  function HeadRow(half: nat, r: nat): nat {
    if half == 0 then r
    else
      var h, q := Quotient(r, 2 * half), Remainder(r, 2 * half);
      Combined(h, 2 * half, 2 * Remainder(q, half) + Quotient(q, half))
  }

  function HeadRowBack(half: nat, r: nat): nat {
    if half == 0 then r
    else
      var h, q := Quotient(r, 2 * half), Remainder(r, 2 * half);
      Combined(h, 2 * half, Combined(Remainder(q, 2), half, Quotient(q, 2)))
  }

  function Combined(h: nat, d: nat, q: nat): (n: nat)
    ensures n == h * d + q
  {
    h * d + q
  }

  lemma HeadRowIs(half: nat, h: nat, x: nat, j: nat)
    requires x < 2 && j < half
    ensures HeadRow(half, h * (2 * half) + x * half + j) == h * (2 * half) + 2 * j + x
    ensures HeadRowBack(half, h * (2 * half) + 2 * j + x) == h * (2 * half) + x * half + j
  {
    hide Quotient, Remainder, Combined;
    PartsAre(h, x * half + j, 2 * half);
    PartsAre(x, j, half);
    PartsAre(h, 2 * j + x, 2 * half);
    PartsAre(j, x, 2);
  }

  /** Every row is row j of half x of head h, and row 2j + x of it. */
  lemma RowParts(half: nat, heads: nat, r: nat) returns (h: nat, x: nat, j: nat)
    requires r < heads * (2 * half)
    ensures h < heads && x < 2 && j < half && r == h * (2 * half) + x * half + j
  {
    hide Quotient, Remainder;
    QuotientBelow(r, heads, 2 * half);
    Parts(r, 2 * half);
    var q := Remainder(r, 2 * half);
    QuotientBelow(q, 2, half);
    Parts(q, half);
    h, x, j := Quotient(r, 2 * half), Quotient(q, half), Remainder(q, half);
  }

  lemma RowPartsBack(half: nat, heads: nat, r: nat) returns (h: nat, x: nat, j: nat)
    requires r < heads * (2 * half)
    ensures h < heads && x < 2 && j < half && r == h * (2 * half) + 2 * j + x
  {
    hide Quotient, Remainder;
    QuotientBelow(r, heads, 2 * half);
    Parts(r, 2 * half);
    var q := Remainder(r, 2 * half);
    QuotientBelow(q, half, 2);
    Parts(q, 2);
    h, x, j := Quotient(r, 2 * half), Remainder(q, 2), Quotient(q, 2);
  }

  lemma RowBound(heads: nat, half: nat, h: nat, q: nat)
    requires h < heads && q < 2 * half
    ensures h * (2 * half) + q < heads * (2 * half)
  {
    HornerBound(h, q, heads, 2 * half);
  }

  ghost function ToHead(half: nat): nat -> nat { r => HeadRow(half, r) }
  ghost function FromHead(half: nat): nat -> nat { r => HeadRowBack(half, r) }

  lemma HeadRowThere(heads: nat, half: nat, r: nat)
    requires r < heads * (2 * half)
    ensures HeadRow(half, r) < heads * (2 * half) && HeadRowBack(half, HeadRow(half, r)) == r
  {
    hide HeadRow, HeadRowBack;
    var h, x, j := RowParts(half, heads, r);
    HeadRowIs(half, h, x, j);
    RowBound(heads, half, h, 2 * j + x);
  }

  lemma HeadRowAndBack(heads: nat, half: nat, r: nat)
    requires r < heads * (2 * half)
    ensures HeadRowBack(half, r) < heads * (2 * half) && HeadRow(half, HeadRowBack(half, r)) == r
  {
    hide HeadRow, HeadRowBack;
    var h, x, j := RowPartsBack(half, heads, r);
    HeadRowIs(half, h, x, j);
    RowBound(heads, half, h, x * half + j);
  }

  /** The row map is a bijection of the rows of whole heads. */
  lemma HeadRowsInverse(heads: nat, half: nat)
    ensures Inverse(heads * 2 * half, ToHead(half), FromHead(half))
  {
    hide HeadRow, HeadRowBack;
    assert heads * 2 * half == heads * (2 * half);
    forall r: nat | r < heads * (2 * half) ensures HeadRow(half, r) < heads * (2 * half) && HeadRowBack(half, HeadRow(half, r)) == r {
      HeadRowThere(heads, half, r);
    }
    forall r: nat | r < heads * (2 * half) ensures HeadRowBack(half, r) < heads * (2 * half) && HeadRow(half, HeadRowBack(half, r)) == r {
      HeadRowAndBack(heads, half, r);
    }
  }

  /** Permuting the heads of a tensor of whole heads, with any further axes or none, moves its rows so. */
  lemma PermutedRows(t: Tensor, nHead: nat, nHeadKv: Option<nat>, half: nat)
    requires Heads(nHead, nHeadKv) > 0 && t.shape != [] && t.shape[0] == Heads(nHead, nHeadKv) * 2 * half
    ensures Inverse(t.shape[0], ToHead(half), FromHead(half))
    ensures PermuteHeads(t, nHead, nHeadKv) == Some(MoveRows(t, FromHead(half)))
  {
    hide At, Ravel, Size, Make, SplitShape, Transpose, HeadAt, MoveRows, HeadRow, HeadRowBack, Heads, PermuteHeads;
    var heads, tail := Heads(nHead, nHeadKv), t.shape[1..];
    HeadRowsInverse(heads, half);
    PermutedShapes(t, nHead, nHeadKv, half);
    var u, from := PermuteHeads(t, nHead, nHeadKv).value, FromHead(half);
    assert heads * 2 * half == heads * (2 * half);
    forall r: nat, y | r < t.shape[0] && Within(tail, y) ensures HeadAt(u, r, y) == HeadAt(t, from(r), y) {
      var h, x, j := RowPartsBack(half, heads, r);
      SwappedRow(t, heads, half, h, x, j, y);
      RowSums(half, h, x, j);
      HeadRowIs(half, h, x, j);
    }
    MovedBy(t, u, from);
  }

  lemma PermutedShapes(t: Tensor, nHead: nat, nHeadKv: Option<nat>, half: nat)
    requires Heads(nHead, nHeadKv) > 0 && t.shape != [] && t.shape[0] == Heads(nHead, nHeadKv) * 2 * half
    ensures var split := Reshape(t, [Heads(nHead, nHeadKv), 2, half] + t.shape[1..]);
      && split.Some? && Transpose(split.value, 1, 2).Some?
      && Reshape(Transpose(split.value, 1, 2).value, t.shape).Some?
      && Reshape(Transpose(split.value, 1, 2).value, t.shape).value.shape == t.shape
      && PermuteHeads(t, nHead, nHeadKv) == Reshape(Transpose(split.value, 1, 2).value, t.shape)
  {
    hide At, Ravel, Size, Make, SplitShape, Transpose, Heads, Rows;
    var heads, tail := Heads(nHead, nHeadKv), t.shape[1..];
    SwapFactors(heads, half);
    assert t.shape == [Rows(heads, 2, half)] + tail;
    HeadShape(t.shape, heads, half, tail);
    MergedSize(heads, 2, half, tail);
    var split := Reshape(t, [heads, 2, half] + tail).value;
    SwapShape(split, heads, half, tail);
    MergedSize(heads, half, 2, tail);
  }

  lemma SwapFactors(heads: nat, half: nat)
    ensures Rows(heads, half, 2) == Rows(heads, 2, half) == heads * 2 * half
  {
  }

  /** A row through splitting, swapping and merging. */
  lemma SwappedRow(t: Tensor, heads: nat, half: nat, h: nat, x: nat, j: nat, y: seq<nat>)
    requires t.shape != [] && t.shape[0] == heads * 2 * half
    requires h < heads && x < 2 && j < half && Within(t.shape[1..], y)
    ensures RowOf(2, half, h, x, j) < t.shape[0] && RowOf(half, 2, h, j, x) < t.shape[0]
    ensures var split := Reshape(t, [heads, 2, half] + t.shape[1..]);
      && split.Some? && Transpose(split.value, 1, 2).Some?
      && var u := Reshape(Transpose(split.value, 1, 2).value, t.shape);
      && u.Some? && u.value.shape == t.shape && HeadAt(u.value, RowOf(half, 2, h, j, x), y) == HeadAt(t, RowOf(2, half, h, x, j), y)
  {
    hide At, Ravel, Size, Make, Transpose, Reshape, Rows, RowOf, HeadAt;
    var tail := t.shape[1..];
    SwapFactors(heads, half);
    assert t.shape == [Rows(heads, 2, half)] + tail && t.shape == [Rows(heads, half, 2)] + tail;
    SplitAt(t, heads, 2, half, tail, h, x, j, y);
    var split := Reshape(t, [heads, 2, half] + tail).value;
    SwappedAt(split, heads, half, tail, h, x, j, y);
    MergedAt(Transpose(split, 1, 2).value, heads, half, 2, tail, h, j, x, y);
  }

  lemma RowSums(half: nat, h: nat, x: nat, j: nat)
    ensures RowOf(2, half, h, x, j) == h * (2 * half) + x * half + j
    ensures RowOf(half, 2, h, j, x) == h * (2 * half) + 2 * j + x
  {
  }

  /** Nothing is lost, and every tensor of whole heads is the permutation of exactly one. */
  lemma PermuteLossless(t: Tensor, nHead: nat, nHeadKv: Option<nat>, half: nat)
    requires Heads(nHead, nHeadKv) > 0 && t.shape != [] && t.shape[0] == Heads(nHead, nHeadKv) * 2 * half
    ensures Inverse(t.shape[0], ToHead(half), FromHead(half))
    ensures PermuteHeads(t, nHead, nHeadKv).Some? && PermuteHeads(t, nHead, nHeadKv).value.shape == t.shape
    ensures MoveRows(PermuteHeads(t, nHead, nHeadKv).value, ToHead(half)) == t
    ensures PermuteHeads(MoveRows(t, ToHead(half)), nHead, nHeadKv) == Some(t)
  {
    hide At, Ravel, Size, Make, PermuteHeads, MoveRows, Heads, ToHead, FromHead;
    PermutedRows(t, nHead, nHeadKv, half);
    MovedBack(t, ToHead(half), FromHead(half));
    PermutedRows(MoveRows(t, ToHead(half)), nHead, nHeadKv, half);
    MovedBack(t, FromHead(half), ToHead(half));
  }

  // ---- the regrouping of a fused projection ----

  /** Head b of the fused rows is query, key or value of its group; first come all queries, then all keys,
      then all values. g is the number of query heads of a group, kv the number of groups. */
  function FusedHead(g: nat, kv: nat, b: nat): nat {
    var k, a := Quotient(b, g + 2), Remainder(b, g + 2);
    if a < g then Combined(k, g, a) else if a == g then Combined(g, kv, k) else Combined(g, kv, kv + k)
  }

  function FusedHeadBack(g: nat, kv: nat, b: nat): nat {
    if b < Combined(g, kv, 0) then (if g == 0 then b else Combined(Quotient(b, g), g + 2, Remainder(b, g)))
    else if b < Combined(g, kv, kv) then Combined(b - Combined(g, kv, 0), g + 2, g)
    else Combined(b - Combined(g, kv, kv), g + 2, g + 1)
  }

  /** The three kinds of heads of group k, before and after. */
  lemma FusedHeadIs(g: nat, kv: nat, k: nat, a: nat)
    requires k < kv && a < g + 2
    ensures var b := if a < g then Combined(k, g, a) else if a == g then Combined(g, kv, k) else Combined(g, kv, kv + k);
      && FusedHead(g, kv, Combined(k, g + 2, a)) == b && FusedHeadBack(g, kv, b) == Combined(k, g + 2, a)
      && b < Combined(g, kv, 2 * kv) && Combined(k, g + 2, a) < Combined(kv, g + 2, 0)
  {
    hide Quotient, Remainder;
    PartsAre(k, a, g + 2);
    HornerBound(k, a, kv, g + 2);
    if a < g {
      PartsAre(k, a, g);
      HornerBound(k, a, kv, g);
      assert kv * g == g * kv;
    }
  }

  lemma FusedParts(g: nat, kv: nat, b: nat) returns (k: nat, a: nat)
    requires b < Combined(kv, g + 2, 0)
    ensures k < kv && a < g + 2 && b == Combined(k, g + 2, a)
  {
    hide Quotient, Remainder;
    QuotientBelow(b, kv, g + 2);
    Parts(b, g + 2);
    k, a := Quotient(b, g + 2), Remainder(b, g + 2);
  }

  lemma FusedPartsBack(g: nat, kv: nat, b: nat) returns (k: nat, a: nat)
    requires b < Combined(g, kv, 2 * kv)
    ensures k < kv && a < g + 2
    ensures b == if a < g then Combined(k, g, a) else if a == g then Combined(g, kv, k) else Combined(g, kv, kv + k)
  {
    hide Quotient, Remainder;
    if b < g * kv {
      assert g * kv == kv * g;
      QuotientBelow(b, kv, g);
      Parts(b, g);
      k, a := Quotient(b, g), Remainder(b, g);
    } else if b < g * kv + kv {
      k, a := b - g * kv, g;
    } else {
      k, a := b - g * kv - kv, g + 1;
    }
  }

  /** Rows keep their place in their head. */
  ghost function ToFused(g: nat, kv: nat, hd: nat): nat -> nat {
    (r: nat) => if hd == 0 then r else Combined(FusedHead(g, kv, Quotient(r, hd)), hd, Remainder(r, hd))
  }

  ghost function FromFused(g: nat, kv: nat, hd: nat): nat -> nat {
    (r: nat) => if hd == 0 then r else Combined(FusedHeadBack(g, kv, Quotient(r, hd)), hd, Remainder(r, hd))
  }

  lemma FusedRowIs(g: nat, kv: nat, hd: nat, k: nat, a: nat, j: nat)
    requires k < kv && a < g + 2 && j < hd
    ensures var b := if a < g then Combined(k, g, a) else if a == g then Combined(g, kv, k) else Combined(g, kv, kv + k);
      var src, dst := Combined(Combined(k, g + 2, a), hd, j), Combined(b, hd, j);
      && ToFused(g, kv, hd)(src) == dst && FromFused(g, kv, hd)(dst) == src
      && src < Combined(Combined(g, kv, 2 * kv), hd, 0) && dst < Combined(Combined(g, kv, 2 * kv), hd, 0)
  {
    hide Quotient, Remainder, FusedHead, FusedHeadBack;
    FusedHeadIs(g, kv, k, a);
    var b := if a < g then Combined(k, g, a) else if a == g then Combined(g, kv, k) else Combined(g, kv, kv + k);
    PartsAre(Combined(k, g + 2, a), j, hd);
    PartsAre(b, j, hd);
    HornerBound(b, j, Combined(g, kv, 2 * kv), hd);
    HornerBound(Combined(k, g + 2, a), j, Combined(kv, g + 2, 0), hd);
    SameHeadCount(g, kv);
  }

  lemma SameHeadCount(g: nat, kv: nat)
    ensures Combined(g, kv, 2 * kv) == Combined(kv, g + 2, 0)
  {
    assert kv * (g + 2) == g * kv + 2 * kv;
  }

  lemma FusedRowsInverse(g: nat, kv: nat, hd: nat)
    ensures Inverse(Combined(Combined(g, kv, 2 * kv), hd, 0), ToFused(g, kv, hd), FromFused(g, kv, hd))
  {
    hide Quotient, Remainder, FusedHead, FusedHeadBack, ToFused, FromFused, Combined;
    var heads := Combined(g, kv, 2 * kv);
    var to, from, n := ToFused(g, kv, hd), FromFused(g, kv, hd), Combined(heads, hd, 0);
    forall r: nat | r < n ensures to(r) < n && from(r) < n && from(to(r)) == r && to(from(r)) == r {
      QuotientBelow(r, heads, hd);
      Parts(r, hd);
      SameHeadCount(g, kv);
      var k, a := FusedParts(g, kv, Quotient(r, hd));
      FusedRowIs(g, kv, hd, k, a, Remainder(r, hd));
      k, a := FusedPartsBack(g, kv, Quotient(r, hd));
      FusedRowIs(g, kv, hd, k, a, Remainder(r, hd));
    }
  }

  lemma KeepFour(s: seq<nat>, ps: seq<nat>, idx: seq<nat>)
    requires |s| == |idx| == 4 && SelFits(Keep(ps), s[1]) && idx[0] < s[0] && idx[1] < |ps| && idx[2] < s[2] && idx[3] < s[3]
    ensures var sels := [Keep(All(s[0])), Keep(ps), Keep(All(s[2])), Keep(All(s[3]))];
      && Fits(sels, s) && Within(KeptShape(sels), idx)
      && Expand(sels, s, idx) == [idx[0], ps[idx[1]], idx[2], idx[3]]
  {
    hide KeptShape, Expand, Fits, Within;
    var a, b, c, d := Keep(All(s[0])), Keep(ps), Keep(All(s[2])), Keep(All(s[3]));
    KeepTwo(s[0], s[1], ps, idx[0], idx[1]);
    ExpandTwo([a, b], [s[0], s[1]], [idx[0], idx[1]], All(s[2]), s[2], idx[2], All(s[3]), s[3], idx[3]);
    assert [a, b] + [c] + [d] == [a, b, c, d];
    assert [s[0], s[1]] + [s[2]] + [s[3]] == s && [idx[0], idx[1]] + [idx[2]] + [idx[3]] == idx;
  }

  lemma KeepTwo(m: nat, n: nat, ps: seq<nat>, i: nat, x: nat)
    requires SelFits(Keep(ps), n) && i < m && x < |ps|
    ensures var sels := [Keep(All(m)), Keep(ps)];
      Fits(sels, [m, n]) && Within(KeptShape(sels), [i, x]) && Expand(sels, [m, n], [i, x]) == [i, ps[x]]
  {
    hide KeptShape, Expand, Fits, Within;
    NothingSelected();
    ExpandTwo([], [], [], All(m), m, i, ps, n, x);
    assert [] + [Keep(All(m))] + [Keep(ps)] == [Keep(All(m)), Keep(ps)];
    assert [] + [m] + [n] == [m, n] && [] + [i] + [x] == [i, x];
  }

  lemma NothingSelected()
    ensures KeptShape([]) == [] && Fits([], []) && Within([], []) && Expand([], [], []) == []
  {
  }

  /** The rows of a part of the heads of every group. */
  lemma PartAt(qkv: Tensor, ix: Ix, kv: nat, heads: nat, hd: nat, c: nat, ps: seq<nat>)
    requires qkv.shape == [kv, heads, hd, c] && Resolve(ix, heads) == Some(Keep(ps))
    ensures var part := RegroupPart(qkv, [EVERYTHING, ix], [Rows(kv, |ps|, hd), c]);
      && part.Some? && part.value.shape == [Rows(kv, |ps|, hd), c]
      && forall k: nat, a: nat, j: nat, y :: k < kv && a < |ps| && j < hd && Within([c], y) ==>
        && RowOf(|ps|, hd, k, a, j) < Rows(kv, |ps|, hd) && Within(part.value.shape[1..], y)
        && Within(qkv.shape, [k, ps[a], j] + y)
        && HeadAt(part.value, RowOf(|ps|, hd, k, a, j), y) == At(qkv, [k, ps[a], j] + y)
  {
    hide At, Size, Ravel, Make, Resolve, Select, Rows, RowOf, HeadAt, KeptShape, SelFits;
    var sels := [Keep(All(kv)), Keep(ps), Keep(All(hd)), Keep(All(c))];
    FullSlice(kv);
    assert ResolveAll([EVERYTHING, ix], qkv.shape).value == sels;
    KeptFourShape(sels[0].ps, ps, sels[2].ps, sels[3].ps);
    var u := Index(qkv, [EVERYTHING, ix]).value;
    assert u.shape == [kv, |ps|, hd] + [c];
    MergedSize(kv, |ps|, hd, [c]);
    assert [Rows(kv, |ps|, hd)] + [c] == [Rows(kv, |ps|, hd), c];
    var part := RegroupPart(qkv, [EVERYTHING, ix], [Rows(kv, |ps|, hd), c]).value;
    forall k: nat, a: nat, j: nat, y | k < kv && a < |ps| && j < hd && Within([c], y)
      ensures RowOf(|ps|, hd, k, a, j) < Rows(kv, |ps|, hd) && Within(part.shape[1..], y)
      ensures Within(qkv.shape, [k, ps[a], j] + y)
      ensures HeadAt(part, RowOf(|ps|, hd, k, a, j), y) == At(qkv, [k, ps[a], j] + y)
    {
      MergedAt(u, kv, |ps|, hd, [c], k, a, j, y);
      KeepFour(qkv.shape, ps, [k, a, j] + y);
      assert [k, ps[a], j] + y == [k, ps[a], j, y[0]];
    }
  }

  lemma KeptFourShape(p: seq<nat>, q: seq<nat>, u: seq<nat>, v: seq<nat>)
    ensures KeptShape([Keep(p), Keep(q), Keep(u), Keep(v)]) == [|p|, |q|, |u|, |v|]
  {
    hide KeptShape;
    KeptTwo([], p, q);
    KeptTwo([Keep(p), Keep(q)], u, v);
    NothingSelected();
    assert [] + [Keep(p)] + [Keep(q)] == [Keep(p), Keep(q)];
    assert [Keep(p), Keep(q)] + [Keep(u)] + [Keep(v)] == [Keep(p), Keep(q), Keep(u), Keep(v)];
  }

  lemma ThreeJoined(q: Tensor, k: Tensor, v: Tensor, m: nat, n: nat, c: nat)
    requires q.shape == [m, c] && k.shape == v.shape == [n, c]
    ensures Cat([q, k, v]).Some? && Cat([q, k, v]).value.shape == [m + (n + n), c]
    ensures forall r: nat, y :: r < m + (n + n) && Within([c], y) ==>
      && Within(Cat([q, k, v]).value.shape[1..], y)
      && HeadAt(Cat([q, k, v]).value, r, y) ==
        if r < m then HeadAt(q, r, y) else if r < m + n then HeadAt(k, r - m, y) else HeadAt(v, r - m - n, y)
  {
    hide At, Size, Ravel, Make, Joined, HeadAt;
    assert [q, k, v][1..] == [k, v] && [k, v][1..] == [v];
    assert Cat([v]) == Some(v);
    assert Cat([k, v]) == Some(Joined(k, v)) && Joined(k, v).shape == [n + n, c];
    assert Cat([q, k, v]) == Some(Joined(q, Joined(k, v)));
    forall r: nat, y | r < m + (n + n) && Within([c], y)
      ensures Within(Joined(q, Joined(k, v)).shape[1..], y)
      ensures HeadAt(Joined(q, Joined(k, v)), r, y) ==
        if r < m then HeadAt(q, r, y) else if r < m + n then HeadAt(k, r - m, y) else HeadAt(v, r - m - n, y)
    {
      JoinedAt(q, Joined(k, v), r, y);
      if r >= m {
        JoinedAt(k, v, r - m, y);
      }
    }
  }

  /** The operands of the concatenation: queries, keys and values. */
  lemma FusedPartsAt(t: Tensor, f: Fused, g: nat)
    requires f.nHeadKv > 0 && f.nHead == g * f.nHeadKv
    requires t.shape == [Rows(f.nHeadKv, g + 2, f.headDim), f.headDim * f.nHead]
    ensures f.Grouped() == [f.nHeadKv, g + 2, f.headDim] + [f.headDim * f.nHead] && Reshape(t, f.Grouped()).Some?
    ensures var qkv := Reshape(t, f.Grouped()).value;
      var c := f.headDim * f.nHead;
      var q, k, v := RegroupPart(qkv, QUERIES, f.Queries()), RegroupPart(qkv, KEYS, f.Keys()), RegroupPart(qkv, VALUES, f.Keys());
      && q.Some? && q.value.shape == f.Queries() && k.Some? && v.Some? && k.value.shape == v.value.shape == f.Keys()
      && forall i: nat, a: nat, j: nat, y :: i < f.nHeadKv && a < g + 2 && j < f.headDim && Within([c], y) ==>
        PartRow(t, q.value, k.value, v.value, f, g, i, a, j, y)
  {
    hide At, Size, Ravel, Make, Resolve, Rows, RowOf, HeadAt, RegroupPart;
    var kv, hd, c := f.nHeadKv, f.headDim, f.headDim * f.nHead;
    ExactQuotient(g, kv);
    assert t.shape == [Rows(kv, g + 2, hd)] + [c] && [kv, g + 2, hd] + [c] == [kv, g + 2, hd, c];
    MergedSize(kv, g + 2, hd, [c]);
    var qkv := Reshape(t, f.Grouped()).value;
    PartPositions(g);
    PartRows(g, kv, hd);
    PartAt(qkv, Range(None, Some(-2), 1), kv, g + 2, hd, c, All(g));
    PartAt(qkv, Pick([-2]), kv, g + 2, hd, c, [g]);
    PartAt(qkv, Pick([-1]), kv, g + 2, hd, c, [g + 1]);
    forall i: nat, a: nat, j: nat, y | i < kv && a < g + 2 && j < hd && Within([c], y)
      ensures PartRow(t, RegroupPart(qkv, QUERIES, f.Queries()).value, RegroupPart(qkv, KEYS, f.Keys()).value,
        RegroupPart(qkv, VALUES, f.Keys()).value, f, g, i, a, j, y)
    {
      SplitAt(t, kv, g + 2, hd, [c], i, a, j, y);
    }
  }

  lemma PartPositions(g: nat)
    ensures Resolve(Range(None, Some(-2), 1), g + 2) == Some(Keep(All(g)))
    ensures Resolve(Pick([-2]), g + 2) == Some(Keep([g])) && Resolve(Pick([-1]), g + 2) == Some(Keep([g + 1]))
  {
    OneByOne(0, g);
    StepsFull(0, g, 1);
    assert Steps(0, g, 1) == All(g);
    assert Resolve(Pick([-2]), g + 2).value.ps == [g] && Resolve(Pick([-1]), g + 2).value.ps == [g + 1];
  }

  lemma PartRows(g: nat, kv: nat, hd: nat)
    ensures Rows(kv, g, hd) == g * kv * hd && Rows(kv, 1, hd) == kv * hd
  {
  }

  /** Head a of group i: one of the queries, the key or the value. */
  ghost predicate PartRow(t: Tensor, q: Tensor, k: Tensor, v: Tensor, f: Fused, g: nat, i: nat, a: nat, j: nat, y: seq<nat>) {
    && |t.shape| == |q.shape| == |k.shape| == |v.shape| == 2 && Within(t.shape[1..], y)
    && Within(q.shape[1..], y) && Within(k.shape[1..], y) && Within(v.shape[1..], y)
    && RowOf(g + 2, f.headDim, i, a, j) < t.shape[0]
    && var x := HeadAt(t, RowOf(g + 2, f.headDim, i, a, j), y);
    && (a < g ==> RowOf(g, f.headDim, i, a, j) < q.shape[0] && HeadAt(q, RowOf(g, f.headDim, i, a, j), y) == x)
    && (a == g ==> RowOf(1, f.headDim, i, 0, j) < k.shape[0] && HeadAt(k, RowOf(1, f.headDim, i, 0, j), y) == x)
    && (a == g + 1 ==> RowOf(1, f.headDim, i, 0, j) < v.shape[0] && HeadAt(v, RowOf(1, f.headDim, i, 0, j), y) == x)
  }

  predicate FusedShape(t: Tensor, f: Fused, g: nat) {
    && f.nHeadKv > 0 && f.nHead == g * f.nHeadKv
    && t.shape == [(f.nHead + 2 * f.nHeadKv) * f.headDim, f.headDim * f.nHead]
  }

  lemma FusedFirstAxis(t: Tensor, f: Fused, g: nat)
    requires FusedShape(t, f, g)
    ensures t.shape != [] && t.shape[0] == Combined(Combined(g, f.nHeadKv, 2 * f.nHeadKv), f.headDim, 0)
  {
    FusedCount(f, g);
  }

  /** Regrouping a fused projection of whole groups puts all query heads first, then the keys, then the
      values, each group in its place; rows keep their place in their head. */
  lemma RegroupedRows(t: Tensor, f: Fused, g: nat)
    requires FusedShape(t, f, g)
    ensures Inverse(t.shape[0], ToFused(g, f.nHeadKv, f.headDim), FromFused(g, f.nHeadKv, f.headDim))
    ensures Regroup(t, f) == Some(MoveRows(t, FromFused(g, f.nHeadKv, f.headDim)))
  {
    hide At, Size, Ravel, Make, HeadAt, MoveRows, FromFused, ToFused, Regroup, Rows, RowOf, Combined, FusedShape;
    var kv, hd := f.nHeadKv, f.headDim;
    FusedRowsInverse(g, kv, hd);
    FusedFirstAxis(t, f, g);
    RegroupedAt(t, f, g);
    var u, from := Regroup(t, f).value, FromFused(g, kv, hd);
    forall r: nat, y | r < t.shape[0] && Within(t.shape[1..], y) ensures HeadAt(u, r, y) == HeadAt(t, from(r), y) {
      RegroupedRow(t, f, g, r, y);
    }
    MovedBy(t, u, from);
  }

  lemma FusedCount(f: Fused, g: nat)
    requires f.nHeadKv > 0 && f.nHead == g * f.nHeadKv
    ensures var rows := (f.nHead + 2 * f.nHeadKv) * f.headDim;
      && rows == Combined(Combined(g, f.nHeadKv, 2 * f.nHeadKv), f.headDim, 0) == Rows(f.nHeadKv, g + 2, f.headDim)
      && rows == f.nHead * f.headDim + (f.nHeadKv * f.headDim + f.nHeadKv * f.headDim)
  {
    SameHeadCount(g, f.nHeadKv);
  }

  lemma RegroupedAt(t: Tensor, f: Fused, g: nat)
    requires FusedShape(t, f, g)
    ensures Regroup(t, f).Some? && Regroup(t, f).value.shape == t.shape
    ensures var qkv := Reshape(t, f.Grouped());
      && qkv.Some?
      && var q, k, v := RegroupPart(qkv.value, QUERIES, f.Queries()), RegroupPart(qkv.value, KEYS, f.Keys()),
        RegroupPart(qkv.value, VALUES, f.Keys());
      && q.Some? && k.Some? && v.Some? && Regroup(t, f) == Cat([q.value, k.value, v.value])
  {
    hide At, Size, Ravel, Make, HeadAt, RegroupPart, Cat, Rows, RowOf;
    FusedCount(f, g);
    FusedPartsAt(t, f, g);
    var qkv := Reshape(t, f.Grouped()).value;
    var q, k, v := RegroupPart(qkv, QUERIES, f.Queries()).value, RegroupPart(qkv, KEYS, f.Keys()).value,
      RegroupPart(qkv, VALUES, f.Keys()).value;
    ThreeJoined(q, k, v, f.nHead * f.headDim, f.nHeadKv * f.headDim, f.headDim * f.nHead);
  }

  lemma RegroupedRow(t: Tensor, f: Fused, g: nat, r: nat, y: seq<nat>)
    requires FusedShape(t, f, g) && r < t.shape[0] && Within(t.shape[1..], y)
    ensures Regroup(t, f).Some? && Regroup(t, f).value.shape == t.shape && FromFused(g, f.nHeadKv, f.headDim)(r) < t.shape[0]
    ensures HeadAt(Regroup(t, f).value, r, y) == HeadAt(t, FromFused(g, f.nHeadKv, f.headDim)(r), y)
  {
    hide At, Size, Ravel, Make, HeadAt, FromFused, ToFused, Regroup, Rows, RowOf, Combined, Cat, RegroupPart, Quotient, Remainder;
    var kv, hd := f.nHeadKv, f.headDim;
    FusedCount(f, g);
    RegroupedAt(t, f, g);
    FusedPartsAt(t, f, g);
    var qkv := Reshape(t, f.Grouped()).value;
    var q, k, v := RegroupPart(qkv, QUERIES, f.Queries()).value, RegroupPart(qkv, KEYS, f.Keys()).value,
      RegroupPart(qkv, VALUES, f.Keys()).value;
    ThreeJoined(q, k, v, f.nHead * hd, kv * hd, hd * f.nHead);
    QuotientBelow(r, Combined(g, kv, 2 * kv), hd);
    Parts(r, hd);
    var b, j := Quotient(r, hd), Remainder(r, hd);
    var i, a := FusedPartsBack(g, kv, b);
    FusedRowIs(g, kv, hd, i, a, j);
    FusedRowParts(f, g, i, a, j);
    assert PartRow(t, q, k, v, f, g, i, a, j, y);
  }

  /** The row numbers of a head in its part and in the whole. */
  lemma FusedRowParts(f: Fused, g: nat, i: nat, a: nat, j: nat)
    requires f.nHead == g * f.nHeadKv
    ensures var kv, hd := f.nHeadKv, f.headDim;
      && RowOf(g + 2, hd, i, a, j) == Combined(Combined(i, g + 2, a), hd, j)
      && Combined(Combined(i, g, a), hd, j) == RowOf(g, hd, i, a, j)
      && Combined(Combined(g, kv, i), hd, j) == f.nHead * hd + RowOf(1, hd, i, 0, j)
      && Combined(Combined(g, kv, kv + i), hd, j) == f.nHead * hd + kv * hd + RowOf(1, hd, i, 0, j)
  {
  }

  /** Nothing is lost, and every such tensor is the regrouping of exactly one. */
  lemma RegroupLossless(t: Tensor, f: Fused, g: nat)
    requires FusedShape(t, f, g)
    ensures Inverse(t.shape[0], ToFused(g, f.nHeadKv, f.headDim), FromFused(g, f.nHeadKv, f.headDim))
    ensures Regroup(t, f).Some? && Regroup(t, f).value.shape == t.shape
    ensures MoveRows(Regroup(t, f).value, ToFused(g, f.nHeadKv, f.headDim)) == t
    ensures Regroup(MoveRows(t, ToFused(g, f.nHeadKv, f.headDim)), f) == Some(t)
  {
    hide At, Ravel, Size, Make, Regroup, MoveRows, ToFused, FromFused;
    var to, from := ToFused(g, f.nHeadKv, f.headDim), FromFused(g, f.nHeadKv, f.headDim);
    RegroupedRows(t, f, g);
    MovedBack(t, to, from);
    RegroupedRows(MoveRows(t, to), f, g);
    MovedBack(t, from, to);
  }

  // ---- factors of any rank ----

  ghost predicate AllZero(t: Tensor) {
    forall idx :: Within(t.shape, idx) ==> At(t, idx) == 0.0
  }

  lemma ZeroEqual(t: Tensor, u: Tensor)
    requires AllZero(t) && AllZero(u) && t.shape == u.shape
    ensures t == u
  {
    hide At;
    SameElements(t, u);
  }

  lemma ZeroReshaped(t: Tensor, s: seq<nat>)
    requires AllZero(t) && Reshape(t, s).Some?
    ensures AllZero(Reshape(t, s).value)
  {
    hide Ravel, Size;
    var u := Reshape(t, s).value;
    forall idx | Within(s, idx) ensures At(u, idx) == 0.0 {
      var n := Ravel(s, idx);
      RavelUnravel(t.shape, n);
      assert At(t, Unravel(t.shape, n)) == 0.0;
    }
  }

  lemma ZeroTransposed(t: Tensor, axis0: int, axis1: int)
    requires AllZero(t) && Transpose(t, axis0, axis1).Some?
    ensures AllZero(Transpose(t, axis0, axis1).value)
  {
    hide At, Size, Ravel, Permuted, SourceIndex;
    var dims := SwapAxes(|t.shape|, axis0, axis1).value;
    forall idx | Within(PermutedShape(t.shape, dims), idx) ensures At(Permuted(t, dims), idx) == 0.0 {
      PermutedAt(t, dims, idx);
    }
  }

  lemma ZeroIndexed(t: Tensor, ixs: seq<Ix>)
    requires AllZero(t) && Index(t, ixs).Some?
    ensures AllZero(Index(t, ixs).value)
  {
    hide At, Size, KeptShape, Expand, ResolveAll;
  }

  lemma ZeroJoined(t: Tensor, u: Tensor)
    requires AllZero(t) && AllZero(u) && Joinable(t.shape, u.shape)
    ensures AllZero(Joined(t, u))
  {
    hide At, Size, Joined;
    var w := Joined(t, u);
    forall idx | Within(w.shape, idx) ensures At(w, idx) == 0.0 {
      assert idx == [idx[0]] + idx[1..] && Within(t.shape[1..], idx[1..]) && w.shape[1..] == t.shape[1..];
      JoinedAt(t, u, idx[0], idx[1..]);
      assert HeadAt(w, idx[0], idx[1..]) == At(w, idx);
    }
  }

  lemma ZeroProduct(l: Factors)
    requires Denotable(l) && Rank(l) == 0
    ensures AllZero(Dense(l))
  {
    hide At, Size, Term;
  }

  lemma ZeroPermuted(t: Tensor, nHead: nat, nHeadKv: Option<nat>)
    requires AllZero(t) && PermuteHeads(t, nHead, nHeadKv).Some?
    ensures AllZero(PermuteHeads(t, nHead, nHeadKv).value) && PermuteHeads(t, nHead, nHeadKv).value.shape == t.shape
  {
    hide AllZero, Transpose, SplitShape, Heads;
    var split := Reshape(t, SplitShape(t.shape, Heads(nHead, nHeadKv))).value;
    ZeroReshaped(t, SplitShape(t.shape, Heads(nHead, nHeadKv)));
    ZeroTransposed(split, 1, 2);
    ZeroReshaped(Transpose(split, 1, 2).value, t.shape);
  }

  /** Permuting the heads of the factors gives the permuted product, for every rank; only without a rank
      may torch refuse the product where the factors are accepted. */
  lemma PermuteHeadsExactly(l: Factors, nHead: nat, nHeadKv: Option<nat>)
    requires Denotable(l) && PermuteHeadsOfFactors(l, nHead, nHeadKv).Some?
    ensures var l' := PermuteHeadsOfFactors(l, nHead, nHeadKv).value;
      && Denotable(l') && Rank(l') == Rank(l)
      && (PermuteHeads(Dense(l), nHead, nHeadKv) == Some(Dense(l')) <==>
          Rank(l) > 0 || PermuteHeads(Dense(l), nHead, nHeadKv).Some?)
  {
    hide At, Ravel, Size, Make, Dense, ReshapeFactors, TransposeFactors, ResolveShape, SplitShape, PermuteHeads, AllZero;
    if Rank(l) > 0 {
      PermuteHeadsCommutes(l, nHead, nHeadKv);
    } else {
      var l' := PermutedFactors(l, nHead, nHeadKv);
      ZeroProduct(l);
      ZeroProduct(l');
      if PermuteHeads(Dense(l), nHead, nHeadKv).Some? {
        ZeroPermuted(Dense(l), nHead, nHeadKv);
        ZeroEqual(PermuteHeads(Dense(l), nHead, nHeadKv).value, Dense(l'));
      }
    }
  }

  lemma PermutedFactors(l: Factors, nHead: nat, nHeadKv: Option<nat>) returns (l': Factors)
    requires Denotable(l) && PermuteHeadsOfFactors(l, nHead, nHeadKv).Some?
    ensures l' == PermuteHeadsOfFactors(l, nHead, nHeadKv).value
    ensures Denotable(l') && Rank(l') == Rank(l) && Shape(l') == Shape(l)
  {
    hide At, Ravel, Size, Make, Dense, ReshapeFactors, TransposeFactors, ResolveShape, SplitShape;
    var s := SplitShape(Shape(l), Heads(nHead, nHeadKv));
    var split := ReshapeFactors(l, s).value;
    ReshapeExactly(l, s);
    var swapped := TransposeFactors(split, 1, 2).value;
    TransposeCommutes(split, 1, 2);
    ReshapeExactly(swapped, Shape(l));
    ReshapedAxes(swapped, Shape(l));
    l' := ReshapeFactors(swapped, Shape(l)).value;
  }

  /** torch permutes the heads of a tensor exactly when splitting its rows keeps the number of elements. */
  lemma PermuteHeadsAccepted(t: Tensor, nHead: nat, nHeadKv: Option<nat>)
    requires t.shape != [] && Heads(nHead, nHeadKv) > 0
    ensures PermuteHeads(t, nHead, nHeadKv).Some? <==>
      Size(SplitShape(t.shape, Heads(nHead, nHeadKv))) == Size(t.shape)
  {
    hide At, Ravel, Size, Make, Transpose, Rows, Heads;
    var heads := Heads(nHead, nHeadKv);
    var half, tail := t.shape[0] / heads / 2, t.shape[1..];
    if Reshape(t, SplitShape(t.shape, heads)).Some? {
      var split := Reshape(t, SplitShape(t.shape, heads)).value;
      SwapShape(split, heads, half, tail);
      MergedSize(heads, 2, half, tail);
      MergedSize(heads, half, 2, tail);
      SwapFactors(heads, half);
    }
  }

  lemma ZeroRegrouped(t: Tensor, f: Fused)
    requires AllZero(t) && Regroup(t, f).Some?
    ensures AllZero(Regroup(t, f).value) && Regroup(t, f).value.shape == t.shape
  {
    hide AllZero, Index, Joined, Size;
    var qkv := Reshape(t, f.Grouped()).value;
    ZeroReshaped(t, f.Grouped());
    ZeroPart(qkv, QUERIES, f.Queries());
    ZeroPart(qkv, KEYS, f.Keys());
    ZeroPart(qkv, VALUES, f.Keys());
    var q, k, v := RegroupPart(qkv, QUERIES, f.Queries()).value, RegroupPart(qkv, KEYS, f.Keys()).value,
      RegroupPart(qkv, VALUES, f.Keys()).value;
    assert [q, k, v][1..] == [k, v] && [k, v][1..] == [v] && Cat([v]) == Some(v);
    assert Cat([k, v]) == Some(Joined(k, v));
    ZeroJoined(k, v);
    ZeroJoined(q, Joined(k, v));
    ZeroReshaped(Joined(q, Joined(k, v)), t.shape);
  }

  lemma ZeroPart(qkv: Tensor, ixs: seq<Ix>, s: seq<nat>)
    requires AllZero(qkv) && RegroupPart(qkv, ixs, s).Some?
    ensures AllZero(RegroupPart(qkv, ixs, s).value)
  {
    hide AllZero, Index, Size;
    ZeroIndexed(qkv, ixs);
    ZeroReshaped(Index(qkv, ixs).value, s);
  }

  lemma PartFactors(qkv: Factors, ixs: seq<Ix>, s: seq<nat>) returns (part: Factors)
    requires Denotable(qkv) && |qkv.a.shape| == 4 && qkv.a.shape[0] == qkv.a.shape[1] == 1
    requires (ixs == QUERIES || ixs == KEYS || ixs == VALUES) && |s| == 2 && RegroupPartOfFactors(qkv, ixs, s).Some?
    ensures part == RegroupPartOfFactors(qkv, ixs, s).value
    ensures Denotable(part) && Rank(part) == Rank(qkv) && |part.a.shape| == 2
  {
    hide At, Ravel, Size, Make, Dense, ReshapeFactors, IndexTuple, ResolveAll, ResolveShape, Resolve, Pad, Index;
    PadTwo(ixs);
    IndexTupleCommutes(qkv, ixs);
    var u := IndexTuple(qkv, ixs).value;
    assert Denotable(u) && Rank(u) == Rank(qkv) by {
      assert forall i :: 0 <= i < 2 ==> Harmless(Pad(ixs, 4)[i], qkv.a.shape[i], qkv.b.shape[i]);
    }
    ReshapeExactly(u, s);
    ReshapedAxes(u, s);
    part := ReshapeFactors(u, s).value;
  }

  lemma RegroupedFactors(l: Factors, f: Fused) returns (l': Factors)
    requires Denotable(l) && RegroupFactors(l, f).Some?
    ensures l' == RegroupFactors(l, f).value
    ensures Denotable(l') && Rank(l') == Rank(l) && Shape(l') == Shape(l)
  {
    hide At, Ravel, Size, Make, Dense, ReshapeFactors, RegroupPartOfFactors, CatFactors, ResolveShape;
    var qkv := ReshapeFactors(l, f.Grouped()).value;
    ReshapeExactly(l, f.Grouped());
    ReshapedAxes(l, f.Grouped());
    var q := PartFactors(qkv, QUERIES, f.Queries());
    var k := PartFactors(qkv, KEYS, f.Keys());
    var v := PartFactors(qkv, VALUES, f.Keys());
    var joined := CatFactors([q, k, v]).value;
    JoinedFactors([q, k, v]);
    ReshapeExactly(joined, Shape(l));
    ReshapedAxes(joined, Shape(l));
    l' := ReshapeFactors(joined, Shape(l)).value;
  }

  lemma JoinedFactors(ls: seq<Factors>)
    requires AllDenotable(ls) && CatFactors(ls).Some? && ls != [] && |ls[0].a.shape| == 2
    ensures Denotable(CatFactors(ls).value) && Rank(CatFactors(ls).value) == Rank(ls[0])
  {
    hide At, Ravel, Size, Make, Cat;
  }

  /** Regrouping the factors gives the regrouped product, for every rank; only without a rank may torch
      refuse the product where the factors are accepted. */
  lemma RegroupExactly(l: Factors, f: Fused)
    requires Denotable(l) && RegroupFactors(l, f).Some?
    ensures var l' := RegroupFactors(l, f).value;
      && Denotable(l') && Rank(l') == Rank(l)
      && (Regroup(Dense(l), f) == Some(Dense(l')) <==> Rank(l) > 0 || Regroup(Dense(l), f).Some?)
  {
    hide At, Ravel, Size, Make, Dense, RegroupFactors, Regroup, AllZero;
    if Rank(l) > 0 {
      RegroupCommutes(l, f);
    } else {
      var l' := RegroupedFactors(l, f);
      ZeroProduct(l);
      ZeroProduct(l');
      if Regroup(Dense(l), f).Some? {
        ZeroRegrouped(Dense(l), f);
        ZeroEqual(Regroup(Dense(l), f).value, Dense(l'));
      }
    }
  }
}
