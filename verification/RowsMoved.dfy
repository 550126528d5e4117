/** Where the rows of attention weights go, written out for plain tensors. */
module RowsMoved {
  import opened Wrappers
  import opened Tensors
  import opened LoraHeads
  import opened HeadRows

  /** Row j of half x of head h goes to row 2j + x of that head. The heads are those of keys and values where their
      number is given. */
  lemma HeadsInterleaved(t: Tensor, nHead: nat, nHeadKv: Option<nat>, heads: nat, half: nat,
                         h: nat, x: nat, j: nat, place: nat, target: nat, y: seq<nat>)
    requires heads == if nHeadKv == None then nHead else nHeadKv.value
    requires t.shape != [] && t.shape[0] == heads * 2 * half && h < heads && x < 2 && j < half && Within(t.shape[1..], y)
    requires place == h * (2 * half) + x * half + j && target == h * (2 * half) + 2 * j + x
    ensures PermuteHeads(t, nHead, nHeadKv).Some? && PermuteHeads(t, nHead, nHeadKv).value.shape == t.shape
    ensures place < t.shape[0] && target < t.shape[0]
    ensures HeadAt(PermuteHeads(t, nHead, nHeadKv).value, target, y) == HeadAt(t, place, y)
  {
    hide At, Make, MoveRows, PermuteHeads, HeadRow, HeadRowBack, HeadAt, ToHead, FromHead, Inverse;
    assert Heads(nHead, nHeadKv) == heads;
    PermutedRows(t, nHead, nHeadKv, half);
    HeadPlaces(heads, half, h, x, j);
    RowMoved(t, FromHead(half), place, target, y);
  }

  lemma HeadPlaces(heads: nat, half: nat, h: nat, x: nat, j: nat)
    requires h < heads && x < 2 && j < half
    ensures var place, target := h * (2 * half) + x * half + j, h * (2 * half) + 2 * j + x;
      && FromHead(half)(target) == place && place < heads * 2 * half && target < heads * 2 * half
    ensures forall r: nat :: r < heads * 2 * half ==> FromHead(half)(r) < heads * 2 * half
  {
    hide HeadRow, HeadRowBack;
    HeadRowIs(half, h, x, j);
    assert heads * 2 * half == heads * (2 * half);
    RowBound(heads, half, h, 2 * j + x);
    RowBound(heads, half, h, x * half + j);
    HeadRowsInverse(heads, half);
  }

  /** A row of a tensor whose rows were moved. */
  lemma RowMoved(t: Tensor, from: nat -> nat, place: nat, target: nat, y: seq<nat>)
    requires t.shape != [] && (forall r: nat :: r < t.shape[0] ==> from(r) < t.shape[0])
    requires target < t.shape[0] && from(target) == place && Within(t.shape[1..], y)
    ensures place < t.shape[0] && HeadAt(MoveRows(t, from), target, y) == HeadAt(t, place, y)
  {
    MovedAt(t, from, target, y);
  }

  /** From groups of g query heads, a key and a value: first all query heads, then all keys, then all values; rows
      keep their places in their heads. */
  lemma GroupsSeparated(t: Tensor, f: Fused, g: nat, k: nat, a: nat, j: nat, place: nat, target: nat, y: seq<nat>)
    requires f.nHeadKv > 0 && f.nHead == g * f.nHeadKv
    requires t.shape == [(f.nHead + 2 * f.nHeadKv) * f.headDim, f.headDim * f.nHead]
    requires k < f.nHeadKv && a < g + 2 && j < f.headDim && Within(t.shape[1..], y)
    requires place == (k * (g + 2) + a) * f.headDim + j
    requires target == (if a < g then k * g + a else if a == g then f.nHead + k else f.nHead + f.nHeadKv + k) * f.headDim + j
    ensures Regroup(t, f).Some? && Regroup(t, f).value.shape == t.shape
    ensures place < t.shape[0] && target < t.shape[0] && HeadAt(Regroup(t, f).value, target, y) == HeadAt(t, place, y)
  {
    hide At, Make, MoveRows, Regroup, HeadAt, FromFused, ToFused, Inverse, Combined;
    RegroupedRows(t, f, g);
    GroupPlaces(t, f, g, k, a, j, place, target);
    RowMoved(t, FromFused(g, f.nHeadKv, f.headDim), place, target, y);
  }

  lemma GroupPlaces(t: Tensor, f: Fused, g: nat, k: nat, a: nat, j: nat, place: nat, target: nat)
    requires FusedShape(t, f, g) && k < f.nHeadKv && a < g + 2 && j < f.headDim
    requires place == (k * (g + 2) + a) * f.headDim + j
    requires target == (if a < g then k * g + a else if a == g then f.nHead + k else f.nHead + f.nHeadKv + k) * f.headDim + j
    ensures FromFused(g, f.nHeadKv, f.headDim)(target) == place && target < t.shape[0]
    ensures forall r: nat :: r < t.shape[0] ==> FromFused(g, f.nHeadKv, f.headDim)(r) < t.shape[0]
  {
    hide FromFused, ToFused;
    FusedRowIs(g, f.nHeadKv, f.headDim, k, a, j);
    FusedFirstAxis(t, f, g);
    FusedRowsInverse(g, f.nHeadKv, f.headDim);
  }
}
