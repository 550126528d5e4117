/** The head rearrangements that the converter applies to attention weights, run on plain tensors
    and on LoraTorchTensors. */
module LoraHeads {
  import opened Wrappers
  import opened Tensors
  import opened Lora
  import opened LoraIndexing
  import opened LoraJoining

  // ---- LlamaModel.permute ----

  function Heads(nHead: nat, nHeadKv: Option<nat>): nat {
    if nHeadKv.Some? && nHead != nHeadKv.value then nHeadKv.value else nHead
  }

  function SplitShape(s: seq<nat>, heads: nat): seq<nat>
    requires s != [] && heads != 0
  {
    [heads, 2, s[0] / heads / 2] + s[1..]
  }

  ghost function PermuteHeads(t: Tensor, nHead: nat, nHeadKv: Option<nat>): Option<Tensor> {
    var heads := Heads(nHead, nHeadKv);
    if t.shape == [] || heads == 0 then None
    else
      var split :- Reshape(t, SplitShape(t.shape, heads));
      var swapped :- Transpose(split, 1, 2);
      Reshape(swapped, t.shape)
  }

  /** The same method with a LoraTorchTensor for weights. */
  ghost function PermuteHeadsOfFactors(l: Factors, nHead: nat, nHeadKv: Option<nat>): (r: Option<Factors>)
    requires Constructible(l)
    ensures r.Some? ==> Constructible(r.value)
  {
    var heads := Heads(nHead, nHeadKv);
    if heads == 0 then None
    else
      var split :- ReshapeFactors(l, SplitShape(Shape(l), heads));
      var swapped :- TransposeFactors(split, 1, 2);
      ReshapeFactors(swapped, Shape(l))
  }

  lemma ResolvePlain(size: nat, s: seq<nat>)
    ensures ResolveShape(size, s) == Some(s)
  {
  }

  /** Permuting the heads of the factors permutes the heads of the product. */
  lemma PermuteHeadsCommutes(l: Factors, nHead: nat, nHeadKv: Option<nat>)
    requires Denotable(l) && Rank(l) > 0 && PermuteHeadsOfFactors(l, nHead, nHeadKv).Some?
    ensures var l' := PermuteHeadsOfFactors(l, nHead, nHeadKv).value;
      Denotable(l') && Rank(l') == Rank(l) && PermuteHeads(Dense(l), nHead, nHeadKv) == Some(Dense(l'))
  {
    hide At, Ravel, Size, Make, Dense, ReshapeFactors, TransposeFactors, Transpose, ResolveShape, SplitShape;
    var s := SplitShape(Shape(l), Heads(nHead, nHeadKv));
    var split := ReshapeFactors(l, s).value;
    ReshapeCommutes(l, s);
    ResolvePlain(Size(Shape(l)), s);
    var swapped := TransposeFactors(split, 1, 2).value;
    TransposeCommutes(split, 1, 2);
    ReshapeCommutes(swapped, Shape(l));
    ResolvePlain(Size(Shape(swapped)), Shape(l));
  }

  lemma HeadShape(s: seq<nat>, heads: nat, half: nat, tail: seq<nat>)
    requires s == [heads * 2 * half] + tail && heads > 0
    ensures SplitShape(s, heads) == [heads, 2, half] + tail
  {
    HalfOfHead(heads, half);
  }

  lemma HalfOfHead(heads: nat, half: nat)
    requires heads > 0
    ensures heads * 2 * half / heads / 2 == half
  {
    assert heads * 2 * half == (2 * half) * heads + 0;
    ExactQuotient(2 * half, heads);
  }

  lemma ExactQuotient(q: nat, d: nat)
    requires d > 0
    ensures q * d / d == q
  {
    DivMod(q * d, d);
    HornerUnique(q * d / d, q * d % d, q, 0, d);
  }

  // ---- the Falcon query_key_value regroup ----

  /** Sizes of a fused Falcon projection. */
  datatype Fused = Fused(nHead: nat, nHeadKv: nat, headDim: nat) {
    function Grouped(): seq<nat>
      requires nHeadKv != 0
    {
      [nHeadKv, nHead / nHeadKv + 2, headDim, headDim * nHead]
    }
    function Queries(): seq<nat> { [nHead * headDim, headDim * nHead] }
    function Keys(): seq<nat> { [nHeadKv * headDim, headDim * nHead] }
  }

  const QUERIES := [EVERYTHING, Range(None, Some(-2), 1)]
  const KEYS := [EVERYTHING, Pick([-2])]
  const VALUES := [EVERYTHING, Pick([-1])]

  ghost function RegroupPart(qkv: Tensor, ixs: seq<Ix>, s: seq<nat>): Option<Tensor> {
    var part :- Index(qkv, ixs);
    Reshape(part, s)
  }

  ghost function Regroup(t: Tensor, f: Fused): Option<Tensor> {
    if f.nHeadKv == 0 then None
    else
      var qkv :- Reshape(t, f.Grouped());
      var q :- RegroupPart(qkv, QUERIES, f.Queries());
      var k :- RegroupPart(qkv, KEYS, f.Keys());
      var v :- RegroupPart(qkv, VALUES, f.Keys());
      var joined :- Cat([q, k, v]);
      Reshape(joined, t.shape)
  }

  ghost function RegroupPartOfFactors(qkv: Factors, ixs: seq<Ix>, s: seq<nat>): (r: Option<Factors>)
    requires Constructible(qkv)
    ensures r.Some? ==> Constructible(r.value)
  {
    var part :- IndexTuple(qkv, ixs);
    ReshapeFactors(part, s)
  }

  ghost function CatThree(q: Factors, k: Factors, v: Factors): (r: Option<Factors>)
    requires Constructible(q) && Constructible(k) && Constructible(v)
    ensures r.Some? ==> Constructible(r.value)
  {
    CatFactors([q, k, v])
  }

  /** The same statements with a LoraTorchTensor for data_torch. */
  ghost function RegroupFactors(l: Factors, f: Fused): (r: Option<Factors>)
    requires Constructible(l)
    ensures r.Some? ==> Constructible(r.value)
  {
    if f.nHeadKv == 0 then None
    else
      var qkv :- ReshapeFactors(l, f.Grouped());
      var q :- RegroupPartOfFactors(qkv, QUERIES, f.Queries());
      var k :- RegroupPartOfFactors(qkv, KEYS, f.Keys());
      var v :- RegroupPartOfFactors(qkv, VALUES, f.Keys());
      var joined :- CatThree(q, k, v);
      ReshapeFactors(joined, Shape(l))
  }

  lemma {:induction false} RegroupPartCommutes(l: Factors, ixs: seq<Ix>, s: seq<nat>)
    requires Denotable(l) && Rank(l) > 0 && |l.a.shape| == 4 && l.a.shape[0] == l.a.shape[1] == 1
    requires ixs == QUERIES || ixs == KEYS || ixs == VALUES
    requires |s| == 2 && RegroupPartOfFactors(l, ixs, s).Some?
    ensures var l' := RegroupPartOfFactors(l, ixs, s).value;
      && Denotable(l') && Rank(l') == Rank(l) && |l'.a.shape| == 2
      && RegroupPart(Dense(l), ixs, s) == Some(Dense(l'))
  {
    hide At, Ravel, Size, Make, Dense, ReshapeFactors, IndexTuple, ResolveAll, ResolveShape, Resolve, Pad, Index;
    assert Pad(ixs, 4) == [ixs[0], ixs[1], EVERYTHING, EVERYTHING] by {
      PadTwo(ixs);
    }
    IndexTupleCommutes(l, ixs);
    var part := IndexTuple(l, ixs).value;
    assert Denotable(part) && Index(Dense(l), Pad(ixs, 4)) == Some(Dense(part)) by {
      assert forall i :: 0 <= i < 2 ==> Harmless(Pad(ixs, 4)[i], l.a.shape[i], l.b.shape[i]);
    }
    ShortTuple(Dense(l), ixs);
    ReshapeCommutes(part, s);
    ResolvePlain(Size(Shape(part)), s);
    ReshapedAxes(part, s);
  }

  lemma PadTwo(ixs: seq<Ix>)
    requires |ixs| == 2
    ensures Pad(ixs, 4) == [ixs[0], ixs[1], EVERYTHING, EVERYTHING]
  {
  }

  lemma ReshapedAxes(l: Factors, s: seq<nat>)
    requires Constructible(l) && ReshapeFactors(l, s).Some?
    ensures |ReshapeFactors(l, s).value.a.shape| == |s| >= 2
    ensures Shape(ReshapeFactors(l, s).value) == s
  {
    hide At, Ravel, Size;
    ResolvePlain(Size(Shape(l)), s);
  }

  /** torch fills a short tuple with full slices, as Pad does. */
  lemma ShortTuple(t: Tensor, ixs: seq<Ix>)
    requires |ixs| <= |t.shape|
    ensures Index(t, ixs) == Index(t, Pad(ixs, |t.shape|))
  {
    hide At, Ravel, Size, Make, Resolve, Select;
    var full, n := Pad(ixs, |t.shape|), |t.shape|;
    forall i | 0 <= i < n ensures if i < |ixs| then full[i] == ixs[i] else Resolve(full[i], t.shape[i]) == Some(Keep(All(t.shape[i]))) {
      if i >= |ixs| {
        FullSlice(t.shape[i]);
      }
    }
    if ResolveAll(ixs, t.shape).Some? {
      assert ResolveAll(full, t.shape).Some?;
      assert ResolveAll(full, t.shape).value == ResolveAll(ixs, t.shape).value;
    } else {
      var i :| 0 <= i < |ixs| && Resolve(ixs[i], t.shape[i]).None?;
      assert Resolve(full[i], t.shape[i]).None?;
    }
  }

  /** Regrouping the fused projection in the factors regroups it in the product. */
  lemma {:induction false} RegroupCommutes(l: Factors, f: Fused)
    requires Denotable(l) && Rank(l) > 0 && RegroupFactors(l, f).Some?
    ensures var l' := RegroupFactors(l, f).value;
      Denotable(l') && Rank(l') == Rank(l) && Regroup(Dense(l), f) == Some(Dense(l'))
  {
    hide At, Ravel, Size, Make, Dense, ReshapeFactors, RegroupPartOfFactors, CatFactors, ResolveShape, RegroupPart, Cat;
    var qkv := ReshapeFactors(l, f.Grouped()).value;
    ReshapeCommutes(l, f.Grouped());
    ResolvePlain(Size(Shape(l)), f.Grouped());
    ReshapedAxes(l, f.Grouped());
    RegroupPartCommutes(qkv, QUERIES, f.Queries());
    RegroupPartCommutes(qkv, KEYS, f.Keys());
    RegroupPartCommutes(qkv, VALUES, f.Keys());
    var q := RegroupPartOfFactors(qkv, QUERIES, f.Queries()).value;
    var k := RegroupPartOfFactors(qkv, KEYS, f.Keys()).value;
    var v := RegroupPartOfFactors(qkv, VALUES, f.Keys()).value;
    var joined := CatFactors([q, k, v]).value;
    CatMatricesCommutes([q, k, v]);
    assert Products([q, k, v]) == [Dense(q), Dense(k), Dense(v)];
    ReshapeCommutes(joined, Shape(l));
    ResolvePlain(Size(Shape(joined)), Shape(l));
  }
}
