/** torch.stack and torch.cat of LoraTorchTensors, along the first axis. */
module LoraJoining {
  import opened Wrappers
  import opened Tensors
  import opened Lora

  function FactorsA(ls: seq<Factors>): (r: seq<Tensor>)
    ensures |r| == |ls| && forall i :: 0 <= i < |ls| ==> r[i] == ls[i].a
  {
    seq(|ls|, i requires 0 <= i < |ls| => ls[i].a)
  }

  function FactorsB(ls: seq<Factors>): (r: seq<Tensor>)
    ensures |r| == |ls| && forall i :: 0 <= i < |ls| ==> r[i] == ls[i].b
  {
    seq(|ls|, i requires 0 <= i < |ls| => ls[i].b)
  }

  ghost predicate AllDenotable(ls: seq<Factors>) {
    forall i :: 0 <= i < |ls| ==> Denotable(ls[i])
  }

  ghost function Products(ls: seq<Factors>): (r: seq<Tensor>)
    requires AllDenotable(ls)
    ensures |r| == |ls| && forall i :: 0 <= i < |ls| ==> r[i] == Dense(ls[i])
  {
    seq(|ls|, i requires 0 <= i < |ls| => Dense(ls[i]))
  }

  // ---- stack ----

  ghost function StackFactors(ls: seq<Factors>): (r: Option<Factors>)
    ensures r.Some? ==> Constructible(r.value)
  {
    var a, b := Stack(FactorsA(ls)), Stack(FactorsB(ls));
    if a.None? || b.None? then None else Construct(a.value, b.value)
  }

  /** Stacking the factors stacks the products. */
  lemma StackCommutes(ls: seq<Factors>)
    requires AllDenotable(ls) && StackFactors(ls).Some?
    ensures var l' := StackFactors(ls).value;
      Denotable(l') && Rank(l') == Rank(ls[0]) && Stack(Products(ls)) == Some(Dense(l'))
  {
    hide At, Ravel, Size, Make, Dense;
    var l' := StackFactors(ls).value;
    StackedShapes(ls);
    var t := Stack(Products(ls)).value;
    forall idx | Within(t.shape, idx) ensures At(t, idx) == At(Dense(l'), idx) {
      StackedEntry(ls, l', idx);
    }
    SameElements(t, Dense(l'));
  }

  lemma EqualShapes(ls: seq<Factors>)
    requires ls != [] && SameShapes(FactorsA(ls)) && SameShapes(FactorsB(ls))
    ensures forall i :: 0 <= i < |ls| ==> ls[i].a.shape == ls[0].a.shape && ls[i].b.shape == ls[0].b.shape
  {
    hide Size;
    forall i | 0 <= i < |ls| ensures ls[i].a.shape == ls[0].a.shape && ls[i].b.shape == ls[0].b.shape {
      assert FactorsA(ls)[i].shape == FactorsA(ls)[0].shape;
      assert FactorsB(ls)[i].shape == FactorsB(ls)[0].shape;
    }
  }

  lemma StackedShapes(ls: seq<Factors>)
    requires AllDenotable(ls) && StackFactors(ls).Some?
    ensures var l' := StackFactors(ls).value;
      && Denotable(l') && Rank(l') == Rank(ls[0]) && SameShapes(Products(ls))
      && Shape(l') == [|ls|] + Shape(ls[0])
    ensures forall i :: 0 <= i < |ls| ==> ls[i].a.shape == ls[0].a.shape && ls[i].b.shape == ls[0].b.shape
  {
    hide At, Ravel, Size, Make, Dense, Stacked;
    EqualShapes(ls);
    var l, l', n := ls[0], StackFactors(ls).value, |ls[0].a.shape|;
    assert l'.a.shape == [|ls|] + l.a.shape && l'.b.shape == [|ls|] + l.b.shape;
    forall i | 0 < i < n - 1 ensures l'.a.shape[i] == 1 || l'.a.shape[i] == l'.b.shape[i] {
      assert l.a.shape[i - 1] == 1 || l.a.shape[i - 1] == l.b.shape[i - 1];
    }
    forall i | 0 <= i < |ls| ensures Products(ls)[i].shape == Shape(l) {
    }
  }

  lemma StackedEntry(ls: seq<Factors>, l': Factors, idx: seq<nat>)
    requires AllDenotable(ls) && StackFactors(ls) == Some(l') && Denotable(l') && Within(Shape(l'), idx)
    requires SameShapes(Products(ls)) && Shape(l') == [|ls|] + Shape(ls[0])
    ensures At(Stacked(Products(ls)), idx) == At(Dense(l'), idx)
  {
    hide At, Ravel, Size, Term, Stacked, Make, Dense;
    StackedShapes(ls);
    var l, src := ls[idx[0]], idx[1..];
    assert Products(ls)[idx[0]] == Dense(l);
    assert idx == [idx[0]] + src;
    StackedAt(Products(ls), idx[0], src);
    forall k: nat | k < Rank(l) ensures Term(l, src, k) == Term(l', idx, k) {
      StackedTerm(ls, l', idx[0], src, k);
    }
    SameDot(l, src, l', idx, Rank(l));
  }

  /** The indices of a term with one more axis in front. */
  lemma PrefixedIndices(s: seq<nat>, s': seq<nat>, i: nat, src: seq<nat>, k: nat)
    requires |src| == |s| >= 2 && |s'| == |s| + 1 && s'[1..] == s && (s'[0] == 1 ==> i == 0)
    ensures IndexB([i] + src, k) == [i] + IndexB(src, k)
    ensures IndexA(s', [i] + src, k) == [i] + IndexA(s, src, k)
  {
  }

  lemma StackedTerm(ls: seq<Factors>, l': Factors, i: nat, src: seq<nat>, k: nat)
    requires AllDenotable(ls) && StackFactors(ls) == Some(l') && Denotable(l')
    requires i < |ls| && Within(Shape(ls[i]), src) && Within(Shape(l'), [i] + src) && k < Rank(ls[i]) == Rank(l')
    requires l'.a.shape == [|ls|] + ls[i].a.shape && l'.b.shape == [|ls|] + ls[i].b.shape
    ensures Term(ls[i], src, k) == Term(l', [i] + src, k)
  {
    hide At, Ravel, Size, Stacked, Make, Dense, IndexA, IndexB, Times;
    var l, idx := ls[i], [i] + src;
    TermIndices(l, src, k);
    PrefixedIndices(l.a.shape, l'.a.shape, i, src, k);
    StackedAt(FactorsB(ls), i, IndexB(src, k));
    StackedAt(FactorsA(ls), i, IndexA(l.a.shape, src, k));
  }

  // ---- cat ----

  ghost function CatFactors(ls: seq<Factors>): (r: Option<Factors>)
    requires forall i :: 0 <= i < |ls| ==> Constructible(ls[i])
    ensures r.Some? ==> Constructible(r.value) && ls != []
  {
    if ls == [] then None
    else if |Shape(ls[0])| > 2 then
      var a, b := Cat(FactorsA(ls)), Cat(FactorsB(ls));
      if a.None? || b.None? then None else Construct(a.value, b.value)
    else if forall i :: 0 < i < |ls| ==> ls[i].a == ls[0].a then
      var b := Cat(FactorsB(ls));
      if b.None? then None else Construct(ls[0].a, b.value)
    else None
  }

  /** No factor A is broadcast along the axis that is concatenated. */
  predicate OwnFirstAxis(ls: seq<Factors>) {
    forall i :: 0 <= i < |ls| ==> ls[i].a.shape != [] && ls[i].b.shape != [] && ls[i].a.shape[0] == ls[i].b.shape[0]
  }

  lemma CatStep(ts: seq<Tensor>)
    requires |ts| > 1
    ensures Cat(ts) ==
      if Cat(ts[1..]).Some? && Joinable(ts[0].shape, Cat(ts[1..]).value.shape) then Some(Joined(ts[0], Cat(ts[1..]).value))
      else None
  {
    hide Joined;
  }

  lemma OneOfThem(ls: seq<Factors>)
    requires AllDenotable(ls) && |ls| == 1 && CatFactors(ls).Some?
    ensures CatFactors(ls).value == ls[0] && Cat(Products(ls)) == Some(Dense(ls[0]))
  {
    hide At, Size, Make, Dense, Joined;
  }

  lemma ProductStep(ls: seq<Factors>)
    requires AllDenotable(ls) && |ls| > 1
    ensures AllDenotable(ls[1..])
    ensures var rest := Cat(Products(ls[1..]));
      Cat(Products(ls)) ==
        if rest.Some? && Joinable(Shape(ls[0]), rest.value.shape) then Some(Joined(Dense(ls[0]), rest.value)) else None
  {
    hide At, Size, Make, Dense, Joined, Cat;
    assert Products(ls)[1..] == Products(ls[1..]);
    CatStep(Products(ls));
  }

  lemma MatrixStep(ls: seq<Factors>)
    requires AllDenotable(ls) && |ls| > 1 && CatFactors(ls).Some? && |ls[0].a.shape| == 2
    ensures CatFactors(ls[1..]).Some? && ls[1].a == ls[0].a
    ensures Joinable(ls[0].b.shape, CatFactors(ls[1..]).value.b.shape)
    ensures CatFactors(ls).value == Factors(ls[0].a, Joined(ls[0].b, CatFactors(ls[1..]).value.b))
  {
    hide At, Size, Make, Dense, Joined, Cat;
    var rest := ls[1..];
    assert FactorsB(ls)[1..] == FactorsB(rest);
    CatStep(FactorsB(ls));
    assert rest[0].a == ls[1].a == ls[0].a;
    forall i | 0 < i < |rest| ensures rest[i].a == rest[0].a {
      assert ls[i + 1].a == ls[0].a;
    }
    CatFirstSize(FactorsB(rest));
  }

  /** Concatenating matrices that share A concatenates their products. */
  lemma {:induction false} CatMatricesCommutes(ls: seq<Factors>)
    requires AllDenotable(ls) && CatFactors(ls).Some? && |ls[0].a.shape| == 2
    ensures var l' := CatFactors(ls).value;
      Denotable(l') && Rank(l') == Rank(ls[0]) && l'.a == ls[0].a && Cat(Products(ls)) == Some(Dense(l'))
  {
    hide At, Ravel, Size, Term, Joined, Make, Dense, Cat, CatFactors, FactorsB, Products;
    if |ls| == 1 {
      OneOfThem(ls);
    } else {
      MatrixStep(ls);
      CatMatricesCommutes(ls[1..]);
      JoinMatrices(ls[0], CatFactors(ls[1..]).value);
      ProductStep(ls);
    }
  }

  lemma JoinMatrices(l: Factors, u: Factors)
    requires Denotable(l) && Denotable(u) && l.a == u.a && |l.a.shape| == 2
    ensures Joinable(l.b.shape, u.b.shape) && Joinable(Shape(l), Shape(u))
    ensures var l' := Factors(l.a, Joined(l.b, u.b)); Denotable(l') && Joined(Dense(l), Dense(u)) == Dense(l')
  {
    hide At, Ravel, Size, Term, Joined, Make, Dense;
    var l' := Factors(l.a, Joined(l.b, u.b));
    var t := Joined(Dense(l), Dense(u));
    assert t.shape == Shape(l');
    forall idx | Within(t.shape, idx) ensures At(t, idx) == At(Dense(l'), idx) {
      JoinedMatrixEntry(l, u, l', idx[0], idx[1]);
      assert idx == [idx[0], idx[1]];
    }
    SameElements(t, Dense(l'));
  }

  lemma JoinedMatrixEntry(l: Factors, u: Factors, l': Factors, i: nat, j: nat)
    requires Denotable(l) && Denotable(u) && l.a == u.a && |l.a.shape| == 2
    requires Joinable(l.b.shape, u.b.shape) && Joinable(Shape(l), Shape(u))
    requires l' == Factors(l.a, Joined(l.b, u.b)) && Denotable(l')
    requires i < l.b.shape[0] + u.b.shape[0] && j < l.a.shape[1]
    ensures Within(Shape(l'), [i, j]) && Within(Joined(Dense(l), Dense(u)).shape, [i, j])
    ensures At(Joined(Dense(l), Dense(u)), [i, j]) == At(Dense(l'), [i, j])
  {
    hide At, Ravel, Size, Term, Joined, Make, Dense;
    var (part, i0) := if i < l.b.shape[0] then (l, i) else (u, i - l.b.shape[0]);
    JoinedAt(Dense(l), Dense(u), i, [j]);
    assert [i] + [j] == [i, j] && [i0] + [j] == [i0, j];
    assert At(Joined(Dense(l), Dense(u)), [i, j]) == At(Dense(part), [i0, j]);
    forall k: nat | k < Rank(l) ensures Term(part, [i0, j], k) == Term(l', [i, j], k) {
      JoinedMatrixTerm(l, u, l', part, i, i0, j, k);
    }
    SameDot(part, [i0, j], l', [i, j], Rank(l));
  }

  lemma JoinedMatrixTerm(l: Factors, u: Factors, l': Factors, part: Factors, i: nat, i0: nat, j: nat, k: nat)
    requires Denotable(l) && Denotable(u) && l.a == u.a && |l.a.shape| == 2 && Joinable(l.b.shape, u.b.shape)
    requires l' == Factors(l.a, Joined(l.b, u.b)) && Denotable(l') && k < Rank(l)
    requires i < l.b.shape[0] + u.b.shape[0] && j < l.a.shape[1]
    requires (part, i0) == if i < l.b.shape[0] then (l, i) else (u, i - l.b.shape[0])
    ensures Within(Shape(part), [i0, j]) && Within(Shape(l'), [i, j])
    ensures Term(part, [i0, j], k) == Term(l', [i, j], k)
  {
    hide At, Ravel, Size, Term, Joined, Make, Dense;
    MatrixTerm(part, i0, j, k);
    MatrixTerm(l', i, j, k);
    JoinedAt(l.b, u.b, i, [k]);
    assert [i] + [k] == [i, k] && [i0] + [k] == [i0, k];
  }

  function FirstSizes(ts: seq<Tensor>): nat {
    if ts == [] then 0 else (if ts[0].shape == [] then 0 else ts[0].shape[0]) + FirstSizes(ts[1..])
  }

  lemma {:induction false} CatFirstSize(ts: seq<Tensor>)
    requires Cat(ts).Some?
    ensures Cat(ts).value.shape != [] && Cat(ts).value.shape[0] == FirstSizes(ts)
    ensures |Cat(ts).value.shape| == |ts[0].shape| && Cat(ts).value.shape[1..] == ts[0].shape[1..]
    ensures forall i :: 0 <= i < |ts| ==> |ts[i].shape| == |ts[0].shape|
  {
    hide Joined, Make, Dense;
    if |ts| == 1 {
      assert ts[1..] == [];
    } else {
      CatFirstSize(ts[1..]);
      assert Joinable(ts[0].shape, Cat(ts[1..]).value.shape);
      assert |ts[1].shape| == |ts[0].shape|;
      forall i | 0 < i < |ts| ensures |ts[i].shape| == |ts[0].shape| {
        assert ts[i] == ts[1..][i - 1];
      }
    }
  }

  lemma {:induction false} SmallerSums(ls: seq<Factors>)
    requires forall i :: 0 <= i < |ls| ==>
      |ls[i].a.shape| == |ls[i].b.shape| > 0 && ls[i].b.shape[0] >= 1 && (ls[i].a.shape[0] == 1 || ls[i].a.shape[0] == ls[i].b.shape[0])
    ensures |ls| <= FirstSizes(FactorsA(ls)) <= FirstSizes(FactorsB(ls))
    ensures FirstSizes(FactorsA(ls)) == FirstSizes(FactorsB(ls)) <==> OwnFirstAxis(ls)
  {
    if ls != [] {
      var rest := ls[1..];
      SmallerSums(rest);
      assert FactorsA(ls)[1..] == FactorsA(rest) && FactorsB(ls)[1..] == FactorsB(rest);
      assert OwnFirstAxis(ls) <==> ls[0].a.shape[0] == ls[0].b.shape[0] && OwnFirstAxis(rest) by {
        if ls[0].a.shape[0] == ls[0].b.shape[0] && OwnFirstAxis(rest) {
          forall i | 0 < i < |ls| ensures ls[i].a.shape[0] == ls[i].b.shape[0] {
            assert ls[i] == rest[i - 1];
          }
        }
        if OwnFirstAxis(ls) {
          forall i | 0 <= i < |rest| ensures rest[i].a.shape != [] && rest[i].b.shape != [] && rest[i].a.shape[0] == rest[i].b.shape[0] {
            assert rest[i] == ls[i + 1];
          }
        }
      }
    }
  }

  lemma CatSizes(ls: seq<Factors>)
    requires AllDenotable(ls) && CatFactors(ls).Some? && |ls[0].a.shape| > 2
    ensures forall i :: 0 <= i < |ls| ==> |ls[i].a.shape| == |ls[0].a.shape|
    ensures Denotable(CatFactors(ls).value) <==>
      FirstSizes(FactorsA(ls)) == 1 || FirstSizes(FactorsA(ls)) == FirstSizes(FactorsB(ls))
  {
    hide At, Ravel, Size, Joined, Make, Dense, Cat, FirstSizes;
    var l' := CatFactors(ls).value;
    CatFirstSize(FactorsA(ls));
    CatFirstSize(FactorsB(ls));
    forall i | 0 <= i < |ls| ensures |ls[i].a.shape| == |ls[0].a.shape| {
      assert |FactorsA(ls)[i].shape| == |FactorsA(ls)[0].shape|;
    }
    forall i | 0 < i < |l'.a.shape| - 2 ensures l'.a.shape[i] == 1 || l'.a.shape[i] == l'.b.shape[i] {
      assert l'.a.shape[1..][i - 1] == ls[0].a.shape[1..][i - 1] && l'.b.shape[1..][i - 1] == ls[0].b.shape[1..][i - 1];
    }
  }

  lemma OwnSizes(ls: seq<Factors>)
    requires AllDenotable(ls) && |ls| >= 2 && forall i :: 0 <= i < |ls| ==> |ls[i].a.shape| == |ls[0].a.shape| > 2
    requires forall i :: 0 <= i < |ls| ==> |ls[i].b.shape| > 0 && ls[i].b.shape[0] >= 1
    ensures FirstSizes(FactorsA(ls)) == 1 || FirstSizes(FactorsA(ls)) == FirstSizes(FactorsB(ls)) <==> OwnFirstAxis(ls)
  {
    hide FirstSizes, OwnFirstAxis, Dense;
    SmallerSums(ls);
  }

  /** Beyond matrices both factors are concatenated. They have a product exactly when the joined axis of A
      has size 1 or the size of that of B, and it is the right one when every A really has the axis: two or
      more non-empty tensors with a broadcast A among them have no product. */
  lemma CatTensorsCommutes(ls: seq<Factors>)
    requires AllDenotable(ls) && CatFactors(ls).Some? && |ls[0].a.shape| > 2
    ensures Denotable(CatFactors(ls).value) <==>
      FirstSizes(FactorsA(ls)) == 1 || FirstSizes(FactorsA(ls)) == FirstSizes(FactorsB(ls))
    ensures |ls| >= 2 && (forall i :: 0 <= i < |ls| ==> |ls[i].b.shape| > 0 && ls[i].b.shape[0] >= 1) ==>
      (Denotable(CatFactors(ls).value) <==> OwnFirstAxis(ls))
    ensures OwnFirstAxis(ls) ==> var l' := CatFactors(ls).value;
      Denotable(l') && Rank(l') == Rank(ls[0]) && Cat(Products(ls)) == Some(Dense(l'))
  {
    hide At, Ravel, Size, Joined, Make, Dense, Cat, FirstSizes, CatFactors, OwnFirstAxis, Denotable;
    CatSizes(ls);
    if |ls| >= 2 && forall i :: 0 <= i < |ls| ==> |ls[i].b.shape| > 0 && ls[i].b.shape[0] >= 1 {
      OwnSizes(ls);
    }
    if OwnFirstAxis(ls) {
      CatOwnAxes(ls);
    }
  }

  lemma {:induction false} CatOwnAxes(ls: seq<Factors>)
    requires AllDenotable(ls) && CatFactors(ls).Some? && OwnFirstAxis(ls)
    requires forall i :: 0 <= i < |ls| ==> |ls[i].a.shape| == |ls[0].a.shape| > 2
    ensures var l' := CatFactors(ls).value;
      Denotable(l') && Rank(l') == Rank(ls[0]) && l'.a.shape[0] == l'.b.shape[0] && Cat(Products(ls)) == Some(Dense(l'))
  {
    hide At, Ravel, Size, Term, Joined, Make, Dense, Cat, CatFactors, FactorsB, Products;
    if |ls| == 1 {
      OneOfThem(ls);
    } else {
      TensorStep(ls);
      CatOwnAxes(ls[1..]);
      JoinTensors(ls[0], CatFactors(ls[1..]).value);
      ProductStep(ls);
    }
  }

  lemma TensorStep(ls: seq<Factors>)
    requires AllDenotable(ls) && |ls| > 1 && CatFactors(ls).Some?
    requires forall i :: 0 <= i < |ls| ==> |ls[i].a.shape| == |ls[0].a.shape| > 2
    ensures CatFactors(ls[1..]).Some?
    ensures var l, u := ls[0], CatFactors(ls[1..]).value;
      && Joinable(l.a.shape, u.a.shape) && Joinable(l.b.shape, u.b.shape)
      && CatFactors(ls).value == Factors(Joined(l.a, u.a), Joined(l.b, u.b))
  {
    hide At, Ravel, Size, Term, Joined, Make, Dense, Cat;
    var rest := ls[1..];
    assert FactorsA(ls)[1..] == FactorsA(rest) && FactorsB(ls)[1..] == FactorsB(rest);
    CatStep(FactorsA(ls));
    CatStep(FactorsB(ls));
    CatRest(rest);
  }

  lemma CatRest(ls: seq<Factors>)
    requires AllDenotable(ls) && ls != [] && |ls[0].a.shape| > 2
    requires Cat(FactorsA(ls)).Some? && Cat(FactorsB(ls)).Some?
    ensures CatFactors(ls).Some? && CatFactors(ls).value == Factors(Cat(FactorsA(ls)).value, Cat(FactorsB(ls)).value)
  {
    hide At, Ravel, Size, Term, Joined, Make, Dense, Cat;
    CatFirstSize(FactorsA(ls));
    CatFirstSize(FactorsB(ls));
    var a, b := Cat(FactorsA(ls)).value, Cat(FactorsB(ls)).value;
    var n := |a.shape|;
    assert a.shape[n - 2] == ls[0].a.shape[n - 2] by { assert a.shape[1..][n - 3] == ls[0].a.shape[1..][n - 3]; }
    assert b.shape[n - 1] == ls[0].b.shape[n - 1] by { assert b.shape[1..][n - 2] == ls[0].b.shape[1..][n - 2]; }
  }

  /** A term of a product whose first axis is not broadcast, read through that axis. */
  lemma HeadTerm(l: Factors, i: nat, rest: seq<nat>, k: nat)
    requires Denotable(l) && |l.a.shape| > 2 && l.a.shape[0] == l.b.shape[0]
    requires i < l.b.shape[0] && Within(Shape(l)[1..], rest) && k < Rank(l)
    ensures Within(Shape(l), [i] + rest)
    ensures Within(l.b.shape[1..], IndexB(rest, k)) && Within(l.a.shape[1..], IndexA(l.a.shape[1..], rest, k))
    ensures Term(l, [i] + rest, k)
      == Times(HeadAt(l.b, i, IndexB(rest, k)), HeadAt(l.a, i, IndexA(l.a.shape[1..], rest, k)))
  {
    hide At, Ravel, Size, Make, Dense, IndexA, IndexB, Times;
    TermIndices(l, [i] + rest, k);
    PrefixedIndices(l.a.shape[1..], l.a.shape, i, rest, k);
    assert ([i] + IndexB(rest, k))[1..] == IndexB(rest, k);
    assert ([i] + IndexA(l.a.shape[1..], rest, k))[1..] == IndexA(l.a.shape[1..], rest, k);
  }

  ghost predicate Joins(l: Factors, u: Factors, l': Factors) {
    && Denotable(l) && Denotable(u) && |l.a.shape| > 2 && l.a.shape[0] == l.b.shape[0] && u.a.shape[0] == u.b.shape[0]
    && Joinable(l.a.shape, u.a.shape) && Joinable(l.b.shape, u.b.shape)
    && l' == Factors(Joined(l.a, u.a), Joined(l.b, u.b)) && Denotable(l')
    && Rank(l') == Rank(l) == Rank(u) && Shape(l)[1..] == Shape(u)[1..]
    && Shape(l') == [l.b.shape[0] + u.b.shape[0]] + Shape(l)[1..]
  }

  lemma JoinTensors(l: Factors, u: Factors)
    requires Denotable(l) && Denotable(u) && |l.a.shape| > 2 && l.a.shape[0] == l.b.shape[0] && u.a.shape[0] == u.b.shape[0]
    requires Joinable(l.a.shape, u.a.shape) && Joinable(l.b.shape, u.b.shape)
    ensures Joinable(Shape(l), Shape(u))
    ensures var l' := Factors(Joined(l.a, u.a), Joined(l.b, u.b));
      Denotable(l') && Rank(l') == Rank(l) && Joined(Dense(l), Dense(u)) == Dense(l')
  {
    hide At, Ravel, Size, Term, Joined, Make, Dense;
    JoinedShapes(l, u);
    var l' := Factors(Joined(l.a, u.a), Joined(l.b, u.b));
    JoinedProducts(l, u, l');
  }

  lemma JoinedShapes(l: Factors, u: Factors)
    requires Denotable(l) && Denotable(u) && |l.a.shape| > 2 && l.a.shape[0] == l.b.shape[0] && u.a.shape[0] == u.b.shape[0]
    requires Joinable(l.a.shape, u.a.shape) && Joinable(l.b.shape, u.b.shape)
    ensures Joins(l, u, Factors(Joined(l.a, u.a), Joined(l.b, u.b)))
  {
    hide At, Ravel, Size, Term, Joined, Make, Dense;
    var n := |l.a.shape|;
    assert l.a.shape[1..][n - 2] == u.a.shape[1..][n - 2];
    assert l.b.shape[1..][n - 2] == u.b.shape[1..][n - 2];
    assert Shape(l)[1..] == l.b.shape[1..][..n - 2] + [l.a.shape[n - 1]];
    assert Shape(u)[1..] == u.b.shape[1..][..n - 2] + [u.a.shape[n - 1]];
    var l' := Factors(Joined(l.a, u.a), Joined(l.b, u.b));
    forall i | 0 < i < n - 2 ensures l'.a.shape[i] == 1 || l'.a.shape[i] == l'.b.shape[i] {
      assert l'.a.shape[i] == l.a.shape[i] && l'.b.shape[i] == l.b.shape[i];
    }
  }

  lemma JoinedProducts(l: Factors, u: Factors, l': Factors)
    requires Joins(l, u, l')
    ensures Joined(Dense(l), Dense(u)) == Dense(l')
  {
    hide At, Ravel, Size, Term, Joined, HeadAt, Make, Dense;
    var t := Joined(Dense(l), Dense(u));
    assert t.shape == Shape(l') == [l.b.shape[0] + u.b.shape[0]] + Shape(l)[1..];
    forall i: nat, rest | i < t.shape[0] && Within(t.shape[1..], rest)
      ensures HeadAt(t, i, rest) == HeadAt(Dense(l'), i, rest)
    {
      JoinedTensorEntry(l, u, l', i, rest);
    }
    SameHeads(t, Dense(l'));
  }

  lemma SameHeads(t: Tensor, u: Tensor)
    requires t.shape == u.shape != []
    requires forall i: nat, rest :: i < t.shape[0] && Within(t.shape[1..], rest) ==> HeadAt(t, i, rest) == HeadAt(u, i, rest)
    ensures t == u
  {
    hide At, Ravel, Size, Make, Dense;
    forall idx | Within(t.shape, idx) ensures At(t, idx) == At(u, idx) {
      assert idx == [idx[0]] + idx[1..];
      assert Within(t.shape[1..], idx[1..]);
      assert HeadAt(t, idx[0], idx[1..]) == HeadAt(u, idx[0], idx[1..]);
    }
    SameElements(t, u);
  }

  lemma HeadOfDense(l: Factors, i: nat, rest: seq<nat>)
    requires Denotable(l) && |l.a.shape| > 2 && i < l.b.shape[0] && Within(Shape(l)[1..], rest)
    ensures Within(Shape(l), [i] + rest) && HeadAt(Dense(l), i, rest) == Dot(l, [i] + rest, Rank(l))
  {
    hide At, Ravel, Size, Term, Make, Dense;
    assert Within(Shape(l), [i] + rest);
  }

  lemma JoinedTensorEntry(l: Factors, u: Factors, l': Factors, i: nat, rest: seq<nat>)
    requires Joins(l, u, l') && i < l.b.shape[0] + u.b.shape[0] && Within(Shape(l)[1..], rest)
    ensures HeadAt(Joined(Dense(l), Dense(u)), i, rest) == HeadAt(Dense(l'), i, rest)
  {
    hide At, Ravel, Size, Term, Joined, HeadAt, Make, Dense;
    JoinedAt(Dense(l), Dense(u), i, rest);
    HeadOfDense(l', i, rest);
    var (part, i0) := if i < l.b.shape[0] then (l, i) else (u, i - l.b.shape[0]);
    HeadOfDense(part, i0, rest);
    forall k: nat | k < Rank(l) ensures Term(part, [i0] + rest, k) == Term(l', [i] + rest, k) {
      JoinedTensorTerm(l, u, l', part, i, i0, rest, k);
    }
    SameDot(part, [i0] + rest, l', [i] + rest, Rank(l));
  }

  lemma JoinedTensorTerm(l: Factors, u: Factors, l': Factors, part: Factors, i: nat, i0: nat, rest: seq<nat>, k: nat)
    requires Joins(l, u, l') && i < l.b.shape[0] + u.b.shape[0] && Within(Shape(l)[1..], rest) && k < Rank(l)
    requires (part, i0) == if i < l.b.shape[0] then (l, i) else (u, i - l.b.shape[0])
    ensures Within(Shape(part), [i0] + rest) && Within(Shape(l'), [i] + rest)
    ensures Term(part, [i0] + rest, k) == Term(l', [i] + rest, k)
  {
    hide At, Ravel, Size, Joined, HeadAt, Term, Make, Dense;
    HeadTerm(part, i0, rest, k);
    HeadTerm(l', i, rest, k);
    assert l'.a.shape[1..] == part.a.shape[1..];
    JoinedAt(l.b, u.b, i, IndexB(rest, k));
    JoinedAt(l.a, u.a, i, IndexA(l.a.shape[1..], rest, k));
  }
}
