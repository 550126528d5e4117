/** What the tensors that a predictor layer ends up with hold: each weight with its own scale, and which
    entry of the scale each entry of a weight is multiplied by. */
module MtpValues {
  import opened Wrappers
  import opened Mtp
  import opened MtpOrder

  // ---- each weight with its own scale ----

  /** Packed with its scale, if it is an expert that has one; multiplied by its scale, if both are matrices;
      otherwise only as floating point numbers. */
  predicate IsOf(all: Source, k: Key, t: Tensor) {
    Weight(k) in all &&
    var w := all[Weight(k)];
    if Scale(k) !in all then t == AsFloat(w)
    else
      var s := all[Scale(k)];
      if k.Expert? then t == Packed(w, s)
      else if |Shape(w)| == 2 && |Shape(s)| == 2 then t == AsFloat(Dequantized(w, s))
      else t == AsFloat(w)
  }

  /** A stack of the experts of a group, expert e in place e. */
  predicate IsStack(all: Source, g: Group, n: int, t: Tensor) {
    t.Stacked? && |t.parts| == n && forall e :: 0 <= e < n ==> IsOf(all, Member(g, e), t.parts[e])
  }

  lemma ValueIsOf(c: Config, all: Source, k: Key)
    requires Fits(c, all) && Ready(c, all, k)
    ensures IsOf(all, k, Value(c, all, k))
  {
    hide Shape;
  }

  /** After a conversion that succeeds, each weight is written under its own name, joined or stacked, always
      with its own scale. */
  lemma ValuesWritten(a: Arrivals, nExperts: int, known: set<Name>)
    requires EachOnce(a) && Export(a, nExperts, known).Some?
    ensures var all, (written, raw) := AsMap(a), Export(a, nExperts, known).value;
      && (forall name :: name in all && name.Plain? ==> Mapped(name) in written && written[Mapped(name)] == AsFloat(all[name]))
      && (forall k: Key :: k.Other? && Weight(k) in all ==>
           Mapped(Weight(k)) in written && IsOf(all, k, written[Mapped(Weight(k))]))
      && (forall l: nat :: Weight(Input(l, true)) in all || Weight(Input(l, false)) in all ==>
           && JoinedInput(l) in written && written[JoinedInput(l)].Joined?
           && IsOf(all, Input(l, true), written[JoinedInput(l)].e) && IsOf(all, Input(l, false), written[JoinedInput(l)].h))
      && (forall k: Key :: k.Expert? && Weight(k) in all ==>
           var o := Experts(GroupOf(k));
           if o in raw then o !in written && IsStack(all, GroupOf(k), nExperts, raw[o])
           else o in written && IsStack(all, GroupOf(k), nExperts, written[o]))
  {
    hide Export, Holds, Complete;
    ExportExactly(a, nExperts, known);
    var all := AsMap(a);
    var c := ConfigOf(all, nExperts, known);
    var (written, raw) := Export(a, nExperts, known).value;
    ConfigFits(a, nExperts, known);
    forall name | name in all && name.Plain? ensures Mapped(name) in written && written[Mapped(name)] == AsFloat(all[name]) {
      PlainWritten(c, all, written, raw, name);
    }
    forall k: Key | k.Other? && Weight(k) in all ensures Mapped(Weight(k)) in written && IsOf(all, k, written[Mapped(Weight(k))]) {
      OtherWritten(c, all, written, raw, k);
    }
    forall l: nat | Weight(Input(l, true)) in all || Weight(Input(l, false)) in all
      ensures JoinedInput(l) in written && written[JoinedInput(l)].Joined?
      ensures IsOf(all, Input(l, true), written[JoinedInput(l)].e) && IsOf(all, Input(l, false), written[JoinedInput(l)].h)
    {
      InputWritten(c, all, written, raw, l);
    }
    forall k: Key | k.Expert? && Weight(k) in all
      ensures var o := Experts(GroupOf(k));
        if o in raw then o !in written && IsStack(all, GroupOf(k), nExperts, raw[o])
        else o in written && IsStack(all, GroupOf(k), nExperts, written[o])
    {
      ExpertWritten(c, all, written, raw, k);
    }
  }

  lemma PlainWritten(c: Config, all: Source, written: Tensors, raw: Tensors, name: Name)
    requires Holds(c, all, written, raw, Mapped(name)) && name in all && name.Plain?
    ensures Mapped(name) in written && written[Mapped(name)] == AsFloat(all[name])
  {
  }

  lemma OtherWritten(c: Config, all: Source, written: Tensors, raw: Tensors, k: Key)
    requires Fits(c, all) && Holds(c, all, written, raw, Mapped(Weight(k))) && k.Other? && Weight(k) in all
    ensures Mapped(Weight(k)) in written && IsOf(all, k, written[Mapped(Weight(k))])
  {
    hide Value, Ready, Fits, IsOf;
    ValueIsOf(c, all, k);
  }

  lemma InputWritten(c: Config, all: Source, written: Tensors, raw: Tensors, l: nat)
    requires Fits(c, all) && Complete(c, all) && Holds(c, all, written, raw, JoinedInput(l))
    requires Weight(Input(l, true)) in all || Weight(Input(l, false)) in all
    ensures JoinedInput(l) in written && written[JoinedInput(l)].Joined?
    ensures IsOf(all, Input(l, true), written[JoinedInput(l)].e) && IsOf(all, Input(l, false), written[JoinedInput(l)].h)
  {
    hide Value, Ready, Fits, IsOf, GroupComplete, GroupStacks, PairGoes;
    assert InputsJoin(all, l);
    ValueIsOf(c, all, Input(l, true));
    ValueIsOf(c, all, Input(l, false));
  }

  lemma ExpertWritten(c: Config, all: Source, written: Tensors, raw: Tensors, k: Key)
    requires Fits(c, all) && Complete(c, all) && k.Expert? && Weight(k) in all
    requires Holds(c, all, written, raw, Experts(GroupOf(k)))
    ensures var o := Experts(GroupOf(k));
      if o in raw then o !in written && IsStack(all, GroupOf(k), c.nExperts, raw[o])
      else o in written && IsStack(all, GroupOf(k), c.nExperts, written[o])
  {
    hide Value, Ready, Fits, IsOf, GroupStacks, PairGoes, InputsJoin, StackOfGroup, IsStack;
    var g, o := GroupOf(k), Experts(GroupOf(k));
    assert GroupComplete(c.nExperts, all, g) && k == Member(g, k.expert);
    assert Weight(Member(g, 0)) in all;
    if o in raw {
      StackIsOf(c, all, g, raw[o]);
    } else {
      StackIsOf(c, all, g, written[o]);
    }
  }

  lemma StackIsOf(c: Config, all: Source, g: Group, t: Tensor)
    requires Fits(c, all) && StackOfGroup(c, all, g, t)
    ensures IsStack(all, g, c.nExperts, t)
  {
    hide Value, Ready, Fits, IsOf;
    forall e | 0 <= e < c.nExperts ensures IsOf(all, Member(g, e), t.parts[e]) {
      ValueIsOf(c, all, Member(g, e));
    }
  }

  /** Two inputs that can be joined have all columns of both side by side. */
  lemma JoinedColumns(e: Tensor, h: Tensor)
    requires |Shape(e)| >= 2 && |Shape(h)| >= 2 && Shape(e)[0] == Shape(h)[0] && Shape(e)[2..] == Shape(h)[2..]
    ensures Shape(Joined(e, h)) == [Shape(e)[0], Shape(e)[1] + Shape(h)[1]] + Shape(e)[2..]
  {
    JoinableIs(Shape(e), Shape(h));
  }

  // ---- multiplying by a scale ----

  type Byte = b: nat | b < 256

  /** A matrix, all rows of one width. */
  datatype Matrix<T> = Matrix(width: nat, rows: seq<seq<T>>) {
    ghost predicate Valid() {
      forall i :: 0 <= i < |rows| ==> |rows[i]| == width
    }
  }

  /** Each element n times. */
  function RepeatEach<T>(s: seq<T>, n: nat): seq<T> {
    if s == [] then [] else seq(n, _ => s[0]) + RepeatEach(s[1..], n)
  }

  lemma {:induction false} RepeatedSize<T>(s: seq<T>, n: nat)
    ensures |RepeatEach(s, n)| == |s| * n
  {
    if s != [] {
      RepeatedSize(s[1..], n);
      assert |s| * n == n + (|s| - 1) * n;
    }
  }

  lemma {:induction false} RepeatedAt<T>(s: seq<T>, n: nat, i: nat)
    requires i < |s| * n
    ensures n > 0 && 0 <= i / n < |s| && i < |RepeatEach(s, n)| && RepeatEach(s, n)[i] == s[i / n]
    decreases |s|
  {
    RepeatedSize(s, n);
    NotNone(|s|, n);
    if i < n {
      QuotientIs(i, n, 0);
    } else {
      assert |s| * n == n + (|s| - 1) * n;
      RepeatedAt(s[1..], n, i - n);
      OneLess(i, n);
    }
  }

  lemma NotNone(m: nat, n: nat)
    requires m * n > 0
    ensures n > 0
  {
  }

  lemma OneLess(i: nat, n: nat)
    requires 0 < n <= i
    ensures i / n == (i - n) / n + 1
  {
    var q := (i - n) / n;
    QuotientBounds(i - n, n);
    QuotientIs(i, n, q + 1);
  }

  lemma QuotientBounds(i: nat, n: nat)
    requires n > 0
    ensures 0 <= i / n && (i / n) * n <= i < (i / n) * n + n
  {
  }

  lemma QuotientIs(i: nat, n: nat, q: nat)
    requires n > 0 && q * n <= i < q * n + n
    ensures i / n == q
  {
    QuotientBounds(i, n);
    var k := i / n;
    Ordered(k, q, n);
    Ordered(q, k, n);
  }

  lemma Ordered(a: nat, b: nat, n: nat)
    ensures a < b ==> a * n + n <= b * n
  {
    if a < b {
      assert (a + 1) * n == a * n + n;
      Wider(a + 1, b, n);
    }
  }

  function Max(a: int, b: int): int {
    if a > b then a else b
  }

  /** How often m elements must be repeated to make up n. */
  function Repeats(n: nat, m: nat): nat
    requires m > 0
  {
    Max(1, (n + m - 1) / m)
  }

  lemma EnoughRepeats(n: nat, m: nat)
    requires m > 0
    ensures Repeats(n, m) > 0 && n <= m * Repeats(n, m)
    ensures n > 0 ==> m * (Repeats(n, m) - 1) < n
  {
  }

  function PowerOfTwo(e: int): real
    decreases if e < 0 then -e else e
  {
    if e == 0 then 1.0 else if e > 0 then 2.0 * PowerOfTwo(e - 1) else PowerOfTwo(e + 1) / 2.0
  }

  lemma PowersDouble(e: int)
    ensures PowerOfTwo(0) == 1.0 && PowerOfTwo(e + 1) == 2.0 * PowerOfTwo(e)
  {
  }

  /** The first m elements, repeated to make up n. */
  function Stretched<T>(s: seq<T>, m: nat, n: nat): (r: seq<T>)
    requires 0 < m <= |s|
    ensures |r| == n && forall i :: 0 <= i < n ==> 0 <= i / Repeats(n, m) < m && r[i] == s[i / Repeats(n, m)]
  {
    hide Repeats, RepeatEach;
    EnoughRepeats(n, m);
    RepeatedSize(s, Repeats(n, m));
    Wider(m, |s|, Repeats(n, m));
    forall i | 0 <= i < n ensures 0 <= i / Repeats(n, m) < m && RepeatEach(s, Repeats(n, m))[i] == s[i / Repeats(n, m)] {
      Quotient(i, m, Repeats(n, m));
      RepeatedAt(s, Repeats(n, m), i);
    }
    RepeatEach(s, Repeats(n, m))[..n]
  }

  lemma Wider(m: nat, k: nat, r: nat)
    requires m <= k
    ensures m * r <= k * r
  {
  }

  lemma Quotient(i: nat, m: nat, r: nat)
    requires r > 0 && i < m * r
    ensures 0 <= i / r < m
  {
    QuotientBounds(i, r);
    if m <= i / r {
      Wider(m, i / r, r);
      assert false;
    }
  }

  function ScaledRow(row: seq<real>, factors: seq<Byte>): (r: seq<real>)
    requires |row| == |factors|
    ensures |r| == |row|
  {
    seq(|row|, j requires 0 <= j < |row| => row[j] * PowerOfTwo((factors[j] as int) - 127))
  }

  /** The scale as exponents of two, stretched to the size of the weight. Its columns are counted in its own
      elements, of which its bytes may be parts. */
  function Scaled(weight: Matrix<real>, scale: Matrix<Byte>, columns: nat): (r: Option<Matrix<real>>)
    requires weight.Valid() && scale.Valid() && columns <= scale.width
    ensures r.Some? ==> r.value.Valid()
  {
    if |scale.rows| == 0 || columns == 0 then None
    else
      var byRows := Stretched(scale.rows, |scale.rows|, |weight.rows|);
      Some(Matrix(weight.width, seq(|weight.rows|, i requires 0 <= i < |weight.rows| =>
        ScaledRow(weight.rows[i], Stretched(byRows[i], columns, weight.width)))))
  }

  /** r is the least number of repetitions for which m elements make up n. */
  predicate Least(n: nat, m: nat, r: nat) {
    r >= 1 && n <= m * r && (r > 1 ==> m * (r - 1) < n)
  }

  /** Entry (i, j) is multiplied by two to the power of the entry of the scale that stands for it and for others,
      in all r rows and c columns. */
  predicate EntryScaled(weight: Matrix<real>, scale: Matrix<Byte>, t: Matrix<real>, r: nat, c: nat, i: nat, j: nat)
    requires r > 0 && c > 0
  {
    var k, l := i / r, j / c;
    && i < |weight.rows| && j < |weight.rows[i]| && k < |scale.rows| && l < |scale.rows[k]|
    && i < |t.rows| && j < |t.rows[i]|
    && t.rows[i][j] == weight.rows[i][j] * PowerOfTwo((scale.rows[k][l] as int) - 127)
  }

  /** Every entry is scaled so, with the least r and c that will do. */
  lemma EntriesScaled(weight: Matrix<real>, scale: Matrix<Byte>, columns: nat) returns (r: nat, c: nat)
    requires weight.Valid() && scale.Valid() && 0 < columns <= scale.width && |scale.rows| > 0
    ensures Least(|weight.rows|, |scale.rows|, r) && Least(weight.width, columns, c)
    ensures Scaled(weight, scale, columns).Some?
    ensures var t := Scaled(weight, scale, columns).value;
      && t.width == weight.width && |t.rows| == |weight.rows|
      && forall i: nat, j: nat :: i < |weight.rows| && j < weight.width ==> EntryScaled(weight, scale, t, r, c, i, j)
  {
    hide Repeats, EntryScaled, Scaled, Least;
    r, c := Repeats(|weight.rows|, |scale.rows|), Repeats(weight.width, columns);
    LeastRepeats(|weight.rows|, |scale.rows|);
    LeastRepeats(weight.width, columns);
    SizesKept(weight, scale, columns);
    var t := Scaled(weight, scale, columns).value;
    forall i: nat, j: nat | i < |weight.rows| && j < weight.width ensures EntryScaled(weight, scale, t, r, c, i, j) {
      EntryIs(weight, scale, columns, i, j);
    }
  }

  lemma SizesKept(weight: Matrix<real>, scale: Matrix<Byte>, columns: nat)
    requires weight.Valid() && scale.Valid() && 0 < columns <= scale.width && |scale.rows| > 0
    ensures Scaled(weight, scale, columns).Some?
    ensures var t := Scaled(weight, scale, columns).value; t.width == weight.width && |t.rows| == |weight.rows|
  {
    hide Repeats, Stretched;
  }

  lemma EntryIs(weight: Matrix<real>, scale: Matrix<Byte>, columns: nat, i: nat, j: nat)
    requires weight.Valid() && scale.Valid() && 0 < columns <= scale.width && |scale.rows| > 0
    requires i < |weight.rows| && j < weight.width
    ensures var r, c := Repeats(|weight.rows|, |scale.rows|), Repeats(weight.width, columns);
      r > 0 && c > 0 && EntryScaled(weight, scale, Scaled(weight, scale, columns).value, r, c, i, j)
  {
    hide Repeats, Stretched, PowerOfTwo, Least;
    LeastRepeats(|weight.rows|, |scale.rows|);
    LeastRepeats(weight.width, columns);
    var r, c := Repeats(|weight.rows|, |scale.rows|), Repeats(weight.width, columns);
    assert r > 0 && c > 0 by { EnoughRepeats(|weight.rows|, |scale.rows|); EnoughRepeats(weight.width, columns); }
    var byRows := Stretched(scale.rows, |scale.rows|, |weight.rows|);
    assert byRows[i] == scale.rows[i / r];
    var factors := Stretched(byRows[i], columns, weight.width);
    assert factors[j] == byRows[i][j / c];
    var t := Scaled(weight, scale, columns).value;
    assert t.rows[i] == ScaledRow(weight.rows[i], factors);
  }

  lemma LeastRepeats(n: nat, m: nat)
    requires m > 0
    ensures Least(n, m, Repeats(n, m))
  {
    EnoughRepeats(n, m);
  }

  /** The symbolic scaling is refused as the real one is, and has its shape. */
  lemma DequantizeAsScaled(weight: Matrix<real>, scale: Matrix<Byte>, columns: nat, w: Tensor, s: Tensor)
    requires weight.Valid() && scale.Valid() && columns <= scale.width
    requires Shape(w) == [|weight.rows|, weight.width] && Shape(s) == [|scale.rows|, columns]
    ensures var r := Scaled(weight, scale, columns);
      && (Dequantize(w, s).Some? <==> r.Some?)
      && (r.Some? ==> Shape(Dequantize(w, s).value) == [|r.value.rows|, r.value.width])
  {
    hide Shape, Stretched;
  }

  // ---- scales that stand for blocks ----

  /** How many blocks of some size make up n. */
  function Blocks(n: nat, size: nat): nat
    requires size > 0
  {
    (n + size - 1) / size
  }

  /** With one scale for each block of n rows or columns, every one of them gets the scale of its own block exactly
      when there is only one block, or n is large enough for its size to be found again from the number of blocks. */
  lemma BlocksFound(n: nat, size: nat, r: nat)
    requires n > 0 && size > 0 && Least(n, Blocks(n, size), r)
    ensures (forall i :: 0 <= i < n ==> i / r == i / size) <==> n <= size || (size - 1) * Blocks(n, size) < n
  {
    hide Blocks;
    var m := Blocks(n, size);
    BlocksCover(n, size);
    NoLarger(n, m, size, r);
    if r < size {
      Wider(r, size - 1, m);
      if n <= size {
        OneBlock(n, size, m, r);
      } else {
        QuotientIs(r, r, 1);
        QuotientIs(r, size, 0);
        assert r / r != r / size;
      }
    }
  }

  lemma BlocksCover(n: nat, size: nat)
    requires n > 0 && size > 0
    ensures Blocks(n, size) > 0 && size * (Blocks(n, size) - 1) < n <= size * Blocks(n, size)
  {
    QuotientBounds(n + size - 1, size);
  }

  lemma NoLarger(n: nat, m: nat, size: nat, r: nat)
    requires size > 0 && n <= size * m && Least(n, m, r)
    ensures r <= size
  {
    if r > size {
      Wider(size, r - 1, m);
      assert false;
    }
  }

  lemma OneBlock(n: nat, size: nat, m: nat, r: nat)
    requires 0 < n <= size && m > 0 && size * (m - 1) < n && Least(n, m, r)
    ensures forall i :: 0 <= i < n ==> i / r == i / size
  {
    if m > 1 {
      Wider(1, m - 1, size);
      assert false;
    }
    assert m == 1;
    forall i | 0 <= i < n ensures i / r == i / size {
      QuotientIs(i, r, 0);
      QuotientIs(i, size, 0);
    }
  }

  /** 130 rows in tiles of 128: row 65 is multiplied by the scale of the second tile. */
  lemma WrongBlock()
    ensures Blocks(130, 128) == 2 && Least(130, 2, 65) && 65 / 65 != 65 / 128
  {
  }
}
