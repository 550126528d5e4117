/** Merging the expert weights of a layer into one tensor per projection, whenever the last one arrives. */
module ExpertStacks {
  import opened Wrappers

  datatype Projection = Down | Gate | Up

  /** Names that speak of experts are either the expected weights or stray; all others are plain. */
  datatype Name =
    | Weight(layer: nat, expert: nat, projection: Projection)
    | Stray(bid: Option<nat>, text: string)
    | Plain(text: string)

  datatype Out = Merged(layer: nat, projection: Projection) | Mapped(text: string)
  datatype Value = One(t: Tensor) | Stack(ts: seq<Tensor>)

  /** Only the shape of a tensor matters here. */
  datatype Tensor = Tensor(id: int, shape: seq<nat>)

  /** blocks: the number of layers; known: the plain names that map to a tensor of the format. */
  datatype Config = Config(blocks: nat, nExperts: nat, known: set<string>)

  /** The weights of one layer that still wait to be merged. */
  type Waiting = map<Name, Tensor>
  type Outputs = seq<(Out, Value)>

  function Bid(name: Name): Option<nat> {
    match name
    case Weight(l, _, _) => Some(l)
    case Stray(bid, _) => bid
    case Plain(_) => None
  }

  predicate IsExpected(c: Config, l: nat, name: Name) {
    name.Weight? && name.layer == l && name.expert < c.nExperts
  }

  predicate HasAll(c: Config, l: nat, p: Projection, d: Waiting) {
    forall e: nat :: e < c.nExperts ==> Weight(l, e, p) in d
  }

  predicate AllHere(c: Config, l: nat, d: Waiting) {
    forall p :: HasAll(c, l, p, d)
  }

  predicate SameShapes(ts: seq<Tensor>) {
    forall i :: 0 <= i < |ts| ==> ts[i].shape == ts[0].shape
  }

  /** All experts of a projection are there, with one shape. */
  predicate Stackable(c: Config, l: nat, p: Projection, d: Waiting) {
    HasAll(c, l, p, d) && SameShapes(StackOf(c, l, p, d).ts)
  }

  predicate AllStack(c: Config, l: nat, d: Waiting) {
    forall p :: Stackable(c, l, p, d)
  }

  lemma ThreeProjections(p: Projection)
    ensures p == Down || p == Gate || p == Up
  {
  }

  function StackOf(c: Config, l: nat, p: Projection, d: Waiting): (v: Value)
    requires HasAll(c, l, p, d)
    ensures v.Stack?
  {
    Stack(seq(c.nExperts, e requires 0 <= e < c.nExperts => d[Weight(l, e, p)]))
  }

  function Stacks(c: Config, l: nat, d: Waiting): Outputs
    requires AllStack(c, l, d)
  {
    assert Stackable(c, l, Down, d) && Stackable(c, l, Gate, d) && Stackable(c, l, Up, d);
    [(Merged(l, Down), StackOf(c, l, Down, d)), (Merged(l, Gate), StackOf(c, l, Gate, d)),
     (Merged(l, Up), StackOf(c, l, Up, d))]
  }

  function Unexpected(c: Config, l: nat, d: Waiting): Waiting {
    map name | name in d && !IsExpected(c, l, name) :: d[name]
  }

  /** One layer takes in a tensor. Nothing can be merged when there are no experts, or when the layer
      holds as many tensors as it has experts but not the expected ones, or experts of different shapes. */
  function Take(c: Config, l: nat, d: Waiting): Option<(Waiting, Outputs)> {
    if |d| < 3 * c.nExperts then Some((d, []))
    else if c.nExperts == 0 || !AllStack(c, l, d) then None
    else Some((Unexpected(c, l, d), Stacks(c, l, d)))
  }

  /** No layers are kept before the first expert arrives. */
  function Layers(c: Config, layers: seq<Waiting>): seq<Waiting> {
    if layers == [] then seq(c.blocks, _ => map[]) else layers
  }

  function Modify(c: Config, layers: seq<Waiting>, name: Name, t: Tensor): Option<(seq<Waiting>, Outputs)> {
    match name
    case Plain(text) => if text in c.known then Some((layers, [(Mapped(text), One(t))])) else None
    case _ =>
      var all := Layers(c, layers);
      if Bid(name) == None || Bid(name).value >= |all| then None
      else
        var l := Bid(name).value;
        match Take(c, l, all[l][name := t])
        case None => None
        case Some((d, out)) => Some((all[l := d], out))
  }

  class Converter {
    const config: Config
    var experts: seq<Waiting>

    constructor (config: Config)
      ensures this.config == config && experts == []
    {
      this.config := config;
      experts := [];
    }

    /** None stands for the exceptions of the converter; the state is then not used any more. */
    method ModifyTensors(dataTorch: Tensor, name: Name) returns (r: Option<Outputs>)
      modifies this
      ensures match Modify(config, old(experts), name, dataTorch)
              case None => r == None
              case Some((layers, out)) => r == Some(out) && experts == layers
    {
      if name.Plain? {
        return if name.text in config.known then Some([(Mapped(name.text), One(dataTorch))]) else None;
      }
      if experts == [] {
        experts := seq(config.blocks, _ => map[]);
      }
      if Bid(name) == None || Bid(name).value >= |experts| {
        return None;
      }
      var bid := Bid(name).value;
      experts := experts[bid := experts[bid][name := dataTorch]];
      if |experts[bid]| >= config.nExperts * 3 {
        r := MergeLayer(bid);
      } else {
        return Some([]);
      }
    }

    /** Merges the experts of a full layer, projection by projection. */
    method MergeLayer(bid: nat) returns (r: Option<Outputs>)
      requires bid < |experts|
      modifies this
      ensures var d := old(experts[bid]);
        if config.nExperts == 0 || !AllStack(config, bid, d) then r == None
        else r == Some(Stacks(config, bid, d)) && experts == old(experts)[bid := Unexpected(config, bid, d)]
    {
      hide Without, Unexpected, SameShapes;
      var tensors: Outputs := [];
      ghost var d, before := experts[bid], experts;
      var wNames := [Down, Gate, Up];
      WithoutNone(config, bid, d);
      for w := 0 to 3
        invariant w > 0 ==> config.nExperts > 0
        invariant |tensors| == w
        invariant forall i :: 0 <= i < w ==> Stackable(config, bid, wNames[i], d)
        invariant forall i :: 0 <= i < w ==> tensors[i] == (Merged(bid, wNames[i]), StackOf(config, bid, wNames[i], d))
        invariant experts == before[bid := Without(config, bid, wNames[..w], d)]
      {
        var datas, ok := Pop(bid, wNames[w]);
        PopOne(config, bid, wNames, w, d);
        if !ok || datas == [] {
          assert !ok ==> !Stackable(config, bid, wNames[w], d);
          return None;
        }
        var same := OneShape(datas);
        if !same {
          assert !Stackable(config, bid, wNames[w], d);
          return None;
        }
        tensors := tensors + [(Merged(bid, wNames[w]), Stack(datas))];
      }
      assert AllStack(config, bid, d) by {
        assert Stackable(config, bid, wNames[0], d) && Stackable(config, bid, wNames[1], d) && Stackable(config, bid, wNames[2], d);
        forall p ensures Stackable(config, bid, p, d) { ThreeProjections(p); }
      }
      AllProjections(config, bid, d);
      assert tensors == Stacks(config, bid, d);
      return Some(tensors);
    }

    /** What stacking asks of its parts. */
    static method OneShape(datas: seq<Tensor>) returns (same: bool)
      ensures same == SameShapes(datas)
    {
      for i := 0 to |datas|
        invariant forall k :: 0 <= k < i ==> datas[k].shape == datas[0].shape
      {
        if datas[i].shape != datas[0].shape {
          return false;
        }
      }
      return true;
    }

    /** Takes all experts of one projection out of a layer; false when one is missing. */
    method Pop(bid: nat, p: Projection) returns (datas: seq<Tensor>, ok: bool)
      requires bid < |experts|
      modifies this
      ensures ok <==> HasAll(config, bid, p, old(experts[bid]))
      ensures ok ==> Stack(datas) == StackOf(config, bid, p, old(experts[bid]))
      ensures ok ==> experts == old(experts)[bid := Without(config, bid, [p], old(experts[bid]))]
    {
      datas, ok := [], true;
      ghost var d := experts[bid];
      assert Popped(bid, p, 0, d) == d;
      for xid := 0 to config.nExperts
        invariant |datas| == xid && |experts| == old(|experts|)
        invariant forall e :: 0 <= e < xid ==> Weight(bid, e, p) in d && datas[e] == d[Weight(bid, e, p)]
        invariant experts == old(experts)[bid := Popped(bid, p, xid, d)]
      {
        var ename := Weight(bid, xid, p);
        if ename !in experts[bid] {
          return datas, false;
        }
        datas := datas + [experts[bid][ename]];
        PopNext(bid, p, xid, d);
        experts := experts[bid := experts[bid] - {ename}];
      }
      assert experts[bid] == Without(config, bid, [p], d);
    }
  }

  /** A layer without the first n experts of one projection. */
  function Popped(l: nat, p: Projection, n: nat, d: Waiting): Waiting {
    map name | name in d && !(name.Weight? && name.layer == l && name.expert < n && name.projection == p) :: d[name]
  }

  lemma PopNext(l: nat, p: Projection, n: nat, d: Waiting)
    ensures Popped(l, p, n, d) - {Weight(l, n, p)} == Popped(l, p, n + 1, d)
  {
  }

  function Without(c: Config, l: nat, ps: seq<Projection>, d: Waiting): Waiting {
    map name | name in d && !(IsExpected(c, l, name) && name.projection in ps) :: d[name]
  }

  lemma WithoutNone(c: Config, l: nat, d: Waiting)
    ensures Without(c, l, [], d) == d
  {
  }

  /** Taking one projection out does not disturb the others. */
  lemma PopOne(c: Config, l: nat, ps: seq<Projection>, w: nat, d: Waiting)
    requires w < |ps| && ps[w] !in ps[..w]
    ensures HasAll(c, l, ps[w], Without(c, l, ps[..w], d)) <==> HasAll(c, l, ps[w], d)
    ensures HasAll(c, l, ps[w], d) ==> StackOf(c, l, ps[w], d) == StackOf(c, l, ps[w], Without(c, l, ps[..w], d))
    ensures Without(c, l, [ps[w]], Without(c, l, ps[..w], d)) == Without(c, l, ps[..w + 1], d)
  {
    assert ps[..w + 1] == ps[..w] + [ps[w]];
  }

  lemma AllProjections(c: Config, l: nat, d: Waiting)
    ensures Without(c, l, [Down, Gate, Up][..3], d) == Unexpected(c, l, d)
  {
    var ps := [Down, Gate, Up];
    assert ps[..3] == ps && ps[0] == Down && ps[1] == Gate && ps[2] == Up;
    forall p: Projection ensures p in ps { ThreeProjections(p); }
  }

  // ---- a whole conversion ----

  type Arrivals = seq<(Name, Tensor)>
  datatype State = State(layers: seq<Waiting>, written: map<Out, Value>)

  function Put(written: map<Out, Value>, out: Outputs): map<Out, Value> {
    if out == [] then written else Put(written, out[..|out| - 1])[out[|out| - 1].0 := out[|out| - 1].1]
  }

  function Run(c: Config, a: Arrivals): Option<State> {
    if a == [] then Some(State([], map[]))
    else
      var n := |a| - 1;
      match Run(c, a[..n])
      case None => None
      case Some(st) => Next(c, st, a[n].0, a[n].1)
  }

  function Next(c: Config, st: State, name: Name, t: Tensor): Option<State> {
    match Modify(c, st.layers, name, t)
    case None => None
    case Some((layers, out)) => Some(State(layers, Put(st.written, out)))
  }

  predicate NothingLeft(layers: seq<Waiting>) {
    forall l :: 0 <= l < |layers| ==> |layers[l]| == 0
  }

  /** The tensors written; nothing when the conversion fails. */
  function Export(c: Config, a: Arrivals): Option<map<Out, Value>> {
    match Run(c, a)
    case None => None
    case Some(st) => if NothingLeft(st.layers) then Some(st.written) else None
  }

  method PrepareTensors(c: Config, arrivals: Arrivals) returns (r: Option<map<Out, Value>>)
    ensures r == Export(c, arrivals)
  {
    var model := new Converter(c);
    var written: map<Out, Value> := map[];
    for i := 0 to |arrivals|
      invariant fresh(model) && model.config == c
      invariant Run(c, arrivals[..i]) == Some(State(model.experts, written))
    {
      assert arrivals[..i + 1][..i] == arrivals[..i];
      var out := model.ModifyTensors(arrivals[i].1, arrivals[i].0);
      if out == None {
        RunFails(c, arrivals, i + 1);
        return None;
      }
      written := WriteAll(written, out.value);
    }
    assert arrivals[..|arrivals|] == arrivals;
    for l := 0 to |model.experts|
      invariant forall k :: 0 <= k < l ==> |model.experts[k]| == 0
    {
      if |model.experts[l]| > 0 {
        return None;
      }
    }
    return Some(written);
  }

  method WriteAll(before: map<Out, Value>, out: Outputs) returns (written: map<Out, Value>)
    ensures written == Put(before, out)
  {
    written := before;
    for i := 0 to |out|
      invariant written == Put(before, out[..i])
    {
      assert out[..i + 1][..i] == out[..i];
      written := written[out[i].0 := out[i].1];
    }
    assert out[..|out|] == out;
  }

  /** A run that has failed stays failed. */
  lemma {:induction false} RunFails(c: Config, a: Arrivals, n: nat)
    requires n <= |a| && Run(c, a[..n]) == None
    ensures Run(c, a) == None
  {
    if n < |a| {
      assert a[..|a| - 1][..n] == a[..n];
      RunFails(c, a[..|a| - 1], n);
    } else {
      assert a[..n] == a;
    }
  }

  // ---- the order does not matter ----

  type Source = map<Name, Tensor>

  predicate EachOnce(a: Arrivals) {
    forall i, j :: 0 <= i < j < |a| ==> a[i].0 != a[j].0
  }

  function AsMap(a: Arrivals): (r: Source)
    ensures forall name :: name in r <==> exists i :: 0 <= i < |a| && a[i].0 == name
  {
    if a == [] then map[] else AsMap(a[..|a| - 1])[a[|a| - 1].0 := a[|a| - 1].1]
  }

  /** Expert e of a projection is there, of the same shape as the first. */
  predicate IsLike(l: nat, p: Projection, e: nat, all: Source) {
    Weight(l, e, p) in all && Weight(l, 0, p) in all && all[Weight(l, e, p)].shape == all[Weight(l, 0, p)].shape
  }

  ghost predicate WholeLayer(c: Config, l: nat, all: Source) {
    forall p, e: nat :: e < c.nExperts ==> IsLike(l, p, e, all)
  }

  lemma WholeLayerIs(c: Config, l: nat, all: Source)
    requires c.nExperts > 0
    ensures WholeLayer(c, l, all) <==> AllStack(c, l, all)
  {
    if WholeLayer(c, l, all) {
      forall p ensures Stackable(c, l, p, all) {
        forall e: nat | e < c.nExperts ensures Weight(l, e, p) in all {
          assert IsLike(l, p, e, all);
        }
        assert HasAll(c, l, p, all);
        var ts := StackOf(c, l, p, all).ts;
        forall i: nat | i < |ts| ensures ts[i].shape == ts[0].shape {
          assert IsLike(l, p, i, all) && ts[i] == all[Weight(l, i, p)] && ts[0] == all[Weight(l, 0, p)];
        }
      }
    }
    if AllStack(c, l, all) {
      forall p, e: nat | e < c.nExperts ensures IsLike(l, p, e, all) {
        assert Stackable(c, l, p, all);
        var ts := StackOf(c, l, p, all).ts;
        assert ts[e] == all[Weight(l, e, p)] && ts[0] == all[Weight(l, 0, p)];
      }
    }
  }

  /** Every plain tensor is known, every layer has all its experts or none, those of a projection have one
      shape, and nothing else is there. */
  ghost predicate Complete(c: Config, all: Source) {
    forall name :: name in all ==>
      match name
      case Plain(text) => text in c.known
      case Stray(_, _) => false
      case Weight(l, e, _) => l < c.blocks && e < c.nExperts && WholeLayer(c, l, all)
  }

  /** What a layer has received. */
  function Part(b: Source, l: nat): Waiting {
    map name | name in b && Bid(name) == Some(l) :: b[name]
  }

  function Layer(c: Config, layers: seq<Waiting>, l: nat): Waiting {
    if l < |Layers(c, layers)| then Layers(c, layers)[l] else map[]
  }

  ghost predicate NotMerged(w: map<Out, Value>, l: nat) {
    forall p :: Merged(l, p) !in w
  }

  ghost predicate MergedIs(c: Config, w: map<Out, Value>, l: nat, p: Projection, part: Waiting) {
    Merged(l, p) in w && HasAll(c, l, p, part) && w[Merged(l, p)] == StackOf(c, l, p, part)
  }

  ghost predicate HasMerged(c: Config, w: map<Out, Value>, l: nat, part: Waiting) {
    c.nExperts > 0 && AllStack(c, l, part) && forall p :: MergedIs(c, w, l, p, part)
  }

  /** A layer waits until it has received as many tensors as it has experts, and is merged then. */
  ghost predicate LayerIs(c: Config, l: nat, d: Waiting, part: Waiting, w: map<Out, Value>) {
    if |part| < 3 * c.nExperts || part == map[] then d == part && NotMerged(w, l)
    else d == Unexpected(c, l, part) && HasMerged(c, w, l, part)
  }

  ghost predicate PlainsAre(c: Config, w: map<Out, Value>, b: Source) {
    forall text :: PlainIs(c, w, b, text)
  }

  ghost predicate PlainIs(c: Config, w: map<Out, Value>, b: Source, text: string) {
    && (Mapped(text) in w <==> Plain(text) in b)
    && (Plain(text) in b ==> text in c.known && w[Mapped(text)] == One(b[Plain(text)]))
  }

  predicate Placed(c: Config, name: Name) {
    name.Plain? || (Bid(name).Some? && Bid(name).value < c.blocks)
  }

  ghost predicate Inv(c: Config, st: State, b: Source) {
    && (st.layers == [] || |st.layers| == c.blocks)
    && PlainsAre(c, st.written, b)
    && (forall name :: name in b ==> Placed(c, name))
    && forall l: nat :: LayerIs(c, l, Layer(c, st.layers, l), Part(b, l), st.written)
  }

  /** The expected names of the first n experts of a layer. */
  function Expected(l: nat, n: nat): (r: set<Name>)
    ensures |r| == 3 * n
    ensures forall name :: name in r <==> name.Weight? && name.layer == l && name.expert < n
  {
    if n == 0 then {}
    else
      var rest := Expected(l, n - 1);
      var new_ := {Weight(l, n - 1, Down), Weight(l, n - 1, Gate), Weight(l, n - 1, Up)};
      assert |new_| == 3 && rest !! new_;
      assert forall name :: name in new_ <==> name.Weight? && name.layer == l && name.expert == n - 1 by {
        forall name: Name | name.Weight? { ThreeProjections(name.projection); }
      }
      rest + new_
  }

  /** As many tensors as expected, but not all expected ones: one is unexpected. */
  lemma Overfull(c: Config, l: nat, part: Waiting)
    requires |part| >= 3 * c.nExperts && !AllHere(c, l, part)
    ensures exists name :: name in part && !IsExpected(c, l, name)
  {
    if forall name :: name in part ==> IsExpected(c, l, name) {
      assert part.Keys <= Expected(l, c.nExperts);
      SameSize(part.Keys, Expected(l, c.nExperts));
      assert false;
    }
  }

  lemma SameSize(x: set<Name>, y: set<Name>)
    requires x <= y && |x| >= |y|
    ensures x == y
  {
    assert |y - x| == |y| - |x|;
  }

  ghost predicate Includes(all: Source, b: Source) {
    forall name :: name in b ==> name in all && all[name] == b[name]
  }

  lemma StackNeedsAll(c: Config, l: nat, d: Waiting)
    ensures AllStack(c, l, d) ==> AllHere(c, l, d)
  {
    if AllStack(c, l, d) {
      forall p ensures HasAll(c, l, p, d) { assert Stackable(c, l, p, d); }
    }
  }

  /** An unexpected tensor is there, or experts of different shapes. */
  ghost predicate CannotMerge(c: Config, l: nat, part: Waiting) {
    (exists name :: name in part && !IsExpected(c, l, name)) || (AllHere(c, l, part) && !AllStack(c, l, part))
  }

  /** One layer takes in a tensor: it keeps its invariant, or can never be merged. */
  lemma TakeKeeps(c: Config, l: nat, d: Waiting, part: Waiting, w: map<Out, Value>, name: Name, t: Tensor)
    requires LayerIs(c, l, d, part, w) && name !in part
    ensures match Take(c, l, d[name := t])
            case None => CannotMerge(c, l, part[name := t])
            case Some(r) => LayerIs(c, l, r.0, part[name := t], Put(w, r.1))
  {
    var part' := part[name := t];
    assert |part'| == |part| + 1;
    if |part| < 3 * c.nExperts || part == map[] {
      if |part'| < 3 * c.nExperts {
        assert Put(w, []) == w;
      } else if c.nExperts == 0 {
        assert name in part' && !IsExpected(c, l, name);
      } else if !AllHere(c, l, part') {
        Overfull(c, l, part');
        StackNeedsAll(c, l, part');
      } else if AllStack(c, l, part') {
        PutStacks(c, l, part', w);
      }
    } else {
      assert !IsExpected(c, l, name) by {
        assert name.Weight? ==> Stackable(c, l, name.projection, part);
      }
      if |d[name := t]| < 3 * c.nExperts {
        assert d[name := t] == Unexpected(c, l, part');
        assert Put(w, []) == w;
        SameStacks(c, w, l, part, part');
      } else {
        assert Weight(l, 0, Down) !in d[name := t] && !Stackable(c, l, Down, d[name := t]);
        assert name in part' && !IsExpected(c, l, name);
      }
    }
  }

  lemma PutStacks(c: Config, l: nat, d: Waiting, w: map<Out, Value>)
    requires AllStack(c, l, d) && c.nExperts > 0
    ensures HasMerged(c, Put(w, Stacks(c, l, d)), l, d)
    ensures forall o: Out :: !(o.Merged? && o.layer == l) ==> SameAt(w, Put(w, Stacks(c, l, d)), o)
  {
    var out := Stacks(c, l, d);
    assert out[..2][..1][..0] == [] && out[..2][..1] == [out[0]] && out[..2] == [out[0], out[1]];
    assert Put(w, out[..2][..1]) == w[out[0].0 := out[0].1];
    assert Put(w, out[..2]) == w[out[0].0 := out[0].1][out[1].0 := out[1].1];
    assert Put(w, out) == w[out[0].0 := out[0].1][out[1].0 := out[1].1][out[2].0 := out[2].1];
    forall p ensures MergedIs(c, Put(w, out), l, p, d) {
      assert Stackable(c, l, p, d);
      ThreeProjections(p);
    }
  }

  ghost predicate SameAt(w: map<Out, Value>, w': map<Out, Value>, o: Out) {
    (o in w <==> o in w') && (o in w ==> w[o] == w'[o])
  }

  lemma SameStacks(c: Config, w: map<Out, Value>, l: nat, part: Waiting, part': Waiting)
    requires HasMerged(c, w, l, part) && Includes(part', part)
    ensures HasMerged(c, w, l, part')
  {
    forall p ensures Stackable(c, l, p, part') && MergedIs(c, w, l, p, part') {
      assert MergedIs(c, w, l, p, part) && Stackable(c, l, p, part);
      assert HasAll(c, l, p, part') && StackOf(c, l, p, part') == StackOf(c, l, p, part);
    }
  }

  lemma PutOne(w: map<Out, Value>, o: Out, v: Value)
    ensures Put(w, [(o, v)]) == w[o := v]
  {
    assert [(o, v)][..0] == [];
    assert Put(w, [(o, v)][..0]) == w;
  }

  lemma PlainArrives(c: Config, st: State, b: Source, text: string, t: Tensor)
    requires Inv(c, st, b) && Plain(text) !in b && text in c.known
    ensures Next(c, st, Plain(text), t).Some?
    ensures Inv(c, Next(c, st, Plain(text), t).value, b[Plain(text) := t])
  {
    var st', b' := Next(c, st, Plain(text), t).value, b[Plain(text) := t];
    PutOne(st.written, Mapped(text), One(t));
    forall l: nat ensures LayerIs(c, l, Layer(c, st'.layers, l), Part(b', l), st'.written) {
      assert Part(b', l) == Part(b, l);
      LayerElsewhere(c, l, Layer(c, st.layers, l), Part(b, l), st.written, st'.written);
    }
    forall x ensures PlainIs(c, st'.written, b', x) {
      assert PlainIs(c, st.written, b, x);
    }
  }

  lemma OtherLayer(c: Config, st: State, b: Source, name: Name, t: Tensor, k: nat)
    requires Inv(c, st, b) && name !in b && !name.Plain? && Placed(c, name) && Next(c, st, name, t).Some? && Bid(name) != Some(k)
    ensures var st' := Next(c, st, name, t).value; LayerIs(c, k, Layer(c, st'.layers, k), Part(b[name := t], k), st'.written)
  {
    hide Take, Put, PlainIs, LayerIs, IsExpected, AllHere;
    var l, b', st' := Bid(name).value, b[name := t], Next(c, st, name, t).value;
    TakeElsewhere(c, l, Layer(c, st.layers, l)[name := t], st.written);
    assert Part(b', k) == Part(b, k);
    assert Layer(c, st'.layers, k) == Layer(c, st.layers, k);
    assert LayerIs(c, k, Layer(c, st.layers, k), Part(b, k), st.written);
    LayerElsewhere(c, k, Layer(c, st.layers, k), Part(b, k), st.written, st'.written);
  }

  lemma OtherPlain(c: Config, st: State, b: Source, name: Name, t: Tensor, text: string)
    requires Inv(c, st, b) && name !in b && !name.Plain? && Placed(c, name) && Next(c, st, name, t).Some?
    ensures PlainIs(c, Next(c, st, name, t).value.written, b[name := t], text)
  {
    hide Take, Put, PlainIs, LayerIs, IsExpected, AllHere;
    var l := Bid(name).value;
    TakeElsewhere(c, l, Layer(c, st.layers, l)[name := t], st.written);
    assert PlainIs(c, st.written, b, text);
    PlainElsewhere(c, st.written, Next(c, st, name, t).value.written, b, b[name := t], text);
  }

  lemma ExpertArrives(c: Config, st: State, b: Source, name: Name, t: Tensor, all: Source)
    requires Inv(c, st, b) && name !in b && !name.Plain? && Placed(c, name) && Includes(all, b[name := t])
    ensures match Next(c, st, name, t)
            case None => !Complete(c, all)
            case Some(st') => Inv(c, st', b[name := t])
  {
    hide Take, Put, PlainIs, LayerIs, IsExpected, AllHere;
    var l, b' := Bid(name).value, b[name := t];
    var d := Layer(c, st.layers, l);
    assert |Layers(c, st.layers)| == c.blocks;
    assert LayerIs(c, l, d, Part(b, l), st.written);
    assert Part(b', l) == Part(b, l)[name := t];
    TakeKeeps(c, l, d, Part(b, l), st.written, name, t);
    if Take(c, l, d[name := t]) == None {
      assert name in Part(b', l);
      assert Includes(all, Part(b', l)) by {
        forall n | n in Part(b', l) ensures n in all && all[n] == Part(b', l)[n] { assert n in b'; }
      }
      Misplaced(c, l, Part(b', l), all);
    } else {
      var st' := Next(c, st, name, t).value;
      forall k: nat ensures LayerIs(c, k, Layer(c, st'.layers, k), Part(b', k), st'.written) {
        if k != l {
          OtherLayer(c, st, b, name, t, k);
        }
      }
      forall x ensures PlainIs(c, st'.written, b', x) {
        OtherPlain(c, st, b, name, t, x);
      }
    }
  }

  /** A layer that can never be merged makes the source incomplete. */
  lemma Misplaced(c: Config, l: nat, part: Waiting, all: Source)
    requires CannotMerge(c, l, part) && part != map[] && Includes(all, part)
    requires forall name :: name in part ==> Bid(name) == Some(l)
    ensures !Complete(c, all)
  {
    if name :| name in part && !IsExpected(c, l, name) {
      assert name in all;
    } else {
      var name :| name in part;
      assert name in all;
      var p :| !Stackable(c, l, p, part);
      assert HasAll(c, l, p, part) && HasAll(c, l, p, all) && StackOf(c, l, p, all) == StackOf(c, l, p, part);
      assert !Stackable(c, l, p, all);
      WholeLayerIs(c, l, all);
    }
  }

  lemma LayerElsewhere(c: Config, l: nat, d: Waiting, part: Waiting, w: map<Out, Value>, w': map<Out, Value>)
    requires LayerIs(c, l, d, part, w) && forall p :: SameAt(w, w', Merged(l, p))
    ensures LayerIs(c, l, d, part, w')
  {
    forall p ensures (Merged(l, p) in w <==> Merged(l, p) in w') && (MergedIs(c, w, l, p, part) ==> MergedIs(c, w', l, p, part)) {
      assert SameAt(w, w', Merged(l, p));
    }
  }

  lemma PlainElsewhere(c: Config, w: map<Out, Value>, w': map<Out, Value>, b: Source, b': Source, text: string)
    requires PlainIs(c, w, b, text) && SameAt(w, w', Mapped(text))
    requires Plain(text) in b' <==> Plain(text) in b
    requires Plain(text) in b ==> b'[Plain(text)] == b[Plain(text)]
    ensures PlainIs(c, w', b', text)
  {
  }

  lemma TakeElsewhere(c: Config, l: nat, d: Waiting, w: map<Out, Value>)
    requires Take(c, l, d).Some?
    ensures forall o: Out :: !(o.Merged? && o.layer == l) ==> SameAt(w, Put(w, Take(c, l, d).value.1), o)
  {
    if |d| < 3 * c.nExperts {
      assert Put(w, []) == w;
    } else {
      PutStacks(c, l, d, w);
    }
  }

  /** One arrival keeps the invariant, or shows that the source is not complete. */
  lemma ArriveStep(c: Config, st: State, b: Source, name: Name, t: Tensor, all: Source)
    requires Inv(c, st, b) && name !in b && Includes(all, b[name := t])
    ensures match Next(c, st, name, t)
            case None => !Complete(c, all)
            case Some(st') => Inv(c, st', b[name := t])
  {
    assert name in b[name := t] && name in all;
    if name.Plain? {
      if name.text in c.known {
        PlainArrives(c, st, b, name.text, t);
      }
    } else if Placed(c, name) {
      ExpertArrives(c, st, b, name, t, all);
    } else {
      assert |Layers(c, st.layers)| == c.blocks;
    }
  }

  lemma StartHolds(c: Config)
    ensures Inv(c, State([], map[]), map[])
  {
    forall l: nat ensures Part(map[], l) == map[] && Layer(c, [], l) == map[] {
    }
  }

  lemma {:induction false} RunHolds(c: Config, a: Arrivals, all: Source)
    requires EachOnce(a) && Includes(all, AsMap(a))
    ensures match Run(c, a)
            case None => !Complete(c, all)
            case Some(st) => Inv(c, st, AsMap(a))
  {
    if a == [] {
      StartHolds(c);
    } else {
      var n := |a| - 1;
      LastArrival(a);
      RunHolds(c, a[..n], all);
      if Run(c, a[..n]).Some? {
        ArriveStep(c, Run(c, a[..n]).value, AsMap(a[..n]), a[n].0, a[n].1, all);
      }
    }
  }

  lemma LastArrival(a: Arrivals)
    requires a != [] && EachOnce(a)
    ensures var n := |a| - 1;
      && EachOnce(a[..n]) && a[n].0 !in AsMap(a[..n]) && AsMap(a) == AsMap(a[..n])[a[n].0 := a[n].1]
      && Includes(AsMap(a), AsMap(a[..n]))
  {
    var n := |a| - 1;
    forall i | 0 <= i < n ensures a[..n][i] == a[i] && a[i].0 != a[n].0 {
    }
  }

  /** At the end no layer holds anything exactly when the source is complete. */
  lemma FinishExactly(c: Config, st: State, all: Source)
    requires Inv(c, st, all)
    ensures NothingLeft(st.layers) <==> Complete(c, all)
  {
    if Complete(c, all) {
      forall l | 0 <= l < |st.layers| ensures |st.layers[l]| == 0 {
        assert LayerIs(c, l, Layer(c, st.layers, l), Part(all, l), st.written);
        CompletePart(c, all, l);
      }
    }
    if NothingLeft(st.layers) {
      forall name | name in all && !name.Plain?
        ensures name.Weight? && name.layer < c.blocks && name.expert < c.nExperts && WholeLayer(c, name.layer, all)
      {
        assert Placed(c, name);
        var l := Bid(name).value;
        assert LayerIs(c, l, Layer(c, st.layers, l), Part(all, l), st.written);
        assert name in Part(all, l);
        assert |Layer(c, st.layers, l)| == 0;
        assert IsExpected(c, l, name) && AllStack(c, l, all) by { NothingUnexpected(c, l, Part(all, l), all, name); }
        WholeLayerIs(c, l, all);
      }
      forall text | Plain(text) in all ensures text in c.known {
        assert PlainIs(c, st.written, all, text);
      }
    }
  }

  lemma NothingUnexpected(c: Config, l: nat, part: Waiting, all: Source, name: Name)
    requires name in part && Unexpected(c, l, part) == map[] && AllStack(c, l, part) && Includes(all, part)
    ensures IsExpected(c, l, name) && AllStack(c, l, all)
  {
    assert name !in Unexpected(c, l, part);
    forall p ensures Stackable(c, l, p, all) {
      assert Stackable(c, l, p, part);
      assert StackOf(c, l, p, all) == StackOf(c, l, p, part);
    }
  }

  lemma CompletePart(c: Config, all: Source, l: nat)
    requires Complete(c, all)
    ensures Part(all, l) == map[] || |Part(all, l)| == 3 * c.nExperts
    ensures Unexpected(c, l, Part(all, l)) == map[]
  {
    var part := Part(all, l);
    if name :| name in part {
      WholeLayerIs(c, l, all);
      assert AllStack(c, l, all);
      forall other ensures other in part <==> other in Expected(l, c.nExperts) {
        if other in Expected(l, c.nExperts) { assert Stackable(c, l, other.projection, all); }
      }
      assert part.Keys == Expected(l, c.nExperts);
    }
  }

  /** What is written: plain tensors as they are, and one tensor for each projection of each layer that
      has experts, expert e in place e. */
  ghost predicate Holds(c: Config, all: Source, w: map<Out, Value>, o: Out) {
    match o
    case Mapped(text) => (o in w <==> Plain(text) in all) && (o in w ==> w[o] == One(all[Plain(text)]))
    case Merged(l, p) =>
      && (o in w <==> exists e: nat :: Weight(l, e, p) in all)
      && (o in w ==>
          && w[o].Stack? && |w[o].ts| == c.nExperts
          && forall e: nat :: e < c.nExperts ==> Weight(l, e, p) in all && w[o].ts[e] == all[Weight(l, e, p)])
  }

  lemma Outcome(c: Config, st: State, all: Source, o: Out)
    requires Inv(c, st, all) && Complete(c, all)
    ensures Holds(c, all, st.written, o)
  {
    match o
    case Mapped(text) => assert PlainIs(c, st.written, all, text);
    case Merged(l, p) =>
      var part := Part(all, l);
      assert LayerIs(c, l, Layer(c, st.layers, l), part, st.written);
      CompletePart(c, all, l);
      if part == map[] {
        assert forall e: nat :: Weight(l, e, p) in all ==> Weight(l, e, p) in part;
      } else {
        assert MergedIs(c, st.written, l, p, part);
        assert Weight(l, 0, p) in part;
      }
  }

  /** A conversion succeeds exactly for a complete source, whatever the order, and writes all of it. */
  lemma ExportExactly(c: Config, a: Arrivals)
    requires EachOnce(a)
    ensures match Export(c, a)
            case None => !Complete(c, AsMap(a))
            case Some(w) => Complete(c, AsMap(a)) && forall o :: Holds(c, AsMap(a), w, o)
  {
    RunHolds(c, a, AsMap(a));
    if Run(c, a).Some? {
      var st := Run(c, a).value;
      FinishExactly(c, st, AsMap(a));
      if NothingLeft(st.layers) {
        forall o ensures Holds(c, AsMap(a), st.written, o) {
          Outcome(c, st, AsMap(a), o);
        }
      }
    }
  }

  /** The same tensors in another order give the same result, or fail alike. */
  lemma OrderIndependent(c: Config, a: Arrivals, b: Arrivals)
    requires EachOnce(a) && EachOnce(b) && multiset(a) == multiset(b)
    ensures Export(c, a) == Export(c, b)
  {
    SameSource(a, b);
    ExportExactly(c, a);
    ExportExactly(c, b);
    if Export(c, a).Some? && Export(c, b).Some? {
      var w, w' := Export(c, a).value, Export(c, b).value;
      forall o ensures SameAt(w, w', o) {
        assert Holds(c, AsMap(a), w, o) && Holds(c, AsMap(a), w', o);
        SameOutcome(c, AsMap(a), w, w', o);
      }
      assert w.Keys == w'.Keys by {
        forall o ensures o in w <==> o in w' { assert SameAt(w, w', o); }
      }
      forall o | o in w ensures w[o] == w'[o] { assert SameAt(w, w', o); }
      assert w == w';
    }
  }

  lemma SameOutcome(c: Config, all: Source, w: map<Out, Value>, w': map<Out, Value>, o: Out)
    requires Holds(c, all, w, o) && Holds(c, all, w', o)
    ensures SameAt(w, w', o)
  {
    if o.Merged? && o in w {
      assert w[o].ts == w'[o].ts;
    }
  }

  lemma {:induction false} InSource(a: Arrivals, x: (Name, Tensor))
    requires EachOnce(a)
    ensures x in a <==> x.0 in AsMap(a) && AsMap(a)[x.0] == x.1
  {
    if a != [] {
      var n := |a| - 1;
      LastArrival(a);
      assert a == a[..n] + [a[n]];
      InSource(a[..n], x);
    }
  }

  lemma SameSource(a: Arrivals, b: Arrivals)
    requires EachOnce(a) && EachOnce(b) && multiset(a) == multiset(b)
    ensures AsMap(a) == AsMap(b)
  {
    forall x ensures x in a <==> x in b {
      assert x in a <==> x in multiset(a);
      assert x in b <==> x in multiset(b);
    }
    var m, n := AsMap(a), AsMap(b);
    forall name ensures (name in m <==> name in n) && (name in m ==> m[name] == n[name]) {
      if name in m {
        InSource(a, (name, m[name]));
        InSource(b, (name, m[name]));
      }
      if name in n {
        InSource(a, (name, n[name]));
        InSource(b, (name, n[name]));
      }
    }
    assert m == n;
  }
}
