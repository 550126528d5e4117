/** Collecting the tensors of a DeepSeek-V4 predictor layer, which arrive in any order: weights and
    their scales, two input projections to be joined, experts to be stacked. */
module Mtp {
  import opened Wrappers

  datatype Projection = Gate | Down | Up

  /** What a weight and its scale have in common: the name without the ending. */
  datatype Key =
    | Expert(layer: nat, expert: nat, projection: Projection)
    | Input(layer: nat, ofEmbedding: bool)
    | Other(name: string)

  datatype Name = Weight(key: Key) | Scale(key: Key) | Plain(name: string)

  const HEAD := Other("head")

  type ItemSize = n: nat | 0 < n witness 1

  /** Tensors by how they were made; those of the source have a shape and elements of some bytes each. */
  datatype Tensor =
    | Source(id: int, sizes: seq<nat>, itemSize: ItemSize)
    | Packed(weight: Tensor, scale: Tensor)
    | Dequantized(weight: Tensor, scale: Tensor)
    | AsFloat(of: Tensor)
    | Joined(e: Tensor, h: Tensor)
    | Stacked(parts: seq<Tensor>)

  datatype Group = Group(layer: nat, projection: Projection)

  datatype Out = Experts(group: Group) | JoinedInput(layer: nat) | Mapped(source: Name)

  type Tensors = map<Out, Tensor>

  /** expected: the keys that have a scale; known: the names that map to a tensor of the format. */
  datatype Config = Config(expected: set<Key>, nExperts: int, known: set<Name>)

  datatype State = State(
    scales: map<Key, Tensor>,
    pending: map<Key, Tensor>,
    inputs: map<Key, Tensor>,
    experts: map<Group, map<nat, Tensor>>,
    raw: Tensors,
    written: Tensors)

  const START := State(map[], map[], map[], map[], map[], map[])

  // ---- shapes ----

  function Shape(t: Tensor): seq<nat> {
    match t
    case Source(_, sizes, _) => sizes
    case Packed(weight, _) => PackedShape(InBytes(Shape(weight), BytesEach(weight)))
    case Dequantized(weight, _) => Shape(weight)
    case AsFloat(of) => Shape(of)
    case Joined(e, h) => JoinedShape(Shape(e), Shape(h))
    case Stacked(parts) => if parts == [] then [] else [|parts|] + Shape(parts[0])
  }

  /** Only tensors of the source are seen as bytes. */
  function BytesEach(t: Tensor): ItemSize {
    if t.Source? then t.itemSize else 1
  }

  /** Seen as single bytes, the last axis is as many times longer as an element has bytes. */
  function InBytes(s: seq<nat>, itemSize: ItemSize): (r: seq<nat>)
    ensures |r| == |s|
  {
    if s == [] then s else s[..|s| - 1] + [s[|s| - 1] * itemSize]
  }

  function ByteShape(t: Tensor): seq<nat> {
    InBytes(Shape(t), BytesEach(t))
  }

  /** 16 bytes of nibbles become 17 with their scale. */
  function PackedShape(s: seq<nat>): seq<nat> {
    if |s| == 2 then [s[0], s[1] / 16 * 17] else []
  }

  function JoinedShape(e: seq<nat>, h: seq<nat>): seq<nat> {
    if Joinable(e, h) then e[1 := e[1] + h[1]] else []
  }

  /** Joining along axis 1 needs equal sizes everywhere else. */
  predicate Joinable(e: seq<nat>, h: seq<nat>) {
    |e| == |h| >= 2 && forall i :: 0 <= i < |e| && i != 1 ==> e[i] == h[i]
  }

  predicate SameShapes(parts: seq<Tensor>) {
    forall i :: 0 <= i < |parts| ==> Shape(parts[i]) == Shape(parts[0])
  }

  // ---- joining a weight with its scale ----

  /** Whole blocks of 32 nibbles, one scale byte each. */
  predicate Packable(weight: Tensor, scale: Tensor) {
    var w := ByteShape(weight);
    |w| == 2 && w[1] % 16 == 0 && ByteShape(scale) == [w[0], w[1] / 16]
  }

  function Pack(weight: Tensor, scale: Tensor): Option<Tensor> {
    if Packable(weight, scale) then Some(Packed(weight, scale)) else None
  }

  /** How often a scale is repeated is found by dividing by its sizes. */
  predicate Dequantizable(weight: Tensor, scale: Tensor) {
    |Shape(weight)| == 2 && |Shape(scale)| == 2 ==> 0 !in Shape(scale)
  }

  /** Only matrices are scaled, and only by matrices. */
  function Rescaled(weight: Tensor, scale: Tensor): (t: Tensor)
    ensures Shape(t) == Shape(weight)
  {
    if |Shape(weight)| == 2 && |Shape(scale)| == 2 then Dequantized(weight, scale) else weight
  }

  function Dequantize(weight: Tensor, scale: Tensor): Option<Tensor> {
    if Dequantizable(weight, scale) then Some(Rescaled(weight, scale)) else None
  }

  // ---- one arrival ----

  function GroupOf(k: Key): Group
    requires k.Expert?
  {
    Group(k.layer, k.projection)
  }

  function Gathered(st: State, g: Group): map<nat, Tensor> {
    if g in st.experts then st.experts[g] else map[]
  }

  predicate IsRange(ids: set<nat>, n: nat) {
    (forall e :: e in ids ==> e < n) && (forall e :: 0 <= e < n ==> e in ids)
  }

  function InOrder(parts: map<nat, Tensor>, n: nat): (r: seq<Tensor>)
    requires IsRange(parts.Keys, n)
    ensures |r| == n && forall e :: 0 <= e < n ==> r[e] == parts[e]
  {
    seq(n, e requires 0 <= e < n => parts[e])
  }

  function StackOf(parts: map<nat, Tensor>, n: nat): Tensor
    requires IsRange(parts.Keys, n)
  {
    Stacked(InOrder(parts, n))
  }

  /** Adds an expert to its group; a full group must hold every expert once, all of one shape, and becomes
      one tensor. */
  function Collect(c: Config, st: State, k: Key, t: Tensor, packed: bool): Option<State>
    requires k.Expert?
  {
    var g := GroupOf(k);
    var parts := Gathered(st, g)[k.expert := t];
    if c.nExperts <= 0 || |parts| < c.nExperts then Some(st.(experts := st.experts[g := parts]))
    else if !IsRange(parts.Keys, c.nExperts) || !SameShapes(InOrder(parts, c.nExperts)) then None
    else Some(Emit(st, g, StackOf(parts, c.nExperts), packed))
  }

  /** Packed experts are kept for later as raw blocks, others are written. */
  function Emit(st: State, g: Group, stacked: Tensor, packed: bool): State {
    var rest := st.(experts := st.experts - {g});
    if packed then rest.(raw := st.raw[Experts(g) := stacked])
    else rest.(written := st.written[Experts(g) := stacked])
  }

  function JoinInputs(st: State, k: Key, t: Tensor): Option<State>
    requires k.Input?
  {
    var inputs := st.inputs[k := t];
    var e, h := Input(k.layer, true), Input(k.layer, false);
    if e !in inputs || h !in inputs then Some(st.(inputs := inputs))
    else if !Joinable(Shape(inputs[e]), Shape(inputs[h])) then None
    else Some(st.(inputs := inputs - {e, h}, written := st.written[JoinedInput(k.layer) := Joined(inputs[e], inputs[h])]))
  }

  function Write(c: Config, st: State, name: Name, t: Tensor): Option<State> {
    if name in c.known then Some(st.(written := st.written[Mapped(name) := t])) else None
  }

  /** A weight that needs no scale, or has been joined with it. */
  function Deliver(c: Config, st: State, k: Key, t: Tensor): Option<State> {
    match k
    case Expert(_, _, _) => Collect(c, st, k, t, false)
    case Input(_, _) => JoinInputs(st, k, t)
    case Other(_) => Write(c, st, Weight(k), t)
  }

  function Pair(c: Config, st: State, k: Key, weight: Tensor, scale: Tensor): Option<State> {
    if k.Expert? then
      var packed :- Pack(weight, scale);
      Collect(c, st, k, packed, true)
    else
      var t :- Dequantize(weight, scale);
      Deliver(c, st, k, AsFloat(t))
  }

  function Arrive(c: Config, st: State, name: Name, t: Tensor): Option<State> {
    match name
    case Scale(k) =>
      if k == HEAD then Some(st)
      else if k !in st.pending then Some(st.(scales := st.scales[k := t]))
      else Pair(c, st.(pending := st.pending - {k}, scales := st.scales - {k}), k, st.pending[k], t)
    case Weight(k) =>
      if k !in c.expected then Deliver(c, st, k, AsFloat(t))
      else if k !in st.scales then Some(st.(pending := st.pending[k := t]))
      else Pair(c, st.(scales := st.scales - {k}), k, t, st.scales[k])
    case Plain(_) => Write(c, st, name, AsFloat(t))
  }

  // ---- whole runs ----

  type Arrivals = seq<(Name, Tensor)>

  function Run(c: Config, st: State, a: Arrivals): Option<State> {
    if a == [] then Some(st)
    else
      var before :- Run(c, st, a[..|a| - 1]);
      Arrive(c, before, a[|a| - 1].0, a[|a| - 1].1)
  }

  function Finish(st: State): Option<(Tensors, Tensors)> {
    if st.inputs != map[] || st.experts != map[] || st.pending != map[] then None
    else Some((st.written, st.raw))
  }

  function AsMap(a: Arrivals): (r: map<Name, Tensor>)
    ensures forall name :: name in r <==> exists i :: 0 <= i < |a| && a[i].0 == name
  {
    if a == [] then map[]
    else
      var n := |a| - 1;
      assert a == a[..n] + [a[n]];
      AsMap(a[..n])[a[n].0 := a[n].1]
  }

  predicate EachOnce(a: Arrivals) {
    forall i, j :: 0 <= i < j < |a| ==> a[i].0 != a[j].0
  }

  function ConfigOf(all: map<Name, Tensor>, nExperts: int, known: set<Name>): Config {
    Config(set name | name in all && name.Scale? :: name.key, nExperts, known)
  }

  /** The tensors written, and those kept as packed blocks; nothing when the run fails. */
  function Export(a: Arrivals, nExperts: int, known: set<Name>): Option<(Tensors, Tensors)> {
    var st :- Run(ConfigOf(AsMap(a), nExperts, known), START, a);
    Finish(st)
  }

  lemma Nibbles(bytes: nat)
    ensures bytes * 2 % 32 == 0 <==> bytes % 16 == 0
    ensures bytes * 2 / 32 == bytes / 16
  {
  }

  // ---- the converter object ----

  class Converter {
    const config: Config
    var mtpScales: map<Key, Tensor>
    var mtpPendingWeights: map<Key, Tensor>
    var mtpProjectionParts: map<Key, Tensor>
    var mtpExperts: map<Group, map<nat, Tensor>>
    var mtpRawTensors: Tensors
    var written: Tensors

    constructor (config: Config)
      ensures this.config == config && Now() == START
    {
      this.config := config;
      mtpScales, mtpPendingWeights, mtpProjectionParts, mtpExperts := map[], map[], map[], map[];
      mtpRawTensors, written := map[], map[];
    }

    function Now(): State
      reads this
    {
      State(mtpScales, mtpPendingWeights, mtpProjectionParts, mtpExperts, mtpRawTensors, written)
    }

    method AddTensor(name: Out, t: Tensor)
      modifies this`written
      ensures written == old(written)[name := t]
    {
      written := written[name := t];
    }

    /** Adds one expert; a complete group is returned, and false when it holds wrong experts or unequal shapes. */
    method GatherExpert(k: Key, t: Tensor) returns (ok: bool, stacked: Option<Tensor>)
      requires k.Expert?
      modifies this`mtpExperts
      ensures var parts := Gathered(old(Now()), GroupOf(k))[k.expert := t];
        if config.nExperts <= 0 || |parts| < config.nExperts then
          ok && stacked == None && mtpExperts == old(mtpExperts)[GroupOf(k) := parts]
        else if !IsRange(parts.Keys, config.nExperts) || !SameShapes(InOrder(parts, config.nExperts)) then !ok
        else ok && stacked == Some(StackOf(parts, config.nExperts)) && mtpExperts == old(mtpExperts) - {GroupOf(k)}
    {
      hide IsRange, StackOf, SameShapes;
      var key := GroupOf(k);
      if key !in mtpExperts {
        mtpExperts := mtpExperts[key := map[]];
      }
      var slots: map<nat, Tensor> := mtpExperts[key];
      slots := slots[k.expert := t];
      mtpExperts := mtpExperts[key := slots];
      assert mtpExperts == old(mtpExperts)[key := slots];
      if config.nExperts <= 0 || |mtpExperts[key]| < config.nExperts {
        return true, None;
      }
      var experts := mtpExperts[key];
      mtpExperts := mtpExperts - {key};
      if !IsRange(experts.Keys, config.nExperts) {
        return false, None;
      }
      assert mtpExperts == old(mtpExperts) - {key};
      stacked := StackExperts(experts);
      ok := stacked.Some?;
    }

    /** The experts in order, as one tensor; none when a shape differs. */
    method StackExperts(experts: map<nat, Tensor>) returns (stacked: Option<Tensor>)
      requires 0 < config.nExperts && IsRange(experts.Keys, config.nExperts)
      ensures stacked ==
        if SameShapes(InOrder(experts, config.nExperts)) then Some(StackOf(experts, config.nExperts)) else None
    {
      var parts: seq<Tensor> := [];
      for e := 0 to config.nExperts
        invariant |parts| == e && forall i :: 0 <= i < e ==> parts[i] == experts[i]
      {
        parts := parts + [experts[e]];
      }
      assert parts == InOrder(experts, config.nExperts);
      for e := 0 to |parts|
        invariant forall i :: 0 <= i < e ==> Shape(parts[i]) == Shape(parts[0])
      {
        if Shape(parts[e]) != Shape(parts[0]) {
          return None;
        }
      }
      return Some(Stacked(parts));
    }

    method RecordMtpExpert(k: Key, packed: Tensor) returns (ok: bool)
      requires k.Expert?
      modifies this
      ensures Collect(config, old(Now()), k, packed, true) == if ok then Some(Now()) else None
    {
      var stacked: Option<Tensor>;
      ok, stacked := GatherExpert(k, packed);
      if ok && stacked.Some? {
        mtpRawTensors := mtpRawTensors[Experts(GroupOf(k)) := stacked.value];
      }
    }

    static method PackMxfp4Blocks(weight: Tensor, scale: Tensor) returns (packed: Option<Tensor>)
      ensures packed == Pack(weight, scale)
    {
      hide InBytes;
      var packedShape, scaleShape := ByteShape(weight), ByteShape(scale);
      if |packedShape| != 2 {
        return None;
      }
      var outFeatures, logicalCols := packedShape[0], packedShape[1] * 2;
      Nibbles(packedShape[1]);
      if logicalCols % 32 != 0 {
        return None;
      }
      if scaleShape != [outFeatures, logicalCols / 32] {
        return None;
      }
      return Some(Packed(weight, scale));
    }

    static method DequantizeMtpWeight(weight: Tensor, scale: Tensor) returns (rescaled: Option<Tensor>)
      ensures rescaled == Dequantize(weight, scale)
    {
      if |Shape(weight)| != 2 || |Shape(scale)| != 2 {
        return Some(weight);
      }
      if Shape(scale)[0] == 0 || Shape(scale)[1] == 0 {
        return None;
      }
      return Some(Dequantized(weight, scale));
    }

    /** False stands for the exceptions of the converter. */
    method ModifyTensors(dataTorch: Tensor, name: Name) returns (ok: bool)
      modifies this
      ensures Arrive(config, old(Now()), name, dataTorch) == if ok then Some(Now()) else None
    {
      if name == Scale(HEAD) {
        return true;
      }
      var data, weightName := dataTorch, name;
      if name.Scale? {
        var key := name.key;
        mtpScales := mtpScales[key := data];
        if key !in mtpPendingWeights {
          return true;
        }
        var weight := mtpPendingWeights[key];
        mtpPendingWeights := mtpPendingWeights - {key};
        var scale := mtpScales[key];
        mtpScales := mtpScales - {key};
        assert mtpScales == old(mtpScales) - {key};
        if key.Expert? {
          var packed := PackMxfp4Blocks(weight, scale);
          if packed == None {
            return false;
          }
          ok := RecordMtpExpert(key, packed.value);
          return;
        }
        var rescaled := DequantizeMtpWeight(weight, scale);
        if rescaled == None {
          return false;
        }
        data := rescaled.value;
        weightName := Weight(key);
      } else if name.Weight? && name.key in config.expected {
        var key := name.key;
        if key !in mtpScales {
          mtpPendingWeights := mtpPendingWeights[key := data];
          return true;
        }
        var scale := mtpScales[key];
        mtpScales := mtpScales - {key};
        if key.Expert? {
          var packed := PackMxfp4Blocks(data, scale);
          if packed == None {
            return false;
          }
          ok := RecordMtpExpert(key, packed.value);
          return;
        }
        var rescaled := DequantizeMtpWeight(data, scale);
        if rescaled == None {
          return false;
        }
        data := rescaled.value;
      }
      ok := EmitTensor(AsFloat(data), weightName);
    }

    /** The part of ModifyTensors for a tensor that has no scale any more. */
    method EmitTensor(data: Tensor, name: Name) returns (ok: bool)
      requires !name.Scale?
      modifies this
      ensures (if name.Weight? then Deliver(config, old(Now()), name.key, data)
               else Write(config, old(Now()), name, data)) == if ok then Some(Now()) else None
    {
      if name.Weight? && name.key.Input? {
        mtpProjectionParts := mtpProjectionParts[name.key := data];
        var e, h := Input(name.key.layer, true), Input(name.key.layer, false);
        if e !in mtpProjectionParts || h !in mtpProjectionParts {
          return true;
        }
        var eProj, hProj := mtpProjectionParts[e], mtpProjectionParts[h];
        if !Joinable(Shape(eProj), Shape(hProj)) {
          return false;
        }
        mtpProjectionParts := mtpProjectionParts - {e, h};
        AddTensor(JoinedInput(name.key.layer), Joined(eProj, hProj));
        return true;
      }
      if name.Weight? && name.key.Expert? {
        var stacked: Option<Tensor>;
        ok, stacked := GatherExpert(name.key, data);
        if ok && stacked.Some? {
          AddTensor(Experts(GroupOf(name.key)), stacked.value);
        }
        return;
      }
      if name !in config.known {
        return false;
      }
      AddTensor(Mapped(name), data);
      return true;
    }

    method PrepareTensors(arrivals: Arrivals) returns (r: Option<(Tensors, Tensors)>)
      requires Now() == START
      modifies this
      ensures r == match Run(config, START, arrivals) case None => None case Some(st) => Finish(st)
    {
      for i := 0 to |arrivals|
        invariant Run(config, START, arrivals[..i]) == Some(Now())
      {
        assert arrivals[..i + 1][..i] == arrivals[..i];
        var ok := ModifyTensors(arrivals[i].1, arrivals[i].0);
        if !ok {
          assert Run(config, START, arrivals[..i + 1]) == None;
          RunFails(config, START, arrivals, i + 1);
          return None;
        }
      }
      assert arrivals[..|arrivals|] == arrivals;
      if mtpProjectionParts != map[] {
        return None;
      }
      if mtpExperts != map[] {
        return None;
      }
      if mtpPendingWeights != map[] {
        return None;
      }
      return Some((written, mtpRawTensors));
    }
  }

  /** A run that has failed stays failed. */
  lemma {:induction false} RunFails(c: Config, st: State, a: Arrivals, n: nat)
    requires n <= |a| && Run(c, st, a[..n]) == None
    ensures Run(c, st, a) == None
  {
    if n == |a| {
      assert a[..n] == a;
    } else {
      var b := a[..|a| - 1];
      assert b[..n] == a[..n];
      RunFails(c, st, b, n);
    }
  }
}
