/** Scanning the legacy model files GGML, GGMF and GGJT. */
module Ggml {
  import opened Wrappers

  type Byte = x: int | 0 <= x < 256
  type Bytes = seq<Byte>

  datatype Error =
    | Truncated | AlreadyGguf | UnknownMagic | BadVersion | BadFileType | NotEligible
    | AbsurdLength | TooManyDims | UnknownType | SizeOverflow | NoFeedForward

  type Result<+T> = Wrappers.Result<T, Error>

  datatype Format = GGML | GGMF | GGJT

  /** Values per block and bytes per block of a tensor type. */
  datatype Quant = Quant(blockSize: int, typeSize: int)

  type Quants = q: map<int, Quant> | forall t :: t in q ==> q[t].blockSize > 0 && q[t].typeSize >= 0 witness map[]

  datatype Hyper = Hyper(nVocab: int, nEmbd: int, nMult: int, nHead: int, nLayer: int, nRot: int, fileType: int)

  /** The score is kept by its bits; the oldest format has none. */
  datatype Item = Item(text: Bytes, score: Score)
  datatype Score = NoScore | Bits(bits: int)

  datatype TensorInfo = TensorInfo(name: Bytes, dims: seq<int>, dtype: int, start: nat, size: nat)

  datatype Model = Model(format: Format, version: int, hyper: Hyper, items: seq<Item>, tensors: seq<TensorInfo>, end: nat)

  // ---- reading numbers and slices ----

  function U32Of(a: Byte, b: Byte, c: Byte, d: Byte): (n: int)
    ensures 0 <= n < 0x1_0000_0000
  {
    a + 256 * (b + 256 * (c + 256 * d))
  }

  function U32(data: Bytes, offset: nat): (r: Result<int>)
    ensures r.Ok? <==> offset + 4 <= |data|
    ensures r.Ok? ==> 0 <= r.value < 0x1_0000_0000
  {
    if offset + 4 > |data| then Err(Truncated)
    else Ok(U32Of(data[offset], data[offset + 1], data[offset + 2], data[offset + 3]))
  }

  function U32s(data: Bytes, offset: nat, n: nat): (r: Result<seq<int>>)
    ensures r.Ok? ==> |r.value| == n
    decreases n
  {
    if n == 0 then Ok([])
    else
      var first :- U32(data, offset);
      var rest :- U32s(data, offset + 4, n - 1);
      Ok([first] + rest)
  }

  /** A slice that stops at the end of the data. */
  function Slice(data: Bytes, from: nat, len: nat): Bytes {
    if from >= |data| then [] else if from + len > |data| then data[from..] else data[from..from + len]
  }

  // ---- the parts of a file ----

  const GGUF_MAGIC: Bytes := [0x47, 0x47, 0x55, 0x46]
  const GGML_MAGIC: Bytes := [0x6c, 0x6d, 0x67, 0x67]
  const GGMF_MAGIC: Bytes := [0x66, 0x6d, 0x67, 0x67]
  const GGJT_MAGIC: Bytes := [0x74, 0x6a, 0x67, 0x67]

  /** Format, version and length of the header. */
  function Header(data: Bytes): (r: Result<(Format, int, nat)>) {
    var magic := Slice(data, 0, 4);
    if magic == GGUF_MAGIC then Err(AlreadyGguf)
    else if magic == GGML_MAGIC then Ok((GGML, 1, 4))
    else
      var version :- U32(data, 4);
      if magic == GGMF_MAGIC then if version != 1 then Err(BadVersion) else Ok((GGMF, version, 8))
      else if magic == GGJT_MAGIC then
        if version < 1 || version > 3 then Err(BadVersion) else Ok((GGJT, version, 8))
      else Err(UnknownMagic)
  }

  predicate IsFileType(t: int) {
    0 <= t <= 4 || 7 <= t <= 18
  }

  function ReadHyper(data: Bytes, offset: nat): Result<Hyper> {
    var v :- U32s(data, offset, 7);
    if !IsFileType(v[6]) then Err(BadFileType) else Ok(Hyper(v[0], v[1], v[2], v[3], v[4], v[5], v[6]))
  }

  /** Quantised data is only understood from the version on in which its layout last changed. */
  predicate Eligible(format: Format, version: int, fileType: int) {
    if format != GGJT || version < 2 then fileType == 0 || fileType == 1
    else version == 2 ==> fileType !in {2, 3, 4, 7}
  }

  function ReadItem(data: Bytes, offset: nat, loadScores: bool): Result<(Item, nat)> {
    var len :- U32(data, offset);
    if len >= 4096 then Err(AbsurdLength)
    else
      var text := Slice(data, offset + 4, len);
      if !loadScores then Ok((Item(text, NoScore), offset + 4 + len))
      else
        var bits :- U32(data, offset + 4 + len);
        Ok((Item(text, Bits(bits)), offset + 4 + len + 4))
  }

  function ReadItems(data: Bytes, offset: nat, n: nat, loadScores: bool): Result<(seq<Item>, nat)>
    decreases n
  {
    if n == 0 then Ok(([], offset))
    else
      var (item, next) :- ReadItem(data, offset, loadScores);
      var (items, end) :- ReadItems(data, next, n - 1, loadScores);
      Ok(([item] + items, end))
  }

  function Product(dims: seq<int>): int {
    if dims == [] then 1 else dims[0] * Product(dims[1..])
  }

  /** Bytes to the next multiple of 32. */
  function Pad(offset: nat): (n: nat)
    ensures n < 32 && (offset + n) % 32 == 0
  {
    (offset + 31) / 32 * 32 - offset
  }

  function ByteCount(dims: seq<int>, quant: Quant): int
    requires quant.blockSize > 0
  {
    Product(dims) * quant.typeSize / quant.blockSize
  }

  predicate Fits(dims: seq<int>, quant: Quant) {
    0 <= Product(dims) < 0x8000_0000_0000_0000 && 0 <= Product(dims) * quant.typeSize < 0x8000_0000_0000_0000
  }

  lemma WordsInside(data: Bytes, offset: nat, n: nat)
    requires U32s(data, offset, n).Ok? && n > 0
    ensures offset + 4 <= |data|
  {
  }

  /** Where the data of a tensor starts, and how much of it there is. */
  function ReadTensor(quants: Quants, data: Bytes, offset: nat, usePadding: bool): (r: Result<TensorInfo>)
    ensures r.Ok? ==> offset + 12 <= r.value.start && offset < |data|
    ensures r.Ok? && usePadding ==> r.value.start % 32 == 0
  {
    hide U32s, Slice, Fits;
    var head :- U32s(data, offset, 3);
    var nDims, nameLen, dtype := head[0], head[1], head[2];
    WordsInside(data, offset, 3);
    if nDims < 0 || nDims > 4 then Err(TooManyDims)
    else if nameLen < 0 || nameLen >= 4096 then Err(AbsurdLength)
    else if dtype !in quants then Err(UnknownType)
    else
      var dims :- U32s(data, offset + 12, nDims);
      var nameAt := offset + 12 + 4 * nDims;
      var name := Slice(data, nameAt, nameLen);
      var afterName := nameAt + nameLen;
      var start := afterName + if usePadding then Pad(afterName) else 0;
      if !Fits(dims, quants[dtype]) then Err(SizeOverflow)
      else
        CountNonnegative(dims, quants[dtype]);
        Ok(TensorInfo(name, dims, dtype, start, ByteCount(dims, quants[dtype])))
  }

  lemma CountNonnegative(dims: seq<int>, quant: Quant)
    requires quant.blockSize > 0 && Fits(dims, quant)
    ensures ByteCount(dims, quant) >= 0
  {
    DivNonnegative(Product(dims) * quant.typeSize, quant.blockSize);
  }

  lemma DivNonnegative(a: int, b: int)
    requires a >= 0 && b > 0
    ensures a / b >= 0
  {
  }

  function ReadTensors(quants: Quants, data: Bytes, offset: nat, usePadding: bool): Result<(seq<TensorInfo>, nat)>
    decreases |data| - offset
  {
    if offset >= |data| then Ok(([], offset))
    else
      var t :- ReadTensor(quants, data, offset, usePadding);
      var (ts, end) :- ReadTensors(quants, data, t.start + t.size, usePadding);
      Ok(([t] + ts, end))
  }

  // layers.0.feed_forward.w1.weight
  const FEED_FORWARD: Bytes := [
    0x6c, 0x61, 0x79, 0x65, 0x72, 0x73, 0x2e, 0x30, 0x2e, 0x66, 0x65, 0x65, 0x64, 0x5f, 0x66, 0x6f,
    0x72, 0x77, 0x61, 0x72, 0x64, 0x2e, 0x77, 0x31, 0x2e, 0x77, 0x65, 0x69, 0x67, 0x68, 0x74]

  /** The last position of each name. */
  function NameMap(ts: seq<TensorInfo>): (m: map<Bytes, nat>)
    ensures forall n :: n in m ==> m[n] < |ts| && ts[m[n]].name == n
  {
    if ts == [] then map[] else NameMap(ts[..|ts| - 1])[ts[|ts| - 1].name := |ts| - 1]
  }

  /** The length of the hidden layer is taken from a tensor of the first layer, which must be there. */
  predicate HasFeedForward(ts: seq<TensorInfo>) {
    FEED_FORWARD in NameMap(ts) && |ts[NameMap(ts)[FEED_FORWARD]].dims| >= 2
  }

  function ReadModel(quants: Quants, data: Bytes): Result<Model> {
    var (format, version, length) :- Header(data);
    var hyper :- ReadHyper(data, length);
    if !Eligible(format, version, hyper.fileType) then Err(NotEligible)
    else
      var (items, atTensors) :- ReadItems(data, length + 28, hyper.nVocab, format != GGML);
      var (tensors, end) :- ReadTensors(quants, data, atTensors, format == GGJT);
      if !HasFeedForward(tensors) then Err(NoFeedForward)
      else Ok(Model(format, version, hyper, items, tensors, end))
  }

  // ---- the loaders ----

  /** What has been read, followed by what is still to be read. */
  function After<T>(done: seq<T>, rest: Result<(seq<T>, nat)>): Result<(seq<T>, nat)> {
    match rest case Ok((more, end)) => Ok((done + more, end)) case Err(e) => Err(e)
  }

  lemma AfterOne<T>(done: seq<T>, x: T, rest: Result<(seq<T>, nat)>)
    ensures After(done, After([x], rest)) == After(done + [x], rest)
  {
    if rest.Ok? {
      assert done + ([x] + rest.value.0) == done + [x] + rest.value.0;
    }
  }

  class Vocab {
    var items: seq<Item>
    const loadScores: bool

    constructor (loadScores: bool)
      ensures this.loadScores == loadScores && items == []
    {
      this.loadScores := loadScores;
      items := [];
    }

    /** The number of bytes read. */
    method Load(data: Bytes, offset: nat, nVocab: nat) returns (r: Result<nat>)
      modifies this
      ensures match ReadItems(data, offset, nVocab, loadScores)
              case Err(e) => r == Err(e)
              case Ok((read, end)) => items == old(items) + read && offset <= end && r == Ok(end - offset)
    {
      hide ReadItem;
      var at := offset;
      ghost var done: seq<Item> := [];
      ghost var whole := ReadItems(data, offset, nVocab, loadScores);
      assert whole.Ok? ==> [] + whole.value.0 == whole.value.0;
      for i := 0 to nVocab
        invariant items == old(items) + done && offset <= at
        invariant After(done, ReadItems(data, at, nVocab - i, loadScores)) == whole
      {
        var item :- LoadItem(data, at);
        AfterOne(done, item.0, ReadItems(data, item.1, nVocab - i - 1, loadScores));
        items := items + [item.0];
        done := done + [item.0];
        at := item.1;
      }
      return Ok(at - offset);
    }

    method LoadItem(data: Bytes, offset: nat) returns (r: Result<(Item, nat)>)
      ensures r == ReadItem(data, offset, loadScores)
      ensures r.Ok? ==> offset <= r.value.1
    {
      var itemLen :- U32(data, offset);
      if itemLen >= 4096 {
        return Err(AbsurdLength);
      }
      var at := offset + 4;
      var itemText := Slice(data, at, itemLen);
      at := at + itemLen;
      var itemScore := NoScore;
      if loadScores {
        var bits :- U32(data, at);
        itemScore := Bits(bits);
        at := at + 4;
      }
      return Ok((Item(itemText, itemScore), at));
    }
  }

  class Tensor {
    var name: Bytes
    var dims: seq<int>
    var dtype: int
    var startOffset: nat
    var lenBytes: nat
    const usePadding: bool

    constructor (usePadding: bool)
      ensures this.usePadding == usePadding
    {
      this.usePadding := usePadding;
      name, dims, dtype, startOffset, lenBytes := [], [], 0, 0, 0;
    }

    function Info(): TensorInfo
      reads this
    {
      TensorInfo(name, dims, dtype, startOffset, lenBytes)
    }

    /** The number of bytes from the header to the end of the data. */
    method Load(quants: Quants, data: Bytes, offset: nat) returns (r: Result<nat>)
      modifies this
      ensures match ReadTensor(quants, data, offset, usePadding)
              case Err(e) => r == Err(e)
              case Ok(info) => Info() == info && r == Ok(info.start + info.size - offset)
    {
      hide Fits, ByteCount, Slice, Pad, U32s;
      var head :- U32s(data, offset, 3);
      var nDims, nameLen, dtype := head[0], head[1], head[2];
      if nDims < 0 || nDims > 4 {
        return Err(TooManyDims);
      }
      if nameLen < 0 || nameLen >= 4096 {
        return Err(AbsurdLength);
      }
      if dtype !in quants {
        return Err(UnknownType);
      }
      var quant := quants[dtype];
      var at := offset + 12;
      this.dtype := dtype;
      var dims :- U32s(data, at, nDims);
      this.dims := dims;
      at := at + 4 * nDims;
      name := Slice(data, at, nameLen);
      at := at + nameLen;
      var pad := 0;
      if usePadding {
        pad := Pad(at);
      }
      at := at + pad;
      if !Fits(dims, quant) {
        return Err(SizeOverflow);
      }
      CountNonnegative(dims, quant);
      startOffset := at;
      lenBytes := ByteCount(dims, quant);
      return Ok(at + lenBytes - offset);
    }
  }

  class GgmlModel {
    var fileFormat: Format
    var formatVersion: int
    var hyper: Hyper
    var items: seq<Item>
    var tensors: seq<TensorInfo>
    var tensorMap: map<Bytes, nat>

    constructor ()
    {
      fileFormat, formatVersion := GGML, 0;
      hyper := Hyper(0, 0, 0, 0, 0, 0, 0);
      items, tensors, tensorMap := [], [], map[];
    }

    function Loaded(end: nat): Model
      reads this
    {
      Model(fileFormat, formatVersion, hyper, items, tensors, end)
    }

    method ValidateHeader(data: Bytes) returns (r: Result<nat>)
      modifies this`fileFormat, this`formatVersion
      ensures match Header(data)
              case Err(e) => r == Err(e)
              case Ok((format, version, length)) =>
                fileFormat == format && formatVersion == version && r == Ok(length)
    {
      var magic := Slice(data, 0, 4);
      if magic == GGUF_MAGIC {
        return Err(AlreadyGguf);
      }
      if magic == GGML_MAGIC {
        fileFormat, formatVersion := GGML, 1;
        return Ok(4);
      }
      var version :- U32(data, 4);
      if magic == GGMF_MAGIC {
        if version != 1 {
          return Err(BadVersion);
        }
        fileFormat, formatVersion := GGMF, version;
        return Ok(8);
      }
      if magic == GGJT_MAGIC {
        if version < 1 || version > 3 {
          return Err(BadVersion);
        }
        fileFormat, formatVersion := GGJT, version;
        return Ok(8);
      }
      return Err(UnknownMagic);
    }

    method LoadTensors(quants: Quants, data: Bytes, offset: nat) returns (r: Result<nat>)
      modifies this`tensors, this`tensorMap
      ensures match ReadTensors(quants, data, offset, fileFormat == GGJT)
              case Err(e) => r == Err(e)
              case Ok((read, end)) => tensors == read && tensorMap == NameMap(read) && r == Ok(end)
    {
      hide ReadTensor, ReadTensors, NameMap, After;
      tensors, tensorMap := [], map[];
      var at := offset;
      ghost var whole := ReadTensors(quants, data, offset, fileFormat == GGJT);
      NothingRead(whole);
      while at < |data|
        invariant After(tensors, ReadTensors(quants, data, at, fileFormat == GGJT)) == whole
        invariant tensorMap == NameMap(tensors)
        decreases |data| - at
      {
        TensorStep(quants, data, at, fileFormat == GGJT, tensors);
        var tensor := new Tensor(fileFormat == GGJT);
        var length :- tensor.Load(quants, data, at);
        NameMapSnoc(tensors, tensor.Info());
        at := at + length;
        tensorMap := tensorMap[tensor.name := |tensors|];
        tensors := tensors + [tensor.Info()];
      }
      NoMoreTensors(quants, data, at, fileFormat == GGJT, tensors);
      return Ok(at);
    }

    method Load(quants: Quants, data: Bytes) returns (r: Result<nat>)
      modifies this
      ensures match ReadModel(quants, data)
              case Err(e) => r == Err(e)
              case Ok(model) => r == Ok(model.end) && Loaded(model.end) == model && tensorMap == NameMap(tensors)
    {
      hide Header, ReadHyper, ReadItems, ReadTensors, NameMap, Eligible;
      var length :- ValidateHeader(data);
      var hp :- ReadHyper(data, length);
      if !Eligible(fileFormat, formatVersion, hp.fileType) {
        return Err(NotEligible);
      }
      var vocab := new Vocab(fileFormat != GGML);
      HyperSmall(data, length);
      var vocabLen :- vocab.Load(data, length + 28, hp.nVocab);
      assert [] + vocab.items == vocab.items;
      var end :- LoadTensors(quants, data, length + 28 + vocabLen);
      hyper, items := hp, vocab.items;
      if FEED_FORWARD !in tensorMap || |tensors[tensorMap[FEED_FORWARD]].dims| < 2 {
        return Err(NoFeedForward);
      }
      return Ok(end);
    }
  }

  lemma NothingRead<T>(rest: Result<(seq<T>, nat)>)
    ensures After([], rest) == rest && NameMap([]) == map[]
  {
    if rest.Ok? {
      assert [] + rest.value.0 == rest.value.0;
    }
  }

  lemma NameMapSnoc(ts: seq<TensorInfo>, t: TensorInfo)
    ensures NameMap(ts + [t]) == NameMap(ts)[t.name := |ts|]
  {
    assert (ts + [t])[..|ts|] == ts;
  }

  lemma NoMoreTensors(quants: Quants, data: Bytes, at: nat, usePadding: bool, done: seq<TensorInfo>)
    requires at >= |data|
    ensures After(done, ReadTensors(quants, data, at, usePadding)) == Ok((done, at))
  {
    assert done + [] == done;
  }

  lemma TensorStep(quants: Quants, data: Bytes, at: nat, usePadding: bool, done: seq<TensorInfo>)
    requires at < |data|
    ensures After(done, ReadTensors(quants, data, at, usePadding)) ==
      match ReadTensor(quants, data, at, usePadding)
      case Err(e) => Err(e)
      case Ok(info) => After(done + [info], ReadTensors(quants, data, info.start + info.size, usePadding))
  {
    hide ReadTensor;
    var t := ReadTensor(quants, data, at, usePadding);
    if t.Ok? {
      AfterOne(done, t.value, ReadTensors(quants, data, t.value.start + t.value.size, usePadding));
    }
  }

  lemma HyperSmall(data: Bytes, offset: nat)
    ensures ReadHyper(data, offset).Ok? ==> ReadHyper(data, offset).value.nVocab >= 0
  {
  }
}
