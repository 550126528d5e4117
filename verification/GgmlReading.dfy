/** What the scan of a legacy file reads, told by the bytes of the file. */
module GgmlReading {
  import opened Wrappers
  import opened Ggml

  predicate Inside(data: Bytes, at: nat, n: nat) {
    at + n <= |data|
  }

  /** The number at a place, its lowest byte first. */
  function NumberAt(data: Bytes, at: nat): int {
    if Inside(data, at, 4) then
      (data[at] as int) + 0x100 * (data[at + 1] as int) + 0x1_0000 * (data[at + 2] as int) + 0x100_0000 * (data[at + 3] as int)
    else 0
  }

  lemma {:induction false} NumbersRead(data: Bytes, at: nat, n: nat)
    ensures U32s(data, at, n).Ok? <==> n == 0 || Inside(data, at, 4 * n)
    ensures U32s(data, at, n).Ok? ==> forall i :: 0 <= i < n ==> U32s(data, at, n).value[i] == NumberAt(data, at + 4 * i)
    decreases n
  {
    if n > 0 {
      NumbersRead(data, at + 4, n - 1);
      assert U32(data, at).Ok? ==> U32(data, at).value == NumberAt(data, at);
      assert forall i :: 0 < i < n ==> at + 4 + 4 * (i - 1) == at + 4 * i;
    }
  }

  // ---- the header ----

  predicate Begins(data: Bytes, magic: string) {
    |data| >= |magic| && forall i :: 0 <= i < |magic| ==> data[i] == magic[i] as int
  }

  /** The formats, told by how the data begins and by the version after that. */
  predicate IsHeader(data: Bytes, format: Format, version: int, length: nat) {
    match format
    case GGML => Begins(data, "lmgg") && version == 1 && length == 4
    case GGMF => Begins(data, "fmgg") && Inside(data, 4, 4) && version == NumberAt(data, 4) == 1 && length == 8
    case GGJT => Begins(data, "tjgg") && Inside(data, 4, 4) && version == NumberAt(data, 4) && 1 <= version <= 3 && length == 8
  }

  lemma HeaderRead(data: Bytes, format: Format, version: int, length: nat)
    ensures Header(data) == Ok((format, version, length)) <==> IsHeader(data, format, version, length)
  {
    hide U32, Slice, NumberAt;
    var magic := Slice(data, 0, 4);
    MagicIs(data, GGUF_MAGIC, "GGUF");
    MagicIs(data, GGML_MAGIC, "lmgg");
    MagicIs(data, GGMF_MAGIC, "fmgg");
    MagicIs(data, GGJT_MAGIC, "tjgg");
    VersionRead(data);
    DifferentStarts(data);
  }

  lemma MagicIs(data: Bytes, magic: Bytes, text: string)
    requires |magic| == |text| == 4 && forall i :: 0 <= i < 4 ==> magic[i] == text[i] as int
    ensures Slice(data, 0, 4) == magic <==> Begins(data, text)
  {
    var s := Slice(data, 0, 4);
    assert |data| >= 4 ==> s == data[0..4] && s[0] == data[0] && s[1] == data[1] && s[2] == data[2] && s[3] == data[3];
    assert |data| < 4 ==> |s| < 4;
    if Begins(data, text) {
      assert s == magic;
    }
  }

  lemma VersionRead(data: Bytes)
    ensures U32(data, 4).Ok? <==> Inside(data, 4, 4)
    ensures U32(data, 4).Ok? ==> U32(data, 4).value == NumberAt(data, 4)
  {
  }

  lemma DifferentStarts(data: Bytes)
    ensures Begins(data, "GGUF") ==> !Begins(data, "lmgg") && !Begins(data, "fmgg") && !Begins(data, "tjgg")
    ensures Begins(data, "lmgg") ==> !Begins(data, "fmgg") && !Begins(data, "tjgg")
    ensures Begins(data, "fmgg") ==> !Begins(data, "tjgg")
  {
    assert "GGUF"[0] == 'G' && "lmgg"[0] == 'l' && "fmgg"[0] == 'f' && "tjgg"[0] == 't';
  }

  // ---- one tensor ----

  /** How many elements n sizes at a place make. */
  function Elements(data: Bytes, at: nat, n: nat): int {
    if n == 0 then 1 else Elements(data, at, n - 1) * NumberAt(data, at + 4 * (n - 1))
  }

  lemma {:induction false} ProductSnoc(dims: seq<int>, d: int)
    ensures Product(dims + [d]) == Product(dims) * d
  {
    if dims == [] {
      assert dims + [d] == [d] && [d][1..] == [];
    } else {
      ProductSnoc(dims[1..], d);
      assert (dims + [d])[1..] == dims[1..] + [d];
      Reassociate(dims[0], Product(dims[1..]), d);
    }
  }

  lemma Reassociate(a: int, b: int, c: int)
    ensures a * (b * c) == (a * b) * c
  {
  }

  lemma {:induction false} ProductIs(data: Bytes, at: nat, dims: seq<int>)
    requires forall i :: 0 <= i < |dims| ==> dims[i] == NumberAt(data, at + 4 * i)
    ensures Product(dims) == Elements(data, at, |dims|)
  {
    hide NumberAt;
    if dims != [] {
      var k := |dims| - 1;
      ProductIs(data, at, dims[..k]);
      ProductSnoc(dims[..k], dims[k]);
      assert dims == dims[..k] + [dims[k]];
    }
  }

  lemma {:induction false} ElementsNonnegative(data: Bytes, at: nat, n: nat)
    ensures Elements(data, at, n) >= 0
  {
    if n > 0 {
      ElementsNonnegative(data, at, n - 1);
      NonnegativeTimes(Elements(data, at, n - 1), NumberAt(data, at + 4 * (n - 1)));
    }
  }

  lemma NonnegativeTimes(a: int, b: int)
    requires a >= 0 && b >= 0
    ensures a * b >= 0
  {
  }

  const LIMIT := 0x8000_0000_0000_0000

  /** At most four sizes, a name that is not too long, a known type, and numbers of 64 bits. */
  predicate IsTensor(quants: Quants, data: Bytes, at: nat) {
    && Inside(data, at, 12)
    && var n, length, dtype := NumberAt(data, at), NumberAt(data, at + 4), NumberAt(data, at + 8);
       && n <= 4 && length < 4096 && dtype in quants && Inside(data, at, 12 + 4 * n)
       && var count := Elements(data, at + 12, n);
          count < LIMIT && count * quants[dtype].typeSize < LIMIT
  }

  predicate IsStart(afterName: nat, usePadding: bool, start: nat) {
    if usePadding then afterName <= start < afterName + 32 && start % 32 == 0 else start == afterName
  }

  /** Sizes and name as they are written, the data behind them at the next multiple of 32 where the format asks
      for that, and as many bytes as the blocks that the elements make up have. */
  predicate TensorIs(quants: Quants, data: Bytes, at: nat, usePadding: bool, t: TensorInfo)
    requires IsTensor(quants, data, at)
  {
    var n, length, dtype := NumberAt(data, at), NumberAt(data, at + 4), NumberAt(data, at + 8);
    var name, total := at + 12 + 4 * n, Elements(data, at + 12, n) * quants[dtype].typeSize;
    && |t.dims| == n && (forall i :: 0 <= i < n ==> t.dims[i] == NumberAt(data, at + 12 + 4 * i))
    && t.dtype == dtype
    && t.name == (if Inside(data, name, length) then data[name..name + length] else data[name..])
    && IsStart(name + length, usePadding, t.start)
    && FillBlocks(t.size, quants[dtype].blockSize, total)
  }

  /** The largest number of which that many times the size of a block is not too much. */
  predicate FillBlocks(size: nat, blockSize: int, total: int) {
    size * blockSize <= total < (size + 1) * blockSize
  }

  lemma TensorRead(quants: Quants, data: Bytes, at: nat, usePadding: bool)
    ensures ReadTensor(quants, data, at, usePadding).Ok? <==> IsTensor(quants, data, at)
    ensures IsTensor(quants, data, at) ==> TensorIs(quants, data, at, usePadding, ReadTensor(quants, data, at, usePadding).value)
  {
    hide U32s, NumberAt, Elements, Slice, Product, Fits, FillBlocks, IsStart, ByteCount, Pad, Inside;
    NumbersRead(data, at, 3);
    NumberRange(data, at);
    NumberRange(data, at + 4);
    var n := NumberAt(data, at);
    NumbersRead(data, at + 12, n);
    InsideMore(data, at, 12, 4 * n);
    if Inside(data, at, 12) && n <= 4 && Inside(data, at, 12 + 4 * n) && NumberAt(data, at + 8) in quants {
      var dims, quant := U32s(data, at + 12, n).value, quants[NumberAt(data, at + 8)];
      var name := at + 12 + 4 * n;
      ProductIs(data, at + 12, dims);
      ElementsNonnegative(data, at + 12, n);
      FitsIs(dims, quant);
      BytesCounted(dims, quant);
      NameRead(data, name, NumberAt(data, at + 4));
      StartRead(name + NumberAt(data, at + 4), usePadding);
    }
  }

  lemma InsideMore(data: Bytes, at: nat, n: nat, m: nat)
    ensures Inside(data, at, n + m) <==> Inside(data, at, n) && Inside(data, at + n, m)
    ensures Inside(data, at, n + m) ==> at + n + m <= |data|
  {
  }

  lemma FitsIs(dims: seq<int>, quant: Quant)
    requires Product(dims) >= 0 && quant.typeSize >= 0
    ensures Fits(dims, quant) <==> Product(dims) < LIMIT && Product(dims) * quant.typeSize < LIMIT
  {
    hide Product;
    NonnegativeTimes(Product(dims), quant.typeSize);
  }

  lemma StartRead(afterName: nat, usePadding: bool)
    ensures IsStart(afterName, usePadding, afterName + if usePadding then Pad(afterName) else 0)
  {
    hide Pad;
  }

  lemma NumberRange(data: Bytes, at: nat)
    ensures NumberAt(data, at) >= 0
  {
  }

  lemma BytesCounted(dims: seq<int>, quant: Quant)
    requires quant.blockSize > 0 && quant.typeSize >= 0 && Product(dims) >= 0
    ensures ByteCount(dims, quant) >= 0 && FillBlocks(ByteCount(dims, quant), quant.blockSize, Product(dims) * quant.typeSize)
  {
    hide Product;
    NonnegativeTimes(Product(dims), quant.typeSize);
    DivNonnegative(Product(dims) * quant.typeSize, quant.blockSize);
    Quotient(Product(dims) * quant.typeSize, quant.blockSize);
  }

  lemma Quotient(a: int, b: int)
    requires b > 0
    ensures (a / b) * b <= a < (a / b + 1) * b
  {
  }

  lemma NameRead(data: Bytes, at: nat, length: nat)
    requires at <= |data|
    ensures Slice(data, at, length) == if Inside(data, at, length) then data[at..at + length] else data[at..]
  {
    assert data[|data|..] == [];
  }

  // ---- all tensors ----

  /** Each tensor begins where the data of the one before it ends, up to the end of the file. */
  ghost predicate TensorsAre(quants: Quants, data: Bytes, at: nat, usePadding: bool, ts: seq<TensorInfo>, end: nat)
    decreases |ts|
  {
    if ts == [] then at == end && at >= |data|
    else
      && at < |data| && IsTensor(quants, data, at) && TensorIs(quants, data, at, usePadding, ts[0])
      && TensorsAre(quants, data, ts[0].start + ts[0].size, usePadding, ts[1..], end)
  }

  lemma {:induction false} TensorsRead(quants: Quants, data: Bytes, at: nat, usePadding: bool, ts: seq<TensorInfo>, end: nat)
    ensures ReadTensors(quants, data, at, usePadding) == Ok((ts, end)) <==> TensorsAre(quants, data, at, usePadding, ts, end)
    decreases |ts|
  {
    hide ReadTensor, IsTensor, TensorIs;
    TensorRead(quants, data, at, usePadding);
    var t := ReadTensor(quants, data, at, usePadding);
    if at < |data| && ts != [] && t.Ok? {
      if IsTensor(quants, data, at) && TensorIs(quants, data, at, usePadding, ts[0]) {
        OneTensor(quants, data, at, usePadding, ts[0], t.value);
      }
      var next := t.value.start + t.value.size;
      TensorsRead(quants, data, next, usePadding, ts[1..], end);
      NextRead(t.value, ReadTensors(quants, data, next, usePadding), ts, end);
    }
  }

  lemma NextRead(t: TensorInfo, rest: Ggml.Result<(seq<TensorInfo>, nat)>, ts: seq<TensorInfo>, end: nat)
    requires ts != []
    ensures (rest.Ok? && [t] + rest.value.0 == ts && rest.value.1 == end) <==> (t == ts[0] && rest == Ok((ts[1..], end)))
  {
    if rest.Ok? && [t] + rest.value.0 == ts {
      assert ([t] + rest.value.0)[1..] == rest.value.0;
    }
    assert [ts[0]] + ts[1..] == ts;
  }

  /** The bytes say all of a tensor. */
  lemma OneTensor(quants: Quants, data: Bytes, at: nat, usePadding: bool, t: TensorInfo, u: TensorInfo)
    requires IsTensor(quants, data, at)
    requires TensorIs(quants, data, at, usePadding, t) && TensorIs(quants, data, at, usePadding, u)
    ensures t == u
  {
    hide NumberAt, Elements, Inside, IsStart, FillBlocks;
    NumberRange(data, at);
    NumberRange(data, at + 4);
    assert t.dims == u.dims;
    var dtype := NumberAt(data, at + 8);
    var n := NumberAt(data, at);
    OneCount(t.size, u.size, quants[dtype].blockSize, Elements(data, at + 12, n) * quants[dtype].typeSize);
    OneStart(at + 12 + 4 * n + NumberAt(data, at + 4), usePadding, t.start, u.start);
  }

  lemma OneStart(afterName: nat, usePadding: bool, s: nat, u: nat)
    requires IsStart(afterName, usePadding, s) && IsStart(afterName, usePadding, u)
    ensures s == u
  {
  }

  lemma OneCount(m: nat, n: nat, blockSize: int, total: int)
    requires blockSize > 0 && FillBlocks(m, blockSize, total) && FillBlocks(n, blockSize, total)
    ensures m == n
  {
    MoreBlocks(m, n, blockSize);
    MoreBlocks(n, m, blockSize);
  }

  lemma MoreBlocks(m: nat, n: nat, blockSize: int)
    requires blockSize > 0
    ensures m < n ==> (m + 1) * blockSize <= n * blockSize
  {
    if m < n {
      NonnegativeTimes(n - m - 1, blockSize);
      assert n * blockSize == (m + 1) * blockSize + (n - m - 1) * blockSize;
    }
  }

  // ---- the whole file ----

  /** Each item is a length below 4096, as many bytes, and in later formats the bits of a score. */
  ghost predicate ItemsAre(data: Bytes, at: nat, scores: bool, items: seq<Item>, end: nat)
    decreases |items|
  {
    if items == [] then at == end
    else
      && Inside(data, at, 4) && NumberAt(data, at) < 4096
      && var text := at + 4 + NumberAt(data, at);
         && items[0].text == (if text <= |data| then data[at + 4..text] else data[at + 4..])
         && if scores then
              && Inside(data, text, 4) && items[0].score == Bits(NumberAt(data, text))
              && ItemsAre(data, text + 4, scores, items[1..], end)
            else items[0].score == NoScore && ItemsAre(data, text, scores, items[1..], end)
  }

  lemma {:induction false} ItemsRead(data: Bytes, at: nat, n: nat, scores: bool, items: seq<Item>, end: nat)
    ensures ReadItems(data, at, n, scores) == Ok((items, end)) <==> |items| == n && ItemsAre(data, at, scores, items, end)
    decreases n
  {
    hide U32, NumberAt, Slice;
    if n > 0 && items != [] {
      var item := ReadItem(data, at, scores);
      OneNumber(data, at);
      if Inside(data, at, 4) {
        var length := NumberAt(data, at);
        NumberRange(data, at);
        InsideMore(data, at, 4, length);
        NameRead(data, at + 4, length);
        OneNumber(data, at + 4 + length);
      }
      if item.Ok? {
        var next := item.value.1;
        ItemsRead(data, next, n - 1, scores, items[1..], end);
        NextItem(item.value.0, ReadItems(data, next, n - 1, scores), items, end);
      }
    }
  }

  lemma NextItem(item: Item, rest: Ggml.Result<(seq<Item>, nat)>, items: seq<Item>, end: nat)
    requires items != []
    ensures (rest.Ok? && [item] + rest.value.0 == items && rest.value.1 == end) <==> (item == items[0] && rest == Ok((items[1..], end)))
  {
    if rest.Ok? && [item] + rest.value.0 == items {
      assert ([item] + rest.value.0)[1..] == rest.value.0;
    }
    assert [items[0]] + items[1..] == items;
  }

  lemma OneNumber(data: Bytes, at: nat)
    ensures U32(data, at) == if Inside(data, at, 4) then Ok(NumberAt(data, at)) else Err(Truncated)
  {
  }

  predicate Named(t: TensorInfo, name: string) {
    |t.name| == |name| && forall i :: 0 <= i < |name| ==> t.name[i] == name[i] as int
  }

  /** Seven numbers, the last of them one of the file types. */
  predicate HyperIs(data: Bytes, at: nat, h: Hyper) {
    && Inside(data, at, 28)
    && h == Hyper(NumberAt(data, at), NumberAt(data, at + 4), NumberAt(data, at + 8), NumberAt(data, at + 12),
                  NumberAt(data, at + 16), NumberAt(data, at + 20), NumberAt(data, at + 24))
    && h.fileType in {0, 1, 2, 3, 4, 7, 8, 9, 10, 11, 12, 13, 14, 15, 16, 17, 18}
  }

  /** The last tensor of a name has at least two sizes. */
  predicate HasLast(ts: seq<TensorInfo>, name: string) {
    exists j :: 0 <= j < |ts| && Named(ts[j], name) && |ts[j].dims| >= 2 && forall k :: j < k < |ts| ==> !Named(ts[k], name)
  }

  ghost predicate PartsAre(quants: Quants, data: Bytes, at: nat, scores: bool, padded: bool, m: Model) {
    exists middle :: ItemsAre(data, at, scores, m.items, middle) && TensorsAre(quants, data, middle, padded, m.tensors, m.end)
  }

  /** Files of floating point numbers are always understood; quantised ones from the second version of the last
      format on, and those with 4 or 8 bits a weight only from the third. */
  predicate IsUnderstood(format: Format, version: int, fileType: int) {
    fileType == 0 || fileType == 1 || (format == GGJT && (version >= 3 || (version == 2 && fileType !in {2, 3, 4, 7})))
  }

  /** What a file that loads holds, part by part. */
  ghost predicate Holds(quants: Quants, data: Bytes, m: Model) {
    var front := if m.format == GGML then 4 else 8;
    && IsHeader(data, m.format, m.version, front) && HyperIs(data, front, m.hyper)
    && IsUnderstood(m.format, m.version, m.hyper.fileType)
    && |m.items| == m.hyper.nVocab && PartsAre(quants, data, front + 28, m.format != GGML, m.format == GGJT, m)
    && HasLast(m.tensors, "layers.0.feed_forward.w1.weight")
  }

  /** A file loads, and as this model, exactly when its bytes say so. */
  lemma ModelRead(quants: Quants, data: Bytes, m: Model)
    ensures ReadModel(quants, data) == Ok(m) <==> Holds(quants, data, m)
  {
    hide Header, ReadModel, ReadHyper, ReadItems, ReadTensors, HasFeedForward, Eligible, IsUnderstood, HyperIs, IsHeader, PartsAre,
      HasLast, NumberAt;
    var front := if m.format == GGML then 4 else 8;
    LengthIs(data);
    HeaderRead(data, m.format, m.version, front);
    HyperRead(data, front, m.hyper);
    EligibleExactly(m.format, m.version, m.hyper.fileType);
    FeedForwardIs(m.tensors);
    if HyperIs(data, front, m.hyper) {
      HyperNatural(data, front, m.hyper);
      PartsRead(quants, data, front + 28, m.hyper.nVocab, m.format != GGML, m.format == GGJT, m);
    }
    ModelParts(quants, data, m, front);
  }

  /** The steps of the scan, and what each of them yields. */
  lemma ModelParts(quants: Quants, data: Bytes, m: Model, front: nat)
    requires Header(data).Ok? ==> Header(data).value.2 == if Header(data).value.0 == GGML then 4 else 8
    requires front == if m.format == GGML then 4 else 8
    ensures ReadModel(quants, data) == Ok(m) <==>
      && Header(data) == Ok((m.format, m.version, front)) && ReadHyper(data, front) == Ok(m.hyper)
      && Eligible(m.format, m.version, m.hyper.fileType) && HasFeedForward(m.tensors)
      && m.hyper.nVocab >= 0 && exists middle ::
           && ReadItems(data, front + 28, m.hyper.nVocab, m.format != GGML) == Ok((m.items, middle))
           && ReadTensors(quants, data, middle, m.format == GGJT) == Ok((m.tensors, m.end))
  {
    hide Header, ReadHyper, ReadItems, ReadTensors, HasFeedForward, Eligible;
    if Header(data).Ok? {
      var (format, version, length) := Header(data).value;
      HyperSmall(data, length);
      var hyper := ReadHyper(data, length);
      if hyper.Ok? && Eligible(format, version, hyper.value.fileType) {
        var items := ReadItems(data, length + 28, hyper.value.nVocab, format != GGML);
        if items.Ok? {
          var tensors := ReadTensors(quants, data, items.value.1, format == GGJT);
          assert items == Ok((items.value.0, items.value.1));
          assert tensors.Ok? ==> tensors == Ok((tensors.value.0, tensors.value.1));
        }
      }
    }
  }

  lemma LengthIs(data: Bytes)
    ensures Header(data).Ok? ==> Header(data).value.2 == if Header(data).value.0 == GGML then 4 else 8
  {
    hide U32, Slice;
  }

  lemma EligibleExactly(format: Format, version: int, fileType: int)
    ensures Eligible(format, version, fileType) <==> IsUnderstood(format, version, fileType)
  {
  }

  lemma PartsRead(quants: Quants, data: Bytes, at: nat, n: nat, scores: bool, padded: bool, m: Model)
    ensures (|m.items| == n && PartsAre(quants, data, at, scores, padded, m)) <==>
      exists middle :: ReadItems(data, at, n, scores) == Ok((m.items, middle))
        && ReadTensors(quants, data, middle, padded) == Ok((m.tensors, m.end))
  {
    hide ReadItems, ReadTensors, ItemsAre, TensorsAre;
    forall middle: nat
      ensures ReadItems(data, at, n, scores) == Ok((m.items, middle)) <==> |m.items| == n && ItemsAre(data, at, scores, m.items, middle)
      ensures ReadTensors(quants, data, middle, padded) == Ok((m.tensors, m.end)) <==> TensorsAre(quants, data, middle, padded, m.tensors, m.end)
    {
      ItemsRead(data, at, n, scores, m.items, middle);
      TensorsRead(quants, data, middle, padded, m.tensors, m.end);
    }
  }

  lemma HyperRead(data: Bytes, at: nat, h: Hyper)
    ensures ReadHyper(data, at) == Ok(h) <==> HyperIs(data, at, h)
  {
    hide U32s, NumberAt;
    NumbersRead(data, at, 7);
  }

  lemma HyperNatural(data: Bytes, at: nat, h: Hyper)
    requires HyperIs(data, at, h)
    ensures h.nVocab >= 0
  {
    NumberRange(data, at);
  }

  lemma FeedForwardIs(ts: seq<TensorInfo>)
    ensures HasFeedForward(ts) <==> HasLast(ts, "layers.0.feed_forward.w1.weight")
  {
    hide NameMap;
    LastOfName(ts, FEED_FORWARD);
    var name := "layers.0.feed_forward.w1.weight";
    assert |FEED_FORWARD| == |name| && forall i :: 0 <= i < |name| ==> FEED_FORWARD[i] == name[i] as int;
    forall k | 0 <= k < |ts| ensures Named(ts[k], name) <==> ts[k].name == FEED_FORWARD {
    }
  }

  lemma {:induction false} LastOfName(ts: seq<TensorInfo>, name: Bytes)
    ensures name in NameMap(ts) ==> forall k :: NameMap(ts)[name] < k < |ts| ==> ts[k].name != name
    ensures name !in NameMap(ts) ==> forall k :: 0 <= k < |ts| ==> ts[k].name != name
  {
    if ts != [] {
      LastOfName(ts[..|ts| - 1], name);
    }
  }
}
