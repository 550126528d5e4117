/** Writing the legacy formats, and what loading such a file, or any file, gives. */
module GgmlLayout {
  import opened Wrappers
  import opened Ggml

  // ---- pieces of data ----

  predicate HoldsAt(data: Bytes, offset: nat, piece: Bytes) {
    offset + |piece| <= |data| && data[offset..offset + |piece|] == piece
  }

  lemma HoldsBoth(data: Bytes, offset: nat, a: Bytes, b: Bytes)
    ensures HoldsAt(data, offset, a + b) <==> HoldsAt(data, offset, a) && HoldsAt(data, offset + |a|, b)
  {
    var n := |a| + |b|;
    if offset + n <= |data| {
      var s := data[offset..offset + n];
      assert s[..|a|] == data[offset..offset + |a|] && s[|a|..] == data[offset + |a|..offset + |a| + |b|];
      assert s == s[..|a|] + s[|a|..];
      assert (a + b)[..|a|] == a && (a + b)[|a|..] == b;
    }
  }

  function Put32(n: int): (b: Bytes)
    requires 0 <= n < 0x1_0000_0000
    ensures |b| == 4
  {
    [n % 256, n / 256 % 256, n / 256 / 256 % 256, n / 256 / 256 / 256]
  }

  lemma Put32Back(n: int)
    requires 0 <= n < 0x1_0000_0000
    ensures var b := Put32(n); U32Of(b[0], b[1], b[2], b[3]) == n
  {
  }

  predicate Small(n: int) {
    0 <= n < 0x1_0000_0000
  }

  predicate AllSmall(ns: seq<int>) {
    forall i :: 0 <= i < |ns| ==> Small(ns[i])
  }

  function Put32s(ns: seq<int>): (b: Bytes)
    requires AllSmall(ns)
    ensures |b| == 4 * |ns|
  {
    if ns == [] then []
    else
      assert Small(ns[0]);
      Put32(ns[0]) + Put32s(ns[1..])
  }

  lemma U32At(data: Bytes, offset: nat, n: int)
    requires Small(n) && HoldsAt(data, offset, Put32(n))
    ensures U32(data, offset) == Ok(n)
  {
    hide U32Of;
    var b := Put32(n);
    Put32Back(n);
    var s := data[offset..offset + 4];
    assert data[offset] == s[0] && data[offset + 1] == s[1] && data[offset + 2] == s[2] && data[offset + 3] == s[3];
  }

  lemma {:induction false} U32sAt(data: Bytes, offset: nat, ns: seq<int>)
    requires AllSmall(ns) && HoldsAt(data, offset, Put32s(ns))
    ensures U32s(data, offset, |ns|) == Ok(ns)
    decreases ns
  {
    hide Put32, HoldsAt;
    if ns != [] {
      assert Small(ns[0]);
      HoldsBoth(data, offset, Put32(ns[0]), Put32s(ns[1..]));
      U32At(data, offset, ns[0]);
      U32sAt(data, offset + 4, ns[1..]);
      assert [ns[0]] + ns[1..] == ns;
    }
  }

  lemma SliceAt(data: Bytes, offset: nat, piece: Bytes)
    requires HoldsAt(data, offset, piece)
    ensures Slice(data, offset, |piece|) == piece
  {
  }

  // ---- the writer ----

  datatype Stored = Stored(name: Bytes, dims: seq<int>, dtype: int, payload: Bytes)

  datatype Layout = Layout(format: Format, version: int, hyper: Hyper, items: seq<Item>, tensors: seq<Stored>)

  function PutHeader(format: Format, version: int): Bytes
    requires Small(version)
  {
    match format
    case GGML => GGML_MAGIC
    case GGMF => GGMF_MAGIC + Put32(version)
    case GGJT => GGJT_MAGIC + Put32(version)
  }

  function HyperNumbers(h: Hyper): seq<int> {
    [h.nVocab, h.nEmbd, h.nMult, h.nHead, h.nLayer, h.nRot, h.fileType]
  }

  predicate ValidItem(item: Item, scores: bool) {
    |item.text| < 4096 && (if scores then item.score.Bits? && Small(item.score.bits) else item.score.NoScore?)
  }

  function PutItem(item: Item, scores: bool): Bytes
    requires ValidItem(item, scores)
  {
    Put32(|item.text|) + item.text + if scores then Put32(item.score.bits) else []
  }

  predicate ValidItems(items: seq<Item>, scores: bool) {
    forall i :: 0 <= i < |items| ==> ValidItem(items[i], scores)
  }

  function PutItems(items: seq<Item>, scores: bool): Bytes
    requires ValidItems(items, scores)
  {
    if items == [] then [] else PutItem(items[0], scores) + PutItems(items[1..], scores)
  }

  predicate ValidStored(quants: Quants, s: Stored) {
    |s.name| < 4096 && |s.dims| <= 4 && AllSmall(s.dims) && Small(s.dtype) && s.dtype in quants &&
    Fits(s.dims, quants[s.dtype]) && |s.payload| == ByteCount(s.dims, quants[s.dtype])
  }

  predicate AllValid(quants: Quants, ss: seq<Stored>) {
    forall i :: 0 <= i < |ss| ==> ValidStored(quants, ss[i])
  }

  /** What comes before the padding of a tensor. */
  function PutTensorHead(s: Stored): (b: Bytes)
    requires |s.name| < 4096 && |s.dims| <= 4 && AllSmall(s.dims) && Small(s.dtype)
    ensures |b| == 12 + 4 * |s.dims| + |s.name|
  {
    assert AllSmall([|s.dims|, |s.name|, s.dtype]);
    Put32s([|s.dims|, |s.name|, s.dtype]) + (Put32s(s.dims) + s.name)
  }

  function Zeros(n: nat): (b: Bytes)
    ensures |b| == n
  {
    seq(n, _ => 0)
  }

  function Padding(offset: nat, usePadding: bool): nat {
    if usePadding then Pad(offset) else 0
  }

  function PutTensor(quants: Quants, s: Stored, offset: nat, usePadding: bool): Bytes
    requires ValidStored(quants, s)
  {
    var head := PutTensorHead(s);
    head + (Zeros(Padding(offset + |head|, usePadding)) + s.payload)
  }

  function PutTensors(quants: Quants, ss: seq<Stored>, offset: nat, usePadding: bool): Bytes
    requires AllValid(quants, ss)
    decreases ss
  {
    if ss == [] then []
    else
      assert ValidStored(quants, ss[0]);
      var first := PutTensor(quants, ss[0], offset, usePadding);
      first + PutTensors(quants, ss[1..], offset + |first|, usePadding)
  }

  /** Where a stored tensor is found again. */
  function InfoOf(s: Stored, offset: nat, usePadding: bool): TensorInfo {
    var afterName := offset + 12 + 4 * |s.dims| + |s.name|;
    TensorInfo(s.name, s.dims, s.dtype, afterName + Padding(afterName, usePadding), |s.payload|)
  }

  function InfosOf(ss: seq<Stored>, offset: nat, usePadding: bool): (r: seq<TensorInfo>)
    ensures |r| == |ss|
    decreases ss
  {
    if ss == [] then []
    else
      var info := InfoOf(ss[0], offset, usePadding);
      [info] + InfosOf(ss[1..], info.start + info.size, usePadding)
  }

  predicate ValidLayout(quants: Quants, l: Layout) {
    (match l.format
     case GGML => l.version == 1
     case GGMF => l.version == 1
     case GGJT => 1 <= l.version <= 3) &&
    AllSmall(HyperNumbers(l.hyper)) && IsFileType(l.hyper.fileType) && Eligible(l.format, l.version, l.hyper.fileType) &&
    l.hyper.nVocab == |l.items| && ValidItems(l.items, l.format != GGML) && AllValid(quants, l.tensors) &&
    HasFeedForward(InfosOf(l.tensors, 0, false))
  }

  function PutFront(quants: Quants, l: Layout): Bytes
    requires ValidLayout(quants, l)
  {
    PutHeader(l.format, l.version) + (Put32s(HyperNumbers(l.hyper)) + PutItems(l.items, l.format != GGML))
  }

  function WriteFile(quants: Quants, l: Layout): Bytes
    requires ValidLayout(quants, l)
  {
    var front := PutFront(quants, l);
    front + PutTensors(quants, l.tensors, |front|, l.format == GGJT)
  }

  // ---- reading what was written ----

  lemma ItemAt(data: Bytes, offset: nat, item: Item, scores: bool)
    requires ValidItem(item, scores) && HoldsAt(data, offset, PutItem(item, scores))
    ensures ReadItem(data, offset, scores) == Ok((item, offset + |PutItem(item, scores)|))
  {
    hide Put32, HoldsAt, Slice, U32;
    var n, text := |item.text|, item.text;
    var tail: Bytes := if scores then Put32(item.score.bits) else [];
    HoldsBoth(data, offset, Put32(n) + text, tail);
    HoldsBoth(data, offset, Put32(n), text);
    U32At(data, offset, n);
    SliceAt(data, offset + 4, text);
    if scores {
      U32At(data, offset + 4 + n, item.score.bits);
    }
  }

  lemma {:induction false} ItemsAt(data: Bytes, offset: nat, items: seq<Item>, scores: bool)
    requires ValidItems(items, scores) && HoldsAt(data, offset, PutItems(items, scores))
    ensures ReadItems(data, offset, |items|, scores) == Ok((items, offset + |PutItems(items, scores)|))
    decreases items
  {
    hide HoldsAt, ReadItem, PutItem, ValidItem;
    if items != [] {
      assert ValidItem(items[0], scores);
      HoldsBoth(data, offset, PutItem(items[0], scores), PutItems(items[1..], scores));
      ItemAt(data, offset, items[0], scores);
      ItemsAt(data, offset + |PutItem(items[0], scores)|, items[1..], scores);
      assert [items[0]] + items[1..] == items;
    }
  }

  lemma HeadAt(data: Bytes, offset: nat, s: Stored)
    requires |s.name| < 4096 && |s.dims| <= 4 && AllSmall(s.dims) && Small(s.dtype)
    requires HoldsAt(data, offset, PutTensorHead(s))
    ensures U32s(data, offset, 3) == Ok([|s.dims|, |s.name|, s.dtype])
    ensures U32s(data, offset + 12, |s.dims|) == Ok(s.dims)
    ensures Slice(data, offset + 12 + 4 * |s.dims|, |s.name|) == s.name
  {
    hide HoldsAt, Slice, U32s, Put32s, AllSmall;
    var numbers := [|s.dims|, |s.name|, s.dtype];
    assert AllSmall(numbers) by { ThreeSmall(|s.dims|, |s.name|, s.dtype); }
    HoldsBoth(data, offset, Put32s(numbers), Put32s(s.dims) + s.name);
    HoldsBoth(data, offset + 12, Put32s(s.dims), s.name);
    U32sAt(data, offset, numbers);
    U32sAt(data, offset + 12, s.dims);
    SliceAt(data, offset + 12 + 4 * |s.dims|, s.name);
  }

  lemma ThreeSmall(a: int, b: int, c: int)
    requires Small(a) && Small(b) && Small(c)
    ensures AllSmall([a, b, c])
  {
  }

  lemma TensorAt(quants: Quants, data: Bytes, offset: nat, s: Stored, usePadding: bool)
    requires ValidStored(quants, s) && HoldsAt(data, offset, PutTensor(quants, s, offset, usePadding))
    ensures var info := InfoOf(s, offset, usePadding);
      ReadTensor(quants, data, offset, usePadding) == Ok(info) &&
      info.start + info.size == offset + |PutTensor(quants, s, offset, usePadding)| &&
      HoldsAt(data, info.start, s.payload)
  {
    hide HoldsAt, Slice, U32s, Put32s, Fits, ByteCount, AllSmall, Pad;
    var head := PutTensorHead(s);
    var pad := Zeros(Padding(offset + |head|, usePadding));
    HoldsBoth(data, offset, head, pad + s.payload);
    HoldsBoth(data, offset + |head|, pad, s.payload);
    HeadAt(data, offset, s);
  }

  predicate PayloadsAt(data: Bytes, infos: seq<TensorInfo>, ss: seq<Stored>) {
    |infos| == |ss| && forall i :: 0 <= i < |ss| ==> HoldsAt(data, infos[i].start, ss[i].payload)
  }

  lemma PayloadsMore(data: Bytes, info: TensorInfo, infos: seq<TensorInfo>, s: Stored, ss: seq<Stored>)
    requires HoldsAt(data, info.start, s.payload) && PayloadsAt(data, infos, ss)
    ensures PayloadsAt(data, [info] + infos, [s] + ss)
  {
    hide HoldsAt;
  }

  lemma {:induction false} TensorsAt(quants: Quants, data: Bytes, offset: nat, ss: seq<Stored>, usePadding: bool)
    requires AllValid(quants, ss) && HoldsAt(data, offset, PutTensors(quants, ss, offset, usePadding))
    requires |data| == offset + |PutTensors(quants, ss, offset, usePadding)|
    ensures var infos := InfosOf(ss, offset, usePadding);
      ReadTensors(quants, data, offset, usePadding) == Ok((infos, |data|)) && PayloadsAt(data, infos, ss)
    decreases ss
  {
    hide HoldsAt, ReadTensor, PutTensor, ValidStored, InfoOf, PayloadsAt;
    if ss == [] {
      assert PayloadsAt(data, [], []) by { NoPayloads(data); }
    } else {
      assert ValidStored(quants, ss[0]);
      var first, info := PutTensor(quants, ss[0], offset, usePadding), InfoOf(ss[0], offset, usePadding);
      HoldsBoth(data, offset, first, PutTensors(quants, ss[1..], offset + |first|, usePadding));
      TensorAt(quants, data, offset, ss[0], usePadding);
      TensorsAt(quants, data, offset + |first|, ss[1..], usePadding);
      PayloadsMore(data, info, InfosOf(ss[1..], offset + |first|, usePadding), ss[0], ss[1..]);
      assert [ss[0]] + ss[1..] == ss;
    }
  }

  lemma NoPayloads(data: Bytes)
    ensures PayloadsAt(data, [], [])
  {
  }

  lemma HeaderAt(data: Bytes, format: Format, version: int)
    requires (match format case GGJT => 1 <= version <= 3 case _ => version == 1)
    requires HoldsAt(data, 0, PutHeader(format, version))
    ensures Header(data) == Ok((format, version, |PutHeader(format, version)|))
  {
    hide Put32, U32, Slice, HoldsAt;
    var magic := match format case GGML => GGML_MAGIC case GGMF => GGMF_MAGIC case GGJT => GGJT_MAGIC;
    if format == GGML {
      SliceAt(data, 0, magic);
      assert GGML_MAGIC[0] != GGUF_MAGIC[0];
    } else {
      HoldsBoth(data, 0, magic, Put32(version));
      SliceAt(data, 0, magic);
      U32At(data, 4, version);
      assert magic[0] != GGUF_MAGIC[0] && magic[0] != GGML_MAGIC[0] && GGMF_MAGIC[0] != GGJT_MAGIC[0];
    }
  }

  lemma HyperAt(data: Bytes, offset: nat, h: Hyper)
    requires AllSmall(HyperNumbers(h)) && IsFileType(h.fileType) && HoldsAt(data, offset, Put32s(HyperNumbers(h)))
    ensures ReadHyper(data, offset) == Ok(h) && |Put32s(HyperNumbers(h))| == 28
  {
    hide HoldsAt, U32s, Put32s, AllSmall;
    U32sAt(data, offset, HyperNumbers(h));
  }

  predicate SameNames(a: seq<TensorInfo>, b: seq<TensorInfo>) {
    |a| == |b| && forall i :: 0 <= i < |a| ==> a[i].name == b[i].name && a[i].dims == b[i].dims
  }

  lemma {:induction false} InfosNames(ss: seq<Stored>, i: nat, x: bool, j: nat, y: bool)
    ensures SameNames(InfosOf(ss, i, x), InfosOf(ss, j, y))
    decreases ss
  {
    if ss != [] {
      var a, b := InfoOf(ss[0], i, x), InfoOf(ss[0], j, y);
      InfosNames(ss[1..], a.start + a.size, x, b.start + b.size, y);
    }
  }

  lemma {:induction false} NameMapSame(a: seq<TensorInfo>, b: seq<TensorInfo>)
    requires SameNames(a, b)
    ensures NameMap(a) == NameMap(b)
    decreases a
  {
    if a != [] {
      NameMapSame(a[..|a| - 1], b[..|b| - 1]);
    }
  }

  lemma FeedForwardSame(a: seq<TensorInfo>, b: seq<TensorInfo>)
    requires SameNames(a, b)
    ensures HasFeedForward(a) <==> HasFeedForward(b)
  {
    hide NameMap;
    NameMapSame(a, b);
  }

  lemma FrontAt(quants: Quants, l: Layout, data: Bytes)
    requires ValidLayout(quants, l) && HoldsAt(data, 0, PutFront(quants, l))
    ensures Header(data) == Ok((l.format, l.version, |PutHeader(l.format, l.version)|))
    ensures ReadHyper(data, |PutHeader(l.format, l.version)|) == Ok(l.hyper)
    ensures ReadItems(data, |PutHeader(l.format, l.version)| + 28, |l.items|, l.format != GGML)
         == Ok((l.items, |PutFront(quants, l)|))
  {
    hide Header, ReadHyper, ReadItems, HoldsAt, Put32s, PutItems, PutHeader, AllSmall, HasFeedForward, Eligible, AllValid;
    var header, numbers := PutHeader(l.format, l.version), Put32s(HyperNumbers(l.hyper));
    var items := PutItems(l.items, l.format != GGML);
    HoldsBoth(data, 0, header, numbers + items);
    HoldsBoth(data, |header|, numbers, items);
    HeaderAt(data, l.format, l.version);
    HyperAt(data, |header|, l.hyper);
    ItemsAt(data, |header| + 28, l.items, l.format != GGML);
  }

  /** Loading a written file gives back all that was written, and stops at the end of the file. */
  lemma LoadsWritten(quants: Quants, l: Layout)
    requires ValidLayout(quants, l)
    ensures var data, usePadding := WriteFile(quants, l), l.format == GGJT;
      var infos := InfosOf(l.tensors, |PutFront(quants, l)|, usePadding);
      ReadModel(quants, data) == Ok(Model(l.format, l.version, l.hyper, l.items, infos, |data|)) &&
      forall i :: 0 <= i < |l.tensors| ==>
        infos[i].name == l.tensors[i].name && infos[i].dims == l.tensors[i].dims &&
        infos[i].dtype == l.tensors[i].dtype && infos[i].size == |l.tensors[i].payload| &&
        HoldsAt(data, infos[i].start, l.tensors[i].payload)
  {
    hide Header, ReadHyper, ReadItems, ReadTensors, HoldsAt, PutFront, PutTensors, HasFeedForward, AllSmall, ValidItems, AllValid;
    var data, usePadding := WriteFile(quants, l), l.format == GGJT;
    var front, rest := PutFront(quants, l), PutTensors(quants, l.tensors, |PutFront(quants, l)|, l.format == GGJT);
    assert HoldsAt(data, 0, data) by { HoldsItself(data); }
    HoldsBoth(data, 0, front, rest);
    FrontAt(quants, l, data);
    TensorsAt(quants, data, |front|, l.tensors, usePadding);
    InfosNames(l.tensors, |front|, usePadding, 0, false);
    FeedForwardSame(InfosOf(l.tensors, |front|, usePadding), InfosOf(l.tensors, 0, false));
    InfosKeep(l.tensors, |front|, usePadding);
  }

  lemma HoldsItself(data: Bytes)
    ensures HoldsAt(data, 0, data)
  {
  }

  lemma {:induction false} InfosKeep(ss: seq<Stored>, offset: nat, usePadding: bool)
    ensures forall i :: 0 <= i < |ss| ==>
      var info := InfosOf(ss, offset, usePadding)[i];
      info.name == ss[i].name && info.dims == ss[i].dims && info.dtype == ss[i].dtype && info.size == |ss[i].payload|
    decreases ss
  {
    if ss != [] {
      var first := InfoOf(ss[0], offset, usePadding);
      InfosKeep(ss[1..], first.start + first.size, usePadding);
    }
  }

  // ---- what loading any file gives ----

  /** Tensor data comes in ascending disjoint ranges, at least a header of 12 bytes apart, aligned
      where padding is used. */
  predicate Ranges(ts: seq<TensorInfo>, offset: nat, usePadding: bool)
    decreases ts
  {
    ts == [] ||
    (offset + 12 <= ts[0].start && (usePadding ==> ts[0].start % 32 == 0) &&
     Ranges(ts[1..], ts[0].start + ts[0].size, usePadding))
  }

  lemma {:induction false} LoadedRanges(quants: Quants, data: Bytes, offset: nat, usePadding: bool)
    requires ReadTensors(quants, data, offset, usePadding).Ok?
    ensures var (ts, end) := ReadTensors(quants, data, offset, usePadding).value;
      Ranges(ts, offset, usePadding) && offset + 12 * |ts| <= end && |data| <= end &&
      (ts != [] ==> end == ts[|ts| - 1].start + ts[|ts| - 1].size)
    decreases |data| - offset
  {
    hide ReadTensor;
    if offset < |data| {
      var t := ReadTensor(quants, data, offset, usePadding).value;
      LoadedRanges(quants, data, t.start + t.size, usePadding);
    }
  }

  /** The ranges of any two tensors are apart. */
  lemma {:induction false} RangesApart(ts: seq<TensorInfo>, offset: nat, usePadding: bool, i: nat, j: nat)
    requires Ranges(ts, offset, usePadding) && i < j < |ts|
    ensures ts[i].start + ts[i].size + 12 <= ts[j].start
    decreases ts
  {
    if i > 0 {
      RangesApart(ts[1..], ts[0].start + ts[0].size, usePadding, i - 1, j - 1);
    } else {
      FarAlong(ts[1..], ts[0].start + ts[0].size, usePadding, j - 1);
    }
  }

  lemma {:induction false} FarAlong(ts: seq<TensorInfo>, offset: nat, usePadding: bool, j: nat)
    requires Ranges(ts, offset, usePadding) && j < |ts|
    ensures offset + 12 <= ts[j].start
    decreases ts
  {
    if j > 0 {
      FarAlong(ts[1..], ts[0].start + ts[0].size, usePadding, j - 1);
    }
  }

  // ---- files that are cut short ----

  lemma {:induction false} U32sCut(data: Bytes, n: nat, offset: nat, k: nat)
    requires offset + 4 * k <= n <= |data|
    ensures U32s(data[..n], offset, k) == U32s(data, offset, k)
    decreases k
  {
    if k > 0 {
      U32sCut(data, n, offset + 4, k - 1);
    }
  }

  lemma WholeSlice(data: Bytes, from: nat, len: nat)
    requires from + len <= |data|
    ensures Slice(data, from, len) == data[from..from + len]
  {
  }

  lemma SliceCut(data: Bytes, n: nat, from: nat, len: nat)
    requires from + len <= n <= |data|
    ensures Slice(data[..n], from, len) == Slice(data, from, len)
  {
    if from < n {
      assert data[..n][from..from + len] == data[from..from + len];
      WholeSlice(data[..n], from, len);
      WholeSlice(data, from, len);
    }
  }

  lemma ItemCut(data: Bytes, n: nat, offset: nat, scores: bool)
    requires n <= |data| && ReadItem(data, offset, scores).Ok? && ReadItem(data, offset, scores).value.1 <= n
    ensures ReadItem(data[..n], offset, scores) == ReadItem(data, offset, scores)
    ensures offset <= ReadItem(data, offset, scores).value.1
  {
    hide Slice, U32;
    var len := U32(data, offset).value;
    WordCut(data, n, offset);
    SliceCut(data, n, offset + 4, len);
    if scores {
      WordCut(data, n, offset + 4 + len);
    }
  }

  lemma WordCut(data: Bytes, n: nat, offset: nat)
    requires n <= |data| && U32(data, offset).Ok?
    ensures offset + 4 <= n ==> U32(data[..n], offset) == U32(data, offset)
    ensures U32(data, offset).value >= 0 && offset + 4 <= |data|
  {
  }

  lemma {:induction false} ItemsForward(data: Bytes, offset: nat, k: nat, scores: bool)
    requires ReadItems(data, offset, k, scores).Ok?
    ensures offset <= ReadItems(data, offset, k, scores).value.1
    decreases k
  {
    if k > 0 {
      ItemsForward(data, ReadItem(data, offset, scores).value.1, k - 1, scores);
    }
  }

  lemma {:induction false} ItemsCut(data: Bytes, n: nat, offset: nat, k: nat, scores: bool)
    requires n <= |data| && ReadItems(data, offset, k, scores).Ok? && ReadItems(data, offset, k, scores).value.1 <= n
    ensures ReadItems(data[..n], offset, k, scores) == ReadItems(data, offset, k, scores)
    decreases k
  {
    hide ReadItem;
    if k > 0 {
      var next := ReadItem(data, offset, scores).value.1;
      ItemsForward(data, next, k - 1, scores);
      ItemCut(data, n, offset, scores);
      ItemsCut(data, n, next, k - 1, scores);
    }
  }

  lemma HeaderCut(data: Bytes, n: nat)
    requires Header(data).Ok? && Header(data).value.2 <= n <= |data|
    ensures Header(data[..n]) == Header(data)
  {
    hide Slice;
    SliceCut(data, n, 0, 4);
  }

  lemma HyperCut(data: Bytes, n: nat, offset: nat)
    requires offset + 28 <= n <= |data|
    ensures ReadHyper(data[..n], offset) == ReadHyper(data, offset)
  {
    hide U32s;
    U32sCut(data, n, offset, 7);
  }
}
