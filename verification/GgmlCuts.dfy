/** What loading a written file gives when the file is cut short: which cuts are refused, which are
    accepted with less, and which go unnoticed. */
module GgmlCuts {
  import opened Wrappers
  import opened Ggml
  import opened GgmlLayout

  // ---- what is left of the tensors ----

  /** Where the name of a tensor starts, and where it ends. */
  function NameAt(s: Stored, offset: nat): nat {
    offset + 12 + 4 * |s.dims|
  }

  function NameEnd(s: Stored, offset: nat): nat {
    NameAt(s, offset) + |s.name|
  }

  function TensorEnd(s: Stored, offset: nat, usePadding: bool): nat {
    InfoOf(s, offset, usePadding).start + InfoOf(s, offset, usePadding).size
  }

  /** The tensor as it is found with only n bytes of the file: the name may be cut. */
  function InfoCut(s: Stored, offset: nat, usePadding: bool, n: nat): TensorInfo
    requires NameAt(s, offset) <= n
  {
    var left := n - NameAt(s, offset);
    InfoOf(s, offset, usePadding).(name := if left < |s.name| then s.name[..left] else s.name)
  }

  /** The tensors found in the first n bytes; none if the numbers of one of them are cut. */
  function CutInfos(ss: seq<Stored>, offset: nat, usePadding: bool, n: nat): Option<seq<TensorInfo>>
    decreases ss
  {
    if ss == [] || n <= offset then Some([])
    else if n < NameAt(ss[0], offset) then None
    else
      var more :- CutInfos(ss[1..], TensorEnd(ss[0], offset, usePadding), usePadding, n);
      Some([InfoCut(ss[0], offset, usePadding, n)] + more)
  }

  /** Where the scan of the first n bytes stops. */
  function CutEnd(ss: seq<Stored>, offset: nat, usePadding: bool, n: nat): nat
    decreases ss
  {
    if ss == [] || n <= offset then offset else CutEnd(ss[1..], TensorEnd(ss[0], offset, usePadding), usePadding, n)
  }

  /** Where tensor j starts; after the last one, the end of the file. */
  function Boundary(ss: seq<Stored>, offset: nat, usePadding: bool, j: nat): nat
    requires j <= |ss|
    decreases j
  {
    if j == 0 then offset else Boundary(ss[1..], TensorEnd(ss[0], offset, usePadding), usePadding, j - 1)
  }

  predicate IsBoundary(ss: seq<Stored>, offset: nat, usePadding: bool, n: nat) {
    exists j :: 0 <= j <= |ss| && Boundary(ss, offset, usePadding, j) == n
  }

  // ---- the cut in closed form ----

  lemma {:induction false} BoundaryFar(ss: seq<Stored>, offset: nat, usePadding: bool, j: nat)
    requires j <= |ss|
    ensures offset + 12 * j <= Boundary(ss, offset, usePadding, j)
    decreases j
  {
    if j > 0 {
      BoundaryFar(ss[1..], TensorEnd(ss[0], offset, usePadding), usePadding, j - 1);
    }
  }

  lemma {:induction false} NextBoundary(ss: seq<Stored>, offset: nat, usePadding: bool, j: nat)
    requires j < |ss|
    ensures Boundary(ss, offset, usePadding, j + 1)
         == TensorEnd(ss[j], Boundary(ss, offset, usePadding, j), usePadding)
    decreases j
  {
    hide InfoOf;
    if j > 0 {
      NextBoundary(ss[1..], TensorEnd(ss[0], offset, usePadding), usePadding, j - 1);
    }
  }

  lemma {:induction false} InfoAt(ss: seq<Stored>, offset: nat, usePadding: bool, j: nat)
    requires j < |ss|
    ensures InfosOf(ss, offset, usePadding)[j] == InfoOf(ss[j], Boundary(ss, offset, usePadding, j), usePadding)
    decreases j
  {
    hide InfoOf;
    if j > 0 {
      InfoAt(ss[1..], TensorEnd(ss[0], offset, usePadding), usePadding, j - 1);
    }
  }

  /** A cut inside tensor j keeps the tensors before it, and tensor j if its numbers are whole. */
  lemma {:induction false} CutInside(ss: seq<Stored>, offset: nat, usePadding: bool, n: nat, j: nat)
    requires j < |ss| && Boundary(ss, offset, usePadding, j) < n <= Boundary(ss, offset, usePadding, j + 1)
    ensures var at := Boundary(ss, offset, usePadding, j);
      CutInfos(ss, offset, usePadding, n) ==
        if n < NameAt(ss[j], at) then None
        else Some(InfosOf(ss, offset, usePadding)[..j] + [InfoCut(ss[j], at, usePadding, n)])
    ensures CutEnd(ss, offset, usePadding, n) == Boundary(ss, offset, usePadding, j + 1)
    decreases j
  {
    hide InfoOf;
    BoundaryFar(ss, offset, usePadding, j);
    var next := TensorEnd(ss[0], offset, usePadding);
    EndAfterName(ss[0], offset, usePadding);
    if j == 0 {
      assert Boundary(ss, offset, usePadding, 1) == next;
      CutBefore(ss[1..], next, usePadding, n);
      assert InfosOf(ss, offset, usePadding)[..0] == [];
      if n >= NameAt(ss[0], offset) {
        var cut := InfoCut(ss[0], offset, usePadding, n);
        assert [cut] + [] == [cut] == [] + [cut];
      }
    } else {
      BoundaryFar(ss[1..], next, usePadding, j - 1);
      CutInside(ss[1..], next, usePadding, n, j - 1);
      assert InfoCut(ss[0], offset, usePadding, n) == InfoOf(ss[0], offset, usePadding) by {
        WholeInfo(ss[0], offset, usePadding, n);
      }
      var at, first, rest := Boundary(ss, offset, usePadding, j), InfoOf(ss[0], offset, usePadding), InfosOf(ss[1..], next, usePadding);
      assert Boundary(ss[1..], next, usePadding, j - 1) == at && ss[1..][j - 1] == ss[j];
      assert InfosOf(ss, offset, usePadding)[..j] == [first] + rest[..j - 1];
      if n >= NameAt(ss[j], at) {
        var last := [InfoCut(ss[j], at, usePadding, n)];
        assert [first] + (rest[..j - 1] + last) == [first] + rest[..j - 1] + last;
      }
    }
  }

  lemma EndAfterName(s: Stored, offset: nat, usePadding: bool)
    ensures NameEnd(s, offset) <= TensorEnd(s, offset, usePadding)
  {
  }

  lemma WholeInfo(s: Stored, offset: nat, usePadding: bool, n: nat)
    requires NameEnd(s, offset) <= n
    ensures InfoCut(s, offset, usePadding, n) == InfoOf(s, offset, usePadding)
  {
  }

  lemma {:induction false} CutBefore(ss: seq<Stored>, offset: nat, usePadding: bool, n: nat)
    requires n <= offset
    ensures CutInfos(ss, offset, usePadding, n) == Some([]) && CutEnd(ss, offset, usePadding, n) == offset
  {
  }

  /** Every cut behind the front is inside one tensor. */
  lemma {:induction false} FindTensor(ss: seq<Stored>, offset: nat, usePadding: bool, n: nat) returns (j: nat)
    requires offset < n <= Boundary(ss, offset, usePadding, |ss|)
    ensures j < |ss| && Boundary(ss, offset, usePadding, j) < n <= Boundary(ss, offset, usePadding, j + 1)
    decreases ss
  {
    hide InfoOf;
    var next := TensorEnd(ss[0], offset, usePadding);
    if n <= next {
      j := 0;
      assert Boundary(ss, offset, usePadding, 1) == next;
    } else {
      var i := FindTensor(ss[1..], next, usePadding, n);
      j := i + 1;
    }
  }

  lemma {:induction false} FileEnd(quants: Quants, ss: seq<Stored>, offset: nat, usePadding: bool)
    requires AllValid(quants, ss)
    ensures Boundary(ss, offset, usePadding, |ss|) == offset + |PutTensors(quants, ss, offset, usePadding)|
    decreases ss
  {
    hide ValidStored, PutTensor, InfoOf;
    if ss != [] {
      assert ValidStored(quants, ss[0]);
      TensorSize(quants, ss[0], offset, usePadding);
      FileEnd(quants, ss[1..], TensorEnd(ss[0], offset, usePadding), usePadding);
    }
  }

  lemma TensorSize(quants: Quants, s: Stored, offset: nat, usePadding: bool)
    requires ValidStored(quants, s)
    ensures TensorEnd(s, offset, usePadding) == offset + |PutTensor(quants, s, offset, usePadding)|
  {
    hide Fits, ByteCount, Pad, Put32s, AllSmall;
  }

  // ---- reading a cut tensor ----

  lemma {:induction false} U32sTruncated(data: Bytes, offset: nat, k: nat)
    requires k > 0 && offset + 4 * k > |data|
    ensures U32s(data, offset, k) == Err(Truncated)
    decreases k
  {
    if offset + 4 <= |data| {
      U32sTruncated(data, offset + 4, k - 1);
    }
  }

  lemma NameCut(data: Bytes, n: nat, at: nat, name: Bytes)
    requires HoldsAt(data, at, name) && at <= n <= |data|
    ensures Slice(data[..n], at, |name|) == if n - at < |name| then name[..n - at] else name
  {
    assert data[at..at + |name|] == name;
    if n - at < |name| {
      assert data[..n][at..] == data[at..n] == name[..n - at];
    } else {
      assert data[..n][at..at + |name|] == data[at..at + |name|];
    }
  }

  lemma TensorCutAt(quants: Quants, data: Bytes, offset: nat, s: Stored, usePadding: bool, n: nat)
    requires ValidStored(quants, s) && HoldsAt(data, offset, PutTensor(quants, s, offset, usePadding))
    requires offset < n <= |data|
    ensures ReadTensor(quants, data[..n], offset, usePadding) ==
      if n < NameAt(s, offset) then Err(Truncated) else Ok(InfoCut(s, offset, usePadding, n))
  {
    hide HoldsAt, Slice, U32s, Put32s, Fits, ByteCount, AllSmall, Pad;
    var head := PutTensorHead(s);
    HoldsBoth(data, offset, head, Zeros(Padding(offset + |head|, usePadding)) + s.payload);
    HeadAt(data, offset, s);
    if n < offset + 12 {
      U32sTruncated(data[..n], offset, 3);
    } else {
      U32sCut(data, n, offset, 3);
      if n < NameAt(s, offset) {
        U32sTruncated(data[..n], offset + 12, |s.dims|);
      } else {
        U32sCut(data, n, offset + 12, |s.dims|);
        NameHeld(data, offset, s);
        NameCut(data, n, NameAt(s, offset), s.name);
      }
    }
  }

  lemma NameHeld(data: Bytes, offset: nat, s: Stored)
    requires |s.name| < 4096 && |s.dims| <= 4 && AllSmall(s.dims) && Small(s.dtype)
    requires HoldsAt(data, offset, PutTensorHead(s))
    ensures HoldsAt(data, NameAt(s, offset), s.name)
  {
    hide HoldsAt, Put32s, AllSmall;
    var numbers := [|s.dims|, |s.name|, s.dtype];
    assert AllSmall(numbers) by { ThreeSmall(|s.dims|, |s.name|, s.dtype); }
    HoldsBoth(data, offset, Put32s(numbers), Put32s(s.dims) + s.name);
    HoldsBoth(data, offset + 12, Put32s(s.dims), s.name);
  }

  /** The scan of the first n bytes. */
  lemma {:induction false} TensorsCutAt(quants: Quants, data: Bytes, offset: nat, ss: seq<Stored>, usePadding: bool, n: nat)
    requires AllValid(quants, ss) && HoldsAt(data, offset, PutTensors(quants, ss, offset, usePadding))
    requires |data| == offset + |PutTensors(quants, ss, offset, usePadding)| && n <= |data|
    ensures ReadTensors(quants, data[..n], offset, usePadding) ==
      match CutInfos(ss, offset, usePadding, n)
      case None => Err(Truncated)
      case Some(ts) => Ok((ts, CutEnd(ss, offset, usePadding, n)))
    decreases ss
  {
    hide HoldsAt, ReadTensor, PutTensor, ValidStored, InfoOf, InfoCut;
    if ss != [] && offset < n {
      assert ValidStored(quants, ss[0]);
      var first := PutTensor(quants, ss[0], offset, usePadding);
      TensorSize(quants, ss[0], offset, usePadding);
      HoldsBoth(data, offset, first, PutTensors(quants, ss[1..], offset + |first|, usePadding));
      TensorCutAt(quants, data, offset, ss[0], usePadding, n);
      if n >= NameAt(ss[0], offset) {
        SameRange(ss[0], offset, usePadding, n);
        TensorsCutAt(quants, data, offset + |first|, ss[1..], usePadding, n);
      }
    }
  }

  lemma SameRange(s: Stored, offset: nat, usePadding: bool, n: nat)
    requires NameAt(s, offset) <= n
    ensures var cut := InfoCut(s, offset, usePadding, n); cut.start + cut.size == TensorEnd(s, offset, usePadding)
  {
  }

  // ---- cuts before the tensors ----

  lemma HeaderTooShort(data: Bytes, n: nat)
    requires Header(data).Ok? && n < Header(data).value.2 && n <= |data|
    ensures Header(data[..n]).Err?
  {
    if n >= 4 {
      SliceCut(data, n, 0, 4);
    } else {
      assert |Slice(data[..n], 0, 4)| < 4;
    }
  }

  /** Items that can be read in spite of the cut end where they end in the whole file. */
  lemma {:induction false} ItemsPast(data: Bytes, n: nat, offset: nat, k: nat, scores: bool)
    requires n <= |data| && ReadItems(data, offset, k, scores).Ok? && ReadItems(data[..n], offset, k, scores).Ok?
    ensures ReadItems(data[..n], offset, k, scores).value.1 == ReadItems(data, offset, k, scores).value.1
    decreases k
  {
    hide ReadItem;
    if k > 0 {
      ItemPast(data, n, offset, scores);
      ItemsPast(data, n, ReadItem(data, offset, scores).value.1, k - 1, scores);
    }
  }

  lemma ItemPast(data: Bytes, n: nat, offset: nat, scores: bool)
    requires n <= |data| && ReadItem(data, offset, scores).Ok? && ReadItem(data[..n], offset, scores).Ok?
    ensures ReadItem(data[..n], offset, scores).value.1 == ReadItem(data, offset, scores).value.1
  {
    hide Slice;
  }

  lemma NothingPast(quants: Quants, data: Bytes, offset: nat, usePadding: bool)
    requires offset >= |data|
    ensures ReadTensors(quants, data, offset, usePadding) == Ok(([], offset)) && !HasFeedForward([])
  {
  }

  /** A file cut before its first tensor is refused: if not earlier, then because a tensor is missing. */
  lemma FrontTooShort(quants: Quants, l: Layout, n: nat)
    requires ValidLayout(quants, l) && n < |PutFront(quants, l)|
    ensures ReadModel(quants, WriteFile(quants, l)[..n]).Err?
  {
    hide Header, ReadHyper, ReadItems, ReadTensors, HasFeedForward, HoldsAt, PutFront, PutTensors, AllSmall, ValidItems, AllValid, PutHeader;
    var data := WriteFile(quants, l);
    assert HoldsAt(data, 0, data) by { HoldsItself(data); }
    HoldsBoth(data, 0, PutFront(quants, l), PutTensors(quants, l.tensors, |PutFront(quants, l)|, l.format == GGJT));
    FrontAt(quants, l, data);
    var length := |PutHeader(l.format, l.version)|;
    if n < length {
      HeaderTooShort(data, n);
    } else {
      HeaderCut(data, n);
      if n < length + 28 {
        HyperTooShort(data, n, length);
      } else {
        HyperCut(data, n, length);
        if ReadItems(data[..n], length + 28, |l.items|, l.format != GGML).Ok? {
          ItemsPast(data, n, length + 28, |l.items|, l.format != GGML);
          NothingPast(quants, data[..n], |PutFront(quants, l)|, l.format == GGJT);
        }
      }
    }
  }

  lemma HyperTooShort(data: Bytes, n: nat, offset: nat)
    requires n <= |data| && n < offset + 28
    ensures ReadHyper(data[..n], offset).Err?
  {
    hide U32s;
    U32sTruncated(data[..n], offset, 7);
  }

  // ---- all cuts of a written file ----

  /** The first n bytes of a written file load exactly if n is not before the first tensor, nor in the
      numbers at the head of a tensor, and the tensor of the first layer is still there; then with the
      tensors that are left, the last of them under a name that may be cut. */
  lemma CutExactly(quants: Quants, l: Layout, n: nat)
    requires ValidLayout(quants, l) && n <= |WriteFile(quants, l)|
    ensures var front, pad := |PutFront(quants, l)|, l.format == GGJT;
      var cut := ReadModel(quants, WriteFile(quants, l)[..n]);
      if n < front then cut.Err?
      else match CutInfos(l.tensors, front, pad, n)
        case None => cut == Err(Truncated)
        case Some(ts) =>
          cut == if !HasFeedForward(ts) then Err(NoFeedForward)
                 else Ok(Model(l.format, l.version, l.hyper, l.items, ts, CutEnd(l.tensors, front, pad, n)))
  {
    hide Header, ReadHyper, ReadItems, ReadTensors, HoldsAt, PutFront, PutTensors, HasFeedForward, AllSmall, ValidItems,
      AllValid, PutHeader, CutInfos, CutEnd, Eligible;
    var front, data := |PutFront(quants, l)|, WriteFile(quants, l);
    if n < front {
      FrontTooShort(quants, l, n);
    } else {
      assert HoldsAt(data, 0, data) by { HoldsItself(data); }
      HoldsBoth(data, 0, PutFront(quants, l), PutTensors(quants, l.tensors, front, l.format == GGJT));
      FrontAt(quants, l, data);
      var length := |PutHeader(l.format, l.version)|;
      assert length + 28 <= front by { ItemsForward(data, length + 28, |l.items|, l.format != GGML); }
      HeaderCut(data, n);
      HyperCut(data, n, length);
      ItemsCut(data, n, length + 28, |l.items|, l.format != GGML);
      TensorsCutAt(quants, data, front, l.tensors, l.format == GGJT, n);
    }
  }

  /** A cut goes unnoticed exactly if the name of the last tensor is still whole. */
  lemma UnnoticedExactly(quants: Quants, l: Layout, n: nat)
    requires ValidLayout(quants, l) && n <= |WriteFile(quants, l)|
    ensures l.tensors != []
    ensures var last := |l.tensors| - 1;
      var at := Boundary(l.tensors, |PutFront(quants, l)|, l.format == GGJT, last);
      ReadModel(quants, WriteFile(quants, l)[..n]) == ReadModel(quants, WriteFile(quants, l)) <==>
        n >= NameEnd(l.tensors[last], at)
  {
    hide ReadModel, PutFront, PutTensors, HasFeedForward, AllSmall, ValidItems, AllValid, CutInfos, CutEnd, Boundary, InfoOf,
      InfosOf, InfoCut, Eligible, NameEnd, NameAt, ValidLayout;
    HasTensors(quants, l);
    var ss, front, pad := l.tensors, |PutFront(quants, l)|, l.format == GGJT;
    var last, infos := |ss| - 1, InfosOf(ss, front, pad);
    var at := Boundary(ss, front, pad, last);
    CutExactly(quants, l, n);
    LoadsWritten(quants, l);
    FileEnd(quants, ss, front, pad);
    WholeFeedForward(quants, l);
    BoundaryFar(ss, front, pad, last);
    if n <= front {
      CutBefore(ss, front, pad, n);
      assert front < NameEnd(ss[last], at) by { BeforeName(ss[last], at); }
    } else {
      var j := FindTensor(ss, front, pad, n);
      CutInside(ss, front, pad, n, j);
      UnnoticedInside(ss, front, pad, n, j);
    }
  }

  lemma HasTensors(quants: Quants, l: Layout)
    requires ValidLayout(quants, l)
    ensures l.tensors != [] && AllValid(quants, l.tensors)
  {
    hide AllValid, AllSmall;
  }

  lemma WholeFeedForward(quants: Quants, l: Layout)
    requires ValidLayout(quants, l)
    ensures HasFeedForward(InfosOf(l.tensors, |PutFront(quants, l)|, l.format == GGJT))
  {
    hide PutFront, AllSmall, AllValid;
    InfosNames(l.tensors, |PutFront(quants, l)|, l.format == GGJT, 0, false);
    FeedForwardSame(InfosOf(l.tensors, |PutFront(quants, l)|, l.format == GGJT), InfosOf(l.tensors, 0, false));
  }

  lemma BeforeName(s: Stored, at: nat)
    ensures at < NameAt(s, at) <= NameEnd(s, at)
  {
  }

  lemma UnnoticedInside(ss: seq<Stored>, front: nat, pad: bool, n: nat, j: nat)
    requires j < |ss| && Boundary(ss, front, pad, j) < n <= Boundary(ss, front, pad, j + 1)
    ensures CutInfos(ss, front, pad, n) == Some(InfosOf(ss, front, pad)) <==>
      n >= NameEnd(ss[|ss| - 1], Boundary(ss, front, pad, |ss| - 1))
    ensures n >= NameEnd(ss[|ss| - 1], Boundary(ss, front, pad, |ss| - 1)) ==> j == |ss| - 1
  {
    hide Boundary, InfoOf, InfosOf, CutInfos, NameAt, NameEnd;
    var at, last := Boundary(ss, front, pad, j), |ss| - 1;
    CutInside(ss, front, pad, n, j);
    InfoAt(ss, front, pad, j);
    BeforeName(ss[last], Boundary(ss, front, pad, last));
    if j < last {
      BoundaryOrder(ss, front, pad, j + 1, last);
    } else {
      NameShows(ss[j], at, pad, n);
      var infos := InfosOf(ss, front, pad);
      assert infos == infos[..j] + [infos[j]];
    }
  }

  /** A tensor whose numbers are whole shows its whole name exactly when it is not cut. */
  lemma NameShows(s: Stored, at: nat, pad: bool, n: nat)
    ensures NameAt(s, at) <= NameEnd(s, at)
    ensures n >= NameAt(s, at) ==> (InfoCut(s, at, pad, n) == InfoOf(s, at, pad) <==> n >= NameEnd(s, at))
  {
  }

  lemma {:induction false} BoundaryOrder(ss: seq<Stored>, offset: nat, pad: bool, i: nat, j: nat)
    requires i <= j <= |ss|
    ensures Boundary(ss, offset, pad, i) <= Boundary(ss, offset, pad, j)
    decreases j
  {
    hide InfoOf;
    if i == 0 {
      BoundaryFar(ss, offset, pad, j);
    } else {
      BoundaryOrder(ss[1..], TensorEnd(ss[0], offset, pad), pad, i - 1, j - 1);
    }
  }

  /** The scan of an accepted cut stops at its end exactly if the file was cut between two tensors. */
  lemma StopsExactly(quants: Quants, l: Layout, n: nat)
    requires ValidLayout(quants, l) && n <= |WriteFile(quants, l)|
    requires ReadModel(quants, WriteFile(quants, l)[..n]).Ok?
    ensures ReadModel(quants, WriteFile(quants, l)[..n]).value.end == n <==>
      IsBoundary(l.tensors, |PutFront(quants, l)|, l.format == GGJT, n)
  {
    hide ReadModel, PutFront, PutTensors, HasFeedForward, AllSmall, ValidItems, AllValid, CutInfos, CutEnd, Boundary, InfoOf,
      InfosOf, InfoCut, Eligible, ValidLayout;
    HasTensors(quants, l);
    var ss, front, pad := l.tensors, |PutFront(quants, l)|, l.format == GGJT;
    CutExactly(quants, l, n);
    FileEnd(quants, ss, front, pad);
    BoundaryFar(ss, front, pad, 0);
    FirstBoundary(ss, front, pad);
    if n > front {
      var j := FindTensor(ss, front, pad, n);
      CutInside(ss, front, pad, n, j);
      forall i | 0 <= i <= |ss| && Boundary(ss, front, pad, i) == n ensures n == Boundary(ss, front, pad, j + 1) {
        if i <= j {
          BoundaryOrder(ss, front, pad, i, j);
        } else {
          BoundaryOrder(ss, front, pad, j + 1, i);
        }
      }
    } else {
      CutBefore(ss, front, pad, n);
    }
  }

  lemma FirstBoundary(ss: seq<Stored>, offset: nat, pad: bool)
    ensures Boundary(ss, offset, pad, 0) == offset
  {
  }
}
