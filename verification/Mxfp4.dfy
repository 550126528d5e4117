/** Packing 4-bit weights and their scales into blocks of 17 bytes. */
module Mxfp4 {
  import opened Wrappers

  type Byte = bv8

  datatype Error = RowNotMultipleOf32 | ScaleShape

  type Result<+T> = Wrappers.Result<T, Error>

  /** A matrix of bytes, all rows of one width. */
  datatype Matrix = Matrix(width: nat, rows: seq<seq<Byte>>) {
    predicate Valid() {
      forall i :: 0 <= i < |rows| ==> |rows[i]| == width
    }
  }

  function Low(b: Byte): Byte {
    b & 0x0F
  }

  function High(b: Byte): Byte {
    (b >> 4) & 0x0F
  }

  function Both(low: Byte, high: Byte): Byte {
    low | (high << 4)
  }

  /** The 32 values of 16 bytes, two in each byte, the low one first. */
  function Values(src: seq<Byte>): (r: seq<Byte>)
    requires |src| == 16
    ensures |r| == 32
  {
    seq(32, i requires 0 <= i < 32 => if i % 2 == 0 then Low(src[i / 2]) else High(src[i / 2]))
  }

  /** The scale, then value j and value j + 16 in byte j. */
  function PackBlock(scale: Byte, src: seq<Byte>): (r: seq<Byte>)
    requires |src| == 16
    ensures |r| == 17
  {
    var vals := Values(src);
    [scale] + seq(16, j requires 0 <= j < 16 => Both(vals[j], vals[16 + j]))
  }

  function PackRow(row: seq<Byte>, scales: seq<Byte>): (r: seq<Byte>)
    requires |row| == 16 * |scales|
    ensures |r| == 17 * |scales|
  {
    if scales == [] then []
    else PackBlock(scales[0], row[..16]) + PackRow(row[16..], scales[1..])
  }

  function PackRows(rows: seq<seq<Byte>>, scales: seq<seq<Byte>>): (r: seq<seq<Byte>>)
    requires |rows| == |scales| && forall i :: 0 <= i < |rows| ==> |rows[i]| == 16 * |scales[i]|
    ensures |r| == |rows| && forall i :: 0 <= i < |rows| ==> r[i] == PackRow(rows[i], scales[i])
  {
    seq(|rows|, i requires 0 <= i < |rows| => PackRow(rows[i], scales[i]))
  }

  function PackBlocks(weight: Matrix, scale: Matrix): Result<Matrix>
    requires weight.Valid() && scale.Valid()
  {
    var logicalCols := weight.width * 2;
    if logicalCols % 32 != 0 then Err(RowNotMultipleOf32)
    else
      var nBlocks := logicalCols / 32;
      if |scale.rows| != |weight.rows| || scale.width != nBlocks then Err(ScaleShape)
      else Ok(Matrix(nBlocks * 17, PackRows(weight.rows, scale.rows)))
  }

  // ---- the inverse ----

  /** Value i of a packed block. */
  function PackedValue(raw: seq<Byte>, i: nat): Byte
    requires |raw| == 17 && i < 32
  {
    if i < 16 then Low(raw[1 + i]) else High(raw[1 + i - 16])
  }

  function UnpackBlock(raw: seq<Byte>): (r: seq<Byte>)
    requires |raw| == 17
    ensures |r| == 16
  {
    seq(16, k requires 0 <= k < 16 => Both(PackedValue(raw, 2 * k), PackedValue(raw, 2 * k + 1)))
  }

  /** The weights and the scales of a packed row. */
  function UnpackRow(raw: seq<Byte>, nBlocks: nat): (r: (seq<Byte>, seq<Byte>))
    requires |raw| == 17 * nBlocks
    ensures |r.0| == 16 * nBlocks && |r.1| == nBlocks
    decreases nBlocks
  {
    if nBlocks == 0 then ([], [])
    else
      var (row, scales) := UnpackRow(raw[17..], nBlocks - 1);
      (UnpackBlock(raw[..17]) + row, [raw[0]] + scales)
  }

  lemma Nibbles(x: Byte, y: Byte)
    requires x <= 15 && y <= 15
    ensures Low(Both(x, y)) == x && High(Both(x, y)) == y
  {
  }

  lemma NibblesBack(b: Byte)
    ensures Both(Low(b), High(b)) == b && Low(b) <= 15 && High(b) <= 15
  {
  }

  /** Value i of the source block is value i of the packed block. */
  lemma BlockValue(scale: Byte, src: seq<Byte>, i: nat)
    requires |src| == 16 && i < 32
    ensures PackedValue(PackBlock(scale, src), i) == Values(src)[i] == if i % 2 == 0 then Low(src[i / 2]) else High(src[i / 2])
  {
    hide Low, High, Both;
    var vals := Values(src);
    var j := if i < 16 then i else i - 16;
    NibblesBack(src[j / 2]);
    NibblesBack(src[(16 + j) / 2]);
    Nibbles(vals[j], vals[16 + j]);
  }

  lemma UnpackPackBlock(scale: Byte, src: seq<Byte>)
    requires |src| == 16
    ensures UnpackBlock(PackBlock(scale, src)) == src && PackBlock(scale, src)[0] == scale
  {
    hide Low, High, Both, PackedValue, Values;
    var raw := PackBlock(scale, src);
    forall k | 0 <= k < 16 ensures UnpackBlock(raw)[k] == src[k] {
      BlockValue(scale, src, 2 * k);
      BlockValue(scale, src, 2 * k + 1);
      assert 2 * k / 2 == k && (2 * k + 1) / 2 == k && 2 * k % 2 == 0 && (2 * k + 1) % 2 == 1;
      NibblesBack(src[k]);
    }
  }

  lemma PackUnpackByte(raw: seq<Byte>, j: nat)
    requires |raw| == 17 && j < 16
    ensures PackBlock(raw[0], UnpackBlock(raw))[1 + j] == raw[1 + j]
  {
    hide Low, High, Both, UnpackBlock, Values;
    UnpackedValue(raw, j);
    UnpackedValue(raw, 16 + j);
    NibblesBack(raw[1 + j]);
  }

  lemma PackUnpackBlock(raw: seq<Byte>)
    requires |raw| == 17
    ensures PackBlock(raw[0], UnpackBlock(raw)) == raw
  {
    hide Low, High, Both, UnpackBlock, Values;
    var packed := PackBlock(raw[0], UnpackBlock(raw));
    forall k | 0 < k < 17 ensures packed[k] == raw[k] {
      PackUnpackByte(raw, k - 1);
    }
  }

  lemma UnpackedValue(raw: seq<Byte>, i: nat)
    requires |raw| == 17 && i < 32
    ensures Values(UnpackBlock(raw))[i] == PackedValue(raw, i)
  {
    hide Both, Low, High;
    var k := i / 2;
    PackedSmall(raw, 2 * k);
    PackedSmall(raw, 2 * k + 1);
    Nibbles(PackedValue(raw, 2 * k), PackedValue(raw, 2 * k + 1));
    assert i == 2 * k || i == 2 * k + 1;
  }

  lemma PackedSmall(raw: seq<Byte>, i: nat)
    requires |raw| == 17 && i < 32
    ensures PackedValue(raw, i) <= 15
  {
    hide Both, Low, High;
    NibblesBack(raw[1 + i % 16]);
  }

  lemma {:induction false} UnpackPackRow(row: seq<Byte>, scales: seq<Byte>)
    requires |row| == 16 * |scales|
    ensures UnpackRow(PackRow(row, scales), |scales|) == (row, scales)
    decreases |scales|
  {
    hide PackBlock, UnpackBlock;
    if scales != [] {
      var head, rest := PackBlock(scales[0], row[..16]), PackRow(row[16..], scales[1..]);
      UnpackPackBlock(scales[0], row[..16]);
      UnpackPackRow(row[16..], scales[1..]);
      assert (head + rest)[..17] == head && (head + rest)[17..] == rest;
      assert row[..16] + row[16..] == row && [scales[0]] + scales[1..] == scales;
    }
  }

  lemma {:induction false} PackUnpackRow(raw: seq<Byte>, nBlocks: nat)
    requires |raw| == 17 * nBlocks
    ensures var (row, scales) := UnpackRow(raw, nBlocks); PackRow(row, scales) == raw
    decreases nBlocks
  {
    hide PackBlock, UnpackBlock;
    if nBlocks > 0 {
      var (row, scales) := UnpackRow(raw[17..], nBlocks - 1);
      var block := UnpackBlock(raw[..17]);
      PackUnpackBlock(raw[..17]);
      PackUnpackRow(raw[17..], nBlocks - 1);
      assert (block + row)[..16] == block && (block + row)[16..] == row && ([raw[0]] + scales)[1..] == scales;
      assert raw[..17] + raw[17..] == raw;
    }
  }

  // ---- the whole matrix ----

  function UnpackRows(raw: seq<seq<Byte>>, nBlocks: nat): (r: (seq<seq<Byte>>, seq<seq<Byte>>))
    requires forall i :: 0 <= i < |raw| ==> |raw[i]| == 17 * nBlocks
    ensures |r.0| == |raw| && |r.1| == |raw|
    ensures forall i :: 0 <= i < |raw| ==> r.0[i] == UnpackRow(raw[i], nBlocks).0 && r.1[i] == UnpackRow(raw[i], nBlocks).1
  {
    (seq(|raw|, i requires 0 <= i < |raw| => UnpackRow(raw[i], nBlocks).0),
     seq(|raw|, i requires 0 <= i < |raw| => UnpackRow(raw[i], nBlocks).1))
  }

  function Unpack(raw: Matrix): (Matrix, Matrix)
    requires raw.Valid() && raw.width % 17 == 0
  {
    var nBlocks := raw.width / 17;
    var (rows, scales) := UnpackRows(raw.rows, nBlocks);
    (Matrix(16 * nBlocks, rows), Matrix(nBlocks, scales))
  }

  lemma PackedBlocks(weight: Matrix, scale: Matrix)
    requires weight.Valid() && scale.Valid() && weight.width == 16 * scale.width && |weight.rows| == |scale.rows|
    ensures var raw := Matrix(17 * scale.width, PackRows(weight.rows, scale.rows));
      raw.Valid() && raw.width % 17 == 0 && Unpack(raw) == (weight, scale)
  {
    hide PackRow, UnpackRow;
    var raw := PackRows(weight.rows, scale.rows);
    Seventeenths(scale.width);
    forall i | 0 <= i < |weight.rows| ensures UnpackRow(raw[i], scale.width) == (weight.rows[i], scale.rows[i]) {
      UnpackPackRow(weight.rows[i], scale.rows[i]);
    }
    var (rows, scales) := UnpackRows(raw, scale.width);
    assert rows == weight.rows && scales == scale.rows;
  }

  lemma PackBlocksCases(weight: Matrix, scale: Matrix)
    requires weight.Valid() && scale.Valid()
    ensures PackBlocks(weight, scale) ==
      if weight.width % 16 != 0 then Err(RowNotMultipleOf32)
      else if |weight.rows| != |scale.rows| || weight.width != 16 * scale.width then Err(ScaleShape)
      else Ok(Matrix(17 * scale.width, PackRows(weight.rows, scale.rows)))
  {
    hide PackRows;
    WholeBlocks(weight.width, scale.width);
  }

  lemma WholeBlocks(width: nat, n: nat)
    ensures width * 2 % 32 == 0 <==> width % 16 == 0
    ensures width % 16 == 0 ==> (n == width * 2 / 32 <==> width == 16 * n)
  {
  }

  lemma Seventeenths(n: nat)
    ensures 17 * n % 17 == 0 && 17 * n / 17 == n
  {
  }

  /** Packing is possible exactly for whole blocks with one scale each, and nothing is lost. */
  lemma PackLossless(weight: Matrix, scale: Matrix)
    requires weight.Valid() && scale.Valid()
    ensures match PackBlocks(weight, scale)
            case Ok(raw) =>
              weight.width == 16 * scale.width && |weight.rows| == |scale.rows| &&
              raw.Valid() && raw.width == 17 * scale.width && Unpack(raw) == (weight, scale)
            case Err(RowNotMultipleOf32) => weight.width % 16 != 0
            case Err(ScaleShape) =>
              weight.width % 16 == 0 && (|weight.rows| != |scale.rows| || weight.width != 16 * scale.width)
  {
    hide PackRow, UnpackRow, Unpack, PackRows, PackBlocks;
    PackBlocksCases(weight, scale);
    if weight.width == 16 * scale.width && |weight.rows| == |scale.rows| {
      PackedBlocks(weight, scale);
    }
  }

  /** Every matrix of whole packed blocks is the packing of exactly one pair. */
  lemma PackOnto(raw: Matrix)
    requires raw.Valid() && raw.width % 17 == 0
    ensures var (weight, scale) := Unpack(raw);
      weight.Valid() && scale.Valid() && PackBlocks(weight, scale) == Ok(raw)
  {
    hide PackRow, UnpackRow;
    var n := raw.width / 17;
    var (rows, scales) := UnpackRows(raw.rows, n);
    forall i | 0 <= i < |raw.rows| ensures PackRow(rows[i], scales[i]) == raw.rows[i] {
      PackUnpackRow(raw.rows[i], n);
    }
    assert PackRows(rows, scales) == raw.rows;
  }

  lemma {:induction false} BlockAt(row: seq<Byte>, scales: seq<Byte>, block: nat)
    requires |row| == 16 * |scales| && block < |scales|
    ensures PackRow(row, scales)[17 * block..17 * block + 17]
         == PackBlock(scales[block], row[16 * block..16 * block + 16])
    decreases |scales|
  {
    hide PackBlock;
    var head, rest := PackBlock(scales[0], row[..16]), PackRow(row[16..], scales[1..]);
    if block == 0 {
      assert (head + rest)[..17] == head;
    } else {
      BlockAt(row[16..], scales[1..], block - 1);
      SliceTail(head, rest, 17 * (block - 1), 17 * (block - 1) + 17);
      assert row == row[..16] + row[16..];
      SliceTail(row[..16], row[16..], 16 * (block - 1), 16 * (block - 1) + 16);
    }
  }

  lemma SliceTail(a: seq<Byte>, b: seq<Byte>, i: nat, j: nat)
    requires i <= j <= |b|
    ensures (a + b)[|a| + i..|a| + j] == b[i..j]
  {
  }

  lemma InSlice(s: seq<Byte>, start: nat, size: nat, k: nat)
    requires start + size <= |s| && k < size
    ensures s[start..start + size][k] == s[start + k]
  {
  }

  /** One block: nibble i of the source goes to the low half of byte i, or to the high half of byte i - 16. */
  lemma BlockMoves(scale: Byte, src: seq<Byte>, i: nat)
    requires |src| == 16 && i < 32
    ensures var packed := PackBlock(scale, src);
      packed[0] == scale &&
      (if i < 16 then Low(packed[1 + i]) else High(packed[1 + i - 16]))
        == if i % 2 == 0 then Low(src[i / 2]) else High(src[i / 2])
  {
    hide Low, High, PackBlock, Values;
    BlockValue(scale, src, i);
    UnpackPackBlock(scale, src);
  }

  lemma NibbleMoves(row: seq<Byte>, scales: seq<Byte>, block: nat, i: nat)
    requires |row| == 16 * |scales| && block < |scales| && i < 32
    ensures var raw := PackRow(row, scales);
      raw[17 * block] == scales[block] &&
      (if i < 16 then Low(raw[17 * block + 1 + i]) else High(raw[17 * block + 1 + i - 16]))
        == if i % 2 == 0 then Low(row[16 * block + i / 2]) else High(row[16 * block + i / 2])
  {
    hide Low, High, PackRow, PackBlock, Values;
    var raw, src := PackRow(row, scales), row[16 * block..16 * block + 16];
    BlockAt(row, scales, block);
    BlockMoves(scales[block], src, i);
    InSlice(raw, 17 * block, 17, 0);
    InSlice(raw, 17 * block, 17, if i < 16 then 1 + i else 1 + i - 16);
    InSlice(row, 16 * block, 16, i / 2);
  }

  lemma ByDivision(b: Byte)
    ensures Low(b) == b % 16 && High(b) == b / 16
  {
  }

  /** Where value i of a block was, and where it goes. The scale of a block comes first in it. */
  lemma ValueMoves(row: seq<Byte>, scales: seq<Byte>, block: nat, i: nat)
    requires |row| == 16 * |scales| && block < |scales| && i < 32
    ensures var raw := PackRow(row, scales);
      raw[17 * block] == scales[block] &&
      (if i < 16 then raw[17 * block + 1 + i] % 16 else raw[17 * block + 1 + i - 16] / 16)
        == if i % 2 == 0 then row[16 * block + i / 2] % 16 else row[16 * block + i / 2] / 16
  {
    hide Low, High, PackRow;
    NibbleMoves(row, scales, block, i);
    ByDivision(PackRow(row, scales)[17 * block + 1 + if i < 16 then i else i - 16]);
    ByDivision(row[16 * block + i / 2]);
  }
}
