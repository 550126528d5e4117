/** The codec by arithmetic on groups of three bytes and four characters (sections 4 and 5 of RFC 4648). */
module Base64Groups {
  import opened Wrappers
  import opened Base64

  /** The value that a character stands for in one of the two alphabets. */
  predicate Means(url: bool, c: bv8, v: bv8) {
    || (0x41 <= c <= 0x5A && v == c - 0x41)
    || (0x61 <= c <= 0x7A && v == c - 0x61 + 26)
    || (0x30 <= c <= 0x39 && v == c - 0x30 + 52)
    || (c == (if url then 0x2D else 0x2B) && v == 62)
    || (c == (if url then 0x5F else 0x2F) && v == 63)
  }

  lemma SymbolMeans(alphabet: Alphabet, v: bv8)
    requires v < 64
    ensures Means(alphabet == UrlFilenameSafe, Symbol(alphabet, v), v)
  {
  }

  lemma ValueMeans(alphabet: Alphabet, c: bv8, v: bv8)
    requires alphabet != Auto
    ensures Value(alphabet, c) == Some((v, alphabet)) <==> Means(alphabet == UrlFilenameSafe, c, v)
    ensures Value(alphabet, c).Some? ==> Value(alphabet, c).value.1 == alphabet
  {
  }

  // ---- encoding ----

  function ByteAt(s: seq<bv8>, i: nat): bv8 {
    if i < |s| then s[i] else 0
  }

  /** Value j of the text: four to three bytes, missing bytes counting as 0. */
  function SextetAt(s: seq<bv8>, j: nat): bv8 {
    var k := j / 4 * 3;
    if j % 4 == 0 then ByteAt(s, k) / 4
    else if j % 4 == 1 then ByteAt(s, k) % 4 * 16 + ByteAt(s, k + 1) / 16
    else if j % 4 == 2 then ByteAt(s, k + 1) % 16 * 4 + ByteAt(s, k + 2) / 64
    else ByteAt(s, k + 2) % 64
  }

  lemma SextetsByDivision(a: bv8, b: bv8)
    ensures Sextet0(a) == a / 4 && Sextet1(a, b) == a % 4 * 16 + b / 16
    ensures Sextet2(a, b) == a % 16 * 4 + b / 64 && Sextet3(a) == a % 64
  {
  }

  /** Character j tells value j, where there is a byte for it; the rest is padding. */
  predicate CharacterIs(url: bool, s: seq<bv8>, j: nat, c: bv8) {
    if j / 4 * 3 + (if j % 4 == 0 then 0 else j % 4 - 1) < |s| then Means(url, c, SextetAt(s, j)) else c == 0x3D
  }

  lemma QuartetIs(s: seq<bv8>, alphabet: Alphabet, j: nat)
    requires s != [] && j < 4
    ensures CharacterIs(alphabet == UrlFilenameSafe, s, j, Quartet(s, alphabet)[j])
  {
    hide Symbol, Means, Sextet0, Sextet1, Sextet2, Sextet3, Quartet;
    QuartetParts(s, alphabet);
    var a, b, c := ByteAt(s, 0), ByteAt(s, 1), ByteAt(s, 2);
    if j == 0 {
      SextetsByDivision(a, b);
      SymbolMeans(alphabet, Sextet0(a));
    } else if j == 1 {
      SextetsByDivision(a, b);
      SymbolMeans(alphabet, Sextet1(a, b));
    } else if j == 2 {
      SextetsByDivision(b, c);
      SymbolMeans(alphabet, Sextet2(b, c));
    } else {
      SextetsByDivision(c, 0);
      SymbolMeans(alphabet, Sextet3(c));
    }
  }

  lemma NextQuartet(url: bool, s: seq<bv8>, j: nat, c: bv8)
    requires j >= 4 && CharacterIs(url, if |s| < 3 then [] else s[3..], j - 4, c)
    ensures CharacterIs(url, s, j, c)
  {
    hide Means;
    var rest := if |s| < 3 then [] else s[3..];
    assert (j - 4) / 4 * 3 + 3 == j / 4 * 3 && (j - 4) % 4 == j % 4;
    var k := (j - 4) / 4 * 3;
    assert ByteAt(rest, k) == ByteAt(s, k + 3) && ByteAt(rest, k + 1) == ByteAt(s, k + 4) && ByteAt(rest, k + 2) == ByteAt(s, k + 5);
  }

  /** Every character of an encoded text, by arithmetic. */
  lemma {:induction false} EncodedAt(s: seq<bv8>, alphabet: Alphabet, j: nat)
    ensures |Encoded(s, alphabet)| == (|s| + 2) / 3 * 4
    ensures j < |Encoded(s, alphabet)| ==> CharacterIs(alphabet == UrlFilenameSafe, s, j, Encoded(s, alphabet)[j])
    decreases |s|
  {
    hide Encoded, CharacterIs, Quartet;
    if s == [] {
      EncodedNothing(alphabet);
    } else {
      EncodedQuartet(s, alphabet);
      var rest := if |s| < 3 then [] else s[3..];
      EncodedAt(rest, alphabet, if j < 4 then 0 else j - 4);
      if j < 4 {
        QuartetIs(s, alphabet, j);
      } else if j < |Encoded(s, alphabet)| {
        NextQuartet(alphabet == UrlFilenameSafe, s, j, Encoded(s, alphabet)[j]);
      }
    }
  }

  /** The room that is asked for: whole groups of four and of three, and no more than needed. */
  lemma RoomAsked(n: nat)
    ensures var q, t := RequiredEncodeSize(n), MaxDecodeSize(n);
      && q % 4 == 0 && 4 * n <= 3 * q < 4 * n + 12
      && t % 3 == 0 && 3 * n <= 4 * t < 3 * n + 12
  {
    assert n == 3 * (n / 3) + n % 3 && n == 4 * (n / 4) + n % 4;
  }

  // ---- decoding ----

  /** The three bytes of four values. */
  function Byte0(v0: bv8, v1: bv8): bv8 { v0 * 4 + v1 / 16 }
  function Byte1(v1: bv8, v2: bv8): bv8 { v1 % 16 * 16 + v2 / 4 }
  function Byte2(v2: bv8, v3: bv8): bv8 { v2 % 4 * 64 + v3 }

  lemma Bytes(v0: bv8, v1: bv8, v2: bv8, v3: bv8)
    requires v0 < 64 && v1 < 64 && v2 < 64 && v3 < 64
    ensures ByteBits(Byte0(v0, v1)) == SextetBits(v0) + SextetBits(v1)[..2]
    ensures ByteBits(Byte1(v1, v2)) == SextetBits(v1)[2..] + SextetBits(v2)[..4]
    ensures ByteBits(Byte2(v2, v3)) == SextetBits(v2)[4..] + SextetBits(v3)
  {
    hide ByteBits, SextetBits, Byte0, Byte1, Byte2, EightBits, Join;
    ByDivision(v0, v1, v2, v3);
    Joined6(v0, v1);
    Joined4(v1, v2);
    Joined2(v2, v3);
    Layout6(Byte0(v0, v1), v0, v1);
    Layout4(Byte1(v1, v2), v1, v2);
    Layout2(Byte2(v2, v3), v2, v3);
  }

  lemma ByDivision(v0: bv8, v1: bv8, v2: bv8, v3: bv8)
    requires v0 < 64 && v1 < 64 && v2 < 64 && v3 < 64
    ensures Byte0(v0, v1) == Join(v0, v1, 6) && Byte1(v1, v2) == Join(v1, v2, 4) && Byte2(v2, v3) == Join(v2, v3, 2)
  {
  }

  lemma WholeQuartet(v0: bv8, v1: bv8, v2: bv8, v3: bv8, rest: seq<bv8>)
    requires v0 < 64 && v1 < 64 && v2 < 64 && v3 < 64
    ensures WholeBytes(SextetsBits([v0, v1, v2, v3] + rest))
         == [Byte0(v0, v1), Byte1(v1, v2), Byte2(v2, v3)] + WholeBytes(SextetsBits(rest))
  {
    hide ByteBits, SextetBits, SextetsBits, Byte0, Byte1, Byte2, WholeBytes;
    Bytes(v0, v1, v2, v3);
    var t := SextetsBits(rest);
    BitsOfFour(v0, v1, v2, v3, rest);
    FirstByte(Byte0(v0, v1), ByteBits(Byte1(v1, v2)) + (ByteBits(Byte2(v2, v3)) + t));
    FirstByte(Byte1(v1, v2), ByteBits(Byte2(v2, v3)) + t);
    FirstByte(Byte2(v2, v3), t);
    Straddled(SextetBits(v0), SextetBits(v1), SextetBits(v2), SextetBits(v3), t);
  }

  lemma Straddled(a: Bits, b: Bits, c: Bits, d: Bits, t: Bits)
    requires |a| == |b| == |c| == |d| == 6
    ensures a + (b + (c + (d + t))) == (a + b[..2]) + ((b[2..] + c[..4]) + ((c[4..] + d) + t))
  {
  }

  lemma BitsOfFour(v0: bv8, v1: bv8, v2: bv8, v3: bv8, rest: seq<bv8>)
    ensures SextetsBits([v0, v1, v2, v3] + rest)
         == SextetBits(v0) + (SextetBits(v1) + (SextetBits(v2) + (SextetBits(v3) + SextetsBits(rest))))
  {
    hide SextetBits;
    BitsOfOne(v3, rest);
    BitsOfOne(v2, [v3] + rest);
    BitsOfOne(v1, [v2] + ([v3] + rest));
    BitsOfOne(v0, [v1] + ([v2] + ([v3] + rest)));
    assert [v0, v1, v2, v3] + rest == [v0] + ([v1] + ([v2] + ([v3] + rest)));
  }

  lemma BitsOfOne(v: bv8, s: seq<bv8>)
    ensures SextetsBits([v] + s) == SextetBits(v) + SextetsBits(s)
  {
    hide SextetBits;
    assert ([v] + s)[1..] == s;
  }

  lemma FirstByte(b: bv8, rest: Bits)
    ensures WholeBytes(ByteBits(b) + rest) == [b] + WholeBytes(rest)
  {
    hide ByteBits, ByteOf;
    var t := ByteBits(b) + rest;
    assert t[..8] == ByteBits(b) && t[8..] == rest;
    SameByte(ByteOf(t[..8]), b);
  }

  lemma FewBits(t: Bits)
    requires |t| < 8
    ensures WholeBytes(t) == []
  {
  }

  /** Fewer than four values: as many bytes as they have room for. */
  lemma LastTwo(v0: bv8, v1: bv8)
    requires v0 < 64 && v1 < 64
    ensures WholeBytes(SextetsBits([v0, v1])) == [Byte0(v0, v1)]
  {
    hide ByteBits, SextetBits, SextetsBits, WholeBytes, Byte0, Byte1, Byte2;
    Bytes(v0, v1, 0, 0);
    var a, b := SextetBits(v0), SextetBits(v1);
    NoValues();
    BitsOfOne(v1, []);
    BitsOfOne(v0, [v1]);
    assert [v1] + [] == [v1] && [v0] + [v1] == [v0, v1];
    FirstByte(Byte0(v0, v1), b[2..]);
    FewBits(b[2..]);
    assert a + (b + []) == (a + b[..2]) + b[2..];
  }

  lemma LastThree(v0: bv8, v1: bv8, v2: bv8)
    requires v0 < 64 && v1 < 64 && v2 < 64
    ensures WholeBytes(SextetsBits([v0, v1, v2])) == [Byte0(v0, v1), Byte1(v1, v2)]
  {
    hide ByteBits, SextetBits, SextetsBits, WholeBytes, Byte0, Byte1, Byte2;
    Bytes(v0, v1, v2, 0);
    var a, b, c := SextetBits(v0), SextetBits(v1), SextetBits(v2);
    NoValues();
    BitsOfOne(v2, []);
    BitsOfOne(v1, [v2]);
    BitsOfOne(v0, [v1, v2]);
    assert [v2] + [] == [v2] && [v1] + [v2] == [v1, v2] && [v0] + [v1, v2] == [v0, v1, v2];
    FirstByte(Byte0(v0, v1), b[2..] + c);
    FirstByte(Byte1(v1, v2), c[4..]);
    FewBits(c[4..]);
    assert a + (b + (c + [])) == (a + b[..2]) + (b[2..] + c) && b[2..] + c == (b[2..] + c[..4]) + c[4..];
  }

  lemma NoValues()
    ensures SextetsBits([]) == []
  {
  }

  /** Byte i of what some values hold. */
  predicate ByteIs(vs: seq<bv8>, i: nat, b: bv8) {
    var k := i / 3 * 4;
    if i % 3 == 0 then k + 1 < |vs| && b == Byte0(vs[k], vs[k + 1])
    else if i % 3 == 1 then k + 2 < |vs| && b == Byte1(vs[k + 1], vs[k + 2])
    else k + 3 < |vs| && b == Byte2(vs[k + 2], vs[k + 3])
  }

  lemma NextByte(vs: seq<bv8>, i: nat, b: bv8)
    requires i >= 3 && |vs| >= 4 && ByteIs(vs[4..], i - 3, b)
    ensures ByteIs(vs, i, b)
  {
    hide Byte0, Byte1, Byte2;
    assert (i - 3) / 3 * 4 + 4 == i / 3 * 4 && (i - 3) % 3 == i % 3;
  }

  lemma {:induction false} BytesAt(vs: seq<bv8>, i: nat)
    requires forall j :: 0 <= j < |vs| ==> vs[j] < 64
    ensures i < |WholeBytes(SextetsBits(vs))| ==> ByteIs(vs, i, WholeBytes(SextetsBits(vs))[i])
    decreases |vs|
  {
    hide WholeBytes, SextetsBits, Byte0, Byte1, Byte2, ByteIs;
    if |vs| >= 4 {
      assert vs == [vs[0], vs[1], vs[2], vs[3]] + vs[4..];
      WholeQuartet(vs[0], vs[1], vs[2], vs[3], vs[4..]);
      if i < 3 {
        FirstBytes(vs, i);
      } else {
        BytesAt(vs[4..], i - 3);
        if i < |WholeBytes(SextetsBits(vs))| {
          NextByte(vs, i, WholeBytes(SextetsBits(vs))[i]);
        }
      }
    } else {
      LastBytes(vs, i);
    }
  }

  lemma FirstBytes(vs: seq<bv8>, i: nat)
    requires |vs| >= 4 && i < 3
    ensures ByteIs(vs, i, [Byte0(vs[0], vs[1]), Byte1(vs[1], vs[2]), Byte2(vs[2], vs[3])][i])
  {
    hide Byte0, Byte1, Byte2;
  }

  lemma LastBytes(vs: seq<bv8>, i: nat)
    requires |vs| < 4 && forall j :: 0 <= j < |vs| ==> vs[j] < 64
    ensures i < |WholeBytes(SextetsBits(vs))| ==> ByteIs(vs, i, WholeBytes(SextetsBits(vs))[i])
  {
    hide SextetsBits, WholeBytes, Byte0, Byte1, Byte2;
    if |vs| < 2 {
      FewBits(SextetsBits(vs));
    } else if |vs| == 2 {
      assert vs == [vs[0], vs[1]];
      LastTwo(vs[0], vs[1]);
    } else {
      assert vs == [vs[0], vs[1], vs[2]];
      LastThree(vs[0], vs[1], vs[2]);
    }
  }

  /** The characters before the padding stand for these values. */
  predicate AllMean(url: bool, x: seq<bv8>, vs: seq<bv8>) {
    |vs| <= |x| && forall j :: 0 <= j < |vs| ==> Means(url, x[j], vs[j])
  }

  lemma {:induction false} ValuesMean(alphabet: Alphabet, x: seq<bv8>, vs: seq<bv8>)
    requires alphabet != Auto && |vs| == |x|
    ensures Values(alphabet, x) == Some(vs) <==> AllMean(alphabet == UrlFilenameSafe, x, vs)
    decreases |x|
  {
    hide Means, Value;
    if x != [] {
      ValuesMean(alphabet, x[1..], vs[1..]);
      ValueMeans(alphabet, x[0], vs[0]);
      assert vs == [vs[0]] + vs[1..];
      assert AllMean(alphabet == UrlFilenameSafe, x, vs) <==>
        Means(alphabet == UrlFilenameSafe, x[0], vs[0]) && AllMean(alphabet == UrlFilenameSafe, x[1..], vs[1..]) by {
        assert forall j :: 0 < j < |vs| ==> vs[j] == vs[1..][j - 1] && x[j] == x[1..][j - 1];
      }
    }
  }

  /** vs are the values of all characters before the first padding character, of which the rest may have to consist. */
  predicate ReadsAs(url: bool, x: seq<bv8>, behavior: DecodingBehavior, vs: seq<bv8>) {
    && AllMean(url, x, vs) && (|vs| < |x| ==> x[|vs|] == 0x3D)
    && (behavior == Moderate ==> forall j :: |vs| <= j < |x| ==> x[j] == 0x3D)
  }

  /** A text is accepted exactly when it can be read so, and every byte then comes by arithmetic. */
  lemma DecodedAt(x: seq<bv8>, alphabet: Alphabet, behavior: DecodingBehavior)
    requires alphabet != Auto
    ensures var url, d := alphabet == UrlFilenameSafe, Decoded(x, alphabet, behavior);
      && (d.Some? <==> exists vs :: ReadsAs(url, x, behavior, vs))
      && (d.Some? ==> forall vs :: ReadsAs(url, x, behavior, vs) ==>
           && |d.value| == 6 * |vs| / 8
           && forall i: nat :: i < |d.value| ==> ByteIs(vs, i, d.value[i]))
  {
    hide WholeBytes, SextetsBits, Means, Values, ByteIs;
    var n, url := DataLength(x), alphabet == UrlFilenameSafe;
    forall vs: seq<bv8>
      ensures ReadsAs(url, x, behavior, vs) <==>
        Values(alphabet, x[..n]) == Some(vs) && (behavior == Loose || OnlyPadding(x[n..]))
    {
      ReadsValues(x, alphabet, behavior, vs);
    }
    if Decoded(x, alphabet, behavior).Some? {
      var vs := Values(alphabet, x[..n]).value;
      assert ReadsAs(url, x, behavior, vs);
      forall i: nat | i < |Decoded(x, alphabet, behavior).value| ensures ByteIs(vs, i, Decoded(x, alphabet, behavior).value[i]) {
        BytesAt(vs, i);
      }
    }
  }

  lemma ReadsValues(x: seq<bv8>, alphabet: Alphabet, behavior: DecodingBehavior, vs: seq<bv8>)
    requires alphabet != Auto
    ensures ReadsAs(alphabet == UrlFilenameSafe, x, behavior, vs) <==>
      Values(alphabet, x[..DataLength(x)]) == Some(vs) && (behavior == Loose || OnlyPadding(x[DataLength(x)..]))
  {
    hide Means, Values;
    var n, url := DataLength(x), alphabet == UrlFilenameSafe;
    if ReadsAs(url, x, behavior, vs) {
      NoPadding(url, x, vs);
      DataLengthIs(x, |vs|);
    }
    if |vs| == n {
      ValuesMean(alphabet, x[..n], vs);
      assert AllMean(url, x[..n], vs) <==> AllMean(url, x, vs);
      assert OnlyPadding(x[n..]) <==> forall j :: n <= j < |x| ==> x[j] == PAD by {
        assert forall j :: n <= j < |x| ==> x[j] == x[n..][j - n];
      }
    }
  }

  lemma NoPadding(url: bool, x: seq<bv8>, vs: seq<bv8>)
    requires AllMean(url, x, vs)
    ensures forall j :: 0 <= j < |vs| ==> x[j] != PAD
  {
  }
}
