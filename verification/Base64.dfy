/** The base64 encoder and decoder. Text and data are both sequences of bytes. */
module Base64 {
  import opened Wrappers

  datatype Alphabet = Auto | Standard | UrlFilenameSafe

  datatype DecodingBehavior = Moderate | Loose

  const PAD: bv8 := 61

  // ---- bit strings ----

  type Bits = seq<bool>

  predicate Bit(v: bv8, mask: bv8) {
    v & mask != 0
  }

  function Eight<T>(b7: T, b6: T, b5: T, b4: T, b3: T, b2: T, b1: T, b0: T): (r: seq<T>)
    ensures |r| == 8
  {
    [b7, b6, b5, b4, b3, b2, b1, b0]
  }

  function Six<T>(b5: T, b4: T, b3: T, b2: T, b1: T, b0: T): (r: seq<T>)
    ensures |r| == 6
  {
    [b5, b4, b3, b2, b1, b0]
  }

  function ByteBits(b: bv8): (r: Bits)
    ensures |r| == 8
  {
    Eight(Bit(b, 128), Bit(b, 64), Bit(b, 32), Bit(b, 16), Bit(b, 8), Bit(b, 4), Bit(b, 2), Bit(b, 1))
  }

  function SextetBits(v: bv8): (r: Bits)
    ensures |r| == 6
  {
    Six(Bit(v, 32), Bit(v, 16), Bit(v, 8), Bit(v, 4), Bit(v, 2), Bit(v, 1))
  }

  function Weight(bit: bool, w: bv8): bv8 {
    if bit then w else 0
  }

  function SextetOf(t: Bits): (v: bv8)
    requires |t| == 6
    ensures v < 64 && SextetBits(v) == t
  {
    Weight(t[0], 32) | Weight(t[1], 16) | Weight(t[2], 8) | Weight(t[3], 4) | Weight(t[4], 2) | Weight(t[5], 1)
  }

  function PackByte(b7: bool, b6: bool, b5: bool, b4: bool, b3: bool, b2: bool, b1: bool, b0: bool): (b: bv8)
    ensures Bit(b, 128) == b7 && Bit(b, 64) == b6 && Bit(b, 32) == b5 && Bit(b, 16) == b4
    ensures Bit(b, 8) == b3 && Bit(b, 4) == b2 && Bit(b, 2) == b1 && Bit(b, 1) == b0
  {
    Weight(b7, 128) | Weight(b6, 64) | Weight(b5, 32) | Weight(b4, 16)
      | Weight(b3, 8) | Weight(b2, 4) | Weight(b1, 2) | Weight(b0, 1)
  }

  function ByteOf(t: Bits): (b: bv8)
    requires |t| == 8
    ensures ByteBits(b) == t
  {
    PackByte(t[0], t[1], t[2], t[3], t[4], t[5], t[6], t[7])
  }

  lemma SameByte(a: bv8, b: bv8)
    requires ByteBits(a) == ByteBits(b)
    ensures a == b
  {
    var x, y := ByteBits(a), ByteBits(b);
    assert x[0] == y[0] && x[1] == y[1] && x[2] == y[2] && x[3] == y[3]
      && x[4] == y[4] && x[5] == y[5] && x[6] == y[6] && x[7] == y[7];
  }

  lemma SameSextet(a: bv8, b: bv8)
    requires SextetBits(a) == SextetBits(b) && a < 64 && b < 64
    ensures a == b
  {
    var x, y := SextetBits(a), SextetBits(b);
    assert x[0] == y[0] && x[1] == y[1] && x[2] == y[2] && x[3] == y[3] && x[4] == y[4] && x[5] == y[5];
  }

  function BytesBits(s: seq<bv8>): (r: Bits)
    ensures |r| == 8 * |s|
  {
    if s == [] then [] else ByteBits(s[0]) + BytesBits(s[1..])
  }

  function SextetsBits(s: seq<bv8>): (r: Bits)
    ensures |r| == 6 * |s|
  {
    if s == [] then [] else SextetBits(s[0]) + SextetsBits(s[1..])
  }

  /** The whole bytes of a bit string; a remainder of fewer than 8 bits is ignored. */
  function WholeBytes(t: Bits): (s: seq<bv8>)
    ensures |s| == |t| / 8
    decreases |t|
  {
    if |t| < 8 then [] else [ByteOf(t[..8])] + WholeBytes(t[8..])
  }

  function Zeros(n: nat): (r: Bits)
    ensures |r| == n && forall i :: 0 <= i < n ==> !r[i]
  {
    seq(n, _ => false)
  }

  /** A bit string cut into sextets, the last one filled with zero bits (section 4 of RFC 4648). */
  function PaddedSextets(t: Bits): (s: seq<bv8>)
    ensures |s| == (|t| + 5) / 6
    ensures forall i :: 0 <= i < |s| ==> s[i] < 64
    decreases |t|
  {
    if t == [] then []
    else if |t| < 6 then [SextetOf(t + Zeros(6 - |t|))]
    else [SextetOf(t[..6])] + PaddedSextets(t[6..])
  }

  lemma {:induction false} BytesOfBits(s: seq<bv8>, rest: Bits)
    requires |rest| < 8
    ensures WholeBytes(BytesBits(s) + rest) == s
  {
    if s != [] {
      var t := BytesBits(s) + rest;
      assert t[..8] == ByteBits(s[0]);
      assert t[8..] == BytesBits(s[1..]) + rest;
      SameByte(ByteOf(t[..8]), s[0]);
      BytesOfBits(s[1..], rest);
    } else {
      assert BytesBits(s) + rest == rest;
    }
  }

  lemma {:induction false} BitsOfWholeBytes(t: Bits)
    ensures BytesBits(WholeBytes(t)) == t[..|t| / 8 * 8]
    decreases |t|
  {
    if |t| >= 8 {
      BitsOfWholeBytes(t[8..]);
      assert t[..|t| / 8 * 8] == t[..8] + t[8..][..|t[8..]| / 8 * 8];
    }
  }

  lemma {:induction false} BitsOfPaddedSextets(t: Bits)
    ensures SextetsBits(PaddedSextets(t)) == t + Zeros((|t| + 5) / 6 * 6 - |t|)
    decreases |t|
  {
    if t == [] {
    } else if |t| < 6 {
      var v := SextetOf(t + Zeros(6 - |t|));
      assert SextetsBits([v]) == SextetBits(v) + SextetsBits([]);
    } else {
      BitsOfPaddedSextets(t[6..]);
      assert t == t[..6] + t[6..];
    }
  }

  lemma {:induction false} SextetsOfBits(s: seq<bv8>, kept: nat)
    requires (forall i :: 0 <= i < |s| ==> s[i] < 64) && kept <= 6 * |s| < kept + 6
    requires forall i :: kept <= i < 6 * |s| ==> !SextetsBits(s)[i]
    ensures PaddedSextets(SextetsBits(s)[..kept]) == s
  {
    hide SextetBits, SextetOf;
    var t := SextetsBits(s);
    if s == [] {
    } else if kept < 6 {
      assert |s| == 1 && t == SextetBits(s[0]) + SextetsBits(s[1..]) == SextetBits(s[0]);
      assert t[..kept] + Zeros(6 - kept) == t;
      SameSextet(SextetOf(t), s[0]);
    } else {
      var rest := SextetsBits(s[1..]);
      assert t[..kept][..6] == SextetBits(s[0]);
      assert t[..kept][6..] == rest[..kept - 6];
      SameSextet(SextetOf(t[..kept][..6]), s[0]);
      forall i | kept - 6 <= i < 6 * |s[1..]| ensures !rest[i] {
        assert t[i + 6] == rest[i];
      }
      SextetsOfBits(s[1..], kept - 6);
    }
  }

  // ---- alphabets ----

  /** Character of a value in the table that encode selects: only the url alphabet differs from the standard one. */
  function Symbol(alphabet: Alphabet, v: bv8): (c: bv8)
    requires v < 64
    ensures c != PAD
  {
    if v < 26 then 65 + v
    else if v < 52 then 97 + (v - 26)
    else if v < 62 then 48 + (v - 52)
    else if v == 62 then (if alphabet == UrlFilenameSafe then 45 else 43)
    else (if alphabet == UrlFilenameSafe then 95 else 47)
  }

  /** Value of a character together with the alphabet in force afterwards. */
  function Value(alphabet: Alphabet, c: bv8): (r: Option<(bv8, Alphabet)>)
    ensures r.Some? ==> r.value.0 < 64
  {
    if 65 <= c <= 90 then Some((c - 65, alphabet))
    else if 97 <= c <= 122 then Some((c - 97 + 26, alphabet))
    else if 48 <= c <= 57 then Some((c - 48 + 52, alphabet))
    else match alphabet
      case Standard =>
        if c == 43 then Some((62, alphabet)) else if c == 47 then Some((63, alphabet)) else None
      case UrlFilenameSafe =>
        if c == 45 then Some((62, alphabet)) else if c == 95 then Some((63, alphabet)) else None
      case Auto =>
        if c == 43 then Some((62, Standard))
        else if c == 47 then Some((63, Standard))
        else if c == 45 then Some((62, UrlFilenameSafe))
        else if c == 95 then Some((63, UrlFilenameSafe))
        else None
  }

  /** Values of a run of characters, the alphabet being carried along. */
  function Values(alphabet: Alphabet, x: seq<bv8>): (r: Option<seq<bv8>>)
    ensures r.Some? ==> |r.value| == |x| && forall i :: 0 <= i < |x| ==> r.value[i] < 64
    decreases |x|
  {
    if x == [] then Some([])
    else
      match Value(alphabet, x[0])
      case None => None
      case Some((v, next)) =>
        match Values(next, x[1..])
        case None => None
        case Some(vs) => Some([v] + vs)
  }

  function Symbols(alphabet: Alphabet, vs: seq<bv8>): (x: seq<bv8>)
    requires forall i :: 0 <= i < |vs| ==> vs[i] < 64
    ensures |x| == |vs| && forall i :: 0 <= i < |x| ==> x[i] == Symbol(alphabet, vs[i])
  {
    seq(|vs|, i requires 0 <= i < |vs| => Symbol(alphabet, vs[i]))
  }

  // ---- specification of the codec (sections 3.5, 4 and 5 of RFC 4648) ----

  function Padding(n: nat): (p: seq<bv8>)
    ensures |p| == n && forall i :: 0 <= i < n ==> p[i] == PAD
  {
    seq(n, _ => PAD)
  }

  /** The characters of some sextets, padded to whole quartets. */
  function Text(vs: seq<bv8>, alphabet: Alphabet): seq<bv8>
    requires forall i :: 0 <= i < |vs| ==> vs[i] < 64
  {
    Symbols(alphabet, vs) + Padding((4 - |vs| % 4) % 4)
  }

  function Encoded(s: seq<bv8>, alphabet: Alphabet): seq<bv8> {
    Text(PaddedSextets(BytesBits(s)), alphabet)
  }

  /** The characters before the first padding character. */
  function DataLength(x: seq<bv8>): (n: nat)
    ensures n <= |x| && (n < |x| ==> x[n] == PAD) && forall i :: 0 <= i < n ==> x[i] != PAD
  {
    if x == [] || x[0] == PAD then 0 else 1 + DataLength(x[1..])
  }

  predicate OnlyPadding(x: seq<bv8>) {
    forall i :: 0 <= i < |x| ==> x[i] == PAD
  }

  function Decoded(x: seq<bv8>, alphabet: Alphabet, behavior: DecodingBehavior): Option<seq<bv8>> {
    var n := DataLength(x);
    match Values(alphabet, x[..n])
    case None => None
    case Some(vs) =>
      if behavior == Loose || OnlyPadding(x[n..]) then Some(WholeBytes(SextetsBits(vs))) else None
  }

  function RequiredEncodeSize(size: nat): nat {
    (size / 3 + (if size % 3 != 0 then 1 else 0)) * 4
  }

  function MaxDecodeSize(size: nat): nat {
    (size / 4 + (if size % 4 != 0 then 1 else 0)) * 3
  }

  /** Sextets of n bytes, and padding to whole quartets. */
  lemma SextetCount(n: nat)
    ensures var k := (8 * n + 5) / 6;
      && k == n / 3 * 4 + (if n % 3 == 0 then 0 else n % 3 + 1)
      && k + (4 - k % 4) % 4 == RequiredEncodeSize(n)
  {
    var q, r := n / 3, n % 3;
    assert 8 * n + 5 == 6 * (4 * q) + (8 * r + 5);
  }

  lemma EncodedSize(s: seq<bv8>, alphabet: Alphabet)
    ensures |Encoded(s, alphabet)| == RequiredEncodeSize(|s|)
  {
    hide PaddedSextets, BytesBits, Symbol;
    SextetCount(|s|);
  }

  lemma DecodedSize(x: seq<bv8>, alphabet: Alphabet, behavior: DecodingBehavior)
    requires Decoded(x, alphabet, behavior).Some?
    ensures |Decoded(x, alphabet, behavior).value| == 6 * DataLength(x) / 8 <= MaxDecodeSize(|x|)
    ensures |Decoded(x, alphabet, behavior).value| <= DataLength(x)
  {
    var n := |x|;
    assert n == 4 * (n / 4) + n % 4;
  }

  // ---- round trips ----

  lemma SymbolValue(alphabet: Alphabet, v: bv8)
    requires v < 64 && alphabet != Auto
    ensures Value(alphabet, Symbol(alphabet, v)) == Some((v, alphabet))
  {
  }

  lemma ValueSymbol(alphabet: Alphabet, c: bv8)
    requires alphabet != Auto && Value(alphabet, c).Some?
    ensures Value(alphabet, c).value.1 == alphabet && Symbol(alphabet, Value(alphabet, c).value.0) == c
  {
  }

  lemma {:induction false} ValuesOfSymbols(alphabet: Alphabet, vs: seq<bv8>)
    requires alphabet != Auto && forall i :: 0 <= i < |vs| ==> vs[i] < 64
    ensures Values(alphabet, Symbols(alphabet, vs)) == Some(vs)
  {
    if vs != [] {
      SymbolValue(alphabet, vs[0]);
      assert Symbols(alphabet, vs)[1..] == Symbols(alphabet, vs[1..]);
      assert vs == [vs[0]] + vs[1..];
      ValuesOfSymbols(alphabet, vs[1..]);
    }
  }

  lemma {:induction false} SymbolsOfValues(alphabet: Alphabet, x: seq<bv8>)
    requires alphabet != Auto && Values(alphabet, x).Some?
    ensures Symbols(alphabet, Values(alphabet, x).value) == x
  {
    if x != [] {
      ValueSymbol(alphabet, x[0]);
      SymbolsOfValues(alphabet, x[1..]);
      assert Values(alphabet, x).value == [Value(alphabet, x[0]).value.0] + Values(alphabet, x[1..]).value;
    }
  }

  /** Automatic detection accepts exactly what one of the two alphabets accepts, with the same values. */
  lemma {:induction false} AutoValues(x: seq<bv8>)
    ensures Values(Auto, x) ==
      if Values(Standard, x).Some? then Values(Standard, x) else Values(UrlFilenameSafe, x)
    ensures Values(Standard, x).Some? && Values(UrlFilenameSafe, x).Some? ==>
      Values(Standard, x) == Values(UrlFilenameSafe, x)
  {
    if x != [] {
      AutoValues(x[1..]);
    }
  }

  /** Auto mode is the union of the standard and the url-safe decoder, in both padding modes. */
  lemma AutoIsUnion(x: seq<bv8>, behavior: DecodingBehavior)
    ensures var auto, std, url := Decoded(x, Auto, behavior), Decoded(x, Standard, behavior), Decoded(x, UrlFilenameSafe, behavior);
      && (auto.Some? <==> std.Some? || url.Some?)
      && (std.Some? ==> auto == std) && (url.Some? ==> auto == url)
  {
    AutoValues(x[..DataLength(x)]);
  }

  lemma DataOfEncoded(vs: seq<bv8>, alphabet: Alphabet, n: nat)
    requires forall i :: 0 <= i < |vs| ==> vs[i] < 64
    ensures var x := Symbols(alphabet, vs) + Padding(n); DataLength(x) == |vs| && x[..|vs|] == Symbols(alphabet, vs)
  {
    DataLengthIs(Symbols(alphabet, vs) + Padding(n), |vs|);
  }

  lemma DataLengthIs(x: seq<bv8>, n: nat)
    requires n <= |x| && (n < |x| ==> x[n] == PAD) && forall i :: 0 <= i < n ==> x[i] != PAD
    ensures DataLength(x) == n
  {
  }

  /** Decoding undoes encoding, with the alphabet named or detected. */
  lemma DecodeEncoded(s: seq<bv8>, alphabet: Alphabet, decoder: Alphabet, behavior: DecodingBehavior)
    requires decoder == Auto || (decoder == UrlFilenameSafe <==> alphabet == UrlFilenameSafe)
    ensures Decoded(Encoded(s, alphabet), decoder, behavior) == Some(s)
  {
    hide Values, Value, Symbol, PaddedSextets, SextetsBits, BytesBits, WholeBytes, Symbols;
    var vs := PaddedSextets(BytesBits(s));
    var x := Encoded(s, alphabet);
    var named := if alphabet == UrlFilenameSafe then UrlFilenameSafe else Standard;
    DataOfEncoded(vs, alphabet, (4 - |vs| % 4) % 4);
    SameTable(vs, alphabet, named);
    ValuesOfSymbols(named, vs);
    EncodedBits(s);
    assert OnlyPadding(x[|vs|..]);
    assert Decoded(x, named, behavior) == Some(s);
    AutoIsUnion(x, behavior);
  }

  lemma SameTable(vs: seq<bv8>, alphabet: Alphabet, named: Alphabet)
    requires forall i :: 0 <= i < |vs| ==> vs[i] < 64
    requires alphabet == UrlFilenameSafe <==> named == UrlFilenameSafe
    ensures Symbols(alphabet, vs) == Symbols(named, vs)
  {
  }

  lemma EncodedBits(s: seq<bv8>)
    ensures WholeBytes(SextetsBits(PaddedSextets(BytesBits(s)))) == s
  {
    hide PaddedSextets, SextetsBits, BytesBits, WholeBytes;
    BitsOfPaddedSextets(BytesBits(s));
    BytesOfBits(s, Zeros((8 * |s| + 5) / 6 * 6 - 8 * |s|));
  }

  /** Padded to whole quartets with at most two characters, and no bit of the last sextet lost. */
  ghost predicate Canonical(x: seq<bv8>, alphabet: Alphabet) {
    var n := DataLength(x);
    && |x| % 4 == 0 && |x| - n <= 2 && OnlyPadding(x[n..]) && Values(alphabet, x[..n]).Some?
    && var t := SextetsBits(Values(alphabet, x[..n]).value);
       forall i :: |t| / 8 * 8 <= i < |t| ==> !t[i]
  }

  /** Encoding undoes decoding for exactly the canonical texts. */
  lemma EncodeDecoded(x: seq<bv8>, alphabet: Alphabet, behavior: DecodingBehavior)
    requires alphabet != Auto && Decoded(x, alphabet, behavior).Some?
    ensures Encoded(Decoded(x, alphabet, behavior).value, alphabet) == x <==> Canonical(x, alphabet)
  {
    hide Values, Value, Symbol, PaddedSextets, SextetsBits, BytesBits, WholeBytes, Symbols;
    if Canonical(x, alphabet) {
      CanonicalRoundTrip(x, alphabet);
    }
    if Encoded(Decoded(x, alphabet, behavior).value, alphabet) == x {
      EncodedIsCanonical(Decoded(x, alphabet, behavior).value, alphabet);
    }
  }

  lemma CanonicalRoundTrip(x: seq<bv8>, alphabet: Alphabet)
    requires alphabet != Auto && Canonical(x, alphabet)
    ensures Encoded(WholeBytes(SextetsBits(Values(alphabet, x[..DataLength(x)]).value)), alphabet) == x
  {
    hide Values, Value, Symbol, PaddedSextets, SextetsBits, BytesBits, WholeBytes, Symbols, DataLength, Padding;
    var n := DataLength(x);
    var vs := Values(alphabet, x[..n]).value;
    var t := SextetsBits(vs);
    BitsOfWholeBytes(t);
    PaddingLength(|x|, n);
    SextetsOfBits(vs, |t| / 8 * 8);
    SymbolsOfValues(alphabet, x[..n]);
    assert x == x[..n] + x[n..];
    assert x[n..] == Padding((4 - n % 4) % 4);
  }

  lemma PaddingLength(m: nat, n: nat)
    requires m % 4 == 0 && n <= m <= n + 2
    ensures m - n == (4 - n % 4) % 4
    ensures 6 * n / 8 * 8 <= 6 * n < 6 * n / 8 * 8 + 6
  {
    var p, e := n / 4, n % 4;
    assert n == 4 * p + e && m == 4 * (m / 4);
    assert 6 * n == 8 * (3 * p) + 6 * e;
    assert 6 * n / 8 == 3 * p + 6 * e / 8;
  }

  /** Every encoder output is canonical. */
  lemma EncodedIsCanonical(s: seq<bv8>, alphabet: Alphabet)
    requires alphabet != Auto
    ensures Canonical(Encoded(s, alphabet), alphabet)
  {
    hide Value, Symbol, PaddedSextets, SextetsBits, BytesBits, Values, Symbols, RequiredEncodeSize, DataLength;
    var vs := PaddedSextets(BytesBits(s));
    var x := Encoded(s, alphabet);
    DataOfEncoded(vs, alphabet, (4 - |vs| % 4) % 4);
    ValuesOfSymbols(alphabet, vs);
    BitsOfPaddedSextets(BytesBits(s));
    PaddingOfSextets(|s|);
    var t := SextetsBits(vs);
    assert t == BytesBits(s) + Zeros(|t| - 8 * |s|);
    LostBits(|s|);
    forall i | |t| / 8 * 8 <= i < |t| ensures !t[i] {
      assert t[i] == Zeros(|t| - 8 * |s|)[i - 8 * |s|];
    }
  }

  lemma PaddingOfSextets(n: nat)
    ensures var k := (8 * n + 5) / 6; (4 - k % 4) % 4 <= 2 && (k + (4 - k % 4) % 4) % 4 == 0
  {
    SextetCount(n);
  }

  lemma Eighths(x: nat, n: nat)
    requires 8 * n <= x < 8 * n + 8
    ensures x / 8 == n
  {
  }

  lemma LostBits(n: nat)
    ensures (8 * n + 5) / 6 * 6 / 8 * 8 == 8 * n
  {
    var k := (8 * n + 5) / 6;
    assert 8 * n <= 6 * k <= 8 * n + 5;
    Eighths(6 * k, n);
  }

  // ---- the encoding loop ----

  /** The four sextets of up to three bytes; a missing byte counts as 0. */
  function Sextet0(i0: bv8): (v: bv8) ensures v < 64 { (i0 >> 2) & 0x3f }
  function Sextet1(i0: bv8, i1: bv8): (v: bv8) ensures v < 64 { ((i0 & 0x3) << 4) | ((i1 >> 4) & 0x0f) }
  function Sextet2(i1: bv8, i2: bv8): (v: bv8) ensures v < 64 { ((i1 & 0xf) << 2) | ((i2 >> 6) & 0x03) }
  function Sextet3(i2: bv8): (v: bv8) ensures v < 64 { i2 & 0x3f }

  lemma Bits0(a: bv8)
    ensures var v := Sextet0(a);
      && Bit(v, 32) == Bit(a, 128) && Bit(v, 16) == Bit(a, 64) && Bit(v, 8) == Bit(a, 32)
      && Bit(v, 4) == Bit(a, 16) && Bit(v, 2) == Bit(a, 8) && Bit(v, 1) == Bit(a, 4)
  {
  }

  lemma Bits1(a: bv8, b: bv8)
    ensures var v := Sextet1(a, b);
      && Bit(v, 32) == Bit(a, 2) && Bit(v, 16) == Bit(a, 1) && Bit(v, 8) == Bit(b, 128)
      && Bit(v, 4) == Bit(b, 64) && Bit(v, 2) == Bit(b, 32) && Bit(v, 1) == Bit(b, 16)
  {
  }

  lemma Bits2(a: bv8, b: bv8)
    ensures var v := Sextet2(a, b);
      && Bit(v, 32) == Bit(a, 8) && Bit(v, 16) == Bit(a, 4) && Bit(v, 8) == Bit(a, 2)
      && Bit(v, 4) == Bit(a, 1) && Bit(v, 2) == Bit(b, 128) && Bit(v, 1) == Bit(b, 64)
  {
  }

  lemma Bits3(a: bv8)
    ensures var v := Sextet3(a);
      && Bit(v, 32) == Bit(a, 32) && Bit(v, 16) == Bit(a, 16) && Bit(v, 8) == Bit(a, 8)
      && Bit(v, 4) == Bit(a, 4) && Bit(v, 2) == Bit(a, 2) && Bit(v, 1) == Bit(a, 1)
  {
  }

  lemma Cut0<T>(a7: T, a6: T, a5: T, a4: T, a3: T, a2: T, a1: T, a0: T)
    ensures Six(a7, a6, a5, a4, a3, a2) == Eight(a7, a6, a5, a4, a3, a2, a1, a0)[..6]
    ensures Six(a5, a4, a3, a2, a1, a0) == Eight(a7, a6, a5, a4, a3, a2, a1, a0)[2..]
  {
  }

  lemma Cut1<T>(a7: T, a6: T, a5: T, a4: T, a3: T, a2: T, a1: T, a0: T,
        b7: T, b6: T, b5: T, b4: T, b3: T, b2: T, b1: T, b0: T)
    ensures Six(a1, a0, b7, b6, b5, b4)
      == Eight(a7, a6, a5, a4, a3, a2, a1, a0)[6..] + Eight(b7, b6, b5, b4, b3, b2, b1, b0)[..4]
    ensures Six(a3, a2, a1, a0, b7, b6)
      == Eight(a7, a6, a5, a4, a3, a2, a1, a0)[4..] + Eight(b7, b6, b5, b4, b3, b2, b1, b0)[..2]
  {
  }

  lemma SixBits(v: bv8)
    ensures SextetBits(v) == Six(Bit(v, 32), Bit(v, 16), Bit(v, 8), Bit(v, 4), Bit(v, 2), Bit(v, 1))
  {
  }

  lemma ByteEight(v: bv8)
    ensures ByteBits(v) == Eight(Bit(v, 128), Bit(v, 64), Bit(v, 32), Bit(v, 16), Bit(v, 8), Bit(v, 4), Bit(v, 2), Bit(v, 1))
  {
  }

  /** The bits of the four sextets are the bits of the three bytes. */
  lemma SextetBits0(i0: bv8)
    ensures SextetBits(Sextet0(i0)) == ByteBits(i0)[..6]
  {
    hide Sextet0, Bit, Six, Eight;
    Bits0(i0);
    Cut0(Bit(i0, 128), Bit(i0, 64), Bit(i0, 32), Bit(i0, 16), Bit(i0, 8), Bit(i0, 4), Bit(i0, 2), Bit(i0, 1));
  }

  lemma SextetBits1(i0: bv8, i1: bv8)
    ensures SextetBits(Sextet1(i0, i1)) == ByteBits(i0)[6..] + ByteBits(i1)[..4]
  {
    hide Sextet1, Bit, Six, Eight, SextetBits, ByteBits;
    Bits1(i0, i1);
    SixBits(Sextet1(i0, i1));
    ByteEight(i0);
    ByteEight(i1);
    Cut1(Bit(i0, 128), Bit(i0, 64), Bit(i0, 32), Bit(i0, 16), Bit(i0, 8), Bit(i0, 4), Bit(i0, 2), Bit(i0, 1),
      Bit(i1, 128), Bit(i1, 64), Bit(i1, 32), Bit(i1, 16), Bit(i1, 8), Bit(i1, 4), Bit(i1, 2), Bit(i1, 1));
  }

  lemma SextetBits2(i1: bv8, i2: bv8)
    ensures SextetBits(Sextet2(i1, i2)) == ByteBits(i1)[4..] + ByteBits(i2)[..2]
  {
    hide Sextet2, Bit, Six, Eight, SextetBits, ByteBits;
    Bits2(i1, i2);
    SixBits(Sextet2(i1, i2));
    ByteEight(i1);
    ByteEight(i2);
    Cut1(Bit(i1, 128), Bit(i1, 64), Bit(i1, 32), Bit(i1, 16), Bit(i1, 8), Bit(i1, 4), Bit(i1, 2), Bit(i1, 1),
      Bit(i2, 128), Bit(i2, 64), Bit(i2, 32), Bit(i2, 16), Bit(i2, 8), Bit(i2, 4), Bit(i2, 2), Bit(i2, 1));
  }

  lemma SextetBits3(i2: bv8)
    ensures SextetBits(Sextet3(i2)) == ByteBits(i2)[2..]
  {
    hide Sextet3, Bit, Six, Eight;
    Bits3(i2);
    Cut0(Bit(i2, 128), Bit(i2, 64), Bit(i2, 32), Bit(i2, 16), Bit(i2, 8), Bit(i2, 4), Bit(i2, 2), Bit(i2, 1));
  }

  lemma ZeroByte()
    ensures ByteBits(0) == Zeros(8)
  {
  }

  lemma FirstSextet(v: bv8, rest: Bits)
    requires v < 64
    ensures PaddedSextets(SextetBits(v) + rest) == [v] + PaddedSextets(rest)
  {
    var t := SextetBits(v) + rest;
    assert t[..6] == SextetBits(v) && t[6..] == rest;
    SameSextet(SextetOf(t[..6]), v);
  }

  lemma LastSextet(v: bv8, t: Bits)
    requires v < 64 && 0 < |t| < 6 && t + Zeros(6 - |t|) == SextetBits(v)
    ensures PaddedSextets(t) == [v]
  {
    SameSextet(SextetOf(t + Zeros(6 - |t|)), v);
  }

  lemma QuartetSextets(i0: bv8, i1: bv8, i2: bv8, rest: seq<bv8>)
    ensures PaddedSextets(BytesBits([i0, i1, i2] + rest)) ==
      [Sextet0(i0), Sextet1(i0, i1), Sextet2(i1, i2), Sextet3(i2)] + PaddedSextets(BytesBits(rest))
  {
    hide PaddedSextets, ByteBits, SextetBits, BytesBits, Sextet0, Sextet1, Sextet2, Sextet3;
    var t := BytesBits(rest);
    var v0, v1, v2, v3 := Sextet0(i0), Sextet1(i0, i1), Sextet2(i1, i2), Sextet3(i2);
    SextetBits0(i0); SextetBits1(i0, i1); SextetBits2(i1, i2); SextetBits3(i2);
    BitsOfThree(i0, i1, i2, rest);
    var t3 := SextetBits(v3) + t;
    var t2 := SextetBits(v2) + t3;
    var t1 := SextetBits(v1) + t2;
    assert BytesBits([i0, i1, i2] + rest) == SextetBits(v0) + t1;
    FirstSextet(v0, t1); FirstSextet(v1, t2); FirstSextet(v2, t3); FirstSextet(v3, t);
  }

  lemma BitsOfThree(i0: bv8, i1: bv8, i2: bv8, rest: seq<bv8>)
    ensures BytesBits([i0, i1, i2] + rest) == ByteBits(i0) + (ByteBits(i1) + (ByteBits(i2) + BytesBits(rest)))
  {
    hide ByteBits;
    BitsOfCons(i2, rest);
    BitsOfCons(i1, [i2] + rest);
    BitsOfCons(i0, [i1] + ([i2] + rest));
    assert [i0, i1, i2] + rest == [i0] + ([i1] + ([i2] + rest));
  }

  lemma BitsOfCons(b: bv8, s: seq<bv8>)
    ensures BytesBits([b] + s) == ByteBits(b) + BytesBits(s)
  {
    hide ByteBits;
    assert ([b] + s)[1..] == s;
  }

  lemma PairSextets(i0: bv8, i1: bv8)
    ensures PaddedSextets(BytesBits([i0, i1])) == [Sextet0(i0), Sextet1(i0, i1), Sextet2(i1, 0)]
  {
    hide PaddedSextets, ByteBits, SextetBits, BytesBits, Sextet0, Sextet1, Sextet2;
    var v0, v1, v2 := Sextet0(i0), Sextet1(i0, i1), Sextet2(i1, 0);
    SextetBits0(i0); SextetBits1(i0, i1); SextetBits2(i1, 0); ZeroByte();
    BitsOfCons(i1, []); BitsOfCons(i0, [i1]);
    assert [i0] + [i1] == [i0, i1] && [i1] + [] == [i1] && BytesBits([]) == [];
    var t := ByteBits(i1)[4..];
    assert BytesBits([i0, i1]) == SextetBits(v0) + (SextetBits(v1) + t);
    FirstSextet(v0, SextetBits(v1) + t);
    FirstSextet(v1, t);
    assert t + Zeros(2) == SextetBits(v2);
    LastSextet(v2, t);
  }

  lemma SingleSextets(i0: bv8)
    ensures PaddedSextets(BytesBits([i0])) == [Sextet0(i0), Sextet1(i0, 0)]
  {
    hide PaddedSextets, ByteBits, SextetBits, BytesBits, Sextet0, Sextet1;
    var v0, v1 := Sextet0(i0), Sextet1(i0, 0);
    SextetBits0(i0); SextetBits1(i0, 0); ZeroByte();
    BitsOfCons(i0, []);
    assert [i0] + [] == [i0] && BytesBits([]) == [];
    var t := ByteBits(i0)[6..];
    assert BytesBits([i0]) == SextetBits(v0) + t;
    FirstSextet(v0, t);
    assert t + Zeros(4) == SextetBits(v1);
    LastSextet(v1, t);
  }

  /** What one pass of the loop writes for the bytes that are left. */
  function Quartet(s: seq<bv8>, alphabet: Alphabet): (q: seq<bv8>)
    requires s != []
    ensures |q| == 4
  {
    if |s| == 1 then
      [Symbol(alphabet, Sextet0(s[0])), Symbol(alphabet, Sextet1(s[0], 0)), PAD, PAD]
    else if |s| == 2 then
      [Symbol(alphabet, Sextet0(s[0])), Symbol(alphabet, Sextet1(s[0], s[1])), Symbol(alphabet, Sextet2(s[1], 0)), PAD]
    else
      [Symbol(alphabet, Sextet0(s[0])), Symbol(alphabet, Sextet1(s[0], s[1])),
       Symbol(alphabet, Sextet2(s[1], s[2])), Symbol(alphabet, Sextet3(s[2]))]
  }

  lemma EncodedQuartet(s: seq<bv8>, alphabet: Alphabet)
    requires s != []
    ensures Encoded(s, alphabet) == Quartet(s, alphabet) + Encoded(if |s| < 3 then [] else s[3..], alphabet)
  {
    hide PaddedSextets, BytesBits, Symbol, Text, Sextet0, Sextet1, Sextet2, Sextet3;
    EncodedNothing(alphabet);
    if |s| == 1 {
      assert s == [s[0]];
      SingleSextets(s[0]);
      TextOfTwo(Sextet0(s[0]), Sextet1(s[0], 0), alphabet);
    } else if |s| == 2 {
      assert s == [s[0], s[1]];
      PairSextets(s[0], s[1]);
      TextOfThree(Sextet0(s[0]), Sextet1(s[0], s[1]), Sextet2(s[1], 0), alphabet);
    } else {
      assert s == [s[0], s[1], s[2]] + s[3..];
      QuartetSextets(s[0], s[1], s[2], s[3..]);
      TextOfFour(Sextet0(s[0]), Sextet1(s[0], s[1]), Sextet2(s[1], s[2]), Sextet3(s[2]), PaddedSextets(BytesBits(s[3..])), alphabet);
    }
  }

  lemma TextOfTwo(v0: bv8, v1: bv8, alphabet: Alphabet)
    requires v0 < 64 && v1 < 64
    ensures Text([v0, v1], alphabet) == [Symbol(alphabet, v0), Symbol(alphabet, v1), PAD, PAD]
  {
    hide Symbol;
  }

  lemma TextOfThree(v0: bv8, v1: bv8, v2: bv8, alphabet: Alphabet)
    requires v0 < 64 && v1 < 64 && v2 < 64
    ensures Text([v0, v1, v2], alphabet) == [Symbol(alphabet, v0), Symbol(alphabet, v1), Symbol(alphabet, v2), PAD]
  {
    hide Symbol;
  }

  lemma TextOfFour(v0: bv8, v1: bv8, v2: bv8, v3: bv8, rest: seq<bv8>, alphabet: Alphabet)
    requires v0 < 64 && v1 < 64 && v2 < 64 && v3 < 64 && forall i :: 0 <= i < |rest| ==> rest[i] < 64
    ensures Text([v0, v1, v2, v3] + rest, alphabet)
      == [Symbol(alphabet, v0), Symbol(alphabet, v1), Symbol(alphabet, v2), Symbol(alphabet, v3)] + Text(rest, alphabet)
  {
    hide Symbol, Padding, Symbols;
    var vs, n := [v0, v1, v2, v3] + rest, |rest|;
    SamePadding(n);
    var head := [Symbol(alphabet, v0), Symbol(alphabet, v1), Symbol(alphabet, v2), Symbol(alphabet, v3)];
    var pad := Padding((4 - n % 4) % 4);
    assert Symbols(alphabet, vs) == head + Symbols(alphabet, rest);
    assert head + Symbols(alphabet, rest) + pad == head + (Symbols(alphabet, rest) + pad);
  }

  lemma SamePadding(n: nat)
    ensures (4 - (n + 4) % 4) % 4 == (4 - n % 4) % 4
  {
  }

  lemma EncodedNothing(alphabet: Alphabet)
    ensures Encoded([], alphabet) == []
  {
  }

  lemma QuartetParts(s: seq<bv8>, alphabet: Alphabet)
    requires s != []
    ensures var q := Quartet(s, alphabet);
      && q[0] == Symbol(alphabet, Sextet0(s[0]))
      && q[1] == Symbol(alphabet, Sextet1(s[0], if |s| > 1 then s[1] else 0))
      && q[2] == (if |s| > 1 then Symbol(alphabet, Sextet2(s[1], if |s| > 2 then s[2] else 0)) else PAD)
      && q[3] == (if |s| > 2 then Symbol(alphabet, Sextet3(s[2])) else PAD)
  {
  }

  /** One pass of the encoding loop: reads up to three bytes at i, writes four characters at n. */
  method EncodePass(src: array<bv8>, i: nat, dst: array<bv8>, n: nat, alphabet: Alphabet) returns (i': nat, n': nat)
    requires src != dst && i < src.Length && n + 4 <= dst.Length
    modifies dst
    ensures i' == (if src.Length - i < 3 then src.Length else i + 3) && n' == n + 4
    ensures dst[n..n'] == Quartet(src[i..], alphabet)
    ensures forall j :: 0 <= j < dst.Length && !(n <= j < n') ==> dst[j] == old(dst[j])
  {
    hide Symbol, Sextet0, Sextet1, Sextet2, Sextet3, Quartet;
    QuartetParts(src[i..], alphabet);
    i', n' := i, n;
    var i0 := src[i'];
    i' := i' + 1;
    dst[n'] := Symbol(alphabet, Sextet0(i0));
    n' := n' + 1;
    if i' == src.Length {
      dst[n'] := Symbol(alphabet, Sextet1(i0, 0));
      n' := n' + 1;
      dst[n'] := PAD;
      n' := n' + 1;
      dst[n'] := PAD;
      n' := n' + 1;
      return;
    }
    var i1 := src[i'];
    i' := i' + 1;
    dst[n'] := Symbol(alphabet, Sextet1(i0, i1));
    n' := n' + 1;
    if i' == src.Length {
      dst[n'] := Symbol(alphabet, Sextet2(i1, 0));
      n' := n' + 1;
      dst[n'] := PAD;
      n' := n' + 1;
      return;
    }
    var i2 := src[i'];
    i' := i' + 1;
    dst[n'] := Symbol(alphabet, Sextet2(i1, i2));
    n' := n' + 1;
    dst[n'] := Symbol(alphabet, Sextet3(i2));
    n' := n' + 1;
  }

  /** Encodes src into dst and returns the number of characters written. */
  method Encode(src: array<bv8>, dst: array<bv8>, alphabet: Alphabet) returns (n: nat)
    requires src != dst && dst.Length >= RequiredEncodeSize(src.Length)
    modifies dst
    ensures n == RequiredEncodeSize(src.Length)
    ensures dst[..n] == Encoded(src[..], alphabet)
    ensures forall j :: n <= j < dst.Length ==> dst[j] == old(dst[j])
  {
    hide Encoded, Quartet, RequiredEncodeSize;
    var i := 0;
    n := 0;
    ghost var x := src[..];
    EncodedSize(x, alphabet);
    EncodedNothing(alphabet);
    while i < src.Length
      invariant i <= src.Length && src[..] == x && n <= RequiredEncodeSize(src.Length)
      invariant dst[..n] + Encoded(x[i..], alphabet) == Encoded(x, alphabet)
      invariant forall j :: n <= j < dst.Length ==> dst[j] == old(dst[j])
    {
      ghost var rest, done := x[i..], dst[..n];
      EncodedQuartet(rest, alphabet);
      assert src[i..] == rest;
      ghost var o := n;
      i, n := EncodePass(src, i, dst, n, alphabet);
      assert dst[..n] == done + dst[o..n];
      assert x[i..] == if |rest| < 3 then [] else rest[3..];
      assert done + dst[o..n] + Encoded(x[i..], alphabet) == done + (dst[o..n] + Encoded(x[i..], alphabet));
    }
    assert x[src.Length..] == [] && dst[..n] + [] == dst[..n];
  }

  // ---- the decoding loop ----

  /** The byte completed by a sextet when `bits` bits of the previous one are still unwritten. */
  function Join(last: bv8, part: bv8, bits: nat): bv8
    requires bits == 2 || bits == 4 || bits == 6
  {
    if bits == 2 then (last << 6) | part
    else if bits == 4 then (last << 4) | (part >> 2)
    else (last << 2) | (part >> 4)
  }

  /** The unwritten bits of the last sextet. */
  function Pending(last: bv8, bits: nat): (r: Bits)
    requires bits <= 6
    ensures |r| == bits
  {
    SextetBits(last)[6 - bits..]
  }

  /** The eight bits of v, the highest first, given as bits of a and b. */
  predicate EightBits(v: bv8, b7: bool, b6: bool, b5: bool, b4: bool, b3: bool, b2: bool, b1: bool, b0: bool) {
    && Bit(v, 128) == b7 && Bit(v, 64) == b6 && Bit(v, 32) == b5 && Bit(v, 16) == b4
    && Bit(v, 8) == b3 && Bit(v, 4) == b2 && Bit(v, 2) == b1 && Bit(v, 1) == b0
  }

  lemma Joined2(a: bv8, b: bv8)
    requires b < 64
    ensures EightBits(Join(a, b, 2), Bit(a, 2), Bit(a, 1), Bit(b, 32), Bit(b, 16), Bit(b, 8), Bit(b, 4), Bit(b, 2), Bit(b, 1))
  {
  }

  lemma Straddle2<T>(a5: T, a4: T, a3: T, a2: T, a1: T, a0: T, b5: T, b4: T, b3: T, b2: T, b1: T, b0: T)
    ensures Eight(a1, a0, b5, b4, b3, b2, b1, b0)
      == Six(a5, a4, a3, a2, a1, a0)[4..] + Six(b5, b4, b3, b2, b1, b0)
  {
  }

  lemma EightIs(v: bv8, b7: bool, b6: bool, b5: bool, b4: bool, b3: bool, b2: bool, b1: bool, b0: bool)
    requires EightBits(v, b7, b6, b5, b4, b3, b2, b1, b0)
    ensures ByteBits(v) == Eight(b7, b6, b5, b4, b3, b2, b1, b0)
  {
    hide Bit, Eight;
  }

  lemma Layout2(v: bv8, a: bv8, b: bv8)
    requires EightBits(v, Bit(a, 2), Bit(a, 1), Bit(b, 32), Bit(b, 16), Bit(b, 8), Bit(b, 4), Bit(b, 2), Bit(b, 1))
    ensures ByteBits(v) == SextetBits(a)[4..] + SextetBits(b)
  {
    hide Bit, Eight, Six, EightBits, ByteBits, SextetBits;
    SixBits(a);
    SixBits(b);
    EightIs(v, Bit(a, 2), Bit(a, 1), Bit(b, 32), Bit(b, 16), Bit(b, 8), Bit(b, 4), Bit(b, 2), Bit(b, 1));
    Straddle2(Bit(a, 32), Bit(a, 16), Bit(a, 8), Bit(a, 4), Bit(a, 2), Bit(a, 1),
      Bit(b, 32), Bit(b, 16), Bit(b, 8), Bit(b, 4), Bit(b, 2), Bit(b, 1));
  }

  lemma Joined4(a: bv8, b: bv8)
    requires b < 64
    ensures EightBits(Join(a, b, 4), Bit(a, 8), Bit(a, 4), Bit(a, 2), Bit(a, 1), Bit(b, 32), Bit(b, 16), Bit(b, 8), Bit(b, 4))
  {
  }

  lemma Straddle4<T>(a5: T, a4: T, a3: T, a2: T, a1: T, a0: T, b5: T, b4: T, b3: T, b2: T, b1: T, b0: T)
    ensures Eight(a3, a2, a1, a0, b5, b4, b3, b2)
      == Six(a5, a4, a3, a2, a1, a0)[2..] + Six(b5, b4, b3, b2, b1, b0)[..4]
  {
  }

  lemma Layout4(v: bv8, a: bv8, b: bv8)
    requires EightBits(v, Bit(a, 8), Bit(a, 4), Bit(a, 2), Bit(a, 1), Bit(b, 32), Bit(b, 16), Bit(b, 8), Bit(b, 4))
    ensures ByteBits(v) == SextetBits(a)[2..] + SextetBits(b)[..4]
  {
    hide Bit, Eight, Six, EightBits, ByteBits, SextetBits;
    SixBits(a);
    SixBits(b);
    EightIs(v, Bit(a, 8), Bit(a, 4), Bit(a, 2), Bit(a, 1), Bit(b, 32), Bit(b, 16), Bit(b, 8), Bit(b, 4));
    Straddle4(Bit(a, 32), Bit(a, 16), Bit(a, 8), Bit(a, 4), Bit(a, 2), Bit(a, 1),
      Bit(b, 32), Bit(b, 16), Bit(b, 8), Bit(b, 4), Bit(b, 2), Bit(b, 1));
  }

  lemma Joined6(a: bv8, b: bv8)
    requires b < 64
    ensures EightBits(Join(a, b, 6), Bit(a, 32), Bit(a, 16), Bit(a, 8), Bit(a, 4), Bit(a, 2), Bit(a, 1), Bit(b, 32), Bit(b, 16))
  {
  }

  lemma Straddle6<T>(a5: T, a4: T, a3: T, a2: T, a1: T, a0: T, b5: T, b4: T, b3: T, b2: T, b1: T, b0: T)
    ensures Eight(a5, a4, a3, a2, a1, a0, b5, b4)
      == Six(a5, a4, a3, a2, a1, a0) + Six(b5, b4, b3, b2, b1, b0)[..2]
  {
  }

  lemma Layout6(v: bv8, a: bv8, b: bv8)
    requires EightBits(v, Bit(a, 32), Bit(a, 16), Bit(a, 8), Bit(a, 4), Bit(a, 2), Bit(a, 1), Bit(b, 32), Bit(b, 16))
    ensures ByteBits(v) == SextetBits(a) + SextetBits(b)[..2]
  {
    hide Bit, Eight, Six, EightBits, ByteBits, SextetBits;
    SixBits(a);
    SixBits(b);
    EightIs(v, Bit(a, 32), Bit(a, 16), Bit(a, 8), Bit(a, 4), Bit(a, 2), Bit(a, 1), Bit(b, 32), Bit(b, 16));
    Straddle6(Bit(a, 32), Bit(a, 16), Bit(a, 8), Bit(a, 4), Bit(a, 2), Bit(a, 1),
      Bit(b, 32), Bit(b, 16), Bit(b, 8), Bit(b, 4), Bit(b, 2), Bit(b, 1));
  }

  lemma JoinBits(last: bv8, part: bv8, bits: nat)
    requires (bits == 2 || bits == 4 || bits == 6) && part < 64
    ensures Pending(last, bits) + SextetBits(part) == ByteBits(Join(last, part, bits)) + Pending(part, bits - 2)
  {
    hide Join, ByteBits, SextetBits, EightBits, Bit;
    var v := Join(last, part, bits);
    if bits == 2 {
      Joined2(last, part);
      Layout2(v, last, part);
    } else if bits == 4 {
      Joined4(last, part);
      Layout4(v, last, part);
    } else {
      Joined6(last, part);
      Layout6(v, last, part);
    }
  }

  lemma {:induction false} BytesBitsSnoc(s: seq<bv8>, b: bv8)
    ensures BytesBits(s + [b]) == BytesBits(s) + ByteBits(b)
  {
    hide ByteBits;
    if s == [] {
      BitsOfCons(b, []);
      assert [b] + [] == [b];
    } else {
      BytesBitsSnoc(s[1..], b);
      assert (s + [b])[1..] == s[1..] + [b];
    }
  }

  lemma {:induction false} SextetsBitsSnoc(s: seq<bv8>, v: bv8)
    ensures SextetsBits(s + [v]) == SextetsBits(s) + SextetBits(v)
  {
    hide SextetBits;
    if s == [] {
      assert ([] + [v])[1..] == [];
    } else {
      SextetsBitsSnoc(s[1..], v);
      assert (s + [v])[1..] == s[1..] + [v];
    }
  }

  /** The decoder between two characters: the values read so far, the bytes written, the bits kept. */
  ghost predicate InStep(vs: seq<bv8>, out: seq<bv8>, last: bv8, bits: nat) {
    && (bits == 0 || bits == 2 || bits == 4 || bits == 6)
    && SextetsBits(vs) == BytesBits(out) + Pending(last, bits)
  }

  lemma StepKeeps(vs: seq<bv8>, out: seq<bv8>, last: bv8, bits: nat, part: bv8)
    requires InStep(vs, out, last, bits) && part < 64
    ensures if bits == 0 then InStep(vs + [part], out, part, 6)
      else InStep(vs + [part], out + [Join(last, part, bits)], part, bits - 2)
  {
    hide Join, ByteBits, SextetBits, BytesBits, SextetsBits, Pending;
    SextetsBitsSnoc(vs, part);
    if bits == 0 {
      PendingAll(part);
      assert BytesBits(out) + Pending(last, 0) == BytesBits(out);
    } else {
      JoinBits(last, part, bits);
      BytesBitsSnoc(out, Join(last, part, bits));
      Reassociate(BytesBits(out), Pending(last, bits), SextetBits(part), ByteBits(Join(last, part, bits)), Pending(part, bits - 2));
    }
  }

  lemma Reassociate(a: Bits, b: Bits, c: Bits, d: Bits, e: Bits)
    requires b + c == d + e
    ensures a + b + c == a + d + e
  {
    assert a + b + c == a + (b + c);
    assert a + d + e == a + (d + e);
  }

  lemma PendingAll(part: bv8)
    ensures Pending(part, 6) == SextetBits(part)
  {
  }

  lemma StepResult(vs: seq<bv8>, out: seq<bv8>, last: bv8, bits: nat)
    requires InStep(vs, out, last, bits)
    ensures WholeBytes(SextetsBits(vs)) == out
    ensures 8 * |out| + bits == 6 * |vs| && (bits == 0 || bits == 2 || bits == 4 || bits == 6)
  {
    hide ByteBits, SextetBits;
    BytesOfBits(out, Pending(last, bits));
  }

  /** Values read so far followed by what the rest will give. */
  ghost function Prepend(vs: seq<bv8>, rest: Option<seq<bv8>>): Option<seq<bv8>> {
    if rest.None? then None else Some(vs + rest.value)
  }

  /** Takes in one sextet: writes a byte at o if enough bits have come together. */
  method PutSextet(dst: array<bv8>, o: nat, last: bv8, bits: nat, part: bv8) returns (o': nat, bits': nat)
    requires bits == 0 || bits == 2 || bits == 4 || bits == 6
    requires bits >= 2 ==> o < dst.Length
    modifies dst
    ensures if bits == 0 then o' == o && bits' == 6 else o' == o + 1 && bits' == bits - 2 && dst[o] == Join(last, part, bits)
    ensures forall j :: 0 <= j < dst.Length && !(o <= j < o') ==> dst[j] == old(dst[j])
  {
    o', bits' := o, bits;
    if bits + 6 >= 8 {
      dst[o'] := Join(last, part, bits);
      o' := o' + 1;
      bits' := bits' - 2;
    } else {
      bits' := bits' + 6;
    }
  }

  /** The decoder after i characters of the data d: all values so far, and what the rest must still give. */
  ghost predicate Reading(alphabet: Alphabet, d: seq<bv8>, i: nat, mode: Alphabet, vs: seq<bv8>, out: seq<bv8>, last: bv8, bits: nat) {
    && i <= |d| && |vs| == i && Prepend(vs, Values(mode, d[i..])) == Values(alphabet, d)
    && InStep(vs, out, last, bits)
  }

  lemma ReadingStarts(alphabet: Alphabet, d: seq<bv8>)
    ensures Reading(alphabet, d, 0, alphabet, [], [], 0, 0)
  {
    StartInStep();
    NothingRead(alphabet, d);
  }

  lemma ReadingStep(alphabet: Alphabet, d: seq<bv8>, i: nat, mode: Alphabet, vs: seq<bv8>, out: seq<bv8>, last: bv8, bits: nat)
    requires Reading(alphabet, d, i, mode, vs, out, last, bits) && i < |d|
    ensures 8 * |out| + bits == 6 * i && (bits == 0 || bits == 2 || bits == 4 || bits == 6)
    ensures match Value(mode, d[i])
      case None => Values(alphabet, d).None?
      case Some((part, next)) =>
        if bits == 0 then Reading(alphabet, d, i + 1, next, vs + [part], out, part, 6)
        else Reading(alphabet, d, i + 1, next, vs + [part], out + [Join(last, part, bits)], part, bits - 2)
  {
    hide Value, Values, InStep, Join;
    StepResult(vs, out, last, bits);
    ValuesStep(alphabet, d, vs, mode, i);
    match Value(mode, d[i])
    case None =>
    case Some((part, next)) => StepKeeps(vs, out, last, bits, part);
  }

  lemma ReadingEnds(alphabet: Alphabet, d: seq<bv8>, mode: Alphabet, vs: seq<bv8>, out: seq<bv8>, last: bv8, bits: nat)
    requires Reading(alphabet, d, |d|, mode, vs, out, last, bits)
    ensures Values(alphabet, d).Some? && out == WholeBytes(SextetsBits(Values(alphabet, d).value))
  {
    StepResult(vs, out, last, bits);
    NothingLeft(alphabet, d, vs, mode);
  }

  /** The first loop of decode: reads the data d up to the padding and writes the whole bytes.
      Returns how far it read and wrote. */
  method DecodeData(src: array<bv8>, dst: array<bv8>, alphabet: Alphabet, ghost d: seq<bv8>) returns (r: Option<(nat, nat)>)
    requires dst == src || dst.Length >= MaxDecodeSize(src.Length)
    requires d == src[..][..DataLength(src[..])]
    modifies dst
    ensures r.None? <==> Values(alphabet, d).None?
    ensures r.Some? ==> var (i, o) := r.value;
      && i == (if |d| < src.Length then |d| + 1 else |d|) && o <= i && o <= dst.Length
      && dst[..o] == WholeBytes(SextetsBits(Values(alphabet, d).value))
    ensures r.Some? ==> var (i, o) := r.value;
      && (forall j :: i <= j < src.Length ==> src[j] == old(src[j]))
      && (forall j :: o <= j < dst.Length ==> dst[j] == old(dst[j]))
  {
    hide Value, Values, Reading, Join, SextetsBits, WholeBytes, MaxDecodeSize, DataLength, InStep, Prepend;
    var mode: Alphabet, last: bv8, bits: nat := alphabet, 0, 0;
    var i: nat, o: nat := 0, 0;
    ghost var x := src[..];
    ghost var vs: seq<bv8>, out: seq<bv8> := [], [];
    ReadingStarts(alphabet, d);
    while i < src.Length
      invariant i <= |d| && Reading(alphabet, d, i, mode, vs, out, last, bits)
      invariant o <= i && o <= dst.Length && dst[..o] == out
      invariant forall j :: i <= j < src.Length ==> src[j] == x[j]
      invariant forall j :: o <= j < dst.Length ==> dst[j] == old(dst[j])
    {
      var c := src[i];
      i := i + 1;
      if c == PAD {
        break;
      }
      ReadingStep(alphabet, d, i - 1, mode, vs, out, last, bits);
      var value := Value(mode, c);
      if value.None? {
        return None;
      }
      var (part, next) := value.value;
      mode := next;
      vs := vs + [part];
      if bits >= 2 {
        RoomForByte(src.Length, i, o, bits);
        out := out + [Join(last, part, bits)];
      }
      o, bits := PutSextet(dst, o, last, bits, part);
      last := part;
    }
    ReadingEnds(alphabet, d, mode, vs, out, last, bits);
    return Some((i, o));
  }

  lemma NothingRead(alphabet: Alphabet, d: seq<bv8>)
    ensures Prepend([], Values(alphabet, d[0..])) == Values(alphabet, d)
  {
    assert d[0..] == d;
    if Values(alphabet, d).Some? {
      assert [] + Values(alphabet, d).value == Values(alphabet, d).value;
    }
  }

  lemma NothingLeft(alphabet: Alphabet, d: seq<bv8>, vs: seq<bv8>, mode: Alphabet)
    requires |vs| == |d| && Prepend(vs, Values(mode, d[|d|..])) == Values(alphabet, d)
    ensures Values(alphabet, d) == Some(vs)
  {
    assert d[|d|..] == [] && vs + [] == vs;
  }

  /** The second loop of decode: whether only padding is left. */
  method CheckPadding(src: array<bv8>, from: nat) returns (ok: bool)
    requires from <= src.Length
    ensures ok <==> OnlyPadding(src[from..])
  {
    var i := from;
    while i < src.Length
      invariant from <= i <= src.Length
      invariant forall j :: from <= j < i ==> src[j] == PAD
    {
      var c := src[i];
      i := i + 1;
      if c != PAD {
        assert src[from..][i - 1 - from] == c;
        return false;
      }
    }
    return true;
  }

  /** Decodes src into dst, which may be the same array, and returns the number of bytes written,
      or None where the original throws. */
  method Decode(src: array<bv8>, dst: array<bv8>, alphabet: Alphabet, behavior: DecodingBehavior) returns (r: Option<nat>)
    requires dst == src || dst.Length >= MaxDecodeSize(src.Length)
    modifies dst
    ensures r.Some? <==> Decoded(old(src[..]), alphabet, behavior).Some?
    ensures r.Some? ==> r.value <= dst.Length && dst[..r.value] == Decoded(old(src[..]), alphabet, behavior).value
    ensures r.Some? ==> forall j :: r.value <= j < dst.Length ==> dst[j] == old(dst[j])
  {
    hide SextetsBits, WholeBytes, MaxDecodeSize, DataLength, Values, OnlyPadding;
    ghost var x := src[..];
    ghost var n := DataLength(x);
    var data := DecodeData(src, dst, alphabet, x[..n]);
    if data.None? {
      return None;
    }
    var (i, o) := data.value;
    if behavior != Loose {
      SkipFirstPadding(x, n, i);
      assert src[i..] == x[i..];
      var ok := CheckPadding(src, i);
      if !ok {
        return None;
      }
    }
    return Some(o);
  }

  lemma ValuesStep(alphabet: Alphabet, d: seq<bv8>, vs: seq<bv8>, mode: Alphabet, i: nat)
    requires i < |d| && Prepend(vs, Values(mode, d[i..])) == Values(alphabet, d)
    ensures match Value(mode, d[i])
      case None => Values(alphabet, d).None?
      case Some((part, next)) => Prepend(vs + [part], Values(next, d[i + 1..])) == Values(alphabet, d)
  {
    hide Value;
    assert d[i..][1..] == d[i + 1..];
    match Value(mode, d[i])
    case None =>
    case Some((part, next)) =>
      if Values(next, d[i + 1..]).Some? {
        var rest := Values(next, d[i + 1..]).value;
        assert vs + ([part] + rest) == vs + [part] + rest;
      }
  }

  lemma StartInStep()
    ensures InStep([], [], 0, 0)
  {
  }

  /** After k characters at most floor(6k / 8) bytes have been written. */
  lemma RoomForByte(size: nat, k: nat, o: nat, bits: nat)
    requires 0 < k <= size && 8 * o + bits == 6 * (k - 1) && bits >= 2
    ensures o < k && o < MaxDecodeSize(size)
  {
    assert size == 4 * (size / 4) + size % 4;
  }

  lemma SkipFirstPadding(x: seq<bv8>, n: nat, i: nat)
    requires n <= i <= |x| && OnlyPadding(x[n..i])
    ensures OnlyPadding(x[n..]) <==> OnlyPadding(x[i..])
  {
    assert x[n..] == x[n..i] + x[i..];
    if OnlyPadding(x[n..]) {
      forall j | 0 <= j < |x[i..]| ensures x[i..][j] == PAD {
        assert x[i..][j] == x[n..][j + i - n];
      }
    }
  }

  /** Decoding a buffer onto itself gives what decoding into a fresh one gives. */
  method DecodeInPlace(str: array<bv8>, alphabet: Alphabet, behavior: DecodingBehavior) returns (r: Option<nat>)
    modifies str
    ensures r.Some? <==> Decoded(old(str[..]), alphabet, behavior).Some?
    ensures r.Some? ==> r.value <= str.Length && str[..r.value] == Decoded(old(str[..]), alphabet, behavior).value
    ensures r.Some? ==> forall j :: r.value <= j < str.Length ==> str[j] == old(str[j])
  {
    r := Decode(str, str, alphabet, behavior);
  }
}
