/**
 * The register codec: a typed value becomes 16-bit registers and back. The value is
 * packed into bytes most significant first (big-endian, as `struct.pack("!…")` does), each
 * pair of bytes forms one register with its first byte high (big-endian byte order, the
 * order of section 4.2 of the Modbus Application Protocol Specification V1.1b3), and the
 * registers are then reversed so that the least significant word comes first (little word
 * order). Decoding undoes the three steps.
 */
module WordCodec {
  import opened Wrappers

  type Byte = b: int | 0 <= b < 0x100
  type Word = w: int | 0 <= w < 0x1_0000
  type Bits32 = x: int | 0 <= x < 0x1_0000_0000

  /** The data types a register definition may name. */
  datatype DataType = Float32 | QuadrantPF | Int16 | Int16U | Int64 | DateTime

  /** Names of the supported types, in the order the source lists them. */
  const SupportedNames: seq<string> := ["FLOAT32", "4Q_FP_PF", "INT16", "INT16U", "INT64", "DATETIME"]

  function TypeName(t: DataType): string {
    match t
    case Float32 => "FLOAT32"
    case QuadrantPF => "4Q_FP_PF"
    case Int16 => "INT16"
    case Int16U => "INT16U"
    case Int64 => "INT64"
    case DateTime => "DATETIME"
  }

  /** The type a data_type string names, if it is one of the supported ones. */
  function ParseDataType(name: string): (r: Option<DataType>)
    ensures r.Some? <==> name in SupportedNames
    ensures r.Some? ==> TypeName(r.value) == name
    ensures forall t: DataType :: r == Some(t) <==> TypeName(t) == name
  {
    if name == "FLOAT32" then Some(Float32)
    else if name == "4Q_FP_PF" then Some(QuadrantPF)
    else if name == "INT16" then Some(Int16)
    else if name == "INT16U" then Some(Int16U)
    else if name == "INT64" then Some(Int64)
    else if name == "DATETIME" then Some(DateTime)
    else None
  }

  /** Number of registers a value of type t occupies. */
  function Width(t: DataType): (n: nat)
    ensures n == 1 <==> (t == Int16 || t == Int16U)
    ensures n == 2 <==> (t == Float32 || t == QuadrantPF)
    ensures n == 4 <==> (t == Int64 || t == DateTime)
  {
    match t
    case Float32 => 2
    case QuadrantPF => 2
    case Int16 => 1
    case Int16U => 1
    case Int64 => 4
    case DateTime => 4
  }

  function Pow256(n: nat): (r: nat)
    ensures r >= 1
  {
    if n == 0 then 1 else 256 * Pow256(n - 1)
  }

  const TwoTo16: nat := 0x1_0000
  const TwoTo32: nat := 0x1_0000_0000
  const TwoTo64: nat := 0x1_0000_0000_0000_0000

  lemma Pow256Values()
    ensures Pow256(2) == TwoTo16 && Pow256(4) == TwoTo32 && Pow256(8) == TwoTo64
  {
    assert Pow256(2) == 0x1_0000;
    assert Pow256(4) == 0x1_0000_0000;
    assert Pow256(6) == 0x1_0000_0000_0000;
    assert Pow256(8) == 0x1_0000_0000_0000_0000;
  }

  // ----- bytes, most significant first -----

  /** The n-byte big-endian image of x. */
  function BytesBE(x: nat, n: nat): (bs: seq<Byte>)
    requires x < Pow256(n)
    ensures |bs| == n
  {
    if n == 0 then [] else BytesBE(x / 256, n - 1) + [x % 256]
  }

  /** The unsigned value of a big-endian byte string. */
  function ValueBE(bs: seq<Byte>): (x: nat)
    ensures x < Pow256(|bs|)
  {
    if bs == [] then 0 else ValueBE(bs[..|bs| - 1]) * 256 + bs[|bs| - 1]
  }

  lemma {:induction false} ValueOfBytes(x: nat, n: nat)
    requires x < Pow256(n)
    ensures ValueBE(BytesBE(x, n)) == x
  {
    if n > 0 {
      var bs := BytesBE(x, n);
      assert bs[..n - 1] == BytesBE(x / 256, n - 1);
      ValueOfBytes(x / 256, n - 1);
    }
  }

  lemma {:induction false} BytesOfValue(bs: seq<Byte>)
    ensures BytesBE(ValueBE(bs), |bs|) == bs
  {
    if bs != [] {
      var front := bs[..|bs| - 1];
      var x := ValueBE(bs);
      assert x / 256 == ValueBE(front) && x % 256 == bs[|bs| - 1];
      BytesOfValue(front);
      assert bs == front + [bs[|bs| - 1]];
    }
  }

  // ----- bytes into registers, first byte high -----

  function PackWords(bs: seq<Byte>): (ws: seq<Word>)
    requires |bs| % 2 == 0
    ensures |ws| == |bs| / 2
  {
    if bs == [] then [] else [(bs[0] as int) * 256 + bs[1]] + PackWords(bs[2..])
  }

  function UnpackWords(ws: seq<Word>): (bs: seq<Byte>)
    ensures |bs| == 2 * |ws|
  {
    if ws == [] then [] else [ws[0] / 256, ws[0] % 256] + UnpackWords(ws[1..])
  }

  lemma {:induction false} UnpackPack(bs: seq<Byte>)
    requires |bs| % 2 == 0
    ensures UnpackWords(PackWords(bs)) == bs
  {
    if bs != [] {
      UnpackPack(bs[2..]);
      assert PackWords(bs)[1..] == PackWords(bs[2..]);
      assert bs == [bs[0], bs[1]] + bs[2..];
    }
  }

  lemma {:induction false} PackUnpack(ws: seq<Word>)
    ensures PackWords(UnpackWords(ws)) == ws
  {
    if ws != [] {
      PackUnpack(ws[1..]);
      assert UnpackWords(ws)[2..] == UnpackWords(ws[1..]);
      assert ws == [ws[0]] + ws[1..];
    }
  }

  lemma {:induction false} PackWordsSnoc(bs: seq<Byte>, a: Byte, b: Byte)
    requires |bs| % 2 == 0
    ensures PackWords(bs + [a, b]) == PackWords(bs) + [(a as int) * 256 + b]
  {
    if bs != [] {
      assert (bs + [a, b])[2..] == bs[2..] + [a, b];
      PackWordsSnoc(bs[2..], a, b);
    }
  }

  // ----- word order -----

  function Reverse<T>(s: seq<T>): (r: seq<T>)
    ensures |r| == |s|
    ensures forall k :: 0 <= k < |s| ==> r[k] == s[|s| - 1 - k]
  {
    if s == [] then [] else Reverse(s[1..]) + [s[0]]
  }

  /** x as `words` registers: big-endian bytes, first byte high, least significant word first. */
  function EncodeUnsigned(x: nat, words: nat): (ws: seq<Word>)
    requires x < Pow256(2 * words)
    ensures |ws| == words
  {
    Reverse(PackWords(BytesBE(x, 2 * words)))
  }

  /** The unsigned value that registers hold, read in the same convention. */
  function DecodeUnsigned(ws: seq<Word>): (x: nat)
    ensures x < Pow256(2 * |ws|)
  {
    ValueBE(UnpackWords(Reverse(ws)))
  }

  lemma DecodeEncodeUnsigned(x: nat, words: nat)
    requires x < Pow256(2 * words)
    ensures DecodeUnsigned(EncodeUnsigned(x, words)) == x
  {
    var packed := PackWords(BytesBE(x, 2 * words));
    assert Reverse(Reverse(packed)) == packed;
    UnpackPack(BytesBE(x, 2 * words));
    ValueOfBytes(x, 2 * words);
  }

  lemma EncodeDecodeUnsigned(ws: seq<Word>)
    ensures EncodeUnsigned(DecodeUnsigned(ws), |ws|) == ws
  {
    var bs := UnpackWords(Reverse(ws));
    BytesOfValue(bs);
    PackUnpack(Reverse(ws));
    assert Reverse(Reverse(ws)) == ws;
  }

  /** Little word order: the first register holds the low 16 bits, the rest hold x / 2^16. */
  lemma LeastSignificantWordFirst(x: nat, words: nat)
    requires words > 0 && x < Pow256(2 * words)
    ensures x / TwoTo16 < Pow256(2 * (words - 1))
    ensures EncodeUnsigned(x, words)[0] == x % TwoTo16
    ensures EncodeUnsigned(x, words)[1..] == EncodeUnsigned(x / TwoTo16, words - 1)
  {
    var n := 2 * words;
    assert Pow256(n) == TwoTo16 * Pow256(n - 2);
    var q := x / 256;
    var hi, lo := q % 256, x % 256;
    LowWordOfBytes(x);
    QuotientBound(x, TwoTo16, Pow256(n - 2));
    assert BytesBE(q, n - 1) == BytesBE(x / TwoTo16, n - 2) + [hi];
    var front := BytesBE(x / TwoTo16, n - 2);
    assert BytesBE(x, n) == front + [hi, lo];
    PackWordsSnoc(front, hi, lo);
    var packed := PackWords(front);
    assert PackWords(BytesBE(x, n)) == packed + [(hi as int) * 256 + lo];
    assert EncodeUnsigned(x, words)[1..] == Reverse(packed);
  }

  /** The two low bytes of x form its low 16 bits, and dropping them divides by 2^16. */
  lemma LowWordOfBytes(x: nat)
    ensures (x / 256) / 256 == x / TwoTo16
    ensures ((x / 256) % 256) * 256 + x % 256 == x % TwoTo16
  {
    var q, lo := x / 256, x % 256;
    var q2, hi := q / 256, q % 256;
    assert x == q2 * TwoTo16 + (hi * 256 + lo);
    assert 0 <= hi * 256 + lo < TwoTo16;
  }

  lemma QuotientBound(x: nat, d: nat, p: nat)
    requires 0 < d && x < d * p
    ensures x / d < p
  {
    var q := x / d;
    assert d * q <= x;
    assert d * (p - q) == d * p - d * q > 0;
  }

  // ----- integer types -----

  predicate IsInteger(t: DataType) {
    t == Int16 || t == Int16U || t == Int64 || t == DateTime
  }

  /** Whether v is signed in two's complement for type t. */
  predicate IsSigned(t: DataType) {
    t == Int16 || t == Int64
  }

  /** The range `struct.pack` accepts for t ("h", "H", "q", "Q"). */
  predicate InRange(t: DataType, v: int)
    requires IsInteger(t)
  {
    match t
    case Int16 => -0x8000 <= v < 0x8000
    case Int16U => 0 <= v < 0x1_0000
    case Int64 => -0x8000_0000_0000_0000 <= v < 0x8000_0000_0000_0000
    case DateTime => 0 <= v < 0x1_0000_0000_0000_0000
  }

  /** 2^(8 * 2 * Width(t)): the number of bit patterns t's registers can hold. */
  function Modulus(t: DataType): (m: nat)
    ensures m == Pow256(2 * Width(t))
  {
    Pow256Values();
    if Width(t) == 1 then TwoTo16 else if Width(t) == 2 then TwoTo32 else TwoTo64
  }

  /** The bit pattern of v: two's complement for the signed types. */
  function ToUnsigned(t: DataType, v: int): (u: nat)
    requires IsInteger(t) && InRange(t, v)
    ensures u < Modulus(t)
  {
    if v < 0 then v + Modulus(t) else v
  }

  /** The integer a bit pattern stands for, as `struct.unpack` reads it. */
  function FromUnsigned(t: DataType, u: nat): (v: int)
    requires IsInteger(t) && u < Modulus(t)
    ensures InRange(t, v)
  {
    if IsSigned(t) && u >= Modulus(t) / 2 then u - Modulus(t) else u
  }

  datatype CodecError = UnsupportedType | OutOfRange | FloatOverflow | ConversionFailed

  /** `add_16bit_int`, `add_16bit_uint`, `add_64bit_int`, `add_64bit_uint` followed by `to_registers`. */
  function EncodeInt(t: DataType, v: int): (r: Result<seq<Word>, CodecError>)
    requires IsInteger(t)
    ensures r.Ok? <==> InRange(t, v)
    ensures r.Err? ==> r.error == OutOfRange
    ensures r.Ok? ==> |r.value| == Width(t)
  {
    if InRange(t, v) then Ok(EncodeUnsigned(ToUnsigned(t, v), Width(t))) else Err(OutOfRange)
  }

  /** `decode_16bit_int`, `decode_16bit_uint`, `decode_64bit_int`, `decode_64bit_uint`. */
  function DecodeInt(t: DataType, ws: seq<Word>): (v: int)
    requires IsInteger(t) && |ws| == Width(t)
    ensures InRange(t, v)
  {
    FromUnsigned(t, DecodeUnsigned(ws))
  }

  lemma IntRoundTrip(t: DataType, v: int)
    requires IsInteger(t) && InRange(t, v)
    ensures EncodeInt(t, v).Ok? && DecodeInt(t, EncodeInt(t, v).value) == v
  {
    DecodeEncodeUnsigned(ToUnsigned(t, v), Width(t));
  }

  /** Every register pattern of the right width is the encoding of exactly the value it decodes to. */
  lemma IntWordsRoundTrip(t: DataType, ws: seq<Word>)
    requires IsInteger(t) && |ws| == Width(t)
    ensures EncodeInt(t, DecodeInt(t, ws)) == Ok(ws)
  {
    var u := DecodeUnsigned(ws);
    assert ToUnsigned(t, FromUnsigned(t, u)) == u;
    EncodeDecodeUnsigned(ws);
  }

  // ----- single-precision floats -----

  /**
   * IEEE 754 single precision as `struct.pack("!f")` and `struct.unpack("!f")` see it: the
   * bit pattern of a value (None where packing overflows) and the value of a bit pattern.
   */
  datatype Float32Format = Float32Format(pack: real -> Option<Bits32>, unpack: Bits32 -> real)

  /** `add_32bit_float` followed by `to_registers`. */
  function EncodeFloat(x: real, f: Float32Format): (r: Result<seq<Word>, CodecError>)
    ensures r.Ok? <==> f.pack(x).Some?
    ensures r.Ok? ==> |r.value| == 2
  {
    match f.pack(x)
    case None => Err(FloatOverflow)
    case Some(bits) =>
      Pow256Values();
      Ok(EncodeUnsigned(bits, 2))
  }

  /** `decode_32bit_float`. */
  function DecodeFloat(ws: seq<Word>, f: Float32Format): real
    requires |ws| == 2
  {
    Pow256Values();
    f.unpack(DecodeUnsigned(ws))
  }

  /** The bit pattern survives the registers exactly; only IEEE rounding in `pack` is lost. */
  lemma FloatRoundTrip(x: real, f: Float32Format)
    requires f.pack(x).Some?
    ensures EncodeFloat(x, f).Ok?
    ensures DecodeFloat(EncodeFloat(x, f).value, f) == f.unpack(f.pack(x).value)
  {
    Pow256Values();
    DecodeEncodeUnsigned(f.pack(x).value, 2);
  }
}
