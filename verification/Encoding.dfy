// packages/sdk/src/payload.ts: big-endian words and points, over base-256 arithmetic.
module Encoding {
  import opened Prelude
  import opened Field
  import opened Curve

  type byte = x: int | 0 <= x < 256
  type Bytes = seq<byte>

  function Pow256(n: nat): (p: nat)
    ensures p > 0
  {
    if n == 0 then 1 else 256 * Pow256(n - 1)
  }

  const TWO_256: nat := 0x1_0000_0000_0000_0000_0000_0000_0000_0000_0000_0000_0000_0000_0000_0000_0000_0000

  /** The value of a big-endian byte string. */
  function FromBE(b: Bytes): nat {
    if |b| == 0 then 0 else 256 * FromBE(b[..|b| - 1]) + b[|b| - 1]
  }

  /** The last n bytes of the big-endian encoding of a value. */
  function ToBE(value: nat, n: nat): (b: Bytes)
    ensures |b| == n
  {
    if n == 0 then [] else ToBE(value / 256, n - 1) + [value % 256]
  }

  lemma {:induction false} DecodeEncode(value: nat, n: nat)
    requires value < Pow256(n)
    ensures FromBE(ToBE(value, n)) == value
  {
    if n > 0 {
      DecodeEncode(value / 256, n - 1);
      assert ToBE(value, n)[..n - 1] == ToBE(value / 256, n - 1);
    }
  }

  lemma {:induction false} DecodeFits(b: Bytes)
    ensures FromBE(b) < Pow256(|b|)
  {
    if |b| > 0 {
      DecodeFits(b[..|b| - 1]);
    }
  }

  lemma {:induction false} EncodeDecode(b: Bytes)
    ensures FromBE(b) < Pow256(|b|) && ToBE(FromBE(b), |b|) == b
  {
    DecodeFits(b);
    if |b| > 0 {
      var front := b[..|b| - 1];
      EncodeDecode(front);
      assert FromBE(b) / 256 == FromBE(front) && FromBE(b) % 256 == b[|b| - 1];
      assert b == front + [b[|b| - 1]];
    }
  }

  function Zeros(n: nat): (b: Bytes)
    ensures |b| == n && forall i | 0 <= i < n :: b[i] == 0
  {
    seq(n, i => 0)
  }

  lemma {:induction false} LeadingZeros(n: nat, b: Bytes)
    ensures FromBE(Zeros(n) + b) == FromBE(b)
    decreases |b|, n
  {
    if |b| > 0 {
      LeadingZeros(n, b[..|b| - 1]);
      assert (Zeros(n) + b)[..n + |b| - 1] == Zeros(n) + b[..|b| - 1];
    } else if n > 0 {
      LeadingZeros(n - 1, b);
      assert (Zeros(n) + b)[..n - 1] == Zeros(n - 1) + b;
      assert (Zeros(n) + b)[n - 1] == 0;
    }
  }

  /** Padding on the left and encoding in more bytes are the same. */
  lemma PadIsWiderEncoding(value: nat, n: nat, pad: nat)
    requires value < Pow256(n)
    ensures Zeros(pad) + ToBE(value, n) == ToBE(value, pad + n)
  {
    var padded := Zeros(pad) + ToBE(value, n);
    LeadingZeros(pad, ToBE(value, n));
    DecodeEncode(value, n);
    EncodeDecode(padded);
  }

  datatype RangeError = OutsideRange

  /** toBytes32BE: fills a 32-byte array from its last byte, shifting the value right. */
  method ToBytes32BE(value: int) returns (r: Result<Bytes, RangeError>)
    ensures r.Success? <==> 0 <= value < TWO_256
    ensures r.Success? ==> r.value == ToBE(value, 32)
  {
    if value < 0 || value >= TWO_256 { return Failure(OutsideRange); }
    var encoded := new byte[32](i => 0);
    var remaining: nat := value;
    var index := 31;
    while index >= 0
      invariant -1 <= index <= 31
      invariant ToBE(value, 32) == ToBE(remaining, index + 1) + encoded[index + 1..]
    {
      encoded[index] := remaining % 256;
      assert ToBE(remaining, index + 1) == ToBE(remaining / 256, index) + [remaining % 256];
      remaining := remaining / 256;
      index := index - 1;
    }
    r := Success(encoded[..]);
  }

  lemma WordSizes()
    ensures Pow256(4) == TWO_32 && Pow256(16) == TWO_128 && Pow256(32) == TWO_256
    ensures Pow256(31) < MODULUS
  {
    assert Pow256(4) == 0x1_0000_0000;
    assert Pow256(8) == 0x1_0000_0000_0000_0000;
    assert Pow256(16) == 0x1_0000_0000_0000_0000_0000_0000_0000_0000;
    assert Pow256(24) == 0x1_0000_0000_0000_0000_0000_0000_0000_0000_0000_0000_0000_0000;
    assert Pow256(28) == 0x1_0000_0000_0000_0000_0000_0000_0000_0000_0000_0000_0000_0000_0000_0000;
  }

  /** A value below 2^256 survives the 32-byte encoding. */
  lemma WordDecodeEncode(value: nat)
    requires value < TWO_256
    ensures FromBE(ToBE(value, 32)) == value
  {
    WordSizes();
    DecodeEncode(value, 32);
  }

  type Word = b: Bytes | |b| == 32 witness Zeros(32)
  type PointBytes = b: Bytes | |b| == 64 witness Zeros(64)

  function EncodePoint(p: Point): PointBytes {
    ToBE(p.x, 32) + ToBE(p.y, 32)
  }

  /** pointToBytes: 64 zero bytes for the identity, otherwise the two coordinate words. */
  method PointToBytes(p: Point) returns (encoded: Bytes)
    ensures encoded == EncodePoint(p)
  {
    if p == IDENTITY {
      ZeroWord(32);
      return Zeros(64);
    }
    var x :- assert ToBytes32BE(p.x);
    var y :- assert ToBytes32BE(p.y);
    encoded := x + y;
  }

  lemma {:induction false} ZeroWord(n: nat)
    ensures ToBE(0, n) == Zeros(n)
  {
    if n > 0 {
      ZeroWord(n - 1);
    }
  }

  /** How a verifier reads a public input: a field element, whatever the word's size. */
  function FieldWord(b: Word): Felt {
    FromBE(b) % MODULUS
  }

  function PointOf(b: PointBytes): Point {
    Point(FieldWord(b[..32]), FieldWord(b[32..]))
  }

  lemma WordRoundTrip(x: Felt)
    ensures FieldWord(ToBE(x, 32)) == x
  {
    WordDecodeEncode(x);
  }

  lemma PointRoundTrip(p: Point)
    ensures PointOf(EncodePoint(p)) == p
  {
    WordRoundTrip(p.x);
    WordRoundTrip(p.y);
    HalvesOfConcat(ToBE(p.x, 32), ToBE(p.y, 32));
  }

  lemma HalvesOfConcat(a: Word, b: Word)
    ensures (a + b)[..32] == a && (a + b)[32..] == b
  {
  }

  const TWO_32: nat := 0x1_0000_0000
  const TWO_128: nat := 0x1_0000_0000_0000_0000_0000_0000_0000_0000

  type U32 = v: int | 0 <= v < TWO_32
  type I128 = v: int | -TWO_127 <= v < TWO_127

  /** append_u32_field: four big-endian bytes in the last places of a zero word. */
  function U32Field(v: U32): Word {
    Zeros(28) + ToBE(v, 4)
  }

  /** append_amount_field: the 16 two's-complement bytes of an i128 in the last places of a zero word. */
  function AmountField(v: I128): Word {
    Zeros(16) + ToBE(v % TWO_128, 16)
  }

  /** On a u32 the chain's word is the browser's word. */
  lemma U32FieldIsWord(v: U32)
    ensures U32Field(v) == ToBE(v, 32) && FromBE(U32Field(v)) == v
  {
    WordSizes();
    PadIsWiderEncoding(v, 4, 28);
    WordDecodeEncode(v);
  }

  /**
   * On an i128 the chain's word is the browser's word exactly when the value is
   * non-negative; a negative one reads back 2^128 too large.
   */
  lemma AmountFieldIsWordIffNonNegative(v: I128)
    ensures FromBE(AmountField(v)) == (if v >= 0 then v else v + TWO_128)
    ensures v >= 0 <==> FromBE(AmountField(v)) == v
    ensures v >= 0 ==> AmountField(v) == ToBE(v, 32)
  {
    assert v % TWO_128 == if v >= 0 then v else v + TWO_128;
    AmountWord(v % TWO_128);
  }

  lemma AmountWord(bits: nat)
    requires bits < TWO_128
    ensures Zeros(16) + ToBE(bits, 16) == ToBE(bits, 32)
    ensures FromBE(ToBE(bits, 32)) == bits
  {
    WordSizes();
    PadIsWiderEncoding(bits, 16, 16);
    WordDecodeEncode(bits);
  }
}
