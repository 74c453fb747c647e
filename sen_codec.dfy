/**
 * The byte-level codec under `SenBuffer` (`Buffer.cs`): fixed-width
 * unsigned integers in either byte order, their two's complement
 * reinterpretation, the 24-bit sign extension, variable-length integers in
 * 7-bit groups, and the ZigZag mapping. Values are unbounded integers; the
 * wrap-around of the C# integer types is written out as `%` and explicit
 * reinterpretation.
 */
module SenCodec {
  type Byte = b: int | 0 <= b < 256

  datatype ByteOrder = LittleEndian | BigEndian

  const TWO_32: nat := 0x1_0000_0000
  const TWO_64: nat := 0x1_0000_0000_0000_0000

  function Pow2(n: nat): (p: int)
    ensures p >= 1
  {
    if n == 0 then 1 else 2 * Pow2(n - 1)
  }

  function Pow256(n: nat): (p: int)
    ensures p >= 1
  {
    if n == 0 then 1 else 256 * Pow256(n - 1)
  }

  function Pow128(n: nat): (p: int)
    ensures p >= 1
  {
    if n == 0 then 1 else 128 * Pow128(n - 1)
  }

  // ---------------------------------------------------------------
  // Fixed-width integers
  // ---------------------------------------------------------------

  /**
   * The `n` bytes of `v`, least significant first: byte `k` is
   * `(byte)(v >> 8k)`. Only the low `8n` bits of `v` are kept, as the C#
   * writers keep only the low bits of their argument.
   */
  function LE(v: nat, n: nat): (r: seq<Byte>)
    ensures |r| == n
  {
    if n == 0 then [] else [v % 256] + LE(v / 256, n - 1)
  }

  /** The bytes of `v`, most significant first. */
  function BE(v: nat, n: nat): (r: seq<Byte>)
    ensures |r| == n
  {
    if n == 0 then [] else BE(v / 256, n - 1) + [v % 256]
  }

  /**
   * `b[0] | (b[1] << 8) | (b[2] << 16) | ...`: the shifted bytes do not
   * overlap, so the `|` is a sum.
   */
  function FromLE(bs: seq<Byte>): (v: nat)
    ensures v < Pow256(|bs|)
  {
    if |bs| == 0 then 0 else bs[0] + 256 * FromLE(bs[1..])
  }

  /** `b[n-1] | (b[n-2] << 8) | ...`: the first byte is the most significant. */
  function FromBE(bs: seq<Byte>): (v: nat)
    ensures v < Pow256(|bs|)
  {
    if |bs| == 0 then 0 else 256 * FromBE(bs[..|bs| - 1]) + bs[|bs| - 1]
  }

  function Encode(v: nat, n: nat, order: ByteOrder): (r: seq<Byte>)
    ensures |r| == n
  {
    match order
    case LittleEndian => LE(v, n)
    case BigEndian => BE(v, n)
  }

  function Decode(bs: seq<Byte>, order: ByteOrder): (v: nat)
    ensures v < Pow256(|bs|)
  {
    match order
    case LittleEndian => FromLE(bs)
    case BigEndian => FromBE(bs)
  }

  /** Reading back the little-endian bytes of a value that fits gives the value. */
  lemma {:induction false} FromLEOfLE(v: nat, n: nat)
    requires v < Pow256(n)
    ensures FromLE(LE(v, n)) == v
  {
    if n > 0 {
      FromLEOfLE(v / 256, n - 1);
      assert LE(v, n)[1..] == LE(v / 256, n - 1);
    }
  }

  /** Writing the value of some bytes gives the bytes back. */
  lemma {:induction false} LEOfFromLE(bs: seq<Byte>)
    ensures LE(FromLE(bs), |bs|) == bs
  {
    if |bs| > 0 {
      LEOfFromLE(bs[1..]);
      assert FromLE(bs) % 256 == bs[0] && FromLE(bs) / 256 == FromLE(bs[1..]);
      assert bs == [bs[0]] + bs[1..];
    }
  }

  lemma {:induction false} FromBEOfBE(v: nat, n: nat)
    requires v < Pow256(n)
    ensures FromBE(BE(v, n)) == v
  {
    if n > 0 {
      FromBEOfBE(v / 256, n - 1);
      assert BE(v, n)[..n - 1] == BE(v / 256, n - 1);
    }
  }

  lemma {:induction false} BEOfFromBE(bs: seq<Byte>)
    ensures BE(FromBE(bs), |bs|) == bs
  {
    if |bs| > 0 {
      var n := |bs| - 1;
      BEOfFromBE(bs[..n]);
      assert FromBE(bs) % 256 == bs[n] && FromBE(bs) / 256 == FromBE(bs[..n]);
      assert bs == bs[..n] + [bs[n]];
    }
  }

  /** `Decode` inverts `Encode` on every value that fits in the width, in both byte orders. */
  lemma DecodeEncode(v: nat, n: nat, order: ByteOrder)
    requires v < Pow256(n)
    ensures Decode(Encode(v, n, order), order) == v
  {
    match order
    case LittleEndian => FromLEOfLE(v, n);
    case BigEndian => FromBEOfBE(v, n);
  }

  /** `Encode` inverts `Decode`: every byte string is the encoding of its value. */
  lemma EncodeDecode(bs: seq<Byte>, order: ByteOrder)
    ensures Encode(Decode(bs, order), |bs|, order) == bs
  {
    match order
    case LittleEndian => LEOfFromLE(bs);
    case BigEndian => BEOfFromBE(bs);
  }

  function Reverse<T>(s: seq<T>): (r: seq<T>)
    ensures |r| == |s|
  {
    if |s| == 0 then [] else Reverse(s[1..]) + [s[0]]
  }

  /** The big-endian bytes are the little-endian bytes in reverse order. */
  lemma {:induction false} BEIsReversedLE(v: nat, n: nat)
    ensures BE(v, n) == Reverse(LE(v, n))
  {
    if n > 0 {
      BEIsReversedLE(v / 256, n - 1);
      assert LE(v, n)[1..] == LE(v / 256, n - 1);
    }
  }

  /**
   * The most significant byte comes first in big-endian order: for a value
   * that fits in `n` bytes, the first byte is its top byte and the value is
   * that byte times `256^(n-1)` plus the value of the other bytes.
   */
  lemma {:induction false} BEMostSignificantFirst(v: nat, n: nat)
    requires 1 <= n && v < Pow256(n)
    ensures v == BE(v, n)[0] * Pow256(n - 1) + FromBE(BE(v, n)[1..])
  {
    var bs := BE(v, n);
    FromBEOfBE(v, n);
    FromBEHead(bs);
  }

  /** The value of big-endian bytes: the first byte weighs `256^(n-1)`. */
  lemma {:induction false} FromBEHead(bs: seq<Byte>)
    requires |bs| >= 1
    ensures FromBE(bs) == bs[0] * Pow256(|bs| - 1) + FromBE(bs[1..])
  {
    var n := |bs| - 1;
    if n > 0 {
      var front := bs[..n];
      FromBEHead(front);
      assert front[1..] == bs[1..][..n - 1];
      assert bs[1..][n - 1] == bs[n];
      calc {
        FromBE(bs);
        256 * FromBE(front) + bs[n];
        256 * (bs[0] * Pow256(n - 1) + FromBE(front[1..])) + bs[n];
        { MulAssoc(bs[0], Pow256(n - 1)); }
        bs[0] * Pow256(n) + (256 * FromBE(bs[1..][..n - 1]) + bs[1..][n - 1]);
      }
    }
  }

  lemma MulAssoc(a: int, p: int)
    ensures 256 * (a * p) == a * (256 * p)
  {
  }

  /** The little-endian first byte is the least significant: `v % 256`. */
  lemma LEFirstIsLeastSignificant(v: nat, n: nat)
    requires 1 <= n
    ensures LE(v, n)[0] == v % 256 && FromLE(LE(v, n)[1..]) == FromLE(LE(v / 256, n - 1))
  {
  }

  // ---------------------------------------------------------------
  // Two's complement
  // ---------------------------------------------------------------

  lemma ModInRange(x: int, m: int)
    requires 0 <= x < m
    ensures x % m == x
  {
  }

  lemma ModBelowZero(x: int, m: int)
    requires -m <= x < 0
    ensures x % m == x + m
  {
  }

  /**
   * The C# cast of an `n`-byte unsigned bit pattern to the signed type of
   * the same width (`(sbyte)`, `(short)`, `(int)`, `(long)`).
   */
  function ToSigned(u: nat, n: nat): int {
    if 2 * u >= Pow256(n) then u - Pow256(n) else u
  }

  /** A pattern below `256^n` maps into the signed range and is congruent to the pattern. */
  lemma ToSignedRange(u: nat, n: nat)
    requires u < Pow256(n)
    ensures -Pow256(n) <= 2 * ToSigned(u, n) < Pow256(n)
    ensures ToSigned(u, n) == u || ToSigned(u, n) == u - Pow256(n)
    ensures ToSigned(u, n) < 0 <==> 2 * u >= Pow256(n)
  {
  }

  /** The signed value of a pattern, taken back to `n` bytes, is the pattern. */
  lemma ToSignedBack(u: nat, n: nat)
    requires u < Pow256(n)
    ensures ToSigned(u, n) % Pow256(n) == u
  {
    if 2 * u >= Pow256(n) {
      ModBelowZero(u - Pow256(n), Pow256(n));
    } else {
      ModInRange(u, Pow256(n));
    }
  }

  /** `(num & 0x800000) != 0`: bit 23 of a 24-bit value. */
  predicate Bit23(num: nat) {
    (num / 0x80_0000) % 2 == 1
  }

  /**
   * `readInt24LE`/`readInt24BE` after the unsigned read: when bit 23 is
   * set, `num |= 0xff000000` (the bits do not overlap a 24-bit value, so
   * the `|` is a sum), then the cast to `int`.
   */
  function SignExtend24(num: nat): int
    requires num < 0x100_0000
  {
    var widened := if Bit23(num) then num + 0xFF00_0000 else num;
    ToSigned(widened, 4)
  }

  /** The extended value is negative exactly when bit 23 is set, and it is the 24-bit two's complement value. */
  lemma SignExtend24Meaning(num: nat)
    requires num < 0x100_0000
    ensures SignExtend24(num) < 0 <==> Bit23(num)
    ensures SignExtend24(num) == if Bit23(num) then num - 0x100_0000 else num
    ensures -0x80_0000 <= SignExtend24(num) < 0x80_0000
  {
    assert Pow256(4) == TWO_32;
  }

  // ---------------------------------------------------------------
  // Variable-length integers
  // ---------------------------------------------------------------

  /**
   * `(byte)(num | 0x80)`: the low 7 bits of `num` with bit 7 set.
   */
  function ContinuationByte(num: nat): Byte {
    num % 128 + 128
  }

  /**
   * The bytes the varint writers emit for `num`: while `num >= 128`, the
   * low 7 bits with bit 7 set, then `num >>= 7`; finally the last group
   * as it is.
   */
  function VarInt(num: nat): (r: seq<Byte>)
    ensures |r| >= 1
    decreases num
  {
    if num < 128 then [num] else [ContinuationByte(num)] + VarInt(num / 128)
  }

  /** The value of 7-bit groups, least significant first: `num |= (b & 0x7F) << shift` without truncation. */
  function Groups(bs: seq<Byte>): nat {
    if |bs| == 0 then 0 else bs[0] % 128 + 128 * Groups(bs[1..])
  }

  /** Every byte but the last has bit 7 set; the last has it clear. */
  predicate VarIntShaped(bs: seq<Byte>) {
    |bs| >= 1 && bs[|bs| - 1] < 128 && forall k :: 0 <= k < |bs| - 1 ==> bs[k] >= 128
  }

  lemma {:induction false} VarIntShape(num: nat)
    ensures VarIntShaped(VarInt(num))
    decreases num
  {
    if num >= 128 {
      VarIntShape(num / 128);
      var r := VarInt(num);
      assert r[1..] == VarInt(num / 128);
    }
  }

  /** The groups of the encoding add up to the encoded value. */
  lemma {:induction false} GroupsOfVarInt(num: nat)
    ensures Groups(VarInt(num)) == num
    decreases num
  {
    if num >= 128 {
      GroupsOfVarInt(num / 128);
      assert VarInt(num)[1..] == VarInt(num / 128);
    }
  }

  /** A value below `128^k` takes at most `k` bytes. */
  lemma {:induction false} VarIntLength(num: nat, k: nat)
    requires 1 <= k && num < Pow128(k)
    ensures |VarInt(num)| <= k
    decreases num
  {
    if num >= 128 {
      assert k >= 2;
      VarIntLength(num / 128, k - 1);
    }
  }

  /** A 32-bit value takes at most 5 bytes, a 64-bit value at most 10. */
  lemma VarIntLengthBounds(num: nat)
    ensures num < TWO_32 ==> |VarInt(num)| <= 5
    ensures num < TWO_64 ==> |VarInt(num)| <= 10
  {
    assert Pow128(5) == 0x8_0000_0000;
    assert Pow128(10) == 0x40_0000_0000_0000_0000;
    if num < TWO_32 {
      VarIntLength(num, 5);
    }
    if num < TWO_64 {
      VarIntLength(num, 10);
    }
  }

  // ---------------------------------------------------------------
  // Bitwise exclusive or and ZigZag
  // ---------------------------------------------------------------

  /** The exclusive or of the low `width` bits of `a` and `b`. */
  function Xor(a: nat, b: nat, width: nat): (r: nat)
    ensures r < Pow2(width)
  {
    if width == 0 then 0 else (if a % 2 == b % 2 then 0 else 1) + 2 * Xor(a / 2, b / 2, width - 1)
  }

  /** Exclusive or with zero keeps a value that fits. */
  lemma {:induction false} XorZero(a: nat, width: nat)
    requires a < Pow2(width)
    ensures Xor(a, 0, width) == a
  {
    if width > 0 {
      XorZero(a / 2, width - 1);
    }
  }

  /** The pattern of `width` one bits, `2^width - 1`. */
  function Ones(width: nat): (r: nat)
    ensures r == Pow2(width) - 1
  {
    if width == 0 then 0 else 1 + 2 * Ones(width - 1)
  }

  /** Exclusive or with all ones is the complement. */
  lemma {:induction false} XorOnes(a: nat, width: nat)
    requires a < Pow2(width)
    ensures Xor(a, Ones(width), width) == Ones(width) - a
  {
    if width > 0 {
      XorOnes(a / 2, width - 1);
    }
  }

  /** The sign mask `n >> 31` (or `n >> 63`) as a bit pattern: all ones for a negative value. */
  function SignMask(n: int, width: nat): nat {
    if n < 0 then Ones(width) else 0
  }

  /**
   * `(number << 1) ^ (number >> 31)` on an `int`, and with `63` on a
   * `long`: the shift wraps to `width` bits, the arithmetic shift spreads
   * the sign bit; the result is the bit pattern the varint writer sends.
   */
  function ZigZagEncode(n: int, width: nat): nat {
    Xor((2 * n) % Pow2(width), SignMask(n, width), width)
  }

  /**
   * `(((int)(n << 31)) >> 31) ^ ((int)(n >> 1))` on a `uint`, and
   * `((long)(n >> 1)) ^ (-(long)(n & 1))` on a `ulong`: both masks are all
   * ones exactly when bit 0 is set; the result is read as a signed value.
   */
  function ZigZagDecode(u: nat, width: nat): int
    requires width >= 1
  {
    var mask := if u % 2 == 1 then Ones(width) else 0;
    SignedBits(Xor(u / 2, mask, width), Pow2(width))
  }

  /** A bit pattern below `m` read as a signed value of the width whose patterns are the numbers below `m`. */
  function SignedBits(bits: int, m: int): int {
    if 2 * bits >= m then bits - m else bits
  }

  /** The ZigZag numbering of the integers: `0, -1, 1, -2, 2, ...` get `0, 1, 2, 3, 4, ...`. */
  function ZigZagValue(n: int): int {
    if n >= 0 then 2 * n else -2 * n - 1
  }

  /** The integer a ZigZag number stands for: even numbers are the non-negatives, odd ones the negatives. */
  function UnZigZagValue(u: int): int {
    if u % 2 == 0 then u / 2 else -(u / 2) - 1
  }

  /** Halving `2k + b` for a bit `b` gives `k` and remainder `b`. */
  lemma Halves(k: int, b: int)
    requires 0 <= b <= 1
    ensures (2 * k + b) % 2 == b && (2 * k + b) / 2 == k
  {
  }

  /** The numbering is a bijection between the integers and the naturals. */
  lemma ZigZagValueInverse(n: int, u: nat)
    ensures UnZigZagValue(ZigZagValue(n)) == n
    ensures ZigZagValue(UnZigZagValue(u)) == u
    ensures ZigZagValue(n) >= 0
  {
    if n >= 0 {
      Halves(n, 0);
    } else {
      Halves(-n - 1, 1);
    }
    Halves(u / 2, u % 2);
  }

  /** In the signed range of the width, the bit-level encoding is the numbering. */
  lemma ZigZagEncodeValue(n: int, width: nat)
    requires width >= 1 && -Pow2(width) <= 2 * n < Pow2(width)
    ensures ZigZagEncode(n, width) == ZigZagValue(n)
  {
    var m := Pow2(width);
    if n >= 0 {
      ModInRange(2 * n, m);
      XorZero(2 * n, width);
      assert ZigZagEncode(n, width) == Xor(2 * n, 0, width) == 2 * n;
    } else {
      var e := 2 * n + m;
      ModBelowZero(2 * n, m);
      XorOnes(e, width);
      assert ZigZagEncode(n, width) == Xor(e, Ones(width), width) == m - 1 - e;
    }
  }

  /** On the bit patterns of the width, the bit-level decoding is the inverse numbering. */
  lemma ZigZagDecodeValue(u: nat, width: nat)
    requires width >= 1 && u < Pow2(width)
    ensures ZigZagDecode(u, width) == UnZigZagValue(u)
  {
    var m := Pow2(width);
    var h := u / 2;
    if u % 2 == 1 {
      XorOnes(h, width);
      assert ZigZagDecode(u, width) == SignedBits(m - 1 - h, m);
    } else {
      XorZero(h, width);
      assert ZigZagDecode(u, width) == SignedBits(h, m);
    }
  }

  /** ZigZag decoding undoes ZigZag encoding on every signed value of the width. */
  lemma ZigZagRoundTrip(n: int, width: nat)
    requires width >= 1 && -Pow2(width) <= 2 * n < Pow2(width)
    ensures 0 <= ZigZagEncode(n, width) < Pow2(width)
    ensures ZigZagDecode(ZigZagEncode(n, width), width) == n
  {
    ZigZagEncodeValue(n, width);
    ZigZagDecodeValue(ZigZagEncode(n, width), width);
    ZigZagValueInverse(n, 0);
  }

  /** ZigZag encoding undoes ZigZag decoding on every bit pattern of the width. */
  lemma ZigZagRoundTripPattern(u: nat, width: nat)
    requires width >= 1 && u < Pow2(width)
    ensures -Pow2(width) <= 2 * ZigZagDecode(u, width) < Pow2(width)
    ensures ZigZagEncode(ZigZagDecode(u, width), width) == u
  {
    ZigZagDecodeValue(u, width);
    ZigZagValueInverse(0, u);
    var d := ZigZagDecode(u, width);
    assert -Pow2(width) <= 2 * d < Pow2(width);
    ZigZagEncodeValue(d, width);
  }

  lemma Pow2Plus8(n: nat)
    ensures Pow2(n + 8) == 256 * Pow2(n)
  {
    assert Pow2(n + 8) == 2 * Pow2(n + 7) == 4 * Pow2(n + 6) == 8 * Pow2(n + 5) == 16 * Pow2(n + 4);
    assert Pow2(n + 4) == 2 * Pow2(n + 3) == 4 * Pow2(n + 2) == 8 * Pow2(n + 1) == 16 * Pow2(n);
  }

  /** The 32- and 64-bit instances: `width` 32 is `int`/`uint`, 64 is `long`/`ulong`. */
  lemma ZigZagWidths()
    ensures Pow2(32) == TWO_32 && Pow2(64) == TWO_64
  {
    Pow2Plus8(0); Pow2Plus8(8); Pow2Plus8(16); Pow2Plus8(24);
    Pow2Plus8(32); Pow2Plus8(40); Pow2Plus8(48); Pow2Plus8(56);
  }
}
