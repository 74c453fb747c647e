/**
 * `SenBuffer` (`Buffer.cs`): a byte stream with two independent cursors,
 * `readOffset` and `writeOffset`. Every reader first fixes the read cursor
 * from its `offset` argument (`-1` keeps it), checks the bounds, takes the
 * bytes and advances the cursor; every writer does the same with the write
 * cursor. The stream position is set from a cursor before each use, so it
 * is not kept as state: it appears only as the check that a cursor is not
 * negative. Text is kept as raw bytes.
 */
module Buffers {
  import opened Results
  import opened SenCodec

  /** What the C# code throws, by cause. */
  datatype BufferError =
    | BadOffset        // an offset below -1, or a negative stream position
    | OutOfBounds      // "Offset is outside the bounds of the DataView"
    | NegativeCount    // `new byte[count]` with a negative count
    | VarIntTooLong    // a varint with more groups than its type holds
    | NotExpandable    // a write past the end of a fixed-size stream

  /** The result of a read together with where it leaves the read cursor. */
  datatype Scan = Scan(result: Result<seq<Byte>, BufferError>, end: int)

  /** The result of a write together with the new contents and write cursor. */
  datatype Written = Written(outcome: Outcome<BufferError>, data: seq<Byte>, cursor: nat)

  // ---------------------------------------------------------------
  // Cursors
  // ---------------------------------------------------------------

  /** `fixReadOffset`/`fixWriteOffset`: an offset above -1 replaces the cursor; anything else keeps it. */
  function Fixed(cursor: int, offset: int): int {
    if offset > -1 then offset else cursor
  }

  /**
   * The fix throws for an offset below -1, and for `-1` when the kept
   * cursor is negative (the stream position cannot be set to it).
   */
  predicate FixThrows(cursor: int, offset: int) {
    offset < -1 || Fixed(cursor, offset) < 0
  }

  // ---------------------------------------------------------------
  // The stream contents
  // ---------------------------------------------------------------

  /**
   * The contents after writing `bytes` at `pos`: a write past the end first
   * fills the gap with zeros, and the stream grows to cover the write.
   */
  function Overwrite(data: seq<Byte>, pos: nat, bytes: seq<Byte>): (r: seq<Byte>)
    ensures |r| == if pos + |bytes| > |data| then pos + |bytes| else |data|
    ensures forall k :: 0 <= k < |r| ==>
              r[k] == if pos <= k < pos + |bytes| then bytes[k - pos] else if k < |data| then data[k] else 0
  {
    var padded := if pos > |data| then data + seq(pos - |data|, _ => 0) else data;
    var tail := if pos + |bytes| < |padded| then padded[pos + |bytes|..] else [];
    padded[..pos] + bytes + tail
  }

  /**
   * `readBytes(count, offset)` on contents `data` with the read cursor at
   * `cursor`: the fix, then the bounds check, then the array allocation.
   */
  function Read(data: seq<Byte>, cursor: int, offset: int, count: int): (s: Scan)
    ensures s.result.Success? <==>
              !FixThrows(cursor, offset) && 0 <= count && Fixed(cursor, offset) + count <= |data|
    ensures s.result.Success? ==>
              |s.result.value| == count && s.end == Fixed(cursor, offset) + count &&
              s.result.value == data[Fixed(cursor, offset)..Fixed(cursor, offset) + count]
    ensures s.result.Failure? ==> s.end == Fixed(cursor, offset)
  {
    var p := Fixed(cursor, offset);
    if FixThrows(cursor, offset) then Scan(Failure(BadOffset), p)
    else if p + count > |data| then Scan(Failure(OutOfBounds), p)
    else if count < 0 then Scan(Failure(NegativeCount), p)
    else Scan(Success(data[p..p + count]), p + count)
  }

  /** Whether a write of `count` bytes at `pos` fits: an expandable stream grows, a fixed one must hold them already. */
  predicate Fits(expandable: bool, length: nat, pos: nat, count: nat) {
    expandable || pos + count <= length
  }

  /** `writeBytes(bytes, offset)` on contents `data` with the write cursor at `cursor`. */
  function Write(data: seq<Byte>, cursor: nat, offset: int, bytes: seq<Byte>, expandable: bool): (w: Written)
    ensures w.outcome.Pass? <==> offset >= -1 && Fits(expandable, |data|, Fixed(cursor, offset), |bytes|)
    ensures w.outcome.Pass? ==>
              w.data == Overwrite(data, Fixed(cursor, offset), bytes) && w.cursor == Fixed(cursor, offset) + |bytes|
    ensures w.outcome.Fail? ==> w.data == data && w.cursor == Fixed(cursor, offset)
  {
    if offset < -1 then Written(Fail(BadOffset), data, cursor)
    else
      var p := if offset > -1 then offset else cursor;
      if Fits(expandable, |data|, p, |bytes|) then Written(Pass, Overwrite(data, p, bytes), p + |bytes|)
      else Written(Fail(NotExpandable), data, p)
  }

  /** The same scan with `bytes` in front of what it read. */
  function Prepend(bytes: seq<Byte>, s: Scan): Scan {
    Scan(if s.result.Success? then Success(bytes + s.result.value) else s.result, s.end)
  }

  lemma PrependNothing(s: Scan)
    ensures Prepend([], s) == s
  {
    if s.result.Success? {
      assert [] + s.result.value == s.result.value;
    }
  }

  lemma PrependTwice(a: seq<Byte>, b: seq<Byte>, s: Scan)
    ensures Prepend(a, Prepend(b, s)) == Prepend(a + b, s)
  {
    if s.result.Success? {
      assert a + (b + s.result.value) == (a + b) + s.result.value;
    }
  }

  // ---------------------------------------------------------------
  // Varint and terminated-string scans
  // ---------------------------------------------------------------

  /** The number of groups a varint of `bits` bits may have: `num2 == 35` and `num2 == 70` stop the loop. */
  function Budget(bits: nat): nat {
    if bits == 32 then 5 else 10
  }

  /** `2^bits` for the two varint widths. */
  function Modulus(bits: nat): (m: int)
    ensures m >= 1
  {
    if bits == 32 then TWO_32 else TWO_64
  }

  /**
   * The bytes the varint readers consume from `pos`: they stop after a
   * byte with bit 7 clear, throw before reading a group beyond `budget`,
   * and throw at the end of the stream. `stride` is how far the cursor
   * moves per byte.
   */
  function ScanVarInt(data: seq<Byte>, pos: nat, stride: nat, budget: nat): (s: Scan)
    decreases budget
  {
    if budget == 0 then Scan(Failure(VarIntTooLong), pos)
    else if pos >= |data| then Scan(Failure(OutOfBounds), pos)
    else if data[pos] < 128 then Scan(Success([data[pos]]), pos + stride)
    else Prepend([data[pos]], ScanVarInt(data, pos + stride, stride, budget - 1))
  }

  /** The varint scan after the fix of the read cursor. */
  function ScanFrom(data: seq<Byte>, cursor: int, offset: int, stride: nat, budget: nat): Scan {
    if FixThrows(cursor, offset) then Scan(Failure(BadOffset), Fixed(cursor, offset))
    else ScanVarInt(data, Fixed(cursor, offset), stride, budget)
  }

  /** The bytes `readStringByEmpty` collects from `pos`, up to and past the first zero byte. */
  function ScanString(data: seq<Byte>, pos: nat): Scan
    decreases |data| - pos
  {
    if pos >= |data| then Scan(Failure(OutOfBounds), pos)
    else if data[pos] == 0 then Scan(Success([]), pos + 1)
    else Prepend([data[pos]], ScanString(data, pos + 1))
  }

  // ---------------------------------------------------------------
  // Properties of the scans
  // ---------------------------------------------------------------

  /** The value of the groups grows by the new group times its weight. */
  lemma {:induction false} GroupsSnoc(bs: seq<Byte>, b: Byte)
    ensures Groups(bs + [b]) == Groups(bs) + (b % 128) * Pow128(|bs|)
  {
    if |bs| > 0 {
      assert (bs + [b])[1..] == bs[1..] + [b];
      GroupsSnoc(bs[1..], b);
      assert 128 * ((b % 128) * Pow128(|bs| - 1)) == (b % 128) * Pow128(|bs|);
    }
  }

  /**
   * A successful varint scan with stride 1 consumed the bytes it returns:
   * they are a well-formed varint of at most `budget` groups.
   */
  lemma {:induction false} ScanVarIntMeaning(data: seq<Byte>, pos: nat, budget: nat)
    requires ScanVarInt(data, pos, 1, budget).result.Success?
    ensures var s := ScanVarInt(data, pos, 1, budget);
            VarIntShaped(s.result.value) && |s.result.value| <= budget &&
            s.end == pos + |s.result.value| <= |data| && data[pos..s.end] == s.result.value
    decreases budget
  {
    if data[pos] >= 128 {
      ScanVarIntMeaning(data, pos + 1, budget - 1);
      var rest := ScanVarInt(data, pos + 1, 1, budget - 1).result.value;
      assert data[pos..pos + 1 + |rest|] == [data[pos]] + data[pos + 1..pos + 1 + |rest|];
    }
  }

  /** The scan of a varint written at `pos` returns exactly its bytes. */
  lemma {:induction false} ScanVarIntOf(data: seq<Byte>, pos: nat, v: nat, budget: nat)
    requires pos + |VarInt(v)| <= |data| && data[pos..pos + |VarInt(v)|] == VarInt(v)
    requires |VarInt(v)| <= budget
    ensures ScanVarInt(data, pos, 1, budget) == Scan(Success(VarInt(v)), pos + |VarInt(v)|)
    decreases v
  {
    var e := VarInt(v);
    assert data[pos] == e[0];
    if v >= 128 {
      var rest := VarInt(v / 128);
      assert e == [ContinuationByte(v)] + rest;
      assert data[pos + 1..pos + 1 + |rest|] == data[pos..pos + |e|][1..];
      ScanVarIntOf(data, pos + 1, v / 128, budget - 1);
    }
  }

  /**
   * A successful string scan returns the bytes before the first zero: none
   * of them is zero, and the cursor ends just past the terminator.
   */
  lemma {:induction false} ScanStringMeaning(data: seq<Byte>, pos: nat)
    requires ScanString(data, pos).result.Success?
    ensures var s := ScanString(data, pos);
            s.end == pos + |s.result.value| + 1 <= |data| &&
            data[pos..s.end - 1] == s.result.value && data[s.end - 1] == 0 &&
            forall k :: 0 <= k < |s.result.value| ==> s.result.value[k] != 0
    decreases |data| - pos
  {
    if data[pos] != 0 {
      ScanStringMeaning(data, pos + 1);
      var rest := ScanString(data, pos + 1).result.value;
      assert data[pos..pos + 1 + |rest|] == [data[pos]] + data[pos + 1..pos + 1 + |rest|];
    }
  }

  /** A string without zero bytes followed by a zero byte scans back to the string. */
  lemma {:induction false} ScanStringOf(data: seq<Byte>, pos: nat, s: seq<Byte>)
    requires pos + |s| < |data| && data[pos..pos + |s|] == s && data[pos + |s|] == 0
    requires forall k :: 0 <= k < |s| ==> s[k] != 0
    ensures ScanString(data, pos) == Scan(Success(s), pos + |s| + 1)
    decreases |s|
  {
    if |s| > 0 {
      assert data[pos] == s[0];
      assert data[pos + 1..pos + 1 + |s[1..]|] == s[1..];
      ScanStringOf(data, pos + 1, s[1..]);
      assert [s[0]] + s[1..] == s;
    }
  }

  /** The bytes written at `pos` are what a read of their length at `pos` returns. */
  lemma ReadAfterWrite(data: seq<Byte>, cursor: int, pos: nat, bytes: seq<Byte>)
    ensures Read(Overwrite(data, pos, bytes), cursor, pos, |bytes|) == Scan(Success(bytes), pos + |bytes|)
  {
    var d := Overwrite(data, pos, bytes);
    assert d[pos..pos + |bytes|] == bytes;
  }

  /**
   * Writing a value with the fixed-width writer at `pos` and reading the
   * same width in the same byte order at `pos` gives the value back.
   */
  lemma WriteThenReadFixed(data: seq<Byte>, cursor: int, pos: nat, v: nat, width: nat, order: ByteOrder)
    requires v < Pow256(width)
    ensures var s := Read(Overwrite(data, pos, Encode(v, width, order)), cursor, pos, width);
            s.result.Success? && Decode(s.result.value, order) == v && s.end == pos + width
  {
    ReadAfterWrite(data, cursor, pos, Encode(v, width, order));
    DecodeEncode(v, width, order);
  }

  /**
   * A varint written at `pos` of a value that fits in `bits` bits reads back
   * with the byte-by-byte reader: the scan returns its bytes, their groups
   * add up to the value, and the cursor ends just past them.
   */
  lemma WriteThenReadVarInt(data: seq<Byte>, cursor: int, pos: nat, v: nat, bits: nat)
    requires bits == 32 || bits == 64
    requires v < Modulus(bits)
    ensures var s := ScanFrom(Overwrite(data, pos, VarInt(v)), cursor, pos, 1, Budget(bits));
            s == Scan(Success(VarInt(v)), pos + |VarInt(v)|) && Groups(s.result.value) == v
  {
    var d := Overwrite(data, pos, VarInt(v));
    assert d[pos..pos + |VarInt(v)|] == VarInt(v);
    VarIntLengthBounds(v);
    ScanVarIntOf(d, pos, v, Budget(bits));
    GroupsOfVarInt(v);
  }

  /**
   * What `writeZigZag32`/`writeZigZag64` write at `pos` is read back by
   * `readZigZag32`/`readZigZag64` at `pos` as the original value.
   */
  lemma WriteThenReadZigZag(data: seq<Byte>, cursor: int, pos: nat, n: int, bits: nat)
    requires bits == 32 || bits == 64
    requires -Modulus(bits) <= 2 * n < Modulus(bits)
    ensures var s := ScanFrom(Overwrite(data, pos, VarInt(ZigZagEncode(n, bits))), cursor, pos, 1, Budget(bits));
            s.result.Success? && ZigZagDecode(Groups(s.result.value) % Modulus(bits), bits) == n
  {
    ZigZagWidths();
    ZigZagRoundTrip(n, bits);
    var u := ZigZagEncode(n, bits);
    WriteThenReadVarInt(data, cursor, pos, u, bits);
    ModInRange(u, Modulus(bits));
  }

  /** A string without zero bytes written with its terminator at `pos` is read back by the terminated-string reader. */
  lemma WriteThenReadString(data: seq<Byte>, pos: nat, s: seq<Byte>)
    requires forall k :: 0 <= k < |s| ==> s[k] != 0
    ensures ScanString(Overwrite(data, pos, s + [0]), pos) == Scan(Success(s), pos + |s| + 1)
  {
    var d := Overwrite(data, pos, s + [0]);
    assert d[pos..pos + |s|] == s;
    ScanStringOf(d, pos, s);
  }

  /** A signed value of a varint width, taken back to the unsigned type (`(uint)`, `(ulong)`), is the bit pattern. */
  lemma SignedBitsBack(x: nat, m: nat)
    requires x < m
    ensures SignedBits(x, m) % m == x
  {
    if 2 * x >= m {
      ModBelowZero(x - m, m);
    } else {
      ModInRange(x, m);
    }
  }

  /**
   * `readVarInt32`/`readVarInt64` as written move the cursor two bytes per
   * group, so they read the groups of a varint at every other byte. On the
   * two bytes of 300 they jump past the second byte and throw, while the
   * byte-by-byte reader returns 300. With one more byte after them they
   * assemble 172 from the first and third bytes, and leave the cursor past
   * the end of the stream.
   */
  lemma VarIntReaderSkipsBytes()
    ensures VarInt(300) == [172, 2]
    ensures ScanVarInt(VarInt(300), 0, 2, Budget(32)).result == Failure(OutOfBounds)
    ensures ScanVarInt(VarInt(300), 0, 2, Budget(64)).result == Failure(OutOfBounds)
    ensures ScanVarInt(VarInt(300), 0, 1, Budget(32)) == Scan(Success([172, 2]), 2)
    ensures Groups([172, 2]) == 300
    ensures ScanVarInt([172, 2, 1], 0, 2, Budget(32)) == Scan(Success([172, 1]), 4)
    ensures Groups([172, 1]) == 172
  {
    assert VarInt(300) == [172] + VarInt(2);
    var data: seq<Byte> := [172, 2, 1];
    assert ScanVarInt(data, 2, 2, 4) == Scan(Success([1]), 4);
    assert [172] + [1] == [172, 1];
  }

  /** A varint encoder: the loop of `writeUVarInt32`/`writeVarInt32`/`writeUVarInt64`/`writeVarInt64`. */
  method EncodeVarInt(number: nat) returns (bytes: seq<Byte>)
    ensures bytes == VarInt(number)
  {
    var num := number;
    bytes := [];
    while num >= 128
      invariant bytes + VarInt(num) == VarInt(number)
      decreases num
    {
      bytes := bytes + [ContinuationByte(num)];
      num := num / 128;
    }
    bytes := bytes + [num];
  }

  // ---------------------------------------------------------------
  // The buffer
  // ---------------------------------------------------------------

  class SenBuffer {
    var data: seq<Byte>
    var readOffset: int
    var writeOffset: nat
    /** `new MemoryStream()` grows; a `MemoryStream` over a given array keeps its size. */
    const expandable: bool

    /** `SenBuffer(byte[] bytes)`: a fixed-size stream over the bytes. */
    constructor (bytes: seq<Byte>)
      ensures data == bytes && readOffset == 0 && writeOffset == 0 && !expandable
    {
      data := bytes;
      readOffset := 0;
      writeOffset := 0;
      expandable := false;
    }

    /** `SenBuffer()`: an empty, growable stream. */
    constructor Empty()
      ensures data == [] && readOffset == 0 && writeOffset == 0 && expandable
    {
      data := [];
      readOffset := 0;
      writeOffset := 0;
      expandable := true;
    }

    /** `SenBuffer(int size)`: a fixed-size stream of `size` zero bytes. */
    constructor OfSize(size: nat)
      ensures data == seq(size, _ => 0) && readOffset == 0 && writeOffset == 0 && !expandable
    {
      data := seq(size, _ => 0);
      readOffset := 0;
      writeOffset := 0;
      expandable := false;
    }

    method FixReadOffset(offset: int) returns (r: Outcome<BufferError>)
      modifies this
      ensures data == old(data) && writeOffset == old(writeOffset)
      ensures readOffset == Fixed(old(readOffset), offset)
      ensures r == if FixThrows(old(readOffset), offset) then Fail(BadOffset) else Pass
    {
      if offset > -1 {
        readOffset := offset;
        r := Pass;
      } else if offset == -1 {
        r := if readOffset >= 0 then Pass else Fail(BadOffset);
      } else {
        r := Fail(BadOffset);
      }
    }

    method FixWriteOffset(offset: int) returns (r: Outcome<BufferError>)
      modifies this
      ensures data == old(data) && readOffset == old(readOffset)
      ensures writeOffset == Fixed(old(writeOffset), offset)
      ensures r == if offset < -1 then Fail(BadOffset) else Pass
    {
      if offset > -1 {
        writeOffset := offset;
        r := Pass;
      } else if offset == -1 {
        r := Pass;
      } else {
        r := Fail(BadOffset);
      }
    }

    /** `readBytes`: the `count` bytes at the fixed read cursor, which then moves past them. */
    method ReadBytes(count: int, offset: int) returns (r: Result<seq<Byte>, BufferError>)
      modifies this
      ensures data == old(data) && writeOffset == old(writeOffset)
      ensures var s := Read(old(data), old(readOffset), offset, count);
              r == s.result && readOffset == s.end
    {
      var f := FixReadOffset(offset);
      if f.Fail? {
        return Failure(f.error);
      }
      if readOffset + count > |data| {
        return Failure(OutOfBounds);
      }
      if count < 0 {
        return Failure(NegativeCount);
      }
      r := Success(data[readOffset..readOffset + count]);
      readOffset := readOffset + count;
    }

    /** `getBytes`: the `count` bytes at `offset`, leaving both cursors and the contents alone. */
    method GetBytes(count: int, offset: int) returns (r: Result<seq<Byte>, BufferError>)
      ensures r.Success? <==> 0 <= offset && 0 <= count && offset + count <= |data| && readOffset >= 0
      ensures r.Success? ==> r.value == data[offset..offset + count]
      ensures r.Failure? ==>
                r.error == if offset < 0 then BadOffset else if offset + count > |data| then OutOfBounds
                           else if count < 0 then NegativeCount else BadOffset
    {
      if offset < 0 {
        return Failure(BadOffset);
      }
      if offset + count > |data| {
        return Failure(OutOfBounds);
      }
      if count < 0 {
        return Failure(NegativeCount);
      }
      var bytes := data[offset..offset + count];
      if readOffset < 0 {
        return Failure(BadOffset);
      }
      r := Success(bytes);
    }

    /** `writeBytes`: the bytes go at the fixed write cursor, which then moves past them. */
    method WriteBytes(bytes: seq<Byte>, offset: int) returns (r: Outcome<BufferError>)
      modifies this
      ensures readOffset == old(readOffset)
      ensures var w := Write(old(data), old(writeOffset), offset, bytes, expandable);
              r == w.outcome && data == w.data && writeOffset == w.cursor
    {
      var f := FixWriteOffset(offset);
      if f.Fail? {
        return f;
      }
      if !Fits(expandable, |data|, writeOffset, |bytes|) {
        return Fail(NotExpandable);
      }
      data := Overwrite(data, writeOffset, bytes);
      writeOffset := writeOffset + |bytes|;
      r := Pass;
    }

    /**
     * `setBytes`: with `overwriteOffset` the bytes go at the fixed write
     * cursor, which does not move past them; without it they go at
     * `offset` and the write cursor is left alone.
     */
    method SetBytes(bytes: seq<Byte>, offset: int, overwriteOffset: bool) returns (r: Outcome<BufferError>)
      modifies this
      ensures readOffset == old(readOffset)
      ensures overwriteOffset ==>
                var w := Write(old(data), old(writeOffset), offset, bytes, expandable);
                r == w.outcome && data == w.data && writeOffset == Fixed(old(writeOffset), offset)
      ensures !overwriteOffset && offset < 0 ==>
                r == Fail(BadOffset) && data == old(data) && writeOffset == old(writeOffset)
      ensures !overwriteOffset && offset >= 0 ==>
                var w := Write(old(data), offset, -1, bytes, expandable);
                r == w.outcome && data == w.data && writeOffset == old(writeOffset)
    {
      var pos: nat;
      if overwriteOffset {
        var f := FixWriteOffset(offset);
        if f.Fail? {
          return f;
        }
        pos := writeOffset;
      } else {
        if offset < 0 {
          return Fail(BadOffset);
        }
        pos := offset;
      }
      if !Fits(expandable, |data|, pos, |bytes|) {
        return Fail(NotExpandable);
      }
      data := Overwrite(data, pos, bytes);
      r := Pass;
    }

    /**
     * The fixed-width unsigned readers `readUInt8`, `readUInt16LE`/`BE`,
     * `readUInt24LE`/`BE`, `readUInt32LE`/`BE`, `readBigUInt64LE`/`BE`: the
     * value of `width` bytes in the given order.
     */
    method ReadUnsigned(width: nat, order: ByteOrder, offset: int) returns (r: Result<nat, BufferError>)
      modifies this
      ensures data == old(data) && writeOffset == old(writeOffset)
      ensures var s := Read(old(data), old(readOffset), offset, width);
              readOffset == s.end &&
              r == if s.result.Success? then Success(Decode(s.result.value, order)) else Failure(s.result.error)
      ensures r.Success? ==> r.value < Pow256(width)
    {
      var f := FixReadOffset(offset);
      if f.Fail? {
        return Failure(f.error);
      }
      var bytes := ReadBytes(width, -1);
      if bytes.Failure? {
        return Failure(bytes.error);
      }
      r := Success(Decode(bytes.value, order));
    }

    /**
     * The signed readers `readInt8`, `readInt16LE`, `readInt32LE`/`BE`,
     * `readBigInt64LE`/`BE`: the unsigned value cast to the signed type of
     * the same width.
     */
    method ReadSigned(width: nat, order: ByteOrder, offset: int) returns (r: Result<int, BufferError>)
      modifies this
      ensures data == old(data) && writeOffset == old(writeOffset)
      ensures var s := Read(old(data), old(readOffset), offset, width);
              readOffset == s.end &&
              r == if s.result.Success? then Success(ToSigned(Decode(s.result.value, order), width))
                   else Failure(s.result.error)
      ensures r.Success? ==> -Pow256(width) <= 2 * r.value < Pow256(width)
    {
      var u := ReadUnsigned(width, order, offset);
      if u.Failure? {
        return Failure(u.error);
      }
      ToSignedRange(u.value, width);
      r := Success(ToSigned(u.value, width));
    }

    /** `readInt24LE`/`readInt24BE`: three bytes with bit 23 extended into the sign. */
    method ReadInt24(order: ByteOrder, offset: int) returns (r: Result<int, BufferError>)
      modifies this
      ensures data == old(data) && writeOffset == old(writeOffset)
      ensures var s := Read(old(data), old(readOffset), offset, 3);
              readOffset == s.end &&
              r == if s.result.Success? then Success(SignExtend24(Decode(s.result.value, order)))
                   else Failure(s.result.error)
      ensures r.Success? ==> -0x80_0000 <= r.value < 0x80_0000
    {
      var f := FixReadOffset(offset);
      if f.Fail? {
        return Failure(f.error);
      }
      var num := ReadUnsigned(3, order, -1);
      if num.Failure? {
        return Failure(num.error);
      }
      assert Pow256(3) == 0x100_0000;
      SignExtend24Meaning(num.value);
      r := Success(SignExtend24(num.value));
    }

    /** `readBool`: one byte, true when it is not zero. */
    method ReadBool(offset: int) returns (r: Result<bool, BufferError>)
      modifies this
      ensures data == old(data) && writeOffset == old(writeOffset)
      ensures var s := Read(old(data), old(readOffset), offset, 1);
              readOffset == s.end &&
              r == if s.result.Success? then Success(s.result.value[0] != 0) else Failure(s.result.error)
    {
      var f := FixReadOffset(offset);
      if f.Fail? {
        return Failure(f.error);
      }
      var bytes := ReadBytes(1, -1);
      if bytes.Failure? {
        return Failure(bytes.error);
      }
      r := Success(bytes.value[0] != 0);
    }

    /**
     * The fixed-width writers `writeUInt16LE`/`BE`, `writeUInt24LE`/`BE`,
     * `writeUInt32LE`/`BE`, `writeBigUInt64LE`/`BE`: byte `k` of the
     * little-endian form is `(byte)(number >> 8k)`; big-endian reverses it.
     */
    method WriteUnsigned(number: nat, width: nat, order: ByteOrder, offset: int) returns (r: Outcome<BufferError>)
      modifies this
      ensures readOffset == old(readOffset)
      ensures var w := Write(old(data), old(writeOffset), offset, Encode(number, width, order), expandable);
              r == w.outcome && data == w.data && writeOffset == w.cursor
    {
      var f := FixWriteOffset(offset);
      if f.Fail? {
        return f;
      }
      r := WriteBytes(Encode(number, width, order), -1);
    }

    /** `writeUInt8`: the `sbyte` argument is stored as its byte pattern. */
    method WriteUInt8(number: int, offset: int) returns (r: Outcome<BufferError>)
      requires -128 <= number < 128
      modifies this
      ensures readOffset == old(readOffset)
      ensures var w := Write(old(data), old(writeOffset), offset, [number % 256], expandable);
              r == w.outcome && data == w.data && writeOffset == w.cursor
    {
      var f := FixWriteOffset(offset);
      if f.Fail? {
        return f;
      }
      r := WriteBytes([number % 256], -1);
    }

    /** `writeBool`: one byte, 1 for true and 0 for false. */
    method WriteBool(value: bool, offset: int) returns (r: Outcome<BufferError>)
      modifies this
      ensures readOffset == old(readOffset)
      ensures var w := Write(old(data), old(writeOffset), offset, [if value then 1 else 0], expandable);
              r == w.outcome && data == w.data && writeOffset == w.cursor
    {
      var bytes: seq<Byte> := [if value then 1 else 0];
      var f := FixWriteOffset(offset);
      if f.Fail? {
        return f;
      }
      r := WriteBytes(bytes, -1);
    }

    /** `writeSenBuffer`: the whole contents of `input` (`toBytes`) at the write cursor. */
    method WriteSenBuffer(input: SenBuffer, offset: int) returns (r: Outcome<BufferError>)
      modifies this
      ensures readOffset == old(readOffset)
      ensures var w := Write(old(data), old(writeOffset), offset, old(input.data), expandable);
              r == w.outcome && data == w.data && writeOffset == w.cursor
    {
      var bytes := input.data;
      var f := FixWriteOffset(offset);
      if f.Fail? {
        return f;
      }
      r := WriteBytes(bytes, -1);
    }

    /**
     * `writeUVarInt32`/`writeVarInt32` (`bits` 32) and
     * `writeUVarInt64`/`writeVarInt64` (`bits` 64): the argument, cast to the
     * unsigned type, as a varint at the write cursor. The encoding comes
     * before the fix of the cursor.
     */
    method WriteVarInt(number: int, bits: nat, offset: int) returns (r: Outcome<BufferError>)
      requires bits == 32 || bits == 64
      requires -Modulus(bits) <= 2 * number < 2 * Modulus(bits)
      modifies this
      ensures readOffset == old(readOffset)
      ensures var w := Write(old(data), old(writeOffset), offset, VarInt(number % Modulus(bits)), expandable);
              r == w.outcome && data == w.data && writeOffset == w.cursor
    {
      var bytes := EncodeVarInt(number % Modulus(bits));
      var f := FixWriteOffset(offset);
      if f.Fail? {
        return f;
      }
      r := WriteBytes(bytes, -1);
    }

    /** `writeZigZag32`/`writeZigZag64`: the ZigZag pattern of the value as a varint. */
    method WriteZigZag(number: int, bits: nat, offset: int) returns (r: Outcome<BufferError>)
      requires bits == 32 || bits == 64
      requires -Modulus(bits) <= 2 * number < Modulus(bits)
      modifies this
      ensures readOffset == old(readOffset)
      ensures var w := Write(old(data), old(writeOffset), offset, VarInt(ZigZagEncode(number, bits)), expandable);
              r == w.outcome && data == w.data && writeOffset == w.cursor
    {
      var f := FixWriteOffset(offset);
      if f.Fail? {
        return f;
      }
      ZigZagWidths();
      var u := ZigZagEncode(number, bits);
      ModInRange(u, Modulus(bits));
      r := WriteVarInt(u, bits, -1);
    }

    /**
     * The group loop of `readVarInt32`/`readVarInt64`: one byte per round
     * through `readUInt8`, its low 7 bits added at weight `128^k`, then the
     * cursor moves `stride - 1` more bytes; the loop stops after a byte with
     * bit 7 clear and throws before a group beyond `budget`.
     */
    method ReadGroups(stride: nat, budget: nat, offset: int) returns (r: Result<seq<Byte>, BufferError>, num: nat)
      requires stride >= 1
      modifies this
      ensures data == old(data) && writeOffset == old(writeOffset)
      ensures var s := ScanFrom(old(data), old(readOffset), offset, stride, budget);
              r == s.result && readOffset == s.end
      ensures r.Success? ==> num == Groups(r.value)
    {
      num := 0;
      var f := FixReadOffset(offset);
      if f.Fail? {
        return Failure(f.error), num;
      }
      ghost var start: nat := readOffset;
      var bytes: seq<Byte> := [];
      var weight: nat := 1;
      PrependNothing(ScanVarInt(data, start, stride, budget));
      while true
        invariant data == old(data) && writeOffset == old(writeOffset)
        invariant |bytes| <= budget
        invariant readOffset >= start
        invariant weight == Pow128(|bytes|) && num == Groups(bytes)
        invariant ScanVarInt(data, start, stride, budget) ==
                  Prepend(bytes, ScanVarInt(data, readOffset, stride, budget - |bytes|))
        decreases budget - |bytes|
      {
        if |bytes| == budget {
          return Failure(VarIntTooLong), num;
        }
        ghost var here: nat := readOffset;
        ghost var rest := ScanVarInt(data, here + stride, stride, budget - |bytes| - 1);
        var b := ReadUnsigned(1, LittleEndian, -1);
        if b.Failure? {
          return Failure(b.error), num;
        }
        var group: Byte := b.value;
        assert data[here..here + 1] == [data[here]];
        assert group == data[here];
        GroupsSnoc(bytes, group);
        num := num + (group % 128) * weight;
        weight := weight * 128;
        readOffset := readOffset + (stride - 1);
        if group < 128 {
          bytes := bytes + [group];
          return Success(bytes), num;
        }
        assert ScanVarInt(data, here, stride, budget - |bytes|) == Prepend([group], rest);
        PrependTwice(bytes, [group], rest);
        bytes := bytes + [group];
      }
    }

    /**
     * `readVarInt32` (`bits` 32) and `readVarInt64` (`bits` 64) moving one
     * byte per group: the groups truncated to the width and read as a
     * signed value.
     */
    method ReadVarInt(bits: nat, offset: int) returns (r: Result<int, BufferError>)
      requires bits == 32 || bits == 64
      modifies this
      ensures data == old(data) && writeOffset == old(writeOffset)
      ensures var s := ScanFrom(old(data), old(readOffset), offset, 1, Budget(bits));
              readOffset == s.end &&
              r == if s.result.Success? then Success(SignedBits(Groups(s.result.value) % Modulus(bits), Modulus(bits)))
                   else Failure(s.result.error)
    {
      var groups, num := ReadGroups(1, Budget(bits), offset);
      if groups.Failure? {
        return Failure(groups.error);
      }
      r := Success(SignedBits(num % Modulus(bits), Modulus(bits)));
    }

    /** `readVarInt32` (bits 32) and `readVarInt64` (bits 64) as written: the cursor moves two bytes per group. */
    method ReadVarIntAsWritten(bits: nat, offset: int) returns (r: Result<int, BufferError>)
      requires bits == 32 || bits == 64
      modifies this
      ensures data == old(data) && writeOffset == old(writeOffset)
      ensures var s := ScanFrom(old(data), old(readOffset), offset, 2, Budget(bits));
              readOffset == s.end &&
              r == if s.result.Success? then Success(SignedBits(Groups(s.result.value) % Modulus(bits), Modulus(bits)))
                   else Failure(s.result.error)
    {
      var groups, num := ReadGroups(2, Budget(bits), offset);
      if groups.Failure? {
        return Failure(groups.error);
      }
      r := Success(SignedBits(num % Modulus(bits), Modulus(bits)));
    }

    /** `readVarUInt32`: the 32-bit varint cast to `uint`, which is the groups modulo `2^32`. */
    method ReadVarUInt32(offset: int) returns (r: Result<nat, BufferError>)
      modifies this
      ensures data == old(data) && writeOffset == old(writeOffset)
      ensures var s := ScanFrom(old(data), old(readOffset), offset, 1, 5);
              readOffset == s.end &&
              r == if s.result.Success? then Success(Groups(s.result.value) % TWO_32) else Failure(s.result.error)
    {
      var f := FixReadOffset(offset);
      if f.Fail? {
        return Failure(f.error);
      }
      ghost var pos := readOffset;
      var v := ReadVarInt(32, -1);
      if v.Failure? {
        return Failure(v.error);
      }
      SignedBitsBack(Groups(ScanVarInt(data, pos, 1, 5).result.value) % TWO_32, TWO_32);
      r := Success(v.value % TWO_32);
    }

    /** `readZigZag32`/`readZigZag64`: the varint cast to the unsigned type, then ZigZag-decoded. */
    method ReadZigZag(bits: nat, offset: int) returns (r: Result<int, BufferError>)
      requires bits == 32 || bits == 64
      modifies this
      ensures data == old(data) && writeOffset == old(writeOffset)
      ensures var s := ScanFrom(old(data), old(readOffset), offset, 1, Budget(bits));
              readOffset == s.end &&
              r == if s.result.Success? then Success(ZigZagDecode(Groups(s.result.value) % Modulus(bits), bits))
                   else Failure(s.result.error)
    {
      var f := FixReadOffset(offset);
      if f.Fail? {
        return Failure(f.error);
      }
      ghost var pos := readOffset;
      var v := ReadVarInt(bits, -1);
      if v.Failure? {
        return Failure(v.error);
      }
      var pattern := v.value % Modulus(bits);
      SignedBitsBack(Groups(ScanVarInt(data, pos, 1, Budget(bits)).result.value) % Modulus(bits), Modulus(bits));
      r := Success(ZigZagDecode(pattern, bits));
    }

    /** `readStringByEmpty`: the bytes up to the first zero byte; the cursor ends past the zero. */
    method ReadStringByEmpty(offset: int) returns (r: Result<seq<Byte>, BufferError>)
      modifies this
      ensures data == old(data) && writeOffset == old(writeOffset)
      ensures FixThrows(old(readOffset), offset) ==>
                r == Failure(BadOffset) && readOffset == Fixed(old(readOffset), offset)
      ensures !FixThrows(old(readOffset), offset) ==>
                var s := ScanString(old(data), Fixed(old(readOffset), offset));
                r == s.result && readOffset == s.end
    {
      var f := FixReadOffset(offset);
      if f.Fail? {
        return Failure(f.error);
      }
      ghost var start: nat := readOffset;
      var bytes: seq<Byte> := [];
      PrependNothing(ScanString(data, start));
      while true
        invariant data == old(data) && writeOffset == old(writeOffset)
        invariant start <= readOffset == start + |bytes|
        invariant ScanString(data, start) == Prepend(bytes, ScanString(data, readOffset))
        decreases |data| - readOffset
      {
        ghost var here: nat := readOffset;
        var tp := ReadUnsigned(1, LittleEndian, -1);
        if tp.Failure? {
          return Failure(tp.error);
        }
        var b: Byte := tp.value;
        assert data[here..here + 1] == [data[here]];
        assert b == data[here];
        if b == 0 {
          assert ScanString(data, here) == Scan(Success([]), readOffset);
          assert bytes + [] == bytes;
          return Success(bytes);
        }
        assert ScanString(data, here) == Prepend([b], ScanString(data, readOffset));
        PrependTwice(bytes, [b], ScanString(data, readOffset));
        bytes := bytes + [b];
      }
    }

    /**
     * `getStringByEmpty`: the terminated string at `offset`; the read cursor
     * is restored when the read returns, and stays where the read left it
     * when it throws.
     */
    method GetStringByEmpty(offset: int) returns (r: Result<seq<Byte>, BufferError>)
      modifies this
      ensures data == old(data) && writeOffset == old(writeOffset)
      ensures offset < 0 ==> r == Failure(BadOffset) && readOffset == offset
      ensures offset >= 0 ==>
                var s := ScanString(old(data), offset);
                r == s.result && readOffset == if r.Success? then old(readOffset) else s.end
    {
      var tempOffset := readOffset;
      readOffset := offset;
      r := ReadStringByEmpty(-1);
      if r.Success? {
        readOffset := tempOffset;
      }
    }
  }
}
