/** The writing side of the bdBuffer: an output vector, a pending byte and a bit
    offset that is never 0. */
module BdWriting {
  import opened Bits
  import opened Wrappers
  import opened BdFormat

  /** The bit offset is 1 to 8, 8 meaning that no byte is pending, and the unused
      top of a pending byte is zero. */
  predicate ValidPending(last: bv8, offset: nat) {
    && 1 <= offset <= 8
    && (offset < 8 ==> ByteBits(last) == Pad8(ByteBits(last)[..offset]))
  }

  function PendingBits(last: bv8, offset: nat): (r: seq<bool>)
    requires ValidPending(last, offset)
    ensures |r| == if offset < 8 then offset else 0
  {
    if offset < 8 then ByteBits(last)[..offset] else []
  }

  /** An input byte cut to its low bits. */
  predicate Holds(inByte: bv8, q: seq<bool>) {
    0 < |q| <= 8 && ByteBits(inByte) == Pad8(q)
  }

  lemma StreamGrows(out: seq<bv8>, p: seq<bool>, q: seq<bool>, b: bv8, p': seq<bool>)
    requires ByteBits(b) + p' == p + q
    ensures BitsOf(out + [b]) + p' == BitsOf(out) + p + q
  {
    BitsOfSnoc(out, b);
    assert BitsOf(out) + ByteBits(b) + p' == BitsOf(out) + (ByteBits(b) + p');
    assert BitsOf(out) + p + q == BitsOf(out) + (p + q);
  }

  /** What one iteration of the loop does: q joins the stream. */
  predicate Appends(out: seq<bv8>, last: bv8, offset: nat, q: seq<bool>, out': seq<bv8>, last': bv8, offset': nat)
    requires ValidPending(last, offset)
  {
    && ValidPending(last', offset')
    && BitsOf(out') + PendingBits(last', offset') == BitsOf(out) + PendingBits(last, offset) + q
  }

  // One lemma per arm of the loop in `write_bits`.

  lemma Joins(last: bv8, offset: nat, inByte: bv8, q: seq<bool>)
    requires ValidPending(last, offset) && Holds(inByte, q) && offset < 8
    ensures var (all, joined) := (PendingBits(last, offset) + q, ByteBits(last | Shl(inByte, offset)));
            if offset + |q| <= 8 then joined == Pad8(all) else joined == all[..8]
  {
    JoinBits(last, inByte, PendingBits(last, offset), q);
  }

  lemma SpillsOver(offset: nat, inByte: bv8, q: seq<bool>)
    requires Holds(inByte, q) && offset < 8 && offset + |q| > 8
    ensures var next := Shr(inByte, 8 - offset);
            && ValidPending(next, offset + |q| - 8)
            && PendingBits(next, offset + |q| - 8) == q[8 - offset..]
  {
    hide Shr;
    ShiftRightBits(inByte, 8 - offset);
    assert Pad8(q)[8 - offset..] == q[8 - offset..] + Zeros(8 - |q|);
  }

  lemma Overflows(out: seq<bv8>, last: bv8, offset: nat, inByte: bv8, q: seq<bool>, joined: bv8)
    requires ValidPending(last, offset) && Holds(inByte, q) && offset < 8 && offset + |q| > 8
    requires ByteBits(joined) == (PendingBits(last, offset) + q)[..8]
    ensures Appends(out, last, offset, q, out + [joined], Shr(inByte, 8 - offset), offset + |q| - 8)
  {
    hide ByteBits, BitsOf, Shr;
    SpillsOver(offset, inByte, q);
    StreamGrows(out, PendingBits(last, offset), q, joined, q[8 - offset..]);
  }

  lemma Fills(out: seq<bv8>, last: bv8, offset: nat, q: seq<bool>, joined: bv8)
    requires ValidPending(last, offset) && offset < 8 && offset + |q| == 8
    requires ByteBits(joined) == Pad8(PendingBits(last, offset) + q)
    ensures Appends(out, last, offset, q, out + [joined], 0, 8)
  {
    hide ByteBits, BitsOf;
    StreamGrows(out, PendingBits(last, offset), q, joined, []);
  }

  lemma Accumulates(out: seq<bv8>, last: bv8, offset: nat, q: seq<bool>, joined: bv8)
    requires ValidPending(last, offset) && offset + |q| < 8
    requires ByteBits(joined) == Pad8(PendingBits(last, offset) + q)
    ensures Appends(out, last, offset, q, out, joined, offset + |q|)
  {
    hide ByteBits, BitsOf;
    assert BitsOf(out) + (PendingBits(last, offset) + q) == BitsOf(out) + PendingBits(last, offset) + q;
  }

  lemma Starts(out: seq<bv8>, last: bv8, inByte: bv8, q: seq<bool>)
    requires Holds(inByte, q) && |q| < 8
    ensures Appends(out, last, 8, q, out, inByte, |q|)
  {
  }

  lemma Passes(out: seq<bv8>, last: bv8, inByte: bv8, q: seq<bool>)
    requires Holds(inByte, q) && |q| == 8
    ensures Appends(out, last, 8, q, out + [inByte], last, 8)
  {
    BitsOfSnoc(out, inByte);
  }

  /** The bits one iteration takes from the input. */
  function ChunkBits(buf: seq<bv8>, i: nat, n: nat): (q: seq<bool>)
    requires i < |buf| && n <= 8
    ensures |q| == n
  {
    ByteBits(buf[i])[..n]
  }

  lemma Chunk(buf: seq<bv8>, i: nat, n: nat)
    requires i < |buf| && 0 < n <= 8
    ensures |ChunkBits(buf, i, n)| == n && Holds(KeepLow(buf[i], n), ChunkBits(buf, i, n))
    ensures n == 8 ==> Holds(buf[i], ChunkBits(buf, i, n))
  {
    MaskBits(buf[i], n);
  }

  lemma ChunkJoins(buf: seq<bv8>, i: nat, n: nat)
    requires i < |buf| && 0 < n <= 8
    ensures 8 * i + n <= |BitsOf(buf)|
    ensures BitsOf(buf)[..8 * i + n] == BitsOf(buf)[..8 * i] + ChunkBits(buf, i, n)
  {
    var tail := buf[i..];
    assert BitsOf(buf)[8 * i..] == BitsOf(tail) by { BitsOfDrop(buf, i); }
    assert BitsOf(tail) == ByteBits(buf[i]) + BitsOf(tail[1..]);
    assert BitsOf(tail)[..n] == ByteBits(buf[i])[..n];
    assert BitsOf(buf)[..8 * i + n] == BitsOf(buf)[..8 * i] + BitsOf(buf)[8 * i..][..n];
  }

  /** What the loop has streamed after taking done bits of the input. */
  predicate Streamed(before: seq<bool>, buf: seq<bv8>, done: int, out: seq<bv8>, last: bv8, offset: nat) {
    && ValidPending(last, offset)
    && 0 <= done <= 8 * |buf|
    && BitsOf(out) + PendingBits(last, offset) == before + BitsOf(buf)[..done]
  }

  lemma StreamsOn(before: seq<bool>, buf: seq<bv8>, i: nat, n: nat, out: seq<bv8>, last: bv8, offset: nat,
                  out': seq<bv8>, last': bv8, offset': nat)
    requires i < |buf| && 0 < n <= 8 && Streamed(before, buf, 8 * i, out, last, offset)
    requires Appends(out, last, offset, ChunkBits(buf, i, n), out', last', offset')
    ensures Streamed(before, buf, 8 * i + n, out', last', offset')
  {
    hide BitsOf, ChunkBits;
    ChunkJoins(buf, i, n);
  }

  lemma PadPending(whole: seq<bool>, p: seq<bool>)
    requires |whole| % 8 == 0 && |p| < 8
    ensures PadTo8(whole + p) == whole + if p == [] then [] else Pad8(p)
  {
    assert |whole + p| % 8 == |p|;
  }

  lemma FirstBit(value: bool)
    ensures var b: bv8 := if value then 1 else 0;
            BitsOf([b])[..1] == [value] && BitsOf([b]) == ByteBits(b)
  {
    var b: bv8 := if value then 1 else 0;
    BitsOfOne(b);
    ByteBitsAt(b);
    assert ByteBits(b)[0] == Bit(b, 0);
  }

  class BdWriter {
    var out: seq<bv8>
    var bitOffset: nat
    var lastByte: bv8
    var mode: StreamMode
    var typeChecked: bool

    predicate Valid()
      reads this
    {
      ValidPending(lastByte, bitOffset)
    }

    /** Bits written in BitMode that do not fill a byte yet. */
    function Pending(): seq<bool>
      requires Valid()
      reads this
    {
      PendingBits(lastByte, bitOffset)
    }

    /** Everything a write in the current mode appends to. */
    function Stream(): seq<bool>
      requires Valid()
      reads this
    {
      BitsOf(out) + if mode == BitMode then Pending() else []
    }

    constructor ()
      ensures Valid() && out == [] && bitOffset == 8 && mode == ByteMode && !typeChecked
      ensures Stream() == []
    {
      out, bitOffset, lastByte, mode, typeChecked := [], 8, 0, ByteMode, false;
    }

    method SetMode(m: StreamMode)
      requires Valid()
      modifies this`mode
      ensures Valid() && mode == m
      ensures bitOffset == 8 ==> Stream() == old(Stream())
    {
      mode := m;
    }

    method SetTypeChecked(t: bool)
      requires Valid()
      modifies this`typeChecked
      ensures Valid() && typeChecked == t && Stream() == old(Stream())
    {
      typeChecked := t;
    }

    /** Completes a partial byte with zero bits. */
    method Flush()
      requires Valid()
      modifies this`out, this`bitOffset
      ensures Valid() && bitOffset == 8
      ensures BitsOf(out) == PadTo8(BitsOf(old(out)) + old(Pending()))
      ensures mode == BitMode ==> BitsOf(out) == PadTo8(old(Stream()))
    {
      PadPending(BitsOf(out), Pending());
      if bitOffset >= 8 {
        return;
      }
      BitsOfSnoc(out, lastByte);
      out := out + [lastByte];
      bitOffset := 8;
    }

    /** The body of the loop in `write_bits`: one input byte holding inBits bits. */
    method PutByte(inByte: bv8, inBits: nat, ghost q: seq<bool>)
      requires Valid() && Holds(inByte, q) && |q| == inBits
      modifies this`out, this`bitOffset, this`lastByte
      ensures Appends(old(out), old(lastByte), old(bitOffset), q, out, lastByte, bitOffset)
    {
      hide BitsOf, ByteBits, Shl, Shr, Pad8, PendingBits, Appends;
      if bitOffset < 8 {
        Joins(lastByte, bitOffset, inByte, q);
        var joined := lastByte | Shl(inByte, bitOffset);
        if bitOffset + inBits > 8 {
          Overflows(out, lastByte, bitOffset, inByte, q, joined);
          var usedBits := 8 - bitOffset;
          out := out + [joined];
          bitOffset := bitOffset + inBits - 8;
          lastByte := Shr(inByte, usedBits);
        } else if bitOffset + inBits == 8 {
          Fills(out, lastByte, bitOffset, q, joined);
          out := out + [joined];
          lastByte := 0;
          bitOffset := 8;
        } else {
          Accumulates(out, lastByte, bitOffset, q, joined);
          lastByte := joined;
          bitOffset := bitOffset + inBits;
        }
      } else if inBits == 8 {
        Passes(out, lastByte, inByte, q);
        out := out + [inByte];
      } else {
        Starts(out, lastByte, inByte, q);
        lastByte := inByte;
        bitOffset := inBits;
      }
    }

    method WriteBits(buf: seq<bv8>, count: nat) returns (r: Outcome)
      requires Valid() && count <= 8 * |buf|
      modifies this`out, this`bitOffset, this`lastByte
      ensures Valid()
      ensures mode == ByteMode ==> r == Fail(WrongMode) && unchanged(this)
      ensures mode == BitMode ==> r == Pass && Stream() == old(Stream()) + BitsOf(buf)[..count]
    {
      if mode != BitMode {
        return Fail(WrongMode);
      }
      if count == 0 {
        return Pass;
      }

      ghost var before := Stream();
      var bitsLeft := count;
      var srcOffset := 0;
      assert Streamed(before, buf, 0, out, lastByte, bitOffset);
      hide BitsOf, ByteBits, KeepLow, Holds, ChunkBits, PendingBits, ValidPending, Appends;
      while bitsLeft > 0
        invariant mode == BitMode && 0 <= bitsLeft <= count
        invariant bitsLeft > 0 ==> count - bitsLeft == 8 * srcOffset
        invariant Streamed(before, buf, count - bitsLeft, out, lastByte, bitOffset)
      {
        ghost var out0, last0, offset0, n := out, lastByte, bitOffset, if bitsLeft < 8 then bitsLeft else 8;
        Chunk(buf, srcOffset, n);
        var inBits := 8;
        var inByte := buf[srcOffset];
        srcOffset := srcOffset + 1;
        if bitsLeft < 8 {
          inBits := bitsLeft;
          inByte := KeepLow(inByte, bitsLeft);
        }
        PutByte(inByte, inBits, ChunkBits(buf, srcOffset - 1, n));
        StreamsOn(before, buf, srcOffset - 1, n, out0, last0, offset0, out, lastByte, bitOffset);
        bitsLeft := bitsLeft - inBits;
      }
      return Pass;
    }

    method WriteBytes(buffer: seq<bv8>)
      requires Valid()
      modifies this`out, this`bitOffset, this`lastByte
      ensures Valid() && Stream() == old(Stream()) + BitsOf(buffer)
      ensures mode == ByteMode ==> bitOffset == old(bitOffset) && lastByte == old(lastByte)
    {
      if mode == BitMode {
        assert BitsOf(buffer)[..8 * |buffer|] == BitsOf(buffer);
        var _ := WriteBits(buffer, 8 * |buffer|);
      } else {
        BitsOfAppend(out, buffer);
        out := out + buffer;
      }
    }

    method WriteTypeCheckedBit() returns (r: Outcome)
      requires Valid()
      modifies this`out, this`bitOffset, this`lastByte
      ensures Valid()
      ensures mode == ByteMode ==> r == Fail(WrongMode) && unchanged(this)
      ensures mode == BitMode ==> r == Pass && Stream() == old(Stream()) + [typeChecked]
    {
      if mode != BitMode {
        return Fail(WrongMode);
      }
      FirstBit(typeChecked);
      r := WriteBits(if typeChecked then [0x01] else [0x00], 1);
    }

    /** Five bits of tag in BitMode, a byte of it in ByteMode. */
    method WriteDataType(t: BdDataType)
      requires Valid()
      modifies this`out, this`bitOffset, this`lastByte
      ensures Valid() && Stream() == old(Stream()) + TagBits(t, mode)
      ensures mode == ByteMode ==> bitOffset == old(bitOffset) && lastByte == old(lastByte)
    {
      var value := BufferDataType.NoArray(t).ToValue();
      BitsOfOne(value);
      hide ByteBits, BitsOf, BufferDataType.ToValue, PendingBits, ValidPending;
      if mode == ByteMode {
        BitsOfSnoc(out, value);
        out := out + [value];
      } else {
        var _ := WriteBits([value], 5);
      }
    }

    method WriteBool(value: bool)
      requires Valid()
      modifies this`out, this`bitOffset, this`lastByte
      ensures Valid() && Stream() == old(Stream()) + Encode(VBool(value), typeChecked, mode)
      ensures mode == ByteMode ==> bitOffset == old(bitOffset) && lastByte == old(lastByte)
    {
      hide ByteBits, BitsOf, TagBits, Stream;
      if typeChecked {
        WriteDataType(BoolType);
      }
      FirstBit(value);
      var one: bv8 := if value then 1 else 0;
      if mode == ByteMode {
        WriteBytes([one]);
      } else {
        var _ := WriteBits([one], 1);
      }
    }

    /** `write_i8` to `write_u64`, `write_f32` and `write_f64`: one body each,
        differing in the tag and the width. */
    method WriteNum(t: NumType, value: int)
      requires Valid() && t.Holds(value)
      modifies this`out, this`bitOffset, this`lastByte
      ensures Valid() && Stream() == old(Stream()) + EncodeNum(t, value, typeChecked, mode)
      ensures mode == ByteMode ==> bitOffset == old(bitOffset) && lastByte == old(lastByte)
    {
      hide ByteBits, BitsOf, TagBits, Stream;
      if typeChecked {
        WriteDataType(t.Primitive());
      }
      WriteBytes(t.ToBytes(value));
    }

    method WriteStr(value: seq<bv8>)
      requires Valid() && ValidUtf8(value)
      modifies this`out, this`bitOffset, this`lastByte
      ensures Valid() && Stream() == old(Stream()) + Encode(VStr(value), typeChecked, mode)
      ensures mode == ByteMode ==> bitOffset == old(bitOffset) && lastByte == old(lastByte)
    {
      hide ByteBits, BitsOf, TagBits, Stream;
      if typeChecked {
        WriteDataType(SignedChar8StringType);
      }
      BitsOfAppend(value, [0]);
      WriteBytes(value);
      WriteBytes([0]);
    }

    method WriteBlob(value: seq<bv8>)
      requires Valid()
      modifies this`out, this`bitOffset, this`lastByte
      ensures Valid() && Stream() == old(Stream()) + Encode(VBlob(value), typeChecked, mode)
      ensures mode == ByteMode ==> bitOffset == old(bitOffset) && lastByte == old(lastByte)
    {
      hide ByteBits, BitsOf, TagBits, EncodeNum, LenAsU32, Stream;
      if typeChecked {
        WriteDataType(BlobType);
      }
      WriteNum(U32, LenAsU32(|value|));
      WriteBytes(value);
    }
  }
}
