/** The reading side of the bdBuffer: a cursor over a byte vector, the byte last
    fetched, a bit offset into it that is never 0, and a tag that may be cached. */
module BdReading {
  import opened Bits
  import opened Wrappers
  import opened BdFormat

  /** The bits still to be read in BitMode. */
  function RestBits(buf: seq<bv8>, pos: nat, last: bv8, offset: nat): (r: seq<bool>)
    requires pos <= |buf| && 1 <= offset <= 8
    ensures |r| == 8 * (|buf| - pos) + (8 - offset)
  {
    ByteBits(last)[offset..] + BitsOf(buf[pos..])
  }

  /** The out byte of the two-byte case: the top of a, then the bottom of b. */
  function Splice(a: bv8, b: bv8, offset: nat): bv8
    requires 1 <= offset <= 8
  {
    (if offset < 8 then Shr(a, offset) else 0) | Shl(b, 8 - offset)
  }

  lemma SpliceIs(a: bv8, b: bv8, offset: nat)
    requires 1 <= offset <= 8
    ensures ByteBits(Splice(a, b, offset)) == ByteBits(a)[offset..] + ByteBits(b)[..offset]
  {
    if offset < 8 {
      SpliceBits(a, b, offset);
    } else {
      assert Shl(b, 0) == b;
      assert 0 | b == b;
    }
  }

  lemma RestSplit(buf: seq<bv8>, pos: nat, last: bv8, offset: nat)
    requires pos < |buf| && 1 <= offset <= 8
    ensures RestBits(buf, pos, last, offset) == ByteBits(last)[offset..] + (ByteBits(buf[pos]) + BitsOf(buf[pos + 1..]))
  {
    var tail := buf[pos..];
    assert tail[1..] == buf[pos + 1..];
    assert BitsOf(tail) == ByteBits(buf[pos]) + BitsOf(tail[1..]);
  }

  lemma SpliceSeq(a: seq<bool>, b: seq<bool>, more: seq<bool>, offset: nat, n: nat)
    requires |a| == |b| == 8 && 1 <= offset <= 8 && 8 - offset <= n <= 8
    ensures (a[offset..] + (b + more))[..n] == (a[offset..] + b[..offset])[..n]
    ensures (a[offset..] + (b + more))[n..] == b[offset + n - 8..] + more
  {
  }

  lemma SpliceRest(buf: seq<bv8>, pos: nat, last: bv8, offset: nat)
    requires pos < |buf| && 1 <= offset <= 8
    ensures |RestBits(buf, pos, last, offset)| >= 8
    ensures RestBits(buf, pos, last, offset)[..8] == ByteBits(Splice(last, buf[pos], offset))
    ensures RestBits(buf, pos, last, offset)[8..] == RestBits(buf, pos + 1, buf[pos], offset)
  {
    hide ByteBits, BitsOf, Splice;
    SpliceIs(last, buf[pos], offset);
    RestSplit(buf, pos, last, offset);
    SpliceSeq(ByteBits(last), ByteBits(buf[pos]), BitsOf(buf[pos + 1..]), offset, 8);
  }

  /** The two-byte case with fewer than eight bits wanted: n bits end in the new byte. */
  lemma SplicePart(buf: seq<bv8>, pos: nat, last: bv8, offset: nat, n: nat)
    requires pos < |buf| && 1 <= offset <= 8 && 8 - offset < n < 8
    ensures n <= |RestBits(buf, pos, last, offset)|
    ensures ByteBits(KeepLow(Splice(last, buf[pos], offset), n)) == Pad8(RestBits(buf, pos, last, offset)[..n])
    ensures RestBits(buf, pos, last, offset)[n..] == RestBits(buf, pos + 1, buf[pos], offset + n - 8)
  {
    hide ByteBits, BitsOf, Splice, KeepLow;
    SpliceIs(last, buf[pos], offset);
    MaskBits(Splice(last, buf[pos], offset), n);
    RestSplit(buf, pos, last, offset);
    SpliceSeq(ByteBits(last), ByteBits(buf[pos]), BitsOf(buf[pos + 1..]), offset, n);
  }

  /** The one-byte case: the pending byte alone has the n bits. */
  lemma PendingPart(buf: seq<bv8>, pos: nat, last: bv8, offset: nat, n: nat)
    requires pos <= |buf| && 1 <= offset <= 8 && 0 < n <= 8 - offset
    ensures ByteBits(KeepLow(Shr(last, offset), n)) == Pad8(RestBits(buf, pos, last, offset)[..n])
    ensures RestBits(buf, pos, last, offset)[n..] == RestBits(buf, pos, last, offset + n)
  {
    ShiftRightBits(last, offset);
    MaskBits(Shr(last, offset), n);
  }

  class BdReader {
    const buf: seq<bv8>
    var pos: nat
    var bitOffset: nat
    var lastByte: bv8
    var hasDataTypeCached: bool
    var cachedDataType: BufferDataType
    var mode: StreamMode
    var typeChecked: bool

    predicate Valid()
      reads this`pos, this`bitOffset
    {
      pos <= |buf| && 1 <= bitOffset <= 8
    }

    /** The bits the next read in the current mode starts with. */
    function Rest(): seq<bool>
      requires Valid()
      reads this`pos, this`bitOffset, this`lastByte, this`mode
    {
      if mode == BitMode then Unread() else BitsOf(buf[pos..])
    }

    /** The bits still to be read in BitMode. */
    function Unread(): seq<bool>
      requires Valid()
      reads this`pos, this`bitOffset, this`lastByte
    {
      RestBits(buf, pos, lastByte, bitOffset)
    }

    /** The reader as a source of values. */
    function Src(): Source
      requires Valid()
      reads this
    {
      Source(if hasDataTypeCached then Some(cachedDataType) else None, Rest())
    }

    constructor (bytes: seq<bv8>)
      ensures Valid() && buf == bytes && mode == ByteMode && !typeChecked && bitOffset == 8
      ensures Src() == Source(None, BitsOf(bytes))
    {
      buf, pos, bitOffset, lastByte := bytes, 0, 8, 0;
      hasDataTypeCached, cachedDataType := false, BufferDataType.NoArray(NoType);
      mode, typeChecked := ByteMode, false;
      new;
      assert bytes[0..] == bytes;
    }

    method SetMode(m: StreamMode)
      requires Valid()
      modifies this`mode
      ensures Valid() && mode == m
      ensures bitOffset == 8 ==> Src() == old(Src())
    {
      mode := m;
    }

    method SetTypeChecked(t: bool)
      requires Valid()
      modifies this`typeChecked
      ensures Valid() && typeChecked == t && Src() == old(Src())
    {
      typeChecked := t;
    }

    /** The body of the loop in `read_bits`: the next byte to store, and how many
        bits it holds. */
    method NextByte(bitsLeft: nat) returns (r: Option<bv8>, took: nat)
      requires Valid() && bitsLeft > 0
      modifies this`pos, this`bitOffset, this`lastByte
      ensures Valid() && took == (if bitsLeft < 8 then bitsLeft else 8)
      ensures if took <= |old(Unread())|
              then r.Some? && ByteBits(r.value) == Pad8(old(Unread())[..took]) && Unread() == old(Unread())[took..]
              else r.None? && unchanged(this) && |old(Unread())| == 8 - bitOffset
      ensures took == 8 ==> bitOffset == old(bitOffset)
    {
      hide Splice, Shr, KeepLow, ByteBits, BitsOf, RestBits;
      took := if bitsLeft < 8 then bitsLeft else 8;
      RestLength(buf, pos, lastByte, bitOffset);
      var inByte := lastByte;
      var outByte: bv8;
      var maxReadBits: nat;
      if bitsLeft > 8 - bitOffset {
        if pos == |buf| {
          return None, took;
        }
        var inByte2 := buf[pos];
        if took < 8 {
          SplicePart(buf, pos, lastByte, bitOffset, took);
        } else {
          SpliceRest(buf, pos, lastByte, bitOffset);
          WholeByte(Splice(lastByte, buf[pos], bitOffset));
        }
        pos := pos + 1;
        outByte := Splice(inByte, inByte2, bitOffset);
        lastByte := inByte2;
        maxReadBits := 8;
      } else {
        PendingPart(buf, pos, lastByte, bitOffset, bitsLeft);
        outByte := Shr(inByte, bitOffset);
        maxReadBits := 8 - bitOffset;
      }

      if bitsLeft >= 8 {
        took := maxReadBits;
      } else {
        var readBits := if bitsLeft <= maxReadBits then bitsLeft else maxReadBits;
        bitOffset := bitOffset + readBits;
        if bitOffset > 8 {
          bitOffset := bitOffset - 8;
        }
        outByte := KeepLow(outByte, readBits);
        took := readBits;
      }
      r := Some(outByte);
    }

    /** One byte of the loop in `read_bits`, if there is another. */
    method FillByte(dest: array<bv8>, bitsLeft: nat, destOffset: nat,
                    ghost rest0: seq<bool>, ghost dest0: seq<bv8>, ghost offset0: nat, ghost count: nat)
      returns (some: bool, took: nat)
      requires Valid() && bitsLeft > 0
      requires LoopState(rest0, dest0, offset0, count, bitsLeft, destOffset, Unread(), dest[..], bitOffset)
      modifies dest, this`pos, this`bitOffset, this`lastByte
      ensures Valid()
      ensures if some
              then 0 < took <= bitsLeft &&
                   LoopState(rest0, dest0, offset0, count, bitsLeft - took, destOffset + 1, Unread(), dest[..], bitOffset)
              else Exhausted(rest0, count, offset0, Unread(), bitOffset)
    {
      hide ByteBits, BitsOf, RestBits, Unread, LoopState, Exhausted;
      ghost var rest, dest1 := Unread(), dest[..];
      LoopInRange(rest0, dest0, offset0, count, bitsLeft, destOffset, rest, dest1, bitOffset);
      var next;
      next, took := NextByte(bitsLeft);
      some := next.Some?;
      if !some {
        LoopFails(rest0, dest0, offset0, count, bitsLeft, destOffset, rest, dest1, bitOffset);
        return;
      }
      LoopSteps(rest0, dest0, offset0, count, bitsLeft, destOffset, rest, dest1, next.value, took, bitOffset);
      dest[destOffset] := next.value;
    }

    /** The loop of `read_bits`. */
    method FillLoop(dest: array<bv8>, ghost rest0: seq<bool>, ghost dest0: seq<bv8>, ghost offset0: nat, count: nat)
      returns (enough: bool, ghost stored: nat)
      requires Valid() && LoopState(rest0, dest0, offset0, count, count, 0, Unread(), dest[..], bitOffset)
      modifies dest, this`pos, this`bitOffset, this`lastByte
      ensures Valid()
      ensures if enough then LoopState(rest0, dest0, offset0, count, 0, stored, Unread(), dest[..], bitOffset)
              else Exhausted(rest0, count, offset0, Unread(), bitOffset)
    {
      hide *;
      var bitsLeft := count;
      var destOffset := 0;
      stored := 0;
      while bitsLeft > 0
        invariant Valid() && 0 <= bitsLeft && stored == destOffset
        invariant LoopState(rest0, dest0, offset0, count, bitsLeft, destOffset, Unread(), dest[..], bitOffset)
      {
        var some, took := FillByte(dest, bitsLeft, destOffset, rest0, dest0, offset0, count);
        if !some {
          return false, stored;
        }
        bitsLeft := bitsLeft - took;
        destOffset := destOffset + 1;
        stored := destOffset;
      }
      enough := true;
    }

    /** Fills dest with the next count bits, or runs out of them. */
    method FillBits(dest: array<bv8>, count: nat) returns (enough: bool)
      requires Valid() && 0 < count <= 8 * dest.Length
      modifies dest, this`pos, this`bitOffset, this`lastByte
      ensures Valid()
      ensures if enough then Filled(old(Unread()), old(dest[..]), count, Unread(), dest[..])
              else Exhausted(old(Unread()), count, old(bitOffset), Unread(), bitOffset)
    {
      ghost var rest0, dest0, offset0 := Unread(), dest[..], bitOffset;
      LoopStarts(rest0, dest0, offset0, count);
      hide *;
      ghost var stored;
      enough, stored := FillLoop(dest, rest0, dest0, offset0, count);
      if enough {
        LoopEnds(rest0, dest0, offset0, count, stored, Unread(), dest[..], bitOffset);
      }
    }

    /** Fills dest with the next count bits, or fails for want of bits after
        consuming every whole byte. */
    method ReadBits(dest: array<bv8>, count: nat) returns (r: Outcome)
      requires Valid() && count <= 8 * dest.Length
      modifies dest, this`pos, this`bitOffset, this`lastByte
      ensures Valid()
      ensures mode == ByteMode ==> r == Fail(WrongMode) && unchanged(this) && unchanged(dest)
      ensures mode == BitMode && count <= |old(Rest())| ==>
                && r == Pass && Rest() == old(Rest())[count..]
                && dest[..] == BytesFrom(old(Rest())[..count]) + old(dest[..])[(count + 7) / 8..]
      ensures mode == BitMode && count > |old(Rest())| ==>
                && r == Fail(UnexpectedEnd) && bitOffset == old(bitOffset)
                && 8 - bitOffset <= |old(Rest())| && Rest() == old(Rest())[|old(Rest())| - (8 - bitOffset)..]
    {
      if mode != BitMode {
        return Fail(WrongMode);
      }
      if count == 0 {
        return Pass;
      }
      hide ByteBits, BitsOf, RestBits, BytesFrom;
      var enough := FillBits(dest, count);
      return if enough then Pass else Fail(UnexpectedEnd);
    }

    method RemainingBits() returns (r: Result<nat>)
      requires Valid()
      ensures mode == BitMode ==> r == Ok(|Rest()|)
      ensures mode == ByteMode ==> r == Err(WrongMode)
    {
      if mode != BitMode {
        return Err(WrongMode);
      }
      var whole := |buf| - pos;
      return Ok(whole * 8 + (8 - bitOffset));
    }

    method RemainingBytes() returns (r: Result<nat>)
      requires Valid()
      ensures mode == ByteMode ==> r.Ok? && 8 * r.value == |Rest()|
      ensures mode == BitMode ==> r == Err(WrongMode)
    {
      if mode != ByteMode {
        return Err(WrongMode);
      }
      return Ok(|buf| - pos);
    }

    /** A temporary buffer of k bytes, filled from the stream. */
    method Fetch(k: nat) returns (r: Result<seq<bv8>>)
      requires Valid()
      modifies this`pos, this`bitOffset, this`lastByte
      ensures Valid()
      ensures match Take(old(Src()), 8 * k)
              case Ok((bits, src')) => r == Ok(BytesFrom(bits)) && Src() == src'
              case Err(e) => r == Err(e)
    {
      hide ByteBits, BitsOf, RestBits, BytesFrom;
      if mode == ByteMode {
        TakeWhole(buf[pos..], k);
        if |buf| - pos < k {
          return Err(UnexpectedEnd);
        }
        assert buf[pos..][k..] == buf[pos + k..] && buf[pos..][..k] == buf[pos..pos + k];
        r := Ok(buf[pos..pos + k]);
        pos := pos + k;
        assert Take(old(Src()), 8 * k).Ok?;
        assert r.value == BytesFrom(old(Src()).rest[..8 * k]);
        assert Rest() == old(Src()).rest[8 * k..];
      } else {
        var temp := new bv8[k];
        ghost var temp0 := temp[..];
        assert (8 * k + 7) / 8 == k && temp0[k..] == [];
        var outcome := ReadBits(temp, 8 * k);
        if outcome.Fail? {
          return Err(outcome.error);
        }
        assert temp[..] == BytesFrom(old(Src()).rest[..8 * k]) + temp0[k..];
        assert temp[..] == BytesFrom(old(Src()).rest[..8 * k]);
        r := Ok(temp[..]);
      }
    }

    /** At most eight bits in BitMode. */
    method FetchBits(n: nat) returns (r: Result<bv8>)
      requires Valid() && mode == BitMode && 0 < n <= 8
      modifies this`pos, this`bitOffset, this`lastByte
      ensures Valid()
      ensures match Take(old(Src()), n)
              case Ok((bits, src')) => r == Ok(ByteFrom(bits)) && Src() == src'
              case Err(e) => r == Err(e)
    {
      hide ByteBits, BitsOf, RestBits, ByteFrom;
      var temp := new bv8[1];
      var outcome := ReadBits(temp, n);
      if outcome.Fail? {
        return Err(outcome.error);
      }
      r := Ok(temp[0]);
    }

    method FetchByte() returns (r: Result<bv8>)
      requires Valid() && mode == ByteMode
      modifies this`pos
      ensures Valid()
      ensures match Take(old(Src()), 8)
              case Ok((bits, src')) => r == Ok(ByteFrom(bits)) && Src() == src'
              case Err(e) => r == Err(e)
    {
      hide ByteBits, RestBits, ByteFrom;
      if pos == |buf| {
        return Err(UnexpectedEnd);
      }
      FirstByte(buf[pos..]);
      assert buf[pos..][1..] == buf[pos + 1..];
      r := Ok(buf[pos]);
      pos := pos + 1;
    }

    method ReadBytes(n: nat) returns (r: Result<seq<bv8>>)
      requires Valid()
      modifies this`pos, this`bitOffset, this`lastByte
      ensures Valid()
      ensures match Take(old(Src()), 8 * n)
              case Ok((bits, src')) => r == Ok(BytesFrom(bits)) && Src() == src'
              case Err(e) => r == Err(e)
    {
      r := Fetch(n);
    }

    method ReadTypeCheckedBit() returns (r: Outcome)
      requires Valid()
      modifies this`pos, this`bitOffset, this`lastByte, this`typeChecked
      ensures Valid()
      ensures mode == ByteMode ==> r == Fail(WrongMode)
      ensures mode == BitMode ==>
                match Take(old(Src()), 1)
                case Ok((bits, src')) => r == Pass && Src() == src' && typeChecked == bits[0]
                case Err(e) => r == Fail(e)
    {
      hide ByteFrom, Rest;
      if mode != BitMode {
        return Fail(WrongMode);
      }
      var b := FetchBits(1);
      if b.Err? {
        return Fail(b.error);
      }
      OneBit(old(Src()).rest[..1]);
      typeChecked := b.value > 0;
      return Pass;
    }

    /** Uses the cached tag if there is one. */
    method ReadDataType() returns (r: Result<BufferDataType>)
      requires Valid()
      modifies this`pos, this`bitOffset, this`lastByte, this`hasDataTypeCached
      ensures Valid()
      ensures match TakeTag(old(Src()), mode)
              case Ok((t, src')) => r == Ok(t) && Src() == src'
              case Err(e) => r == Err(e)
    {
      hide ByteFrom, Rest, BufferDataType.FromValue;
      if hasDataTypeCached {
        hasDataTypeCached := false;
        return Ok(cachedDataType);
      }
      var b: Result<bv8>;
      if mode != BitMode {
        b := FetchByte();
      } else {
        b := FetchBits(5);
      }
      var value :- b;
      return BufferDataType.FromValue(value);
    }

    /** Peeks at the next tag and keeps it. */
    method NextDataType() returns (r: Result<BufferDataType>)
      requires Valid()
      modifies this`pos, this`bitOffset, this`lastByte, this`hasDataTypeCached, this`cachedDataType
      ensures Valid()
      ensures match Peek(old(Src()), typeChecked, mode)
              case Ok((t, src')) => r == Ok(t) && Src() == src'
              case Err(e) => r == Err(e)
    {
      hide ByteFrom, Rest, BufferDataType.FromValue;
      if !typeChecked {
        return Ok(BufferDataType.NoArray(NoType));
      }
      if hasDataTypeCached {
        return Ok(cachedDataType);
      }
      var t :- ReadDataType();
      cachedDataType := t;
      hasDataTypeCached := true;
      return Ok(t);
    }

    /** `next_is_bool` to `next_is_blob`. */
    method NextIs(t: BdDataType) returns (r: Result<bool>)
      requires Valid()
      modifies this`pos, this`bitOffset, this`lastByte, this`hasDataTypeCached, this`cachedDataType
      ensures Valid()
      ensures match Peek(old(Src()), typeChecked, mode)
              case Ok((actual, src')) => r == Ok(actual.EqNonArray(t)) && Src() == src'
              case Err(e) => r == Err(e)
    {
      var actual :- NextDataType();
      return Ok(actual.EqNonArray(t));
    }

    method CheckDataType(t: BdDataType) returns (r: Outcome)
      requires Valid()
      modifies this`pos, this`bitOffset, this`lastByte, this`hasDataTypeCached
      ensures Valid()
      ensures match ExpectTag(old(Src()), t, typeChecked, mode)
              case Ok(src') => r == Pass && Src() == src'
              case Err(e) => r == Fail(e)
    {
      hide Rest, TakeTag;
      if typeChecked {
        var actual := ReadDataType();
        if actual.Err? {
          return Fail(actual.error);
        }
        if !actual.value.EqNonArray(t) {
          return Fail(UnexpectedDataType);
        }
      }
      return Pass;
    }

    method ReadBool() returns (r: Result<bool>)
      requires Valid()
      modifies this`pos, this`bitOffset, this`lastByte, this`hasDataTypeCached
      ensures Valid()
      ensures match Parse(KBool, typeChecked, mode, old(Src()))
              case Ok((v, src')) => r == Ok(v.b) && Src() == src'
              case Err(e) => r == Err(e)
    {
      hide Rest, ByteFrom, ExpectTag;
      var tag := CheckDataType(BoolType);
      if tag.Fail? {
        return Err(tag.error);
      }
      var b: Result<bv8>;
      if mode == ByteMode {
        b := FetchByte();
      } else {
        b := FetchBits(1);
      }
      var value :- b;
      return Ok(value > 0);
    }

    /** `read_i8` to `read_u64`, `read_f32` and `read_f64`. */
    method ReadNum(t: NumType) returns (r: Result<int>)
      requires Valid()
      modifies this`pos, this`bitOffset, this`lastByte, this`hasDataTypeCached
      ensures Valid()
      ensures match ParseNum(t, typeChecked, mode, old(Src()))
              case Ok((n, src')) => r == Ok(n) && Src() == src'
              case Err(e) => r == Err(e)
    {
      hide Rest, BytesFrom, ExpectTag, NumType.FromBytes;
      var tag := CheckDataType(t.Primitive());
      if tag.Fail? {
        return Err(tag.error);
      }
      var temp :- Fetch(t.Width());
      return Ok(t.FromBytes(temp));
    }

    method ReadBlob() returns (r: Result<seq<bv8>>)
      requires Valid()
      modifies this`pos, this`bitOffset, this`lastByte, this`hasDataTypeCached
      ensures Valid()
      ensures match Parse(KBlob, typeChecked, mode, old(Src()))
              case Ok((v, src')) => r == Ok(v.bytes) && Src() == src'
              case Err(e) => r == Err(e)
    {
      hide Rest, BytesFrom, ExpectTag, ParseNum;
      var tag := CheckDataType(BlobType);
      if tag.Fail? {
        return Err(tag.error);
      }
      var size :- ReadNum(U32);
      r := Fetch(size);
    }

    method ReadStr() returns (r: Result<seq<bv8>>)
      requires Valid()
      modifies this`pos, this`bitOffset, this`lastByte, this`hasDataTypeCached
      ensures Valid()
      ensures match Parse(KStr, typeChecked, mode, old(Src()))
              case Ok((v, src')) => r == Ok(v.s) && Src() == src'
              case Err(e) => r == Err(e)
    {
      hide Rest, ExpectTag, ValidUtf8, UntilNul, BytesFrom;
      var tag := CheckDataType(SignedChar8StringType);
      if tag.Fail? {
        return Err(tag.error);
      }
      var bytes: Result<seq<bv8>>;
      if mode == BitMode {
        bytes := ReadUntilNulBits();
      } else {
        bytes := ReadUntilNulBytes();
      }
      var s :- bytes;
      return if ValidUtf8(s) then Ok(s) else Err(NotUtf8);
    }

    /** The loop of `read_str` in BitMode. */
    method ReadUntilNulBits() returns (r: Result<seq<bv8>>)
      requires Valid() && mode == BitMode
      modifies this`pos, this`bitOffset, this`lastByte
      ensures Valid()
      ensures match UntilNul(old(Src()).rest)
              case Some((s, rest')) => r == Ok(s) && Src() == old(Src()).(rest := rest')
              case None => r == Err(UnexpectedEnd)
    {
      hide Rest, ByteFrom;
      var out: seq<bv8> := [];
      ghost var src := Src();
      PrependNone(UntilNul(src.rest));
      while true
        invariant Valid() && Src().cached == old(Src()).cached
        invariant src == Src()
        invariant UntilNul(old(Src()).rest) == PrependTo(out, UntilNul(src.rest))
        decreases |src.rest|
      {
        if |src.rest| >= 8 {
          PrependStep(out, src.rest);
        }
        var b :- FetchBits(8);
        src := Src();
        if b == 0 {
          break;
        }
        out := out + [b];
      }
      return Ok(out);
    }

    /** `read_until` on the cursor, then dropping its last byte, terminator or not. */
    method ReadUntilNulBytes() returns (r: Result<seq<bv8>>)
      requires Valid() && mode == ByteMode
      modifies this`pos
      ensures Valid()
      ensures match UntilNul(old(Src()).rest)
              case Some((s, rest')) => r == Ok(s) && Src() == old(Src()).(rest := rest')
              case None => var all := BytesFrom(old(Src()).rest);
                           && r == Ok(if all == [] then [] else all[..|all| - 1])
                           && Src() == old(Src()).(rest := [])
    {
      hide ByteFrom, ByteBits, BytesFrom, RestBits, BitsOf, UntilNul, PrependTo;
      ghost var all := buf[pos..];
      var out: seq<bv8> := [];
      var ended := false;
      BytesFromBitsOf(all);
      PrependNone(UntilNul(BitsOf(all)));
      while !ended && pos < |buf|
        invariant Valid() && old(pos) <= pos
        invariant out == buf[old(pos)..pos]
        invariant !ended ==> UntilNul(BitsOf(all)) == PrependTo(out, UntilNul(BitsOf(buf[pos..])))
        invariant ended ==> out != [] && UntilNul(BitsOf(all)) == Some((out[..|out| - 1], BitsOf(buf[pos..])))
        decreases !ended, |buf| - pos
      {
        var b := buf[pos];
        ghost var out0 := out;
        FirstByte(buf[pos..]);
        assert buf[pos..][1..] == buf[pos + 1..];
        PrependStep(out, BitsOf(buf[pos..]));
        out := out + [b];
        pos := pos + 1;
        ended := b == 0;
        assert out[..|out| - 1] == out0;
      }
      if !ended {
        assert buf[pos..] == [] && out == all;
        UntilNulNothing(out);
      }
      if out != [] {
        out := out[..|out| - 1];
      }
      return Ok(out);
    }
  }

  function PrependTo(s: seq<bv8>, found: Option<(seq<bv8>, seq<bool>)>): Option<(seq<bv8>, seq<bool>)> {
    match found
    case None => None
    case Some((t, rest)) => Some((s + t, rest))
  }

  lemma PrependNone(found: Option<(seq<bv8>, seq<bool>)>)
    ensures PrependTo([], found) == found
  {
    match found
    case None =>
    case Some((t, _)) => assert [] + t == t;
  }

  lemma UntilNulNothing(out: seq<bv8>)
    ensures PrependTo(out, UntilNul(BitsOf([]))) == None && BitsOf([]) == []
  {
  }

  /** One turn of a string loop. */
  lemma PrependStep(out: seq<bv8>, rest: seq<bool>)
    requires |rest| >= 8
    ensures var b := ByteFrom(rest[..8]);
            PrependTo(out, UntilNul(rest)) ==
            if b == 0 then Some((out, rest[8..])) else PrependTo(out + [b], UntilNul(rest[8..]))
  {
    var b := ByteFrom(rest[..8]);
    if b == 0 {
      assert out + [] == out;
    } else {
      match UntilNul(rest[8..])
      case None =>
      case Some((t, _)) => assert out + ([b] + t) == (out + [b]) + t;
    }
  }

  lemma OneBit(bits: seq<bool>)
    requires |bits| == 1
    ensures ByteFrom(bits) > 0 <==> bits[0]
  {
    assert ByteFrom(bits) == (ByteFrom([]) << 1) | (if bits[0] then 1 else 0);
  }

  /** dest holds the first count bits of rest0 and keeps its other bytes; rest is
      what remains to be read. */
  predicate Filled(rest0: seq<bool>, dest0: seq<bv8>, count: nat, rest: seq<bool>, dest: seq<bv8>) {
    && count <= |rest0| && rest == rest0[count..]
    && (count + 7) / 8 <= |dest0|
    && dest == BytesFrom(rest0[..count]) + dest0[(count + 7) / 8..]
  }

  /** Every whole byte is gone and the bits short of one are left. */
  predicate Exhausted(rest0: seq<bool>, count: nat, offset0: nat, rest: seq<bool>, offset: nat) {
    && count > |rest0|
    && offset == offset0 <= 8 && 8 - offset <= |rest0|
    && rest == rest0[|rest0| - (8 - offset)..]
  }

  /** What holds whenever the loop of `read_bits` tests its condition. */
  predicate LoopState(rest0: seq<bool>, dest0: seq<bv8>, offset0: nat, count: nat, bitsLeft: int, k: int,
                      rest: seq<bool>, dest: seq<bv8>, offset: nat)
  {
    && 0 <= bitsLeft <= count <= 8 * |dest0|
    && 0 <= k && 8 * k - 8 < count - bitsLeft <= 8 * k
    && (bitsLeft > 0 ==> count - bitsLeft == 8 * k && offset == offset0)
    && count - bitsLeft <= |rest0| && rest == rest0[count - bitsLeft..]
    && k <= |dest| == |dest0|
    && BitsOf(dest[..k]) == PadTo8(rest0[..count - bitsLeft])
    && dest[k..] == dest0[k..]
  }

  lemma LoopStarts(rest0: seq<bool>, dest0: seq<bv8>, offset0: nat, count: nat)
    requires 0 < count <= 8 * |dest0|
    ensures LoopState(rest0, dest0, offset0, count, count, 0, rest0, dest0, offset0)
  {
  }

  lemma LoopInRange(rest0: seq<bool>, dest0: seq<bv8>, offset0: nat, count: nat, bitsLeft: nat, k: nat,
                    rest: seq<bool>, dest: seq<bv8>, offset: nat)
    requires bitsLeft > 0 && LoopState(rest0, dest0, offset0, count, bitsLeft, k, rest, dest, offset)
    ensures k < |dest| && offset == offset0
  {
  }

  lemma LoopSteps(rest0: seq<bool>, dest0: seq<bv8>, offset0: nat, count: nat, bitsLeft: nat, k: nat,
                  rest: seq<bool>, dest: seq<bv8>, b: bv8, n: nat, offset': nat)
    requires bitsLeft > 0 && LoopState(rest0, dest0, offset0, count, bitsLeft, k, rest, dest, offset0)
    requires n == (if bitsLeft < 8 then bitsLeft else 8) <= |rest| && ByteBits(b) == Pad8(rest[..n])
    requires n == 8 ==> offset' == offset0
    ensures k < |dest| && LoopState(rest0, dest0, offset0, count, bitsLeft - n, k + 1, rest[n..], dest[k := b], offset')
  {
    hide ByteBits, BitsOf, Pad8, PadTo8;
    var done, dest' := count - bitsLeft, dest[k := b];
    assert dest'[..k + 1] == dest[..k] + [b];
    BitsOfSnoc(dest[..k], b);
    PaddedChunk(rest0, done, n);
    assert dest'[k + 1..] == dest[k..][1..];
    assert dest0[k + 1..] == dest0[k..][1..];
  }

  lemma LoopFails(rest0: seq<bool>, dest0: seq<bv8>, offset0: nat, count: nat, bitsLeft: nat, k: nat,
                  rest: seq<bool>, dest: seq<bv8>, offset: nat)
    requires bitsLeft > 0 && LoopState(rest0, dest0, offset0, count, bitsLeft, k, rest, dest, offset)
    requires offset <= 8 && |rest| == 8 - offset < bitsLeft
    ensures Exhausted(rest0, count, offset0, rest, offset)
  {
  }

  lemma LoopEnds(rest0: seq<bool>, dest0: seq<bv8>, offset0: nat, count: nat, k: nat,
                 rest: seq<bool>, dest: seq<bv8>, offset: nat)
    requires LoopState(rest0, dest0, offset0, count, 0, k, rest, dest, offset)
    ensures Filled(rest0, dest0, count, rest, dest)
  {
    hide BitsOf, PadTo8, BytesFrom;
    assert k == (count + 7) / 8;
    BytesFromUnique(rest0[..count], dest[..k]);
    assert dest == dest[..k] + dest[k..];
  }

  lemma RestLength(buf: seq<bv8>, pos: nat, last: bv8, offset: nat)
    requires pos <= |buf| && 1 <= offset <= 8
    ensures |RestBits(buf, pos, last, offset)| == 8 * (|buf| - pos) + (8 - offset)
  {
  }

  lemma WholeByte(b: bv8)
    ensures ByteBits(b) == Pad8(ByteBits(b)[..8])
  {
  }

  lemma PadAmount(done: nat, n: nat)
    requires done % 8 == 0 && 0 < n <= 8
    ensures (8 - (done + n) % 8) % 8 == 8 - n
  {
  }

  lemma PaddedChunk(rest: seq<bool>, done: nat, n: nat)
    requires done % 8 == 0 && 0 < n <= 8 && done + n <= |rest|
    ensures PadTo8(rest[..done + n]) == PadTo8(rest[..done]) + Pad8(rest[done..][..n])
  {
    PadAmount(done, n);
    assert PadTo8(rest[..done]) == rest[..done];
    assert PadTo8(rest[..done + n]) == rest[..done + n] + Zeros(8 - n);
    assert rest[..done + n] == rest[..done] + rest[done..][..n];
  }

  lemma TakeWhole(bytes: seq<bv8>, k: nat)
    ensures k <= |bytes| <==> 8 * k <= |BitsOf(bytes)|
    ensures k <= |bytes| ==> BytesFrom(BitsOf(bytes)[..8 * k]) == bytes[..k] && BitsOf(bytes)[8 * k..] == BitsOf(bytes[k..])
  {
    hide BytesFrom;
    if k <= |bytes| {
      BitsOfTake(bytes, k);
      BitsOfDrop(bytes, k);
      BytesFromBitsOf(bytes[..k]);
    }
  }

  lemma FirstByte(bytes: seq<bv8>)
    requires bytes != []
    ensures |BitsOf(bytes)| >= 8
    ensures ByteFrom(BitsOf(bytes)[..8]) == bytes[0] && BitsOf(bytes)[8..] == BitsOf(bytes[1..])
  {
    assert BitsOf(bytes)[..8] == ByteBits(bytes[0]);
    ByteFromBits(ByteBits(bytes[0]));
    ByteBitsInjective(ByteFrom(ByteBits(bytes[0])), bytes[0]);
  }
}
