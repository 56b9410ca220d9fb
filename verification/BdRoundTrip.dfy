/** Parsing undoes writing, at any bit alignment, tagged or not, in either mode:
    exactly for the values the format can carry. */
module BdRoundTrip {
  import opened Bits
  import opened Wrappers
  import opened BdFormat

  /** The tags of the kinds in use fit the five bits a BitMode tag gets. */
  lemma TagFits(k: Kind)
    ensures ByteBits(BufferDataType.NoArray(k.Primitive()).ToValue()) ==
            Pad8(ByteBits(BufferDataType.NoArray(k.Primitive()).ToValue())[..5])
  {
    var code := BufferDataType.NoArray(k.Primitive()).ToValue();
    assert code < 32 by {
      match k
      case KNum(t) => match t { case I8 => case U8 => case I16 => case U16 => case I32 =>
                                case U32 => case I64 => case U64 => case F32 => case F64 => }
      case KBool =>
      case KStr =>
      case KBlob =>
    }
    SmallByte(code);
  }

  lemma SmallByte(b: bv8)
    requires b < 32
    ensures ByteBits(b) == Pad8(ByteBits(b)[..5])
  {
    ByteBitsAt(b);
    assert !Bit(b, 5) && !Bit(b, 6) && !Bit(b, 7);
    forall i | 5 <= i < 8
      ensures !ByteBits(b)[i]
    {
      assert i == 5 || i == 6 || i == 7;
    }
  }

  lemma ByteFromTag(k: Kind, mode: StreamMode)
    ensures ByteFrom(TagBits(k.Primitive(), mode)) == BufferDataType.NoArray(k.Primitive()).ToValue()
  {
    var code := BufferDataType.NoArray(k.Primitive()).ToValue();
    TagFits(k);
    ByteFromBits(TagBits(k.Primitive(), mode));
    ByteBitsInjective(ByteFrom(TagBits(k.Primitive(), mode)), code);
  }

  lemma TakeFront(cached: Option<BufferDataType>, front: seq<bool>, rest: seq<bool>)
    ensures Take(Source(cached, front + rest), |front|) == Ok((front, Source(cached, rest)))
  {
    assert (front + rest)[..|front|] == front && (front + rest)[|front|..] == rest;
  }

  lemma TagBack(k: Kind, mode: StreamMode, rest: seq<bool>)
    ensures TakeTag(Source(None, TagBits(k.Primitive(), mode) + rest), mode)
            == Ok((BufferDataType.NoArray(k.Primitive()), Source(None, rest)))
  {
    TakeFront(None, TagBits(k.Primitive(), mode), rest);
    ByteFromTag(k, mode);
    TagRoundTrip(BufferDataType.NoArray(k.Primitive()));
  }

  lemma ExpectTagBack(k: Kind, tagged: bool, mode: StreamMode, rest: seq<bool>)
    ensures ExpectTag(Source(None, MaybeTag(k.Primitive(), tagged, mode) + rest), k.Primitive(), tagged, mode)
            == Ok(Source(None, rest))
  {
    if tagged {
      TagBack(k, mode, rest);
    } else {
      assert [] + rest == rest;
    }
  }

  // One step of a parser at a time: the steps are named, so that no proof below
  // has to look inside two of them at once.

  lemma ParseNumSteps(t: NumType, tagged: bool, mode: StreamMode, src: Source, src1: Source, bits: seq<bool>, src2: Source)
    requires ExpectTag(src, t.Primitive(), tagged, mode) == Ok(src1)
    requires Take(src1, 8 * t.Width()) == Ok((bits, src2))
    ensures ParseNum(t, tagged, mode, src) == Ok((t.FromBytes(BytesFrom(bits)), src2))
  {
  }

  lemma ParseBlobSteps(tagged: bool, mode: StreamMode, src: Source, src1: Source, size: nat, src2: Source)
    requires ExpectTag(src, BlobType, tagged, mode) == Ok(src1)
    requires ParseNum(U32, tagged, mode, src1) == Ok((size, src2))
    requires 8 * size <= |src2.rest|
    ensures Parse(KBlob, tagged, mode, src)
            == Ok((VBlob(BytesFrom(src2.rest[..8 * size])), src2.(rest := src2.rest[8 * size..])))
  {
  }

  lemma ParseAllSteps(kinds: seq<Kind>, tagged: bool, mode: StreamMode, src: Source)
    requires kinds != []
    ensures var first := Parse(kinds[0], tagged, mode, src);
            ParseAll(kinds, tagged, mode, src) ==
            if first.Err? then Err(first.error)
            else
              var others := ParseAll(kinds[1..], tagged, mode, first.value.1);
              if others.Err? then Err(others.error) else Ok(([first.value.0] + others.value.0, others.value.1))
  {
  }

  lemma ParseNumBack(t: NumType, n: int, tagged: bool, mode: StreamMode, rest: seq<bool>)
    requires t.Holds(n)
    ensures ParseNum(t, tagged, mode, Source(None, EncodeNum(t, n, tagged, mode) + rest)) == Ok((n, Source(None, rest)))
  {
    hide MaybeTag, ExpectTag, ParseNum, BytesFrom, BitsOf, Pow256, LeBytes;
    var body := BitsOf(t.ToBytes(n));
    assert EncodeNum(t, n, tagged, mode) + rest == MaybeTag(t.Primitive(), tagged, mode) + (body + rest);
    ExpectTagBack(KNum(t), tagged, mode, body + rest);
    TakeFront(None, body, rest);
    ParseNumSteps(t, tagged, mode, Source(None, EncodeNum(t, n, tagged, mode) + rest), Source(None, body + rest),
                  body, Source(None, rest));
    BytesFromBitsOf(t.ToBytes(n));
    NumRoundTrip(t, n);
  }

  lemma FrontByte(b: bv8, rest: seq<bool>)
    ensures (ByteBits(b) + rest)[..8] == ByteBits(b) && (ByteBits(b) + rest)[8..] == rest
    ensures ByteFrom(ByteBits(b)) == b
  {
    ByteFromBits(ByteBits(b));
    ByteBitsInjective(ByteFrom(ByteBits(b)), b);
  }

  /** The index of the first NUL byte, or the length. */
  function FirstNul(s: seq<bv8>): (k: nat)
    ensures k <= |s| && 0 !in s[..k] && (k < |s| ==> s[k] == 0)
  {
    if s == [] || s[0] == 0 then 0
    else
      var k := FirstNul(s[1..]);
      assert s[..k + 1] == [s[0]] + s[1..][..k];
      k + 1
  }

  /** Reading a written string gives what stands before its first NUL byte. */
  lemma {:induction false} UntilNulBack(s: seq<bv8>, rest: seq<bool>)
    ensures var k := FirstNul(s);
            UntilNul(BitsOf(s + [0]) + rest) ==
            Some((s[..k], BitsOf((s + [0])[k + 1..]) + rest))
  {
    var t := s + [0];
    var tail := BitsOf(t[1..]) + rest;
    assert BitsOf(t) + rest == ByteBits(t[0]) + tail;
    FrontByte(t[0], tail);
    if s == [] || s[0] == 0 {
    } else {
      UntilNulBack(s[1..], rest);
      var k := FirstNul(s[1..]);
      assert t[1..] == s[1..] + [0];
      assert s[..k + 1] == [s[0]] + s[1..][..k];
      assert t[k + 2..] == (s[1..] + [0])[k + 1..];
    }
  }

  lemma NoNul(s: seq<bv8>)
    ensures FirstNul(s) == |s| <==> 0 !in s
  {
    assert s[..|s|] == s;
  }

  lemma StrRoundTrip(s: seq<bv8>, mode: StreamMode, rest: seq<bool>)
    requires ValidUtf8(s)
    ensures 0 !in s ==> ParseStr(mode, Source(None, BitsOf(s + [0]) + rest)) == Ok((s, Source(None, rest)))
    ensures 0 in s ==> match ParseStr(mode, Source(None, BitsOf(s + [0]) + rest))
                       case Ok((s', _)) => s' != s
                       case Err(_) => true
  {
    UntilNulBack(s, rest);
    NoNul(s);
    if 0 !in s {
      assert s[..|s|] == s && (s + [0])[|s| + 1..] == [];
      assert BitsOf([]) + rest == rest;
    }
  }

  lemma LenCut(len: nat)
    ensures if len < 0x1_0000_0000 then LenAsU32(len) == len else LenAsU32(len) < len
  {
  }

  lemma SplitAt(bytes: seq<bv8>, size: nat, rest: seq<bool>)
    requires size <= |bytes|
    ensures 8 * size <= |BitsOf(bytes) + rest|
    ensures (BitsOf(bytes) + rest)[..8 * size] == BitsOf(bytes[..size])
    ensures (BitsOf(bytes) + rest)[8 * size..] == BitsOf(bytes[size..]) + rest
  {
    var front, back := BitsOf(bytes[..size]), BitsOf(bytes[size..]);
    BitsOfAppend(bytes[..size], bytes[size..]);
    assert bytes[..size] + bytes[size..] == bytes;
    assert BitsOf(bytes) + rest == front + (back + rest);
    TakeFront(None, front, back + rest);
  }

  lemma BlobAfterSize(bytes: seq<bv8>, size: nat, tagged: bool, mode: StreamMode, rest: seq<bool>)
    requires size <= |bytes| && U32.Holds(size)
    ensures Parse(KBlob, tagged, mode,
                  Source(None, MaybeTag(BlobType, tagged, mode) + (EncodeNum(U32, size, tagged, mode) + (BitsOf(bytes) + rest))))
            == Ok((VBlob(bytes[..size]), Source(None, BitsOf(bytes[size..]) + rest)))
  {
    hide MaybeTag, EncodeNum, ExpectTag, ParseNum, Parse, BytesFrom, BitsOf, NumType.Holds;
    var body := BitsOf(bytes) + rest;
    var after := EncodeNum(U32, size, tagged, mode) + body;
    ExpectTagBack(KBlob, tagged, mode, after);
    ParseNumBack(U32, size, tagged, mode, body);
    SplitAt(bytes, size, rest);
    ParseBlobSteps(tagged, mode, Source(None, MaybeTag(BlobType, tagged, mode) + after),
                   Source(None, after), size, Source(None, body));
    BytesFromBitsOf(bytes[..size]);
  }

  lemma BlobRoundTrip(bytes: seq<bv8>, tagged: bool, mode: StreamMode, rest: seq<bool>)
    ensures var r := Parse(KBlob, tagged, mode, Source(None, Encode(VBlob(bytes), tagged, mode) + rest));
            if |bytes| < 0x1_0000_0000
            then r == Ok((VBlob(bytes), Source(None, rest)))
            else r.Ok? && r.value.0.VBlob? && |r.value.0.bytes| < |bytes|
  {
    hide MaybeTag, EncodeNum, ExpectTag, ParseNum, Parse, BytesFrom, LenAsU32;
    var size := LenAsU32(|bytes|);
    LenCut(|bytes|);
    assert Encode(VBlob(bytes), tagged, mode) + rest
        == MaybeTag(BlobType, tagged, mode) + (EncodeNum(U32, size, tagged, mode) + (BitsOf(bytes) + rest));
    BlobAfterSize(bytes, size, tagged, mode, rest);
    if size == |bytes| {
      assert bytes[..size] == bytes && bytes[size..] == [];
      assert BitsOf([]) + rest == rest;
    }
  }

  lemma BoolBack(b: bool, mode: StreamMode)
    ensures ByteFrom(BodyBits(VBool(b), false, mode)) > 0 <==> b
  {
    if mode == BitMode {
      assert ByteFrom([b]) == (ByteFrom([]) << 1) | (if b then 1 else 0);
    } else {
      FrontByte(if b then 1 else 0, []);
    }
  }

  /** One value comes back, and nothing past it is touched, exactly when the
      format can carry it; a value it cannot carry comes back as another one or
      as an error. */
  lemma RoundTrip(v: Value, tagged: bool, mode: StreamMode, rest: seq<bool>)
    requires v.WellTyped()
    ensures var r := Parse(v.KindOf(), tagged, mode, Source(None, Encode(v, tagged, mode) + rest));
            if v.Carried() then r == Ok((v, Source(None, rest))) else r.Err? || r.value.0 != v
  {
    hide MaybeTag, ExpectTag, ParseNum, ParseStr, BytesFrom, BitsOf;
    var body := BodyBits(v, tagged, mode);
    assert Encode(v, tagged, mode) + rest == MaybeTag(v.KindOf().Primitive(), tagged, mode) + (body + rest);
    ExpectTagBack(v.KindOf(), tagged, mode, body + rest);
    match v
    case VBool(b) =>
      TakeFront(None, body, rest);
      BoolBack(b, mode);
    case VNum(t, n) =>
      ParseNumBack(t, n, tagged, mode, rest);
    case VStr(s) =>
      StrRoundTrip(s, mode, rest);
    case VBlob(bytes) =>
      BlobRoundTrip(bytes, tagged, mode, rest);
  }

  predicate AllCarried(vs: seq<Value>) {
    forall i :: 0 <= i < |vs| ==> vs[i].Carried()
  }

  lemma Tails(vs: seq<Value>)
    requires vs != []
    ensures Kinds(vs)[0] == vs[0].KindOf() && Kinds(vs)[1..] == Kinds(vs[1..])
    ensures AllCarried(vs) <==> vs[0].Carried() && AllCarried(vs[1..])
    ensures AllWellTyped(vs) <==> vs[0].WellTyped() && AllWellTyped(vs[1..])
  {
    assert forall i :: 1 <= i < |vs| ==> vs[i] == vs[1..][i - 1];
    assert forall i :: 0 <= i < |vs| - 1 ==> vs[1..][i] == vs[i + 1];
  }

  lemma ConsEqual<T>(v: T, vs: seq<T>, w: T, ws: seq<T>)
    ensures [v] + vs == [w] + ws <==> v == w && vs == ws
  {
    if [v] + vs == [w] + ws {
      assert ([v] + vs)[0] == v && ([v] + vs)[1..] == vs;
      assert ([w] + ws)[0] == w && ([w] + ws)[1..] == ws;
    }
  }

  /** Any sequence of typed values, written at any bit position and followed by
      anything, is read back unchanged exactly when the format carries each value. */
  lemma {:induction false} RoundTripAll(vs: seq<Value>, tagged: bool, mode: StreamMode, rest: seq<bool>)
    requires AllWellTyped(vs)
    ensures var r := ParseAll(Kinds(vs), tagged, mode, Source(None, EncodeAll(vs, tagged, mode) + rest));
            if AllCarried(vs) then r == Ok((vs, Source(None, rest))) else r.Err? || r.value.0 != vs
  {
    hide Parse, Encode, Kinds;
    if vs == [] {
      assert [] + rest == rest;
    } else {
      Tails(vs);
      var tail := EncodeAll(vs[1..], tagged, mode) + rest;
      var src := Source(None, Encode(vs[0], tagged, mode) + tail);
      assert EncodeAll(vs, tagged, mode) + rest == src.rest;
      RoundTrip(vs[0], tagged, mode, tail);
      ParseAllSteps(Kinds(vs), tagged, mode, src);
      assert [vs[0]] + vs[1..] == vs;
      var r := ParseAll(Kinds(vs), tagged, mode, src);
      if vs[0].Carried() {
        RoundTripAll(vs[1..], tagged, mode, rest);
        if r.Ok? {
          ConsEqual(vs[0], vs[1..], r.value.0[0], r.value.0[1..]);
        }
      }
    }
  }

  lemma {:induction false} EncodeAllAppend(a: seq<Value>, b: seq<Value>, tagged: bool, mode: StreamMode)
    requires AllWellTyped(a) && AllWellTyped(b)
    ensures EncodeAll(a + b, tagged, mode) == EncodeAll(a, tagged, mode) + EncodeAll(b, tagged, mode)
  {
    hide Encode;
    if a == [] {
      assert a + b == b;
    } else {
      assert (a + b)[0] == a[0] && (a + b)[1..] == a[1..] + b;
      EncodeAllAppend(a[1..], b, tagged, mode);
    }
  }

  /** A successful peek gives the tag the next read will see and changes nothing
      that any later read returns. */
  lemma PeekIsInvisible(kind: Kind, tagged: bool, mode: StreamMode, src: Source)
    requires Peek(src, tagged, mode).Ok?
    ensures var (t, src') := Peek(src, tagged, mode).value;
            && Parse(kind, tagged, mode, src') == Parse(kind, tagged, mode, src)
            && Peek(src', tagged, mode) == Ok((t, src'))
            && (tagged ==> TakeTag(src', mode) == TakeTag(src, mode))
  {
    hide ParseStr, ByteFrom, BytesFrom, NumType.FromBytes, BufferDataType.FromValue;
    match kind
    case KBool =>
    case KNum(_) =>
    case KStr =>
    case KBlob =>
  }
}
