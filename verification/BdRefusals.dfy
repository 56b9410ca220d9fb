/** What stands on the wire, byte by byte, and what a reader refuses: a value of
    another type, a tag that names none, and a value that has been cut off. */
module BdRefusals {
  import opened Bits
  import opened Wrappers
  import opened BdFormat
  import opened BdRoundTrip

  // ---- numbers and tags on the wire ----

  lemma {:induction false} LeByteAt(n: nat, k: nat, i: nat)
    requires n < Pow256(k) && i < k
    ensures LeBytes(n, k)[i] as int == (n / Pow256(i)) % 256
  {
    if i == 0 {
      ByteOfInt(n % 256);
    } else {
      LeByteAt(n / 256, k - 1, i - 1);
      DivideTwice(n, Pow256(i - 1));
    }
  }

  lemma DivideTwice(n: nat, p: nat)
    requires p > 0
    ensures (n / 256) / p == n / (256 * p)
  {
    var q := n / (256 * p);
    var r := n - 256 * p * q;
    assert 0 <= r < 256 * p;
    assert n / 256 == p * q + r / 256 by {
      assert n == 256 * (p * q) + r;
    }
    assert 0 <= r / 256 < p;
    QuotientIs(n / 256, p, q, r / 256);
  }

  lemma AtLeastOnce(p: nat, k: nat)
    requires k > 0
    ensures p * k >= p
  {
  }

  lemma QuotientUnique(p: nat, q: nat, r: nat, d: nat, m: nat)
    requires r < p && m < p && p * q + r == p * d + m
    ensures d == q
  {
    assert p * (q - d) == p * q - p * d && p * (d - q) == p * d - p * q;
    if d < q {
      AtLeastOnce(p, q - d);
    } else if d > q {
      AtLeastOnce(p, d - q);
    }
  }

  lemma QuotientIs(n: nat, p: nat, q: nat, r: nat)
    requires p > 0 && r < p && n == p * q + r
    ensures n / p == q
  {
    QuotientUnique(p, q, r, n / p, n % p);
  }

  /** The bytes each type takes and the numbers it holds. */
  lemma NumberRanges(n: int)
    ensures I8.Width() == 1 && (I8.Holds(n) <==> -0x80 <= n < 0x80)
    ensures U8.Width() == 1 && (U8.Holds(n) <==> 0 <= n < 0x100)
    ensures I16.Width() == 2 && (I16.Holds(n) <==> -0x8000 <= n < 0x8000)
    ensures U16.Width() == 2 && (U16.Holds(n) <==> 0 <= n < 0x1_0000)
    ensures I32.Width() == 4 && (I32.Holds(n) <==> -0x8000_0000 <= n < 0x8000_0000)
    ensures U32.Width() == F32.Width() == 4 && (U32.Holds(n) == F32.Holds(n) == (0 <= n < 0x1_0000_0000))
    ensures I64.Width() == 8 && (I64.Holds(n) <==> -0x8000_0000_0000_0000 <= n < 0x8000_0000_0000_0000)
    ensures U64.Width() == F64.Width() == 8 && (U64.Holds(n) == F64.Holds(n) == (0 <= n < 0x1_0000_0000_0000_0000))
  {
    Pow256Of4();
    assert Pow256(1) == 256 && Pow256(2) == 65536;
    assert Pow256(5) == 256 * Pow256(4) && Pow256(6) == 256 * Pow256(5);
    assert Pow256(7) == 256 * Pow256(6) && Pow256(8) == 256 * Pow256(7);
  }

  /** Byte i of a number is its i-th digit to the base 256, least significant first,
      of the two's complement if it is negative. */
  lemma {:induction false} NumByteAt(t: NumType, n: int, i: nat)
    requires t.Holds(n) && i < t.Width()
    ensures var u := if n < 0 then n + Pow256(t.Width()) else n;
            t.ToBytes(n)[i] as int == (u / Pow256(i)) % 256
  {
    EvenPow(t.Width());
    LeByteAt(if n < 0 then n + Pow256(t.Width()) else n, t.Width(), i);
  }

  /** Every sequence of bytes of the right width is one number. */
  lemma {:induction false} NumBytesBack(t: NumType, b: seq<bv8>)
    requires |b| == t.Width()
    ensures t.ToBytes(t.FromBytes(b)) == b
  {
    EvenPow(t.Width());
    LeBytesOfFromLe(b);
  }

  /** The code a value of this kind is announced with. */
  function TagCode(k: Kind): bv8 {
    match k
    case KBool => 1
    case KNum(t) =>
      (match t
       case I8 => 2
       case U8 => 3
       case I16 => 5
       case U16 => 6
       case I32 => 7
       case U32 => 8
       case I64 => 9
       case U64 => 10
       case F32 => 13
       case F64 => 14)
    case KStr => 16
    case KBlob => 19
  }

  lemma TagCodeIs(k: Kind)
    ensures BufferDataType.NoArray(k.Primitive()).ToValue() == TagCode(k)
  {
    match k
    case KBool =>
    case KStr =>
    case KBlob =>
    case KNum(t) => match t { case I8 => case U8 => case I16 => case U16 => case I32 =>
                              case U32 => case I64 => case U64 => case F32 => case F64 => }
  }

  /** A tagged value begins with the code of its type, in five bits or in eight. */
  lemma TagOnWire(v: Value, mode: StreamMode)
    requires v.WellTyped()
    ensures var tag := ByteBits(TagCode(v.KindOf()))[..if mode == BitMode then 5 else 8];
            |tag| <= |Encode(v, true, mode)| && Encode(v, true, mode)[..|tag|] == tag
  {
    hide BodyBits, TagCode;
    TagCodeIs(v.KindOf());
    hide Kind.Primitive, BufferDataType.ToValue, Value.WellTyped, Value.KindOf;
  }

  /** Without its tag a bool is a bit or a byte. */
  lemma BoolOnWire(b: bool)
    ensures Encode(VBool(b), false, BitMode) == [b]
    ensures Encode(VBool(b), false, ByteMode) == ByteBits(if b then 1 else 0)
  {
  }

  /** A number is its bytes. */
  lemma NumOnWire(t: NumType, n: int, mode: StreamMode)
    requires t.Holds(n)
    ensures Encode(VNum(t, n), false, mode) == BitsOf(t.ToBytes(n))
  {
    hide NumType.ToBytes, BitsOf;
    assert [] + BitsOf(t.ToBytes(n)) == BitsOf(t.ToBytes(n));
  }

  /** A string ends in a NUL. */
  lemma StrOnWire(s: seq<bv8>, mode: StreamMode)
    requires ValidUtf8(s)
    ensures Encode(VStr(s), false, mode) == BitsOf(s + [0])
  {
    hide ValidUtf8, BitsOf;
    assert [] + BitsOf(s + [0]) == BitsOf(s + [0]);
  }

  /** A blob begins with its length. */
  lemma BlobOnWire(bytes: seq<bv8>, mode: StreamMode)
    requires |bytes| < 0x1_0000_0000
    ensures U32.Holds(|bytes|) && Encode(VBlob(bytes), false, mode) == BitsOf(U32.ToBytes(|bytes|)) + BitsOf(bytes)
  {
    BlobInParts(bytes, false, mode);
    BareNum(U32, |bytes|, mode);
    NoTag(BlobType, mode);
    hide *;
    Unprefixed(EncodeNum(U32, |bytes|, false, mode), BitsOf(bytes));
  }

  lemma NoTag(t: BdDataType, mode: StreamMode)
    ensures MaybeTag(t, false, mode) == []
  {
  }

  lemma BareNum(t: NumType, n: int, mode: StreamMode)
    requires t.Holds(n)
    ensures EncodeNum(t, n, false, mode) == BitsOf(t.ToBytes(n))
  {
    hide NumType.ToBytes, BitsOf;
    Unprefixed(BitsOf(t.ToBytes(n)), []);
  }

  lemma Unprefixed(a: seq<bool>, b: seq<bool>)
    ensures [] + (a + b) == a + b && [] + a == a
  {
  }

  /** A whole byte read as a bool is true unless it is zero. */
  lemma BoolFromByte(b: bv8, rest: seq<bool>)
    ensures Parse(KBool, false, ByteMode, Source(None, ByteBits(b) + rest)) == Ok((VBool(b != 0), Source(None, rest)))
  {
    FrontByte(b, rest);
  }

  /** The bytes that are no tag at all. */
  lemma IllegalTags(value: bv8)
    ensures BufferDataType.FromValue(value) == Err(IllegalDataType) <==>
              !(value <= 0x15 || value == 0x20 || 100 <= value <= 121 || value == 132)
  {
    var code := if value >= 100 then value - 100 else value;
    assert value >= 100 ==> (code <= 0x15 <==> value <= 121) && (code == 0x20 <==> value == 132);
    LegalCodes(code);
  }

  lemma LegalCodes(code: bv8)
    ensures BdDataType.FromCode(code).Some? <==> code <= 0x15 || code == 0x20
  {
  }

  // ---- another type ----

  /** Whatever the tag in front is, read now or peeked before: a typed read fails as
      reading the tag fails, and it refuses every tag but its own. */
  lemma TagDecides(kind: Kind, mode: StreamMode, src: Source)
    ensures TakeTag(src, mode).Err? ==> Parse(kind, true, mode, src) == Err(TakeTag(src, mode).error)
    ensures TakeTag(src, mode).Ok? && TakeTag(src, mode).value.0 != BufferDataType.NoArray(kind.Primitive()) ==>
              Parse(kind, true, mode, src) == Err(UnexpectedDataType)
  {
    hide TakeTag;
    match kind
    case KBool =>
    case KNum(_) =>
    case KStr =>
    case KBlob =>
  }

  /** A value of any other type is refused, also when its tag has been peeked at. */
  lemma {:induction false} WrongTypeRefused(v: Value, kind: Kind, mode: StreamMode, rest: seq<bool>)
    requires v.WellTyped() && kind.Primitive() != v.KindOf().Primitive()
    ensures var src := Source(None, Encode(v, true, mode) + rest);
            && Parse(kind, true, mode, src) == Err(UnexpectedDataType)
            && Peek(src, true, mode).Ok?
            && Parse(kind, true, mode, Peek(src, true, mode).value.1) == Err(UnexpectedDataType)
  {
    hide *;
    var src := Source(None, Encode(v, true, mode) + rest);
    TagInFront(v, mode);
    var after := BodyBits(v, true, mode) + rest;
    assert src.rest == TagBits(v.KindOf().Primitive(), mode) + after;
    TagBack(v.KindOf(), mode, after);
    NoArrayTells(kind.Primitive(), v.KindOf().Primitive());
    OtherTagRefused(kind, mode, src);
  }

  lemma NoArrayTells(a: BdDataType, b: BdDataType)
    ensures BufferDataType.NoArray(a) == BufferDataType.NoArray(b) <==> a == b
  {
  }

  lemma TagInFront(v: Value, mode: StreamMode)
    requires v.WellTyped()
    ensures Encode(v, true, mode) == TagBits(v.KindOf().Primitive(), mode) + BodyBits(v, true, mode)
  {
    hide BodyBits, TagBits, Value.WellTyped;
  }

  lemma {:induction false} OtherTagRefused(kind: Kind, mode: StreamMode, src: Source)
    requires TakeTag(src, mode).Ok? && TakeTag(src, mode).value.0 != BufferDataType.NoArray(kind.Primitive())
    ensures Parse(kind, true, mode, src) == Err(UnexpectedDataType)
    ensures Peek(src, true, mode).Ok?
    ensures Parse(kind, true, mode, Peek(src, true, mode).value.1) == Err(UnexpectedDataType)
  {
    TagDecides(kind, mode, src);
    PeekIsInvisible(kind, true, mode, src);
    hide Parse, TakeTag, Kind.Primitive;
  }

  /** A typed read never takes an array for a value. */
  lemma ArrayRefused(kind: Kind, primitive: BdDataType, mode: StreamMode, rest: seq<bool>)
    ensures Parse(kind, true, mode, Source(Some(BufferDataType(primitive, true)), rest)) == Err(UnexpectedDataType)
  {
    TagDecides(kind, mode, Source(Some(BufferDataType(primitive, true)), rest));
  }

  // ---- cut off ----

  /** A tag with only part of what follows it. */
  lemma {:induction false} TagCut(k: Kind, tagged: bool, mode: StreamMode, body: seq<bool>, i: nat)
    requires i <= |MaybeTag(k.Primitive(), tagged, mode) + body|
    ensures var tag := MaybeTag(k.Primitive(), tagged, mode);
            var src := Source(None, (tag + body)[..i]);
            ExpectTag(src, k.Primitive(), tagged, mode) ==
            if i < |tag| then Err(UnexpectedEnd) else Ok(Source(None, body[..i - |tag|]))
  {
    var tag := MaybeTag(k.Primitive(), tagged, mode);
    if i >= |tag| {
      assert (tag + body)[..i] == tag + body[..i - |tag|];
      ExpectTagBack(k, tagged, mode, body[..i - |tag|]);
    }
  }

  lemma {:induction false} NumCut(t: NumType, n: int, tagged: bool, mode: StreamMode, i: nat)
    requires t.Holds(n) && i < |EncodeNum(t, n, tagged, mode)|
    ensures ParseNum(t, tagged, mode, Source(None, EncodeNum(t, n, tagged, mode)[..i])) == Err(UnexpectedEnd)
  {
    TagCut(KNum(t), tagged, mode, BitsOf(t.ToBytes(n)), i);
    hide ExpectTag, MaybeTag, NumType.ToBytes;
  }

  lemma {:induction false} BlobBodyCut(bytes: seq<bv8>, tagged: bool, mode: StreamMode, i: nat)
    requires U32.Holds(|bytes|) && i < |EncodeNum(U32, |bytes|, tagged, mode)| + 8 * |bytes|
    ensures var size := EncodeNum(U32, |bytes|, tagged, mode);
            var r := ParseNum(U32, tagged, mode, Source(None, (size + BitsOf(bytes))[..i]));
            r == Err(UnexpectedEnd) || (r.Ok? && r.value.0 == |bytes| && |r.value.1.rest| < 8 * |bytes|)
  {
    var size := EncodeNum(U32, |bytes|, tagged, mode);
    hide ParseNum, EncodeNum, NumType.Holds;
    var left := (size + BitsOf(bytes))[..i];
    if i < |size| {
      assert left == size[..i];
      NumCut(U32, |bytes|, tagged, mode, i);
    } else {
      assert left == size + BitsOf(bytes)[..i - |size|];
      ParseNumBack(U32, |bytes|, tagged, mode, BitsOf(bytes)[..i - |size|]);
    }
  }

  lemma BlobInParts(bytes: seq<bv8>, tagged: bool, mode: StreamMode)
    requires |bytes| < 0x1_0000_0000
    ensures U32.Holds(|bytes|) && VBlob(bytes).WellTyped() && KBlob.Primitive() == BlobType
    ensures Encode(VBlob(bytes), tagged, mode) ==
            MaybeTag(BlobType, tagged, mode) + (EncodeNum(U32, |bytes|, tagged, mode) + BitsOf(bytes))
  {
    LenCut(|bytes|);
    hide MaybeTag, EncodeNum, BitsOf;
  }

  lemma {:induction false} BlobCut(bytes: seq<bv8>, tagged: bool, mode: StreamMode, body: seq<bool>, i: nat)
    requires |bytes| < 0x1_0000_0000 && U32.Holds(|bytes|)
    requires body == EncodeNum(U32, |bytes|, tagged, mode) + BitsOf(bytes)
    requires i < |MaybeTag(BlobType, tagged, mode) + body|
    ensures Parse(KBlob, tagged, mode, Source(None, (MaybeTag(BlobType, tagged, mode) + body)[..i])) == Err(UnexpectedEnd)
  {
    BlobTagCut(tagged, mode, body, i);
    hide *;
    var tag := MaybeTag(BlobType, tagged, mode);
    var src := Source(None, (tag + body)[..i]);
    if i < |tag| {
      BlobFailsAtTag(tagged, mode, src);
    } else {
      BlobBodyCut(bytes, tagged, mode, i - |tag|);
      BlobFailsAfterTag(tagged, mode, src, Source(None, body[..i - |tag|]));
    }
  }

  lemma BlobTagCut(tagged: bool, mode: StreamMode, body: seq<bool>, i: nat)
    requires i < |MaybeTag(BlobType, tagged, mode) + body|
    ensures var tag := MaybeTag(BlobType, tagged, mode);
            ExpectTag(Source(None, (tag + body)[..i]), BlobType, tagged, mode) ==
            if i < |tag| then Err(UnexpectedEnd) else Ok(Source(None, body[..i - |tag|]))
  {
    TagCut(KBlob, tagged, mode, body, i);
    hide ExpectTag, MaybeTag;
  }

  lemma BlobFailsAtTag(tagged: bool, mode: StreamMode, src: Source)
    requires ExpectTag(src, BlobType, tagged, mode) == Err(UnexpectedEnd)
    ensures Parse(KBlob, tagged, mode, src) == Err(UnexpectedEnd)
  {
    hide ExpectTag, ParseNum, BytesFrom;
  }

  /** Nothing comes of a blob without its size or all its bytes. */
  lemma BlobFailsAfterTag(tagged: bool, mode: StreamMode, src: Source, after: Source)
    requires ExpectTag(src, BlobType, tagged, mode) == Ok(after)
    requires var r := ParseNum(U32, tagged, mode, after);
             r == Err(UnexpectedEnd) || (r.Ok? && |r.value.1.rest| < 8 * r.value.0)
    ensures Parse(KBlob, tagged, mode, src) == Err(UnexpectedEnd)
  {
    hide ExpectTag, ParseNum, BytesFrom;
  }

  lemma {:induction false} NoNulYet(s: seq<bv8>, i: nat)
    requires 0 !in s && i < 8 * (|s| + 1)
    ensures i <= |BitsOf(s + [0])| && UntilNul(BitsOf(s + [0])[..i]) == None
    decreases |s|
  {
    var t := s + [0];
    var bits := BitsOf(t)[..i];
    if i >= 8 {
      assert BitsOf(t) == ByteBits(t[0]) + BitsOf(t[1..]);
      assert bits[..8] == ByteBits(t[0]) && bits[8..] == BitsOf(t[1..])[..i - 8];
      FrontByte(t[0], []);
      assert ByteBits(t[0]) + [] == ByteBits(t[0]);
      assert s != [] && t[0] == s[0] && s[0] in s;
      assert t[1..] == s[1..] + [0];
      NoNulYet(s[1..], i - 8);
    }
  }

  lemma {:induction false} StrCut(s: seq<bv8>, tagged: bool, i: nat)
    requires ValidUtf8(s) && 0 !in s && i < |Encode(VStr(s), tagged, BitMode)|
    ensures Parse(KStr, tagged, BitMode, Source(None, Encode(VStr(s), tagged, BitMode)[..i])) == Err(UnexpectedEnd)
  {
    TagCut(KStr, tagged, BitMode, BitsOf(s + [0]), i);
    var w := |MaybeTag(SignedChar8StringType, tagged, BitMode)|;
    hide ExpectTag, MaybeTag, ValidUtf8;
    if i >= w {
      NoNulYet(s, i - w);
    }
  }

  /** A value that has been cut off anywhere is refused, and not read as another one.
      The one exception is a string in ByteMode. */
  lemma {:induction false} CutOffRefused(v: Value, tagged: bool, mode: StreamMode, i: nat)
    requires v.WellTyped() && v.Carried() && i < |Encode(v, tagged, mode)| && (v.VStr? ==> mode == BitMode)
    ensures Parse(v.KindOf(), tagged, mode, Source(None, Encode(v, tagged, mode)[..i])) == Err(UnexpectedEnd)
  {
    match v
    case VNum(t, n) =>
      assert Encode(v, tagged, mode) == EncodeNum(t, n, tagged, mode);
      hide EncodeNum, ParseNum;
      NumCut(t, n, tagged, mode, i);
    case VBool(b) =>
      TagCut(KBool, tagged, mode, BodyBits(v, tagged, mode), i);
      hide ExpectTag, MaybeTag;
    case VStr(s) => StrCut(s, tagged, i);
    case VBlob(bytes) =>
      BlobInParts(bytes, tagged, mode);
      BlobCut(bytes, tagged, mode, EncodeNum(U32, |bytes|, tagged, mode) + BitsOf(bytes), i);
  }

  lemma {:induction false} NeverNul(s: seq<bv8>)
    requires 0 !in s
    ensures UntilNul(BitsOf(s)) == None
  {
    if s != [] {
      FrontByte(s[0], BitsOf(s[1..]));
      assert s[0] in s;
      NeverNul(s[1..]);
    }
  }

  /** In ByteMode a string that is not terminated is taken for one, less its last byte. */
  lemma {:induction false} UnterminatedLosesLast(s: seq<bv8>, last: bv8)
    requires 0 !in s && last != 0
    ensures Parse(KStr, false, ByteMode, Source(None, BitsOf(s + [last]))) ==
            if ValidUtf8(s) then Ok((VStr(s), Source(None, []))) else Err(NotUtf8)
  {
    NeverNul(s + [last]);
    BytesFromBitsOf(s + [last]);
    assert (s + [last])[..|s|] == s;
    hide ValidUtf8;
  }

  /** A terminated string that is not UTF-8 is refused in either mode. */
  lemma {:induction false} NotUtf8Refused(s: seq<bv8>, mode: StreamMode, rest: seq<bool>)
    requires 0 !in s && !ValidUtf8(s)
    ensures Parse(KStr, false, mode, Source(None, BitsOf(s + [0]) + rest)) == Err(NotUtf8)
  {
    UntilNulBack(s, rest);
    NoNul(s);
    assert s[..|s|] == s;
    hide ValidUtf8;
  }
}
