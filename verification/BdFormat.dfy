/** The bdBuffer wire format on the level of bits: what each typed value looks
    like when it is written, and how a reader takes it back.  `BdWriter` and
    `BdReader` are proved against these functions, and the round trip is proved
    about them. */
module BdFormat {
  import opened Bits
  import opened Wrappers

  datatype StreamMode = ByteMode | BitMode

  datatype BdDataType =
    | NoType | BoolType | SignedChar8Type | UnsignedChar8Type | WChar16Type
    | SignedInteger16Type | UnsignedInteger16Type | SignedInteger32Type | UnsignedInteger32Type
    | SignedInteger64Type | UnsignedInteger64Type
    | RangedSignedInteger32Type | RangedUnsignedInteger32Type
    | Float32Type | Float64Type | RangedFloat32Type
    | SignedChar8StringType | UnsignedChar8StringType | MbStringType
    | BlobType | NanType | FullType | MaxType
  {
    function Code(): bv8 {
      match this
      case NoType => 0x0
      case BoolType => 0x1
      case SignedChar8Type => 0x2
      case UnsignedChar8Type => 0x3
      case WChar16Type => 0x4
      case SignedInteger16Type => 0x5
      case UnsignedInteger16Type => 0x6
      case SignedInteger32Type => 0x7
      case UnsignedInteger32Type => 0x8
      case SignedInteger64Type => 0x9
      case UnsignedInteger64Type => 0xA
      case RangedSignedInteger32Type => 0xB
      case RangedUnsignedInteger32Type => 0xC
      case Float32Type => 0xD
      case Float64Type => 0xE
      case RangedFloat32Type => 0xF
      case SignedChar8StringType => 0x10
      case UnsignedChar8StringType => 0x11
      case MbStringType => 0x12
      case BlobType => 0x13
      case NanType => 0x14
      case FullType => 0x15
      case MaxType => 0x20
    }

    static function FromCode(v: bv8): Option<BdDataType> {
      if v == 0x0 then Some(NoType)
      else if v == 0x1 then Some(BoolType)
      else if v == 0x2 then Some(SignedChar8Type)
      else if v == 0x3 then Some(UnsignedChar8Type)
      else if v == 0x4 then Some(WChar16Type)
      else if v == 0x5 then Some(SignedInteger16Type)
      else if v == 0x6 then Some(UnsignedInteger16Type)
      else if v == 0x7 then Some(SignedInteger32Type)
      else if v == 0x8 then Some(UnsignedInteger32Type)
      else if v == 0x9 then Some(SignedInteger64Type)
      else if v == 0xA then Some(UnsignedInteger64Type)
      else if v == 0xB then Some(RangedSignedInteger32Type)
      else if v == 0xC then Some(RangedUnsignedInteger32Type)
      else if v == 0xD then Some(Float32Type)
      else if v == 0xE then Some(Float64Type)
      else if v == 0xF then Some(RangedFloat32Type)
      else if v == 0x10 then Some(SignedChar8StringType)
      else if v == 0x11 then Some(UnsignedChar8StringType)
      else if v == 0x12 then Some(MbStringType)
      else if v == 0x13 then Some(BlobType)
      else if v == 0x14 then Some(NanType)
      else if v == 0x15 then Some(FullType)
      else if v == 0x20 then Some(MaxType)
      else None
    }
  }

  const ARRAY_TYPE_OFFSET: bv8 := 100

  datatype BufferDataType = BufferDataType(primitiveType: BdDataType, isArray: bool) {
    static function NoArray(t: BdDataType): BufferDataType {
      BufferDataType(t, false)
    }

    predicate EqNonArray(t: BdDataType) {
      !isArray && primitiveType == t
    }

    function ToValue(): bv8 {
      if isArray then primitiveType.Code() + ARRAY_TYPE_OFFSET else primitiveType.Code()
    }

    static function FromValue(value: bv8): Result<BufferDataType> {
      var isArray := value >= ARRAY_TYPE_OFFSET;
      match BdDataType.FromCode(if isArray then value - ARRAY_TYPE_OFFSET else value)
      case Some(t) => Ok(BufferDataType(t, isArray))
      case None => Err(IllegalDataType)
    }
  }

  lemma CodeRoundTrip(t: BdDataType)
    ensures BdDataType.FromCode(t.Code()) == Some(t)
    ensures t.Code() <= 0x20
  {
  }

  /** Tag bytes and tags are in one-to-one correspondence, arrays included. */
  lemma TagRoundTrip(t: BufferDataType)
    ensures BufferDataType.FromValue(t.ToValue()) == Ok(t)
    ensures forall v :: BufferDataType.FromValue(v) == Ok(t) ==> v == t.ToValue()
  {
    var code := t.primitiveType.Code();
    CodeRoundTrip(t.primitiveType);
    assert code <= 0x20 ==> code < 100 && code + 100 >= 100 && code + 100 - 100 == code;
    forall v | BufferDataType.FromValue(v) == Ok(t)
      ensures v == t.ToValue()
    {
      CodeOfFromCode(if v >= ARRAY_TYPE_OFFSET then v - ARRAY_TYPE_OFFSET else v);
    }
  }

  lemma CodeOfFromCode(v: bv8)
    ensures match BdDataType.FromCode(v) case Some(t) => t.Code() == v case None => true
  {
  }

  // ---- typed values ----

  /** The fixed-width numbers.  A float is carried as its bit pattern. */
  datatype NumType = I8 | U8 | I16 | U16 | I32 | U32 | I64 | U64 | F32 | F64 {
    function Width(): nat {
      match this
      case I8 => 1
      case U8 => 1
      case I16 => 2
      case U16 => 2
      case I32 => 4
      case U32 => 4
      case F32 => 4
      case I64 => 8
      case U64 => 8
      case F64 => 8
    }

    predicate Signed() {
      I8? || I16? || I32? || I64?
    }

    function Primitive(): BdDataType {
      match this
      case I8 => SignedChar8Type
      case U8 => UnsignedChar8Type
      case I16 => SignedInteger16Type
      case U16 => UnsignedInteger16Type
      case I32 => SignedInteger32Type
      case U32 => UnsignedInteger32Type
      case I64 => SignedInteger64Type
      case U64 => UnsignedInteger64Type
      case F32 => Float32Type
      case F64 => Float64Type
    }

    predicate Holds(n: int) {
      if Signed() then -(Pow256(Width()) / 2) <= n < Pow256(Width()) / 2 else 0 <= n < Pow256(Width())
    }

    /** `to_le_bytes`, two's complement for a negative number. */
    function ToBytes(n: int): (r: seq<bv8>)
      requires Holds(n)
      ensures |r| == Width()
    {
      LeBytes(if n < 0 then n + Pow256(Width()) else n, Width())
    }

    function FromBytes(b: seq<bv8>): (n: int)
      requires |b| == Width()
      ensures Holds(n)
    {
      EvenPow(Width());
      var u := FromLe(b);
      if Signed() && u >= Pow256(Width()) / 2 then u - Pow256(Width()) else u
    }
  }

  lemma EvenPow(k: nat)
    requires k > 0
    ensures 2 * (Pow256(k) / 2) == Pow256(k)
  {
    assert Pow256(k) == 2 * (128 * Pow256(k - 1));
  }

  lemma NumRoundTrip(t: NumType, n: int)
    requires t.Holds(n)
    ensures t.FromBytes(t.ToBytes(n)) == n
  {
    EvenPow(t.Width());
    FromLeOfLeBytes(if n < 0 then n + Pow256(t.Width()) else n, t.Width());
  }

  predicate Continuation(b: bv8) {
    0x80 <= b <= 0xBF
  }

  /** Well-formed UTF-8 byte sequences (table 3-7 of the Unicode Standard). */
  predicate ValidUtf8(s: seq<bv8>) {
    s == []
    || (s[0] <= 0x7F && ValidUtf8(s[1..]))
    || (|s| >= 2 && 0xC2 <= s[0] <= 0xDF && Continuation(s[1]) && ValidUtf8(s[2..]))
    || (|s| >= 3 && Continuation(s[2]) && ValidUtf8(s[3..])
        && ((s[0] == 0xE0 && 0xA0 <= s[1] <= 0xBF)
            || (0xE1 <= s[0] <= 0xEC && Continuation(s[1]))
            || (s[0] == 0xED && 0x80 <= s[1] <= 0x9F)
            || (0xEE <= s[0] <= 0xEF && Continuation(s[1]))))
    || (|s| >= 4 && Continuation(s[2]) && Continuation(s[3]) && ValidUtf8(s[4..])
        && ((s[0] == 0xF0 && 0x90 <= s[1] <= 0xBF)
            || (0xF1 <= s[0] <= 0xF3 && Continuation(s[1]))
            || (s[0] == 0xF4 && 0x80 <= s[1] <= 0x8F)))
  }

  datatype Kind = KBool | KNum(t: NumType) | KStr | KBlob {
    function Primitive(): BdDataType {
      match this
      case KBool => BoolType
      case KNum(t) => t.Primitive()
      case KStr => SignedChar8StringType
      case KBlob => BlobType
    }
  }

  datatype Value = VBool(b: bool) | VNum(t: NumType, n: int) | VStr(s: seq<bv8>) | VBlob(bytes: seq<bv8>) {
    function KindOf(): Kind {
      match this
      case VBool(_) => KBool
      case VNum(t, _) => KNum(t)
      case VStr(_) => KStr
      case VBlob(_) => KBlob
    }

    /** What Rust's own types promise of an argument. */
    predicate WellTyped() {
      match this
      case VBool(_) => true
      case VNum(t, n) => t.Holds(n)
      case VStr(s) => ValidUtf8(s)
      case VBlob(_) => true
    }

    /** The values the format can carry: a string stops at its first NUL byte and
        a blob's length is cut to 32 bits. */
    predicate Carried() {
      match this
      case VBool(_) => true
      case VNum(_, _) => true
      case VStr(s) => 0 !in s
      case VBlob(bytes) => |bytes| < 0x1_0000_0000
    }
  }

  // ---- what a writer puts on the wire ----

  function TagBits(t: BdDataType, mode: StreamMode): seq<bool> {
    var bits := ByteBits(BufferDataType.NoArray(t).ToValue());
    if mode == BitMode then bits[..5] else bits
  }

  function MaybeTag(t: BdDataType, tagged: bool, mode: StreamMode): seq<bool> {
    if tagged then TagBits(t, mode) else []
  }

  function EncodeNum(t: NumType, n: int, tagged: bool, mode: StreamMode): seq<bool>
    requires t.Holds(n)
  {
    MaybeTag(t.Primitive(), tagged, mode) + BitsOf(t.ToBytes(n))
  }

  lemma Pow256Of4()
    ensures Pow256(4) == 0x1_0000_0000
  {
    assert Pow256(1) == 256;
    assert Pow256(2) == 65536;
  }

  /** `len as u32`. */
  function LenAsU32(len: nat): (r: int)
    ensures NumType.U32.Holds(r)
  {
    Pow256Of4();
    len % 0x1_0000_0000
  }

  function BodyBits(v: Value, tagged: bool, mode: StreamMode): seq<bool>
    requires v.WellTyped()
  {
    match v
    case VBool(b) => if mode == BitMode then [b] else ByteBits(if b then 1 else 0)
    case VNum(t, n) => BitsOf(t.ToBytes(n))
    case VStr(s) => BitsOf(s + [0])
    case VBlob(bytes) => EncodeNum(U32, LenAsU32(|bytes|), tagged, mode) + BitsOf(bytes)
  }

  function Encode(v: Value, tagged: bool, mode: StreamMode): seq<bool>
    requires v.WellTyped()
  {
    MaybeTag(v.KindOf().Primitive(), tagged, mode) + BodyBits(v, tagged, mode)
  }

  predicate AllWellTyped(vs: seq<Value>) {
    forall i :: 0 <= i < |vs| ==> vs[i].WellTyped()
  }

  function EncodeAll(vs: seq<Value>, tagged: bool, mode: StreamMode): seq<bool>
    requires AllWellTyped(vs)
  {
    if vs == [] then [] else Encode(vs[0], tagged, mode) + EncodeAll(vs[1..], tagged, mode)
  }

  // ---- how a reader takes it back ----

  /** What a reader still has to give: perhaps a tag it peeked at, then bits. */
  datatype Source = Source(cached: Option<BufferDataType>, rest: seq<bool>)

  function Take(src: Source, n: nat): Result<(seq<bool>, Source)> {
    if n <= |src.rest| then Ok((src.rest[..n], src.(rest := src.rest[n..]))) else Err(UnexpectedEnd)
  }

  function TagWidth(mode: StreamMode): nat {
    if mode == BitMode then 5 else 8
  }

  function TakeTag(src: Source, mode: StreamMode): Result<(BufferDataType, Source)> {
    if src.cached.Some? then Ok((src.cached.value, src.(cached := None)))
    else
      var (bits, src') :- Take(src, TagWidth(mode));
      var t :- BufferDataType.FromValue(ByteFrom(bits));
      Ok((t, src'))
  }

  function Peek(src: Source, tagged: bool, mode: StreamMode): Result<(BufferDataType, Source)> {
    if !tagged then Ok((BufferDataType.NoArray(NoType), src))
    else
      var (t, src') :- TakeTag(src, mode);
      Ok((t, src'.(cached := Some(t))))
  }

  function ExpectTag(src: Source, t: BdDataType, tagged: bool, mode: StreamMode): Result<Source> {
    if !tagged then Ok(src)
    else
      var (actual, src') :- TakeTag(src, mode);
      if actual.EqNonArray(t) then Ok(src') else Err(UnexpectedDataType)
  }

  function ParseNum(t: NumType, tagged: bool, mode: StreamMode, src: Source): (r: Result<(int, Source)>)
    ensures r.Ok? ==> t.Holds(r.value.0)
  {
    var src1 :- ExpectTag(src, t.Primitive(), tagged, mode);
    var (bits, src2) :- Take(src1, 8 * t.Width());
    Ok((t.FromBytes(BytesFrom(bits)), src2))
  }

  /** The bytes before the first NUL and what follows it, if there is a NUL. */
  function UntilNul(rest: seq<bool>): Option<(seq<bv8>, seq<bool>)> {
    if |rest| < 8 then None
    else
      var b := ByteFrom(rest[..8]);
      if b == 0 then Some(([], rest[8..]))
      else match UntilNul(rest[8..])
        case None => None
        case Some((s, rest')) => Some(([b] + s, rest'))
  }

  /** In ByteMode an unterminated string is accepted, without its last byte. */
  function ParseStr(mode: StreamMode, src: Source): Result<(seq<bv8>, Source)> {
    match UntilNul(src.rest)
    case Some((s, rest')) => if ValidUtf8(s) then Ok((s, src.(rest := rest'))) else Err(NotUtf8)
    case None =>
      if mode == BitMode then Err(UnexpectedEnd)
      else
        var all := BytesFrom(src.rest);
        var s := if all == [] then [] else all[..|all| - 1];
        if ValidUtf8(s) then Ok((s, src.(rest := []))) else Err(NotUtf8)
  }

  function Parse(kind: Kind, tagged: bool, mode: StreamMode, src: Source): (r: Result<(Value, Source)>)
    ensures r.Ok? ==> r.value.0.KindOf() == kind && r.value.0.WellTyped()
  {
    match kind
    case KNum(t) =>
      var (n, src') :- ParseNum(t, tagged, mode, src);
      Ok((VNum(t, n), src'))
    case KBool =>
      var src1 :- ExpectTag(src, BoolType, tagged, mode);
      var (bits, src2) :- Take(src1, if mode == BitMode then 1 else 8);
      Ok((VBool(ByteFrom(bits) > 0), src2))
    case KStr =>
      var src1 :- ExpectTag(src, SignedChar8StringType, tagged, mode);
      var (s, src2) :- ParseStr(mode, src1);
      Ok((VStr(s), src2))
    case KBlob =>
      var src1 :- ExpectTag(src, BlobType, tagged, mode);
      var (size, src2) :- ParseNum(U32, tagged, mode, src1);
      var (bits, src3) :- Take(src2, 8 * size);
      Ok((VBlob(BytesFrom(bits)), src3))
  }

  function ParseAll(kinds: seq<Kind>, tagged: bool, mode: StreamMode, src: Source): Result<(seq<Value>, Source)> {
    if kinds == [] then Ok(([], src))
    else
      var (v, src1) :- Parse(kinds[0], tagged, mode, src);
      var (vs, src2) :- ParseAll(kinds[1..], tagged, mode, src1);
      Ok(([v] + vs, src2))
  }

  function Kinds(vs: seq<Value>): (r: seq<Kind>)
    ensures |r| == |vs|
  {
    seq(|vs|, i requires 0 <= i < |vs| => vs[i].KindOf())
  }
}
