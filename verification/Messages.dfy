/** The push message a router delivers: a byte-aligned type, then a typed bit stream. */
module Messages {
  import opened Bits
  import opened Wrappers
  import opened BdFormat
  import opened BdRoundTrip
  import opened BdWriting

  const FRIEND_CUSTOM_MESSAGE := 40
  const LOBBY_SERVICE_PUSH_MESSAGE := 2

  datatype PushMessage = PushMessage(
    recipient: int,
    id: int,
    timestamp: int,
    sender: int,
    senderName: seq<bv8>,
    payload: seq<bv8>)
  {
    /** What the field types promise. */
    predicate WellTyped() {
      && U64.Holds(recipient) && U64.Holds(id) && U32.Holds(timestamp) && U64.Holds(sender)
      && ValidUtf8(senderName)
    }

    /** The typed part of the message, in wire order. */
    function Values(): seq<Value> {
      [VNum(U32, FRIEND_CUSTOM_MESSAGE), VNum(U64, recipient), VNum(U64, id), VNum(U32, timestamp),
       VBool(false), VNum(U64, sender), VStr(senderName), VBlob(payload)]
    }
  }

  lemma ValuesWellTyped(m: PushMessage)
    requires m.WellTyped()
    ensures AllWellTyped(m.Values())
    ensures U32.Holds(FRIEND_CUSTOM_MESSAGE) && U8.Holds(LOBBY_SERVICE_PUSH_MESSAGE)
  {
    Pow256Of4();
    assert Pow256(1) == 256;
  }

  /** The message before its last byte is filled up. */
  function PushBits(m: PushMessage): seq<bool>
    requires m.WellTyped()
  {
    ValuesWellTyped(m);
    EncodeNum(U8, LOBBY_SERVICE_PUSH_MESSAGE, false, ByteMode) + ([true] + EncodeAll(m.Values(), true, BitMode))
  }

  /** A typed bit stream grew from one state to another by the values vs. */
  predicate Grew(from: seq<bool>, vs: seq<Value>, to: seq<bool>) {
    AllWellTyped(vs) && to == from + EncodeAll(vs, true, BitMode)
  }

  lemma GrewNothing(from: seq<bool>)
    ensures Grew(from, [], from)
  {
  }

  lemma GrewOne(from: seq<bool>, vs: seq<Value>, to: seq<bool>, v: Value, next: seq<bool>)
    requires Grew(from, vs, to) && v.WellTyped() && next == to + Encode(v, true, BitMode)
    ensures Grew(from, vs + [v], next)
  {
    hide Encode;
    EncodeAllAppend(vs, [v], true, BitMode);
    assert EncodeAll([v], true, BitMode) == Encode(v, true, BitMode) + EncodeAll([], true, BitMode);
    assert EncodeAll(vs + [v], true, BitMode) == EncodeAll(vs, true, BitMode) + Encode(v, true, BitMode);
  }

  lemma GrewNum(from: seq<bool>, vs: seq<Value>, to: seq<bool>, t: NumType, n: int, next: seq<bool>)
    requires Grew(from, vs, to) && t.Holds(n) && next == to + EncodeNum(t, n, true, BitMode)
    ensures Grew(from, vs + [VNum(t, n)], next)
  {
    assert Encode(VNum(t, n), true, BitMode) == EncodeNum(t, n, true, BitMode);
    GrewOne(from, vs, to, VNum(t, n), next);
  }

  /** The addressing fields: what is written up to the flag. */
  method WriteAddress(writer: BdWriter, m: PushMessage, ghost from: seq<bool>)
    requires m.WellTyped() && U32.Holds(FRIEND_CUSTOM_MESSAGE)
    requires writer.Valid() && writer.mode == BitMode && writer.typeChecked && from == writer.Stream()
    modifies writer`out, writer`bitOffset, writer`lastByte
    ensures writer.Valid()
    ensures Grew(from, AddressValues(m), writer.Stream())
  {
    hide EncodeNum, Grew, BdWriter.Stream, NumType.Holds, ValidUtf8;
    ghost var vs: seq<Value>, to := [], from;
    GrewNothing(from);
    writer.WriteNum(U32, FRIEND_CUSTOM_MESSAGE);
    GrewNum(from, vs, to, U32, FRIEND_CUSTOM_MESSAGE, writer.Stream());
    vs, to := vs + [VNum(U32, FRIEND_CUSTOM_MESSAGE)], writer.Stream();

    writer.WriteNum(U64, m.recipient);
    GrewNum(from, vs, to, U64, m.recipient, writer.Stream());
    vs, to := vs + [VNum(U64, m.recipient)], writer.Stream();
    writer.WriteNum(U64, m.id);
    GrewNum(from, vs, to, U64, m.id, writer.Stream());
    vs, to := vs + [VNum(U64, m.id)], writer.Stream();
    writer.WriteNum(U32, m.timestamp);
    GrewNum(from, vs, to, U32, m.timestamp, writer.Stream());
    assert vs + [VNum(U32, m.timestamp)] == AddressValues(m);
  }

  /** The flag, the sender and the payload. */
  method WriteContent(writer: BdWriter, m: PushMessage, ghost from: seq<bool>)
    requires m.WellTyped() && writer.Valid() && writer.mode == BitMode && writer.typeChecked
    requires Grew(from, AddressValues(m), writer.Stream())
    modifies writer`out, writer`bitOffset, writer`lastByte
    ensures writer.Valid()
    ensures Grew(from, m.Values(), writer.Stream())
  {
    hide Encode, EncodeNum, Grew, BdWriter.Stream, NumType.Holds, ValidUtf8;
    ghost var vs, to := AddressValues(m), writer.Stream();
    writer.WriteBool(false);
    GrewOne(from, vs, to, VBool(false), writer.Stream());
    vs, to := vs + [VBool(false)], writer.Stream();

    writer.WriteNum(U64, m.sender);
    GrewNum(from, vs, to, U64, m.sender, writer.Stream());
    vs, to := vs + [VNum(U64, m.sender)], writer.Stream();
    writer.WriteStr(m.senderName);
    GrewOne(from, vs, to, VStr(m.senderName), writer.Stream());
    vs, to := vs + [VStr(m.senderName)], writer.Stream();

    writer.WriteBlob(m.payload);
    GrewOne(from, vs, to, VBlob(m.payload), writer.Stream());
    assert vs + [VBlob(m.payload)] == m.Values();
  }

  function AddressValues(m: PushMessage): seq<Value> {
    [VNum(U32, FRIEND_CUSTOM_MESSAGE), VNum(U64, m.recipient), VNum(U64, m.id), VNum(U32, m.timestamp)]
  }

  lemma PushAssembled(m: PushMessage, front: seq<bool>, stream: seq<bool>)
    requires m.WellTyped() && U8.Holds(LOBBY_SERVICE_PUSH_MESSAGE)
    requires front == [] + EncodeNum(U8, LOBBY_SERVICE_PUSH_MESSAGE, false, ByteMode) + [true]
    requires Grew(front, m.Values(), stream)
    ensures stream == PushBits(m)
  {
    hide EncodeNum, EncodeAll;
  }

  /** The opening every lobby reply shares: a byte-aligned type, then the switch to
      a typed bit stream. */
  method WriteHeader(messageType: int) returns (writer: BdWriter)
    requires U8.Holds(messageType)
    ensures fresh(writer) && writer.Valid() && writer.mode == BitMode && writer.typeChecked
    ensures writer.Stream() == [] + EncodeNum(U8, messageType, false, ByteMode) + [true]
  {
    hide EncodeNum, BdWriter.Stream, BitsOf, NumType.Holds, ValidPending, PendingBits;
    writer := new BdWriter();
    writer.SetTypeChecked(false);
    writer.SetMode(ByteMode);
    writer.WriteNum(U8, messageType);

    writer.SetMode(BitMode);
    writer.SetTypeChecked(true);
    var _ := writer.WriteTypeCheckedBit();
  }

  method ToResponse(m: PushMessage) returns (data: seq<bv8>)
    requires m.WellTyped()
    ensures BitsOf(data) == PadTo8(PushBits(m))
  {
    ValuesWellTyped(m);
    hide EncodeNum, Grew, BdWriter.Stream, PadTo8, BitsOf, NumType.Holds, ValidUtf8, PushMessage.Values, AddressValues,
         PushBits, ValidPending, PendingBits;
    var writer := WriteHeader(LOBBY_SERVICE_PUSH_MESSAGE);
    ghost var front := writer.Stream();
    WriteAddress(writer, m, front);
    WriteContent(writer, m, front);
    PushAssembled(m, front, writer.Stream());
    writer.Flush();
    data := writer.out;
  }

  /** Zero bits up to a byte boundary, fewer than eight of them. */
  function Padding(bits: seq<bool>): (pad: seq<bool>)
    ensures |pad| < 8 && (forall i :: 0 <= i < |pad| ==> !pad[i]) && PadTo8(bits) == bits + pad
  {
    Zeros((8 - |bits| % 8) % 8)
  }

  /** Any values, tagged or not, written from any bit position after anything at all and
      then flushed, are read back from that position, exactly when the format carries
      each of them; fewer than eight zero bits are left over. */
  lemma {:induction false} FlushedBack(before: seq<bool>, vs: seq<Value>, tagged: bool, data: seq<bv8>)
    requires AllWellTyped(vs) && BitsOf(data) == PadTo8(before + EncodeAll(vs, tagged, BitMode))
    ensures |before| <= |BitsOf(data)|
    ensures var r := ParseAll(Kinds(vs), tagged, BitMode, Source(None, BitsOf(data)[|before|..]));
            var pad := Padding(before + EncodeAll(vs, tagged, BitMode));
            if AllCarried(vs) then r == Ok((vs, Source(None, pad))) else r.Err? || r.value.0 != vs
  {
    hide EncodeAll, ParseAll, Kinds, AllWellTyped, AllCarried, BitsOf, PadTo8;
    var bits, pad := EncodeAll(vs, tagged, BitMode), Padding(before + EncodeAll(vs, tagged, BitMode));
    assert BitsOf(data) == before + bits + pad;
    assert (before + bits + pad)[|before|..] == bits + pad;
    RoundTripAll(vs, tagged, BitMode, pad);
  }

  /** Any push message is read back field by field, from a byte-aligned prefix into
      a bit stream and down to fewer than eight zero bits, exactly when its sender's
      name has no NUL byte and its payload's length fits 32 bits. */
  lemma PushMessageBack(m: PushMessage, data: seq<bv8>)
    requires m.WellTyped() && BitsOf(data) == PadTo8(PushBits(m))
    ensures |BitsOf(data)| >= 9
    ensures ParseNum(U8, false, ByteMode, Source(None, BitsOf(data)))
            == Ok((LOBBY_SERVICE_PUSH_MESSAGE, Source(None, BitsOf(data)[8..])))
    ensures Take(Source(None, BitsOf(data)[8..]), 1) == Ok(([true], Source(None, BitsOf(data)[9..])))
    ensures var r := ParseAll(Kinds(m.Values()), true, BitMode, Source(None, BitsOf(data)[9..]));
            if 0 !in m.senderName && |m.payload| < 0x1_0000_0000
            then r == Ok((m.Values(), Source(None, Padding(PushBits(m)))))
            else r.Err? || r.value.0 != m.Values()
  {
    ValuesWellTyped(m);
    hide ParseNum, EncodeNum, EncodeAll, ParseAll, BitsOf, PadTo8, Kinds, NumType.Holds, ValidUtf8, PushMessage.Values, AllCarried,
         PushBits, Padding;
    var vs, pad := m.Values(), Padding(PushBits(m));
    var typed := EncodeAll(vs, true, BitMode) + pad;
    PaddedPush(m);
    HeaderBack(BitsOf(data), typed);
    RoundTripAll(vs, true, BitMode, pad);
    ValuesCarried(m);
  }

  /** What a client gets, field by field: the type 2, a set bit, then the message type 40,
      the recipient, the id, the time, a false flag, the sender, its name, the payload. */
  lemma PushMessageReads(m: PushMessage, data: seq<bv8>)
    requires m.WellTyped() && BitsOf(data) == PadTo8(PushBits(m))
    requires 0 !in m.senderName && |m.payload| < 0x1_0000_0000
    ensures |BitsOf(data)| >= 9 && BitsOf(data)[8]
    ensures ParseNum(U8, false, ByteMode, Source(None, BitsOf(data))) == Ok((2, Source(None, BitsOf(data)[8..])))
    ensures var r := ParseAll([KNum(U32), KNum(U64), KNum(U64), KNum(U32), KBool, KNum(U64), KStr, KBlob],
                              true, BitMode, Source(None, BitsOf(data)[9..]));
            && r.Ok?
            && r.value.0 == [VNum(U32, 40), VNum(U64, m.recipient), VNum(U64, m.id), VNum(U32, m.timestamp),
                             VBool(false), VNum(U64, m.sender), VStr(m.senderName), VBlob(m.payload)]
            && r.value.1.cached == None && |r.value.1.rest| < 8 && true !in r.value.1.rest
  {
    PushMessageBack(m, data);
    ValuesKinds(m);
    hide ParseNum, EncodeNum, EncodeAll, ParseAll, BitsOf, PadTo8, Kinds, NumType.Holds, ValidUtf8, PushBits;
    assert BitsOf(data)[8..][..1] == [true];
    assert BitsOf(data)[8] == BitsOf(data)[8..][..1][0];
  }

  lemma ValuesKinds(m: PushMessage)
    ensures Kinds(m.Values()) == [KNum(U32), KNum(U64), KNum(U64), KNum(U32), KBool, KNum(U64), KStr, KBlob]
  {
  }

  lemma PaddedPush(m: PushMessage)
    requires m.WellTyped() && U8.Holds(LOBBY_SERVICE_PUSH_MESSAGE) && AllWellTyped(m.Values())
    ensures |Padding(PushBits(m))| < 8
    ensures PadTo8(PushBits(m)) == EncodeNum(U8, LOBBY_SERVICE_PUSH_MESSAGE, false, ByteMode)
                                   + ([true] + (EncodeAll(m.Values(), true, BitMode) + Padding(PushBits(m))))
  {
    hide EncodeNum, EncodeAll, PushMessage.Values;
  }

  lemma HeaderBack(bits: seq<bool>, typed: seq<bool>)
    requires U8.Holds(LOBBY_SERVICE_PUSH_MESSAGE)
    requires bits == EncodeNum(U8, LOBBY_SERVICE_PUSH_MESSAGE, false, ByteMode) + ([true] + typed)
    ensures |bits| >= 9 && bits[9..] == typed
    ensures ParseNum(U8, false, ByteMode, Source(None, bits)) == Ok((LOBBY_SERVICE_PUSH_MESSAGE, Source(None, bits[8..])))
    ensures Take(Source(None, bits[8..]), 1) == Ok(([true], Source(None, bits[9..])))
  {
    PrefixLength();
    hide ParseNum, EncodeNum, NumType.Holds;
    ParseNumBack(U8, LOBBY_SERVICE_PUSH_MESSAGE, false, ByteMode, [true] + typed);
    TakeFront(None, [true], typed);
    assert bits[8..] == [true] + typed && bits[9..] == typed;
  }

  lemma ValuesCarried(m: PushMessage)
    ensures AllCarried(m.Values()) <==> 0 !in m.senderName && |m.payload| < 0x1_0000_0000
  {
    var vs := m.Values();
    assert vs[6].Carried() == (0 !in m.senderName) && vs[7].Carried() == (|m.payload| < 0x1_0000_0000);
  }

  lemma PrefixLength()
    ensures U8.Holds(LOBBY_SERVICE_PUSH_MESSAGE)
    ensures |EncodeNum(U8, LOBBY_SERVICE_PUSH_MESSAGE, false, ByteMode)| == 8
  {
    assert Pow256(1) == 256;
  }
}
