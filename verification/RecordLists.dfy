/** Requests that end in a list with no length in front: the recipients of a
    message, the entries of a performance report, the players of a playlist.  The
    handlers read records while a whole one fits and the next tag fits. */
module RecordLists {
  import opened Bits
  import opened Wrappers
  import opened BdFormat
  import opened BdRoundTrip
  import opened BdReading

  const RECIPIENT_BITS := 5 + 64
  const INFO_BITS := 5 + 64 + 5 + 32
  const PLAYER_BITS := 5 + 64

  datatype PerformanceInfo = PerformanceInfo(id: int, value: int)

  datatype SendRequest = SendRequest(payload: seq<bv8>, unrecovered: int, single: bool, recipients: seq<int>)

  datatype InfoReport = InfoReport(context: int, entries: seq<PerformanceInfo>)

  datatype PlayerReport = PlayerReport(playlist: int, players: seq<int>)

  // ---- the loops as functions of the source ----

  /** What one turn of a list loop does: stop, fail, or read one record. */
  datatype Turn<T> = Stop(rest: Source) | Broken(error: Error) | Record(item: T, rest: Source)

  function IdTurn(bits: nat, tagged: bool, src: Source): (t: Turn<int>)
    ensures t.Record? ==> |t.rest.rest| < |src.rest|
  {
    if |src.rest| < bits then Stop(src)
    else
      var peeked := Peek(src, tagged, BitMode);
      if peeked.Err? then Broken(peeked.error)
      else if !peeked.value.0.EqNonArray(UnsignedInteger64Type) then Stop(peeked.value.1)
      else
        ParsedShorter(U64, tagged, src, peeked.value.1);
        var id := ParseNum(U64, tagged, BitMode, peeked.value.1);
        if id.Err? then Broken(id.error) else Record(id.value.0, id.value.1)
  }

  function EntryTurn(tagged: bool, src: Source): (t: Turn<PerformanceInfo>)
    ensures t.Record? ==> |t.rest.rest| < |src.rest|
  {
    match IdTurn(INFO_BITS, tagged, src)
    case Stop(rest) => Stop(rest)
    case Broken(e) => Broken(e)
    case Record(id, rest) =>
      ParsedNoLonger(I32, tagged, rest);
      var value := ParseNum(I32, tagged, BitMode, rest);
      if value.Err? then Broken(value.error) else Record(PerformanceInfo(id, value.value.0), value.value.1)
  }

  function Prefixed<T>(front: seq<T>, r: Result<(seq<T>, Source)>): Result<(seq<T>, Source)> {
    match r
    case Ok((items, src)) => Ok((front + items, src))
    case Err(e) => Err(e)
  }

  function ParseIds(bits: nat, tagged: bool, src: Source): Result<(seq<int>, Source)>
    decreases |src.rest|
  {
    match IdTurn(bits, tagged, src)
    case Stop(rest) => Ok(([], rest))
    case Broken(e) => Err(e)
    case Record(id, rest) => Prefixed([id], ParseIds(bits, tagged, rest))
  }

  function ParseEntries(tagged: bool, src: Source): Result<(seq<PerformanceInfo>, Source)>
    decreases |src.rest|
  {
    match EntryTurn(tagged, src)
    case Stop(rest) => Ok(([], rest))
    case Broken(e) => Err(e)
    case Record(entry, rest) => Prefixed([entry], ParseEntries(tagged, rest))
  }

  /** Reading a number after a peek leaves fewer bits than before the peek. */
  lemma ParsedShorter(t: NumType, tagged: bool, src: Source, src1: Source)
    requires Peek(src, tagged, BitMode).Ok? && Peek(src, tagged, BitMode).value.1 == src1
    ensures ParseNum(t, tagged, BitMode, src1).Ok? ==> |ParseNum(t, tagged, BitMode, src1).value.1.rest| < |src.rest|
  {
  }

  lemma ParsedNoLonger(t: NumType, tagged: bool, src: Source)
    ensures ParseNum(t, tagged, BitMode, src).Ok? ==> |ParseNum(t, tagged, BitMode, src).value.1.rest| <= |src.rest|
  {
  }

  function ParseSend(tagged: bool, mode: StreamMode, src: Source): Result<(SendRequest, Source)> {
    var (payload, src1) :- Parse(KBlob, tagged, mode, src);
    var (unrecovered, src2) :- ParseNum(U32, tagged, mode, src1);
    var (single, src3) :- Parse(KBool, tagged, mode, src2);
    if single.b then
      var (id, src4) :- ParseNum(U64, tagged, mode, src3);
      Ok((SendRequest(payload.bytes, unrecovered, true, [id]), src4))
    else
      var (ids, src4) :- if mode == BitMode then ParseIds(RECIPIENT_BITS, tagged, src3) else Err(WrongMode);
      Ok((SendRequest(payload.bytes, unrecovered, false, ids), src4))
  }

  function ParseInfoReport(tagged: bool, mode: StreamMode, src: Source): Result<(InfoReport, Source)> {
    var (context, src1) :- ParseNum(U32, tagged, mode, src);
    var (entries, src2) :- if mode == BitMode then ParseEntries(tagged, src1) else Err(WrongMode);
    Ok((InfoReport(context, entries), src2))
  }

  function ParsePlayerReport(tagged: bool, mode: StreamMode, src: Source): Result<(PlayerReport, Source)> {
    var (playlist, src1) :- ParseNum(U32, tagged, mode, src);
    var (players, src2) :- if mode == BitMode then ParseIds(PLAYER_BITS, tagged, src1) else Err(WrongMode);
    Ok((PlayerReport(playlist, players), src2))
  }

  // ---- one turn of a loop, seen from the records read so far ----

  lemma PrefixLaws<T>(front: seq<T>, x: T, r: Result<(seq<T>, Source)>, src: Source)
    ensures Prefixed([], r) == r
    ensures Prefixed(front, Ok(([], src))) == Ok((front, src))
    ensures Prefixed(front, Prefixed([x], r)) == Prefixed(front + [x], r)
  {
    assert front + [] == front;
    match r
    case Ok((items, _)) =>
      assert [] + items == items;
      assert front + ([x] + items) == (front + [x]) + items;
    case Err(_) =>
  }

  /** How the result of a list loop seen from the records so far follows from its next turn. */
  ghost predicate TurnTo<T>(front: seq<T>, turn: Turn<T>, start: Result<(seq<T>, Source)>, more: Result<(seq<T>, Source)>) {
    match turn
    case Stop(rest) => start == Ok((front, rest))
    case Broken(e) => start == Err(e)
    case Record(x, rest) => start == Prefixed(front + [x], more)
  }

  lemma IdsTurn(bits: nat, tagged: bool, front: seq<int>, src: Source)
    ensures var turn := IdTurn(bits, tagged, src);
            TurnTo(front, turn, Prefixed(front, ParseIds(bits, tagged, src)),
                   if turn.Record? then ParseIds(bits, tagged, turn.rest) else Err(WrongMode))
  {
    hide IdTurn;
    match IdTurn(bits, tagged, src)
    case Stop(rest) => PrefixLaws(front, 0, Err(WrongMode), rest);
    case Broken(_) =>
    case Record(id, rest) => PrefixLaws(front, id, ParseIds(bits, tagged, rest), rest);
  }

  lemma EntriesTurn(tagged: bool, front: seq<PerformanceInfo>, src: Source)
    ensures var turn := EntryTurn(tagged, src);
            TurnTo(front, turn, Prefixed(front, ParseEntries(tagged, src)),
                   if turn.Record? then ParseEntries(tagged, turn.rest) else Err(WrongMode))
  {
    hide EntryTurn;
    match EntryTurn(tagged, src)
    case Stop(rest) => PrefixLaws(front, PerformanceInfo(0, 0), Err(WrongMode), rest);
    case Broken(_) =>
    case Record(entry, rest) => PrefixLaws(front, entry, ParseEntries(tagged, rest), rest);
  }

  // ---- the handlers ----

  /** The condition of the list loops: room for a record, and an id's tag next. */
  method MoreRecords(reader: BdReader, bits: nat) returns (r: Result<bool>)
    requires reader.Valid()
    modifies reader`pos, reader`bitOffset, reader`lastByte, reader`hasDataTypeCached, reader`cachedDataType
    ensures reader.Valid()
    ensures reader.mode == ByteMode ==> r == Err(WrongMode)
    ensures reader.mode == BitMode && |old(reader.Src()).rest| < bits ==> r == Ok(false) && reader.Src() == old(reader.Src())
    ensures reader.mode == BitMode && |old(reader.Src()).rest| >= bits ==>
              match Peek(old(reader.Src()), reader.typeChecked, BitMode)
              case Ok((tag, src)) => r == Ok(tag.EqNonArray(UnsignedInteger64Type)) && reader.Src() == src
              case Err(e) => r == Err(e)
  {
    hide Peek;
    var remaining :- reader.RemainingBits();
    if remaining < bits {
      return Ok(false);
    }
    r := reader.NextIs(UnsignedInteger64Type);
  }

  /** The recipient loop and the player loop. */
  method ReadIds(reader: BdReader, bits: nat) returns (r: Result<seq<int>>)
    requires reader.Valid()
    modifies reader`pos, reader`bitOffset, reader`lastByte, reader`hasDataTypeCached, reader`cachedDataType
    ensures reader.Valid()
    ensures reader.mode == ByteMode ==> r == Err(WrongMode)
    ensures reader.mode == BitMode ==>
              match ParseIds(bits, reader.typeChecked, old(reader.Src()))
              case Ok((ids, src)) => r == Ok(ids) && reader.Src() == src
              case Err(e) => r == Err(e)
  {
    hide Peek, ParseNum, Prefixed, ParseIds, BdReader.Rest, NumType.Holds;
    var ids: seq<int> := [];
    ghost var start := ParseIds(bits, reader.typeChecked, reader.Src());
    PrefixLaws([], 0, start, reader.Src());
    while true
      invariant reader.Valid()
      invariant reader.mode == BitMode ==> start == Prefixed(ids, ParseIds(bits, reader.typeChecked, reader.Src()))
      decreases |reader.Src().rest|
    {
      IdsTurn(bits, reader.typeChecked, ids, reader.Src());
      var more :- MoreRecords(reader, bits);
      if !more {
        break;
      }
      var id :- reader.ReadNum(U64);
      ids := ids + [id];
    }
    return Ok(ids);
  }

  /** One turn of the entry loop. */
  method NextEntry(reader: BdReader) returns (r: Result<Option<PerformanceInfo>>)
    requires reader.Valid()
    modifies reader`pos, reader`bitOffset, reader`lastByte, reader`hasDataTypeCached, reader`cachedDataType
    ensures reader.Valid()
    ensures reader.mode == ByteMode ==> r == Err(WrongMode)
    ensures reader.mode == BitMode ==>
              match EntryTurn(reader.typeChecked, old(reader.Src()))
              case Stop(rest) => r == Ok(None) && reader.Src() == rest
              case Broken(e) => r == Err(e)
              case Record(entry, rest) => r == Ok(Some(entry)) && reader.Src() == rest
  {
    hide Peek, ParseNum, BdReader.Rest, NumType.Holds;
    ghost var src, tagged := reader.Src(), reader.typeChecked;
    ghost var idTurn := IdTurn(INFO_BITS, tagged, src);
    var more :- MoreRecords(reader, INFO_BITS);
    if !more {
      return Ok(None);
    }
    var id :- reader.ReadNum(U64);
    var value :- reader.ReadNum(I32);
    return Ok(Some(PerformanceInfo(id, value)));
  }

  /** The entry loop of `report_info`. */
  method ReadEntries(reader: BdReader) returns (r: Result<seq<PerformanceInfo>>)
    requires reader.Valid()
    modifies reader`pos, reader`bitOffset, reader`lastByte, reader`hasDataTypeCached, reader`cachedDataType
    ensures reader.Valid()
    ensures reader.mode == ByteMode ==> r == Err(WrongMode)
    ensures reader.mode == BitMode ==>
              match ParseEntries(reader.typeChecked, old(reader.Src()))
              case Ok((entries, src)) => r == Ok(entries) && reader.Src() == src
              case Err(e) => r == Err(e)
  {
    hide EntryTurn, Prefixed, ParseEntries, BdReader.Rest;
    var entries: seq<PerformanceInfo> := [];
    ghost var start := ParseEntries(reader.typeChecked, reader.Src());
    PrefixLaws([], PerformanceInfo(0, 0), start, reader.Src());
    while true
      invariant reader.Valid()
      invariant reader.mode == BitMode ==> start == Prefixed(entries, ParseEntries(reader.typeChecked, reader.Src()))
      decreases if reader.mode == BitMode then |reader.Src().rest| else 0
    {
      EntriesTurn(reader.typeChecked, entries, reader.Src());
      EntryShorter(reader.typeChecked, reader.Src());
      var next :- NextEntry(reader);
      if next.None? {
        break;
      }
      entries := entries + [next.value];
    }
    return Ok(entries);
  }

  lemma EntryShorter(tagged: bool, src: Source)
    ensures EntryTurn(tagged, src).Record? ==> |EntryTurn(tagged, src).rest.rest| < |src.rest|
  {
  }

  method ReadSend(reader: BdReader) returns (r: Result<SendRequest>)
    requires reader.Valid()
    modifies reader`pos, reader`bitOffset, reader`lastByte, reader`hasDataTypeCached, reader`cachedDataType
    ensures reader.Valid()
    ensures match ParseSend(reader.typeChecked, reader.mode, old(reader.Src()))
            case Ok((request, src)) => r == Ok(request) && reader.Src() == src
            case Err(e) => r == Err(e)
  {
    hide Parse, ParseNum, ParseIds, BdReader.Rest, NumType.Holds;
    var payload :- reader.ReadBlob();
    var unrecovered :- reader.ReadNum(U32);
    var single :- reader.ReadBool();
    var recipients: seq<int>;
    if single {
      var id :- reader.ReadNum(U64);
      recipients := [id];
    } else {
      recipients :- ReadIds(reader, RECIPIENT_BITS);
    }
    return Ok(SendRequest(payload, unrecovered, single, recipients));
  }

  method ReadInfoReport(reader: BdReader) returns (r: Result<InfoReport>)
    requires reader.Valid()
    modifies reader`pos, reader`bitOffset, reader`lastByte, reader`hasDataTypeCached, reader`cachedDataType
    ensures reader.Valid()
    ensures match ParseInfoReport(reader.typeChecked, reader.mode, old(reader.Src()))
            case Ok((report, src)) => r == Ok(report) && reader.Src() == src
            case Err(e) => r == Err(e)
  {
    hide ParseNum, ParseEntries;
    var context :- reader.ReadNum(U32);
    var entries :- ReadEntries(reader);
    return Ok(InfoReport(context, entries));
  }

  method ReadPlayerReport(reader: BdReader) returns (r: Result<PlayerReport>)
    requires reader.Valid()
    modifies reader`pos, reader`bitOffset, reader`lastByte, reader`hasDataTypeCached, reader`cachedDataType
    ensures reader.Valid()
    ensures match ParsePlayerReport(reader.typeChecked, reader.mode, old(reader.Src()))
            case Ok((report, src)) => r == Ok(report) && reader.Src() == src
            case Err(e) => r == Err(e)
  {
    hide ParseNum, ParseIds;
    var playlist :- reader.ReadNum(U32);
    var players :- ReadIds(reader, PLAYER_BITS);
    return Ok(PlayerReport(playlist, players));
  }

  // ---- what a client writes comes back ----

  predicate AllIds(ids: seq<int>) {
    forall i :: 0 <= i < |ids| ==> U64.Holds(ids[i])
  }

  predicate AllEntries(entries: seq<PerformanceInfo>) {
    forall i :: 0 <= i < |entries| ==> U64.Holds(entries[i].id) && I32.Holds(entries[i].value)
  }

  function EncodeIds(ids: seq<int>): seq<bool>
    requires AllIds(ids)
  {
    if ids == [] then [] else EncodeNum(U64, ids[0], true, BitMode) + EncodeIds(ids[1..])
  }

  function EncodeEntry(e: PerformanceInfo): seq<bool>
    requires U64.Holds(e.id) && I32.Holds(e.value)
  {
    EncodeNum(U64, e.id, true, BitMode) + EncodeNum(I32, e.value, true, BitMode)
  }

  function EncodeEntries(entries: seq<PerformanceInfo>): seq<bool>
    requires AllEntries(entries)
  {
    if entries == [] then [] else EncodeEntry(entries[0]) + EncodeEntries(entries[1..])
  }

  predicate Sendable(request: SendRequest) {
    && |request.payload| < 0x1_0000_0000
    && U32.Holds(request.unrecovered)
    && AllIds(request.recipients)
    && (request.single ==> |request.recipients| == 1)
  }

  function EncodeSend(request: SendRequest): seq<bool>
    requires Sendable(request)
  {
    Encode(VBlob(request.payload), true, BitMode)
    + (EncodeNum(U32, request.unrecovered, true, BitMode)
       + (Encode(VBool(request.single), true, BitMode)
          + EncodeIds(request.recipients)))
  }

  lemma NumLength(t: NumType, n: int)
    requires t.Holds(n)
    ensures |EncodeNum(t, n, true, BitMode)| == 5 + 8 * t.Width()
  {
  }

  /** A number read behind a peeked tag. */
  lemma PeekedNum(t: NumType, n: int, rest: seq<bool>)
    requires t.Holds(n)
    ensures var src := Source(None, EncodeNum(t, n, true, BitMode) + rest);
            && Peek(src, true, BitMode).Ok?
            && Peek(src, true, BitMode).value.0 == BufferDataType.NoArray(t.Primitive())
            && ParseNum(t, true, BitMode, Peek(src, true, BitMode).value.1) == Ok((n, Source(None, rest)))
  {
    var src := Source(None, EncodeNum(t, n, true, BitMode) + rest);
    var body := BitsOf(t.ToBytes(n)) + rest;
    assert src.rest == TagBits(t.Primitive(), BitMode) + body;
    TagBack(KNum(t), BitMode, body);
    ParseNumBack(t, n, true, BitMode, rest);
    PeekIsInvisible(KNum(t), true, BitMode, src);
  }

  lemma IdTurnBack(bits: nat, n: int, rest: seq<bool>)
    requires bits <= RECIPIENT_BITS && U64.Holds(n)
    ensures IdTurn(bits, true, Source(None, EncodeNum(U64, n, true, BitMode) + rest)) == Record(n, Source(None, rest))
  {
    hide Peek, ParseNum, EncodeNum;
    NumLength(U64, n);
    PeekedNum(U64, n, rest);
  }

  lemma EntryTurnBack(e: PerformanceInfo, rest: seq<bool>)
    requires U64.Holds(e.id) && I32.Holds(e.value)
    ensures EntryTurn(true, Source(None, EncodeEntry(e) + rest)) == Record(e, Source(None, rest))
  {
    hide Peek, ParseNum, EncodeNum;
    var id, value := EncodeNum(U64, e.id, true, BitMode), EncodeNum(I32, e.value, true, BitMode);
    NumLength(U64, e.id);
    NumLength(I32, e.value);
    assert EncodeEntry(e) + rest == id + (value + rest);
    PeekedNum(U64, e.id, value + rest);
    ParseNumBack(I32, e.value, true, BitMode, rest);
  }

  /** Whatever follows them, the n tagged records written are the first n read. */
  lemma {:induction false} IdsFirst(bits: nat, ids: seq<int>, tail: seq<bool>)
    requires bits <= RECIPIENT_BITS && AllIds(ids)
    ensures ParseIds(bits, true, Source(None, EncodeIds(ids) + tail))
            == Prefixed(ids, ParseIds(bits, true, Source(None, tail)))
  {
    hide IdTurn, EncodeNum, Prefixed;
    var after := ParseIds(bits, true, Source(None, tail));
    if ids == [] {
      assert [] + tail == tail;
      PrefixLaws([], 0, after, Source(None, tail));
    } else {
      var first := EncodeNum(U64, ids[0], true, BitMode);
      assert EncodeIds(ids) + tail == first + (EncodeIds(ids[1..]) + tail);
      IdTurnBack(bits, ids[0], EncodeIds(ids[1..]) + tail);
      IdsFirst(bits, ids[1..], tail);
      PrefixJoin([ids[0]], ids[1..], after);
      assert [ids[0]] + ids[1..] == ids;
    }
  }

  lemma {:induction false} EntriesFirst(entries: seq<PerformanceInfo>, tail: seq<bool>)
    requires AllEntries(entries)
    ensures ParseEntries(true, Source(None, EncodeEntries(entries) + tail))
            == Prefixed(entries, ParseEntries(true, Source(None, tail)))
  {
    hide EntryTurn, EncodeEntry, Prefixed;
    var after := ParseEntries(true, Source(None, tail));
    if entries == [] {
      assert [] + tail == tail;
      PrefixLaws([], PerformanceInfo(0, 0), after, Source(None, tail));
    } else {
      assert EncodeEntries(entries) + tail == EncodeEntry(entries[0]) + (EncodeEntries(entries[1..]) + tail);
      EntryTurnBack(entries[0], EncodeEntries(entries[1..]) + tail);
      EntriesFirst(entries[1..], tail);
      PrefixJoin([entries[0]], entries[1..], after);
      assert [entries[0]] + entries[1..] == entries;
    }
  }

  lemma PrefixJoin<T>(a: seq<T>, b: seq<T>, r: Result<(seq<T>, Source)>)
    ensures Prefixed(a, Prefixed(b, r)) == Prefixed(a + b, r)
  {
    match r
    case Ok((items, _)) => assert a + (b + items) == (a + b) + items;
    case Err(_) =>
  }

  /** Exactly the ids written are read when only flush padding follows them. */
  lemma IdsBack(bits: nat, ids: seq<int>, pad: seq<bool>)
    requires bits <= RECIPIENT_BITS && AllIds(ids) && |pad| < bits
    ensures ParseIds(bits, true, Source(None, EncodeIds(ids) + pad)) == Ok((ids, Source(None, pad)))
  {
    IdsFirst(bits, ids, pad);
    PrefixLaws(ids, 0, Err(WrongMode), Source(None, pad));
  }

  lemma EntriesBack(entries: seq<PerformanceInfo>, pad: seq<bool>)
    requires AllEntries(entries) && |pad| < INFO_BITS
    ensures ParseEntries(true, Source(None, EncodeEntries(entries) + pad)) == Ok((entries, Source(None, pad)))
  {
    EntriesFirst(entries, pad);
    PrefixLaws(entries, PerformanceInfo(0, 0), Err(WrongMode), Source(None, pad));
  }

  lemma OtherTagStops(bits: nat, k: Kind, rest: seq<bool>)
    requires bits <= RECIPIENT_BITS && k != KNum(U64) && 5 + |rest| >= bits
    ensures IdTurn(bits, true, Source(None, TagBits(k.Primitive(), BitMode) + rest))
            == Stop(Source(Some(BufferDataType.NoArray(k.Primitive())), rest))
  {
    hide TakeTag, ParseNum;
    TagBack(k, BitMode, rest);
    assert k.Primitive() != UnsignedInteger64Type;
  }

  /** Another kind of value ends the list; its tag is peeked at and kept. */
  lemma IdsEndAtOtherTag(bits: nat, ids: seq<int>, k: Kind, rest: seq<bool>)
    requires bits <= RECIPIENT_BITS && AllIds(ids) && k != KNum(U64)
    requires 5 + |rest| >= bits
    ensures ParseIds(bits, true, Source(None, EncodeIds(ids) + (TagBits(k.Primitive(), BitMode) + rest)))
            == Ok((ids, Source(Some(BufferDataType.NoArray(k.Primitive())), rest)))
  {
    var tail := TagBits(k.Primitive(), BitMode) + rest;
    hide Prefixed, IdTurn, TagBits;
    IdsFirst(bits, ids, tail);
    OtherTagStops(bits, k, rest);
    PrefixLaws(ids, 0, Err(WrongMode), Source(Some(BufferDataType.NoArray(k.Primitive())), rest));
  }

  /** Without type checking no tag is ever an id's: the list reads as empty. */
  lemma UntaggedListIsEmpty(bits: nat, src: Source)
    ensures ParseIds(bits, false, src) == Ok(([], src))
    ensures ParseEntries(false, src) == Ok(([], src))
  {
  }

  lemma ParseSendSteps(tagged: bool, mode: StreamMode, src: Source, payload: seq<bv8>, src1: Source, unrecovered: int, src2: Source,
                       single: bool, src3: Source)
    requires Parse(KBlob, tagged, mode, src) == Ok((VBlob(payload), src1))
    requires ParseNum(U32, tagged, mode, src1) == Ok((unrecovered, src2))
    requires Parse(KBool, tagged, mode, src2) == Ok((VBool(single), src3))
    ensures single && ParseNum(U64, tagged, mode, src3).Ok? ==>
              var id := ParseNum(U64, tagged, mode, src3).value;
              ParseSend(tagged, mode, src) == Ok((SendRequest(payload, unrecovered, true, [id.0]), id.1))
    ensures !single && mode == BitMode && ParseIds(RECIPIENT_BITS, tagged, src3).Ok? ==>
              var ids := ParseIds(RECIPIENT_BITS, tagged, src3).value;
              ParseSend(tagged, mode, src) == Ok((SendRequest(payload, unrecovered, false, ids.0), ids.1))
  {
    hide Parse, ParseNum, ParseIds;
  }

  /** A whole send request survives the wire and its flush padding. */
  lemma SendBack(request: SendRequest, pad: seq<bool>)
    requires Sendable(request) && |pad| < 69
    ensures ParseSend(true, BitMode, Source(None, EncodeSend(request) + pad)) == Ok((request, Source(None, pad)))
  {
    hide Parse, ParseNum, ParseIds, Encode, EncodeNum, NumType.Holds;
    var ids := EncodeIds(request.recipients) + pad;
    var single := Encode(VBool(request.single), true, BitMode) + ids;
    var unrecovered := EncodeNum(U32, request.unrecovered, true, BitMode) + single;
    var src := Source(None, EncodeSend(request) + pad);
    assert src.rest == Encode(VBlob(request.payload), true, BitMode) + unrecovered;
    RoundTrip(VBlob(request.payload), true, BitMode, unrecovered);
    ParseNumBack(U32, request.unrecovered, true, BitMode, single);
    RoundTrip(VBool(request.single), true, BitMode, ids);
    ParseSendSteps(true, BitMode, src, request.payload, Source(None, unrecovered), request.unrecovered,
                   Source(None, single), request.single, Source(None, ids));
    if request.single {
      var id := request.recipients[0];
      assert request.recipients == [id] && EncodeIds([id]) == EncodeNum(U64, id, true, BitMode) + EncodeIds([]);
      assert ids == EncodeNum(U64, id, true, BitMode) + pad;
      ParseNumBack(U64, id, true, BitMode, pad);
    } else {
      IdsBack(RECIPIENT_BITS, request.recipients, pad);
    }
  }

  /** Both performance reports survive the wire. */
  lemma ReportsBack(info: InfoReport, players: PlayerReport, pad: seq<bool>)
    requires U32.Holds(info.context) && AllEntries(info.entries)
    requires U32.Holds(players.playlist) && AllIds(players.players) && |pad| < 106
    ensures ParseInfoReport(true, BitMode,
                            Source(None, EncodeNum(U32, info.context, true, BitMode) + (EncodeEntries(info.entries) + pad)))
            == Ok((info, Source(None, pad)))
    ensures |pad| < 69 ==>
            ParsePlayerReport(true, BitMode,
                              Source(None, EncodeNum(U32, players.playlist, true, BitMode) + (EncodeIds(players.players) + pad)))
            == Ok((players, Source(None, pad)))
  {
    hide ParseNum, ParseIds, ParseEntries, EncodeNum;
    ParseNumBack(U32, info.context, true, BitMode, EncodeEntries(info.entries) + pad);
    EntriesBack(info.entries, pad);
    ParseNumBack(U32, players.playlist, true, BitMode, EncodeIds(players.players) + pad);
    if |pad| < 69 {
      IdsBack(PLAYER_BITS, players.players, pad);
    }
  }
}
