/** Session advertisements on the wire. */
module MatchMaking {
  import opened Wrappers
  import opened BdFormat
  import opened BdRoundTrip
  import opened BdWriting
  import opened BdReading
  import opened Messages
  import opened Registry

  const ADDRESS_LEN := 37
  const FIELDS := 13

  // ---- one value after another ----

  function ParseMore(r: Result<(seq<Value>, Source)>, kind: Kind, tagged: bool, mode: StreamMode): Result<(seq<Value>, Source)> {
    var (vs, src1) :- r;
    var (v, src2) :- Parse(kind, tagged, mode, src1);
    Ok((vs + [v], src2))
  }

  lemma {:induction false} ParseAllSnoc(kinds: seq<Kind>, kind: Kind, tagged: bool, mode: StreamMode, src: Source)
    ensures ParseAll(kinds + [kind], tagged, mode, src) == ParseMore(ParseAll(kinds, tagged, mode, src), kind, tagged, mode)
  {
    hide Parse;
    if kinds == [] {
      assert (kinds + [kind])[1..] == [] && [] + [kind] == [kind];
      if Parse(kind, tagged, mode, src).Ok? {
        var (v, _) := Parse(kind, tagged, mode, src).value;
        assert [v] + [] == [] + [v];
      }
    } else {
      assert (kinds + [kind])[0] == kinds[0] && (kinds + [kind])[1..] == kinds[1..] + [kind];
      var first := Parse(kinds[0], tagged, mode, src);
      if first.Ok? {
        ParseAllSnoc(kinds[1..], kind, tagged, mode, first.value.1);
        var rest := ParseAll(kinds[1..], tagged, mode, first.value.1);
        if rest.Ok? && Parse(kind, tagged, mode, rest.value.1).Ok? {
          var w := Parse(kind, tagged, mode, rest.value.1).value.0;
          assert [first.value.0] + (rest.value.0 + [w]) == ([first.value.0] + rest.value.0) + [w];
        }
      }
    }
  }

  /** Once a value fails, so does the whole sequence. */
  lemma {:induction false} ParseAllFails(kinds: seq<Kind>, n: nat, tagged: bool, mode: StreamMode, src: Source)
    requires n <= |kinds| && ParseAll(kinds[..n], tagged, mode, src).Err?
    ensures ParseAll(kinds, tagged, mode, src) == ParseAll(kinds[..n], tagged, mode, src)
    decreases |kinds| - n
  {
    if n < |kinds| {
      assert kinds[..n + 1] == kinds[..n] + [kinds[n]];
      ParseAllSnoc(kinds[..n], kinds[n], tagged, mode, src);
      ParseAllFails(kinds, n + 1, tagged, mode, src);
    } else {
      assert kinds[..n] == kinds;
    }
  }

  /** The first i values have been read, and the source stands at `at`. */
  predicate ParsedSoFar(kinds: seq<Kind>, i: nat, tagged: bool, mode: StreamMode, src: Source, vs: seq<Value>, at: Source) {
    i <= |kinds| && ParseAll(kinds[..i], tagged, mode, src) == Ok((vs, at))
  }

  lemma NothingParsed(kinds: seq<Kind>, tagged: bool, mode: StreamMode, src: Source)
    ensures ParsedSoFar(kinds, 0, tagged, mode, src, [], src)
  {
  }

  lemma ParsedOneMore(kinds: seq<Kind>, i: nat, tagged: bool, mode: StreamMode, src: Source, vs: seq<Value>, at: Source)
    requires i < |kinds| && ParsedSoFar(kinds, i, tagged, mode, src, vs, at)
    ensures match Parse(kinds[i], tagged, mode, at)
            case Ok((v, at')) => v.KindOf() == kinds[i] && ParsedSoFar(kinds, i + 1, tagged, mode, src, vs + [v], at')
            case Err(e) => ParseAll(kinds, tagged, mode, src) == Err(e)
  {
    assert kinds[..i + 1] == kinds[..i] + [kinds[i]];
    ParsedKind(kinds[i], tagged, mode, at);
    hide ParseAll, Parse;
    ParseAllSnoc(kinds[..i], kinds[i], tagged, mode, src);
    if Parse(kinds[i], tagged, mode, at).Err? {
      ParseAllFails(kinds, i + 1, tagged, mode, src);
    }
  }

  lemma {:induction false} ParsedKinds(kinds: seq<Kind>, tagged: bool, mode: StreamMode, src: Source)
    ensures var r := ParseAll(kinds, tagged, mode, src);
            r.Ok? ==> AreKinds(r.value.0, kinds)
  {
    hide Parse, Value.WellTyped;
    if kinds != [] {
      var first := Parse(kinds[0], tagged, mode, src);
      if first.Ok? {
        assert first.value.0.KindOf() == kinds[0] && first.value.0.WellTyped() by {
          ParsedKind(kinds[0], tagged, mode, src);
        }
        ParsedKinds(kinds[1..], tagged, mode, first.value.1);
      }
    }
  }

  lemma ParsedKind(kind: Kind, tagged: bool, mode: StreamMode, src: Source)
    ensures var r := Parse(kind, tagged, mode, src);
            r.Ok? ==> r.value.0.KindOf() == kind && r.value.0.WellTyped()
  {
  }

  predicate AreKinds(vs: seq<Value>, kinds: seq<Kind>) {
    |vs| == |kinds| && forall i :: 0 <= i < |vs| ==> vs[i].KindOf() == kinds[i] && vs[i].WellTyped()
  }

  // ---- an advertisement ----

  function Ints(n: nat): (ks: seq<Kind>)
    ensures |ks| == n && forall i :: 0 <= i < n ==> ks[i] == KNum(I32)
  {
    seq(n, _ => KNum(I32))
  }

  function BlobsOf(info: MatchMakingInfo): seq<Value> {
    [VBlob(info.address), VBlob(info.host), VBlob(info.key)]
  }

  function FieldsOf(info: MatchMakingInfo): (vs: seq<Value>)
    ensures |vs| == 4 + |info.titleData|
  {
    [VNum(I32, info.freePublicSlots), VNum(I32, info.usedPublicSlots),
     VNum(I32, info.freePrivateSlots), VNum(I32, info.usedPrivateSlots)] + TitleValues(info.titleData)
  }

  function TitleValues(titleData: seq<int>): (vs: seq<Value>)
    ensures |vs| == |titleData|
    ensures forall i :: 0 <= i < |vs| ==> vs[i] == VNum(I32, titleData[i])
  {
    seq(|titleData|, i requires 0 <= i < |titleData| => VNum(I32, titleData[i]))
  }

  function NumsOf(vs: seq<Value>): (ns: seq<int>)
    requires forall i :: 0 <= i < |vs| ==> vs[i].VNum?
    ensures |ns| == |vs| && forall i :: 0 <= i < |vs| ==> ns[i] == vs[i].n
  {
    seq(|vs|, i requires 0 <= i < |vs| => vs[i].n)
  }

  predicate RightLengths(address: seq<bv8>, host: seq<bv8>, key: seq<bv8>) {
    |address| == ADDRESS_LEN && |host| == ID_LEN && |key| == SECRET_LEN
  }

  function ParseBlob(tagged: bool, mode: StreamMode, src: Source): Result<(seq<bv8>, Source)> {
    var (v, rest) :- Parse(KBlob, tagged, mode, src);
    Ok((v.bytes, rest))
  }

  /** Three blobs of exactly the right sizes, four slot counts, nine title fields. */
  function ParseInfo(tagged: bool, mode: StreamMode, src: Source): Result<(MatchMakingInfo, Source)> {
    var (address, src1) :- ParseBlob(tagged, mode, src);
    var (host, src2) :- ParseBlob(tagged, mode, src1);
    var (key, src3) :- ParseBlob(tagged, mode, src2);
    if !RightLengths(address, host, key) then Err(Malformed)
    else
      var (fields, src4) :- ParseAll(Ints(FIELDS), tagged, mode, src3);
      ParsedKinds(Ints(FIELDS), tagged, mode, src3);
      Ok((Assembled(address, host, key, NumsOf(fields)), src4))
  }

  function Assembled(address: seq<bv8>, host: seq<bv8>, key: seq<bv8>, nums: seq<int>): MatchMakingInfo
    requires |nums| == FIELDS
  {
    MatchMakingInfo(address, host, key, nums[0], nums[1], nums[2], nums[3], nums[4..])
  }

  lemma FieldsWellTyped(info: MatchMakingInfo)
    requires info.WellTyped()
    ensures AllWellTyped(BlobsOf(info)) && AllWellTyped(FieldsOf(info))
    ensures AllCarried(FieldsOf(info))
  {
    Pow256Of4();
  }

  /** What is left to write once k blobs have been written. */
  function Left(info: MatchMakingInfo, k: nat): (vs: seq<Value>)
    requires k <= 3
    ensures |vs| == 7 - k + |info.titleData|
    decreases 3 - k
  {
    if k == 3 then FieldsOf(info) else [BlobsOf(info)[k]] + Left(info, k + 1)
  }

  lemma {:induction false} LeftWellTyped(info: MatchMakingInfo, k: nat)
    requires info.WellTyped() && k <= 3
    ensures AllWellTyped(Left(info, k))
    decreases 3 - k
  {
    if k == 3 {
      FieldsWellTyped(info);
    } else {
      LeftWellTyped(info, k + 1);
    }
  }

  function InfoBits(info: MatchMakingInfo): seq<bool>
    requires info.WellTyped()
  {
    LeftWellTyped(info, 0);
    EncodeAll(Left(info, 0), true, BitMode)
  }

  /** The values on the wire: the address, the id and the secret, then the free and the
      used public slots, the free and the used private ones, and the nine title fields. */
  function WireValues(info: MatchMakingInfo): seq<Value>
    requires |info.titleData| == 9
  {
    var t := info.titleData;
    [VBlob(info.address), VBlob(info.host), VBlob(info.key),
     VNum(I32, info.freePublicSlots), VNum(I32, info.usedPublicSlots),
     VNum(I32, info.freePrivateSlots), VNum(I32, info.usedPrivateSlots),
     VNum(I32, t[0]), VNum(I32, t[1]), VNum(I32, t[2]), VNum(I32, t[3]), VNum(I32, t[4]),
     VNum(I32, t[5]), VNum(I32, t[6]), VNum(I32, t[7]), VNum(I32, t[8])]
  }

  lemma InfoOnWire(info: MatchMakingInfo)
    requires info.WellTyped()
    ensures AllWellTyped(WireValues(info)) && InfoBits(info) == EncodeAll(WireValues(info), true, BitMode)
  {
    LeftWellTyped(info, 0);
    AllLeft(info);
    hide EncodeAll, AllWellTyped, Left, WireValues;
  }

  lemma AllLeft(info: MatchMakingInfo)
    requires |info.titleData| == 9
    ensures Left(info, 0) == WireValues(info)
  {
    var all := Left(info, 0);
    assert all[1..] == Left(info, 1) && Left(info, 1)[1..] == Left(info, 2) && Left(info, 2)[1..] == FieldsOf(info);
    forall i | 0 <= i < 16
      ensures all[i] == WireValues(info)[i]
    {
      if i >= 3 {
        assert all[i] == FieldsOf(info)[i - 3];
      }
    }
  }

  /** An advertisement is read back as it was written exactly when its blobs have the
      lengths the reader insists on; with any others that the format can carry it is
      refused as malformed. */
  lemma {:induction false} InfoBack(info: MatchMakingInfo, rest: seq<bool>)
    requires info.WellTyped()
    ensures var r := ParseInfo(true, BitMode, Source(None, InfoBits(info) + rest));
            var right := |info.address| == 37 && |info.host| == 8 && |info.key| == 16;
            && (right <==> r == Ok((info, Source(None, rest))))
            && (!right && AllCarried(BlobsOf(info)) ==> r == Err(Malformed))
  {
    assert RightLengths(info.address, info.host, info.key) <==>
             |info.address| == 37 && |info.host| == 8 && |info.key| == 16;
    hide ParseInfo, InfoBits, RightLengths, MatchMakingInfo.WellTyped;
    var src := Source(None, InfoBits(info) + rest);
    ParsedInfoHasLengths(true, BitMode, src);
    if RightLengths(info.address, info.host, info.key) {
      SmallBlobs(info);
    }
    if AllCarried(BlobsOf(info)) {
      InfoSteps(info, rest);
    }
  }

  lemma SmallBlobs(info: MatchMakingInfo)
    requires RightLengths(info.address, info.host, info.key)
    ensures AllCarried(BlobsOf(info))
  {
  }

  lemma ParsedInfoHasLengths(tagged: bool, mode: StreamMode, src: Source)
    ensures var r := ParseInfo(tagged, mode, src);
            r.Ok? ==> RightLengths(r.value.0.address, r.value.0.host, r.value.0.key)
  {
    hide ParseAll, ParseBlob, Ints, NumsOf;
  }

  lemma ConsBits(v: Value, vs: seq<Value>, rest: seq<bool>)
    requires v.WellTyped() && AllWellTyped(vs) && AllWellTyped([v] + vs)
    ensures EncodeAll([v] + vs, true, BitMode) + rest == Encode(v, true, BitMode) + (EncodeAll(vs, true, BitMode) + rest)
  {
    assert ([v] + vs)[1..] == vs;
    hide Encode, Value.WellTyped, AllWellTyped;
  }

  lemma {:induction false} BlobBack(info: MatchMakingInfo, k: nat, rest: seq<bool>)
    requires k < 3 && AllWellTyped(Left(info, k)) && AllWellTyped(Left(info, k + 1)) && AllCarried(BlobsOf(info))
    ensures ParseBlob(true, BitMode, Source(None, EncodeAll(Left(info, k), true, BitMode) + rest))
            == Ok((BlobsOf(info)[k].bytes, Source(None, EncodeAll(Left(info, k + 1), true, BitMode) + rest)))
  {
    var v := BlobsOf(info)[k];
    assert v.Carried() && v.KindOf() == KBlob && v.WellTyped();
    hide Parse, Encode, EncodeAll, AllWellTyped;
    ConsBits(v, Left(info, k + 1), rest);
    RoundTrip(v, true, BitMode, EncodeAll(Left(info, k + 1), true, BitMode) + rest);
  }

  lemma {:induction false} FieldsBack(info: MatchMakingInfo, rest: seq<bool>)
    requires info.WellTyped() && AllWellTyped(Left(info, 3))
    ensures ParseAll(Ints(FIELDS), true, BitMode, Source(None, EncodeAll(Left(info, 3), true, BitMode) + rest))
            == Ok((FieldsOf(info), Source(None, rest)))
  {
    FieldsWellTyped(info);
    assert Kinds(FieldsOf(info)) == Ints(FIELDS);
    hide ParseAll, EncodeAll;
    RoundTripAll(FieldsOf(info), true, BitMode, rest);
  }

  lemma {:induction false} InfoSteps(info: MatchMakingInfo, rest: seq<bool>)
    requires info.WellTyped() && AllCarried(BlobsOf(info))
    ensures ParseInfo(true, BitMode, Source(None, InfoBits(info) + rest)) ==
            if RightLengths(info.address, info.host, info.key) then Ok((info, Source(None, rest))) else Err(Malformed)
  {
    LeftWellTyped(info, 0);
    LeftWellTyped(info, 1);
    LeftWellTyped(info, 2);
    LeftWellTyped(info, 3);
    FieldsReassemble(info);
    hide ParseBlob, ParseAll, Ints, AllCarried, AllWellTyped, RightLengths, Left, EncodeAll, FieldsOf, Assembled, NumsOf,
         MatchMakingInfo.WellTyped;
    BlobBack(info, 0, rest);
    BlobBack(info, 1, rest);
    BlobBack(info, 2, rest);
    FieldsBack(info, rest);
  }

  /** Blobs of other lengths are refused before anything after them is looked at. */
  lemma {:induction false} LengthsComeFirst(address: seq<bv8>, host: seq<bv8>, key: seq<bv8>, tagged: bool, mode: StreamMode,
                                            rest: seq<bool>)
    requires |address| < 0x1_0000_0000 && |host| < 0x1_0000_0000 && |key| < 0x1_0000_0000
    requires |address| != 37 || |host| != 8 || |key| != 16
    ensures ParseInfo(tagged, mode, Source(None, Encode(VBlob(address), tagged, mode) +
                                                 (Encode(VBlob(host), tagged, mode) + (Encode(VBlob(key), tagged, mode) + rest))))
            == Err(Malformed)
  {
    var after2 := Encode(VBlob(key), tagged, mode) + rest;
    var after1 := Encode(VBlob(host), tagged, mode) + after2;
    OneBlob(address, tagged, mode, after1);
    OneBlob(host, tagged, mode, after2);
    OneBlob(key, tagged, mode, rest);
    hide ParseBlob, ParseAll, Encode, Ints, NumsOf;
  }

  lemma {:induction false} OneBlob(bytes: seq<bv8>, tagged: bool, mode: StreamMode, rest: seq<bool>)
    requires |bytes| < 0x1_0000_0000
    ensures ParseBlob(tagged, mode, Source(None, Encode(VBlob(bytes), tagged, mode) + rest)) == Ok((bytes, Source(None, rest)))
  {
    RoundTrip(VBlob(bytes), tagged, mode, rest);
    hide Parse, Encode;
  }

  lemma FieldsReassemble(info: MatchMakingInfo)
    requires info.WellTyped()
    ensures |FieldsOf(info)| == FIELDS && forall i :: 0 <= i < FIELDS ==> FieldsOf(info)[i].VNum?
    ensures Assembled(info.address, info.host, info.key, NumsOf(FieldsOf(info))) == info
  {
    assert NumsOf(FieldsOf(info))[4..] == info.titleData;
  }

  // ---- the methods ----

  method Serialize(info: MatchMakingInfo, writer: BdWriter, ghost from: seq<bool>)
    requires info.WellTyped()
    requires writer.Valid() && writer.mode == BitMode && writer.typeChecked && from == writer.Stream()
    modifies writer`out, writer`bitOffset, writer`lastByte
    ensures writer.Valid() && writer.Stream() == from + InfoBits(info)
  {
    FieldsFit(info);
    hide Grew, BdWriter.Stream, NumType.Holds, InfoBits, EncodeAll, AllWellTyped, MatchMakingInfo.WellTyped, BlobsOf,
         SlotsOf, FieldsOf, TitleValues;
    WriteBlobs(info, writer, from);
    WriteSlots(info, writer, from);
    WriteTitleData(info, writer, from, BlobsOf(info) + SlotsOf(info));
    AllGrew(info, from, writer.Stream());
  }

  lemma AllGrew(info: MatchMakingInfo, from: seq<bool>, to: seq<bool>)
    requires info.WellTyped() && Grew(from, BlobsOf(info) + SlotsOf(info) + TitleValues(info.titleData), to)
    ensures to == from + InfoBits(info)
  {
    hide EncodeAll, AllWellTyped;
    assert BlobsOf(info) + SlotsOf(info) + TitleValues(info.titleData) == Left(info, 0) by {
      assert Left(info, 3) == SlotsOf(info) + TitleValues(info.titleData);
      assert Left(info, 2) == [VBlob(info.key)] + Left(info, 3);
      assert Left(info, 1) == [VBlob(info.host)] + Left(info, 2);
    }
  }

  method WriteTitleData(info: MatchMakingInfo, writer: BdWriter, ghost from: seq<bool>, ghost front: seq<Value>)
    requires writer.Valid() && writer.mode == BitMode && writer.typeChecked && Grew(from, front, writer.Stream())
    requires forall i :: 0 <= i < |info.titleData| ==> I32.Holds(info.titleData[i])
    modifies writer`out, writer`bitOffset, writer`lastByte
    ensures writer.Valid() && Grew(from, front + TitleValues(info.titleData), writer.Stream())
  {
    hide Grew, BdWriter.Stream, NumType.Holds, EncodeNum;
    assert front + TitleValues(info.titleData[..0]) == front;
    for i := 0 to |info.titleData|
      invariant writer.Valid() && writer.mode == BitMode && writer.typeChecked
      invariant Grew(from, front + TitleValues(info.titleData[..i]), writer.Stream())
    {
      ghost var vs, to := front + TitleValues(info.titleData[..i]), writer.Stream();
      writer.WriteNum(I32, info.titleData[i]);
      GrewNum(from, vs, to, I32, info.titleData[i], writer.Stream());
      assert vs + [VNum(I32, info.titleData[i])] == front + TitleValues(info.titleData[..i + 1]);
    }
    assert info.titleData[..|info.titleData|] == info.titleData;
  }

  lemma FieldsFit(info: MatchMakingInfo)
    requires info.WellTyped()
    ensures I32.Holds(info.freePublicSlots) && I32.Holds(info.usedPublicSlots)
    ensures I32.Holds(info.freePrivateSlots) && I32.Holds(info.usedPrivateSlots)
    ensures forall i :: 0 <= i < |info.titleData| ==> I32.Holds(info.titleData[i])
  {
    Pow256Of4();
  }

  function SlotsOf(info: MatchMakingInfo): seq<Value> {
    [VNum(I32, info.freePublicSlots), VNum(I32, info.usedPublicSlots),
     VNum(I32, info.freePrivateSlots), VNum(I32, info.usedPrivateSlots)]
  }

  method WriteBlobs(info: MatchMakingInfo, writer: BdWriter, ghost from: seq<bool>)
    requires writer.Valid() && writer.mode == BitMode && writer.typeChecked && from == writer.Stream()
    modifies writer`out, writer`bitOffset, writer`lastByte
    ensures writer.Valid() && Grew(from, BlobsOf(info), writer.Stream())
  {
    GrewNothing(from);
    hide Grew, BdWriter.Stream, Encode;
    ghost var vs: seq<Value>, to := [], writer.Stream();
    writer.WriteBlob(info.address);
    GrewOne(from, vs, to, VBlob(info.address), writer.Stream());
    vs, to := vs + [VBlob(info.address)], writer.Stream();
    writer.WriteBlob(info.host);
    GrewOne(from, vs, to, VBlob(info.host), writer.Stream());
    vs, to := vs + [VBlob(info.host)], writer.Stream();
    writer.WriteBlob(info.key);
    GrewOne(from, vs, to, VBlob(info.key), writer.Stream());
    assert vs + [VBlob(info.key)] == BlobsOf(info);
  }

  method WriteSlots(info: MatchMakingInfo, writer: BdWriter, ghost from: seq<bool>)
    requires writer.Valid() && writer.mode == BitMode && writer.typeChecked
    requires Grew(from, BlobsOf(info), writer.Stream())
    requires I32.Holds(info.freePublicSlots) && I32.Holds(info.usedPublicSlots)
    requires I32.Holds(info.freePrivateSlots) && I32.Holds(info.usedPrivateSlots)
    modifies writer`out, writer`bitOffset, writer`lastByte
    ensures writer.Valid() && Grew(from, BlobsOf(info) + SlotsOf(info), writer.Stream())
  {
    hide Grew, BdWriter.Stream, NumType.Holds, EncodeNum;
    ghost var vs, to := BlobsOf(info), writer.Stream();
    hide BlobsOf;
    writer.WriteNum(I32, info.freePublicSlots);
    GrewNum(from, vs, to, I32, info.freePublicSlots, writer.Stream());
    vs, to := vs + [VNum(I32, info.freePublicSlots)], writer.Stream();
    writer.WriteNum(I32, info.usedPublicSlots);
    GrewNum(from, vs, to, I32, info.usedPublicSlots, writer.Stream());
    vs, to := vs + [VNum(I32, info.usedPublicSlots)], writer.Stream();
    writer.WriteNum(I32, info.freePrivateSlots);
    GrewNum(from, vs, to, I32, info.freePrivateSlots, writer.Stream());
    vs, to := vs + [VNum(I32, info.freePrivateSlots)], writer.Stream();
    writer.WriteNum(I32, info.usedPrivateSlots);
    GrewNum(from, vs, to, I32, info.usedPrivateSlots, writer.Stream());
    assert vs + [VNum(I32, info.usedPrivateSlots)] == BlobsOf(info) + SlotsOf(info);
  }

  /** Values of the same kind, one after another. */
  method ReadInts(reader: BdReader, n: nat) returns (r: Result<seq<int>>)
    requires reader.Valid()
    modifies reader`pos, reader`bitOffset, reader`lastByte, reader`hasDataTypeCached
    ensures reader.Valid()
    ensures match ParseAll(Ints(n), reader.typeChecked, reader.mode, old(reader.Src()))
            case Ok((vs, src')) => r.Ok? && |r.value| == n && AreKinds(vs, Ints(n)) && r.value == NumsOf(vs)
                                   && reader.Src() == src'
            case Err(e) => r == Err(e)
  {
    ghost var src, tagged, mode := reader.Src(), reader.typeChecked, reader.mode;
    ghost var vs: seq<Value> := [];
    var nums := [];
    NoneParsed(n, tagged, mode, src);
    hide IntsParsed, ParseAll, ParseNum, BdReader.Src, Ints, AreKinds;
    for i := 0 to n
      invariant reader.Valid() && reader.typeChecked == tagged && reader.mode == mode
      invariant IntsParsed(n, i, tagged, mode, src, vs, nums, reader.Src())
    {
      OneParsed(n, i, tagged, mode, src, vs, nums, reader.Src());
      var next := reader.ReadNum(I32);
      if next.Err? {
        return Err(next.error);
      }
      nums := nums + [next.value];
      vs := vs + [VNum(I32, next.value)];
    }
    AllParsed(n, tagged, mode, src, vs, nums, reader.Src());
    r := Ok(nums);
  }

  /** The first i of n numbers have been read. */
  predicate IntsParsed(n: nat, i: nat, tagged: bool, mode: StreamMode, src: Source, vs: seq<Value>, nums: seq<int>, at: Source) {
    && ParsedSoFar(Ints(n), i, tagged, mode, src, vs, at)
    && |vs| == |nums| == i && (forall k :: 0 <= k < i ==> vs[k] == VNum(I32, nums[k]))
  }

  lemma NoneParsed(n: nat, tagged: bool, mode: StreamMode, src: Source)
    ensures IntsParsed(n, 0, tagged, mode, src, [], [], src)
  {
    NothingParsed(Ints(n), tagged, mode, src);
  }

  lemma OneParsed(n: nat, i: nat, tagged: bool, mode: StreamMode, src: Source, vs: seq<Value>, nums: seq<int>, at: Source)
    requires i < n && IntsParsed(n, i, tagged, mode, src, vs, nums, at)
    ensures match ParseNum(I32, tagged, mode, at)
            case Ok((x, at')) => IntsParsed(n, i + 1, tagged, mode, src, vs + [VNum(I32, x)], nums + [x], at')
            case Err(e) => ParseAll(Ints(n), tagged, mode, src) == Err(e)
  {
    hide ParseAll, ParseNum, Parse, ParsedSoFar;
    ParsedOneMore(Ints(n), i, tagged, mode, src, vs, at);
    NumParsed(tagged, mode, at);
  }

  lemma AllParsed(n: nat, tagged: bool, mode: StreamMode, src: Source, vs: seq<Value>, nums: seq<int>, at: Source)
    requires IntsParsed(n, n, tagged, mode, src, vs, nums, at)
    ensures ParseAll(Ints(n), tagged, mode, src) == Ok((vs, at)) && AreKinds(vs, Ints(n)) && nums == NumsOf(vs)
  {
    hide ParseAll;
    assert Ints(n)[..n] == Ints(n);
    ParsedKinds(Ints(n), tagged, mode, src);
  }

  lemma NumParsed(tagged: bool, mode: StreamMode, src: Source)
    ensures Parse(KNum(I32), tagged, mode, src) ==
            match ParseNum(I32, tagged, mode, src)
            case Ok((n, src')) => Ok((VNum(I32, n), src'))
            case Err(e) => Err(e)
  {
  }

  method Deserialize(reader: BdReader) returns (r: Result<MatchMakingInfo>)
    requires reader.Valid()
    modifies reader`pos, reader`bitOffset, reader`lastByte, reader`hasDataTypeCached
    ensures reader.Valid()
    ensures match ParseInfo(reader.typeChecked, reader.mode, old(reader.Src()))
            case Ok((info, src')) => r == Ok(info) && reader.Src() == src'
            case Err(e) => r == Err(e)
  {
    hide ParseAll, Parse, BdReader.Src, Ints, AreKinds;
    var address :- reader.ReadBlob();
    var host :- reader.ReadBlob();
    var key :- reader.ReadBlob();
    if |address| != ADDRESS_LEN || |host| != ID_LEN || |key| != SECRET_LEN {
      return Err(Malformed);
    }
    var nums :- ReadInts(reader, FIELDS);
    r := Ok(Assembled(address, host, key, nums));
  }
}
