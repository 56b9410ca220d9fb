/** The login message: read from the wire, checked, and made known to the router. */
module Lsg {
  import opened Bits
  import opened Wrappers
  import opened BdFormat
  import opened BdRoundTrip
  import opened BdReading
  import opened KeyStore
  import opened AuthProof
  import opened SignIn
  import opened Lifecycle

  datatype Login =
    | LoggedIn(auth: SessionAuthentication)
    | Unreadable(error: Error)
    | Denied(why: Refusal)

  function Admitted(r: Checked<SessionAuthentication>): Login {
    match r
    case Granted(auth) => LoggedIn(auth)
    case Refused(why) => Denied(why)
  }

  /** The title is checked before the rest is read. */
  function LoginFrom(c: Cipher, keys: seq<Secret>, tagged: bool, mode: StreamMode, src: Source, now: int): Login {
    match ParseNum(U32, tagged, mode, src)
    case Err(e) => Unreadable(e)
    case Ok((titleId, src1)) =>
      if TitleFrom(titleId).Refused? then Denied(UnknownTitle)
      else
        match SeedAndProof(tagged, mode, src1)
        case Err(e) => Unreadable(e)
        case Ok(proof) => Admitted(Admit(c, keys, titleId, proof, now))
  }

  function SeedAndProof(tagged: bool, mode: StreamMode, src: Source): Result<seq<bv8>> {
    var (_, src1) :- ParseNum(U32, tagged, mode, src);
    var (bits, _) :- Take(src1, 8 * PROOF_SIZE);
    Ok(BytesFrom(bits))
  }

  method ReadSeedAndProof(reader: BdReader) returns (r: Result<seq<bv8>>)
    requires reader.Valid()
    modifies reader`pos, reader`bitOffset, reader`lastByte, reader`hasDataTypeCached
    ensures reader.Valid()
    ensures r == SeedAndProof(reader.typeChecked, reader.mode, old(reader.Src()))
  {
    hide ParseNum, BdReader.Src, BytesFrom;
    var _ :- reader.ReadNum(U32);
    r := reader.ReadBytes(PROOF_SIZE);
  }

  /** `LsgHandler::handle_message`: only a login changes what the router reaches. */
  method HandleMessage(reader: BdReader, c: Cipher, store: InMemoryKeyStore, router: MessageRouter, session: SessionId, now: int)
    returns (r: Login)
    requires reader.Valid() && store.Valid()
    modifies reader`pos, reader`bitOffset, reader`lastByte, reader`hasDataTypeCached, router`recipients
    ensures r == LoginFrom(c, store.State().ValidKeys(now), reader.typeChecked, reader.mode, old(reader.Src()), now)
    ensures router.recipients ==
            if r.LoggedIn? then old(router.recipients)[r.auth.userId := Recipient(session, r.auth.sessionKey)]
            else old(router.recipients)
  {
    hide ParseNum, BdReader.Src, SeedAndProof, TitleFrom, Admit, BytesFrom, KeyStore.Ring.ValidKeys;
    var titleId := reader.ReadNum(U32);
    if titleId.Err? {
      return Unreadable(titleId.error);
    }
    if TitleFrom(titleId.value).Refused? {
      return Denied(UnknownTitle);
    }
    var proof := ReadSeedAndProof(reader);
    if proof.Err? {
      return Unreadable(proof.error);
    }
    var admitted := SignIn.Authenticate(c, store, titleId.value, proof.value, now);
    if admitted.Refused? {
      return Denied(admitted.why);
    }
    var auth := admitted.value;
    router.Register(session, Some(Auth(auth.userId, auth.sessionKey)));
    r := LoggedIn(auth);
  }

  /** A login message as a client sends it. */
  function LoginBits(titleId: int, seed: int, proof: seq<bv8>, tagged: bool, mode: StreamMode): seq<bool>
    requires U32.Holds(titleId) && U32.Holds(seed)
  {
    EncodeNum(U32, titleId, tagged, mode) + (EncodeNum(U32, seed, tagged, mode) + BitsOf(proof))
  }

  /** From issuing to being reachable: whatever else was issued in between, the proof a
      user was handed logs exactly that user in, with the issued key, if it is sent for
      its own title within five minutes; and after that, or for another title, it does
      not. */
  lemma {:induction false} IssuedProofLogsIn(c: Cipher, before: seq<Ask>, p: OpaqueProof, t: int, made: Secret, after: seq<Ask>,
                                             titleId: int, seed: int, now: int, tagged: bool, mode: StreamMode)
    requires UndoesItself(c)
    requires p.WellTyped() && |p.username| <= NAME_SIZE && 0 !in p.username
    requires p == IssuedProof(p.title, p.userId, p.username, p.sessionKey, t)
    requires AfterEpoch(before) && 0 < t <= now
    requires forall i :: 0 <= i < |after| ==> t <= after[i].now <= now
    requires U32.Holds(titleId) && U32.Holds(seed)
    requires !Mistaken(c, IssuingKey(before, t, made), p.Plain(), KeysLeft(before, t, made, after, now))
    ensures var ticket := c.encrypt(IssuingKey(before, t, made), p.Plain());
            var r := LoginFrom(c, KeysLeft(before, t, made, after, now), tagged, mode,
                               Source(None, LoginBits(titleId, seed, ticket, tagged, mode)), now);
            && (r.LoggedIn? <==> now <= t + 300 && titleId == p.title.ToU32())
            && (r.LoggedIn? ==> r.auth == SessionAuthentication(p.userId, p.username, p.sessionKey, p.title))
  {
    var ticket := c.encrypt(IssuingKey(before, t, made), p.Plain());
    assert |ticket| == PROOF_SIZE;
    ProofEndToEnd(c, before, p, t, made, after, titleId, now);
    ParseNumBack(U32, titleId, tagged, mode, EncodeNum(U32, seed, tagged, mode) + BitsOf(ticket));
    SeedAndProofBack(seed, ticket, tagged, mode);
    hide ParseNum, EncodeNum, SeedAndProof, TitleFrom, OpaqueProof.Plain, IssuingKey, KeysLeft, ReadProof, BitsOf, Mistaken;
  }

  /** A title that is not known is refused whatever follows it, or if nothing does; a
      known one without a whole proof behind it cannot be read. */
  lemma {:induction false} RefusedAtOnce(c: Cipher, keys: seq<Secret>, titleId: int, rest: seq<bool>, seed: int, proof: seq<bv8>,
                                         tagged: bool, mode: StreamMode, now: int)
    requires U32.Holds(titleId) && U32.Holds(seed) && |proof| < 128
    ensures var known := titleId in {2010, 18301, 18395, 18396, 18397, 18409, 18480};
            && (!known ==> LoginFrom(c, keys, tagged, mode, Source(None, EncodeNum(U32, titleId, tagged, mode) + rest), now)
                           == Denied(UnknownTitle))
            && (known ==> LoginFrom(c, keys, tagged, mode, Source(None, LoginBits(titleId, seed, proof, tagged, mode)), now)
                          == Unreadable(UnexpectedEnd))
  {
    TitleRoundTrip(titleId, Iw4);
    ParseNumBack(U32, titleId, tagged, mode, rest);
    ParseNumBack(U32, titleId, tagged, mode, EncodeNum(U32, seed, tagged, mode) + BitsOf(proof));
    ParseNumBack(U32, seed, tagged, mode, BitsOf(proof));
    hide ParseNum, EncodeNum, TitleFrom, BitsOf, Admit, BytesFrom;
  }

  lemma {:induction false} SeedAndProofBack(seed: int, proof: seq<bv8>, tagged: bool, mode: StreamMode)
    requires U32.Holds(seed) && |proof| == PROOF_SIZE
    ensures SeedAndProof(tagged, mode, Source(None, EncodeNum(U32, seed, tagged, mode) + BitsOf(proof))) == Ok(proof)
  {
    hide ParseNum, EncodeNum, BytesFrom;
    ParseNumBack(U32, seed, tagged, mode, BitsOf(proof));
    assert BitsOf(proof) + [] == BitsOf(proof);
    TakeFront(None, BitsOf(proof), []);
    BytesFromBitsOf(proof);
  }
}
