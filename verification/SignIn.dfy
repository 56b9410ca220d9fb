/** Signing in, end to end: the issuer that hands out a ticket and a proof, and the
    lobby that admits whoever presents the proof in time. */
module SignIn {
  import opened Bits
  import opened BdFormat
  import opened BdWriting
  import opened KeyStore
  import opened AuthProof

  const TICKET_SIZE := 128
  const TICKET_LIFETIME_SECONDS := 5 * 60
  const MAGIC_NUMBER := 0xEFBDADDE
  const LICENSE := 1
  const USER_TO_SERVICE := 0

  datatype AuthTicket = AuthTicket(
    ticketType: int,
    title: Title,
    timeIssued: int,
    timeExpires: int,
    licenseId: int,
    userId: int,
    username: seq<bv8>,
    sessionKey: seq<bv8>)
  {
    predicate WellTyped() {
      && 0 <= ticketType <= 2 && U32.Holds(timeIssued) && U32.Holds(timeExpires)
      && U64.Holds(licenseId) && U64.Holds(userId) && |sessionKey| == SESSION_KEY_SIZE
    }

    /** Everything before the name. */
    function Front(): (r: seq<bv8>)
      requires WellTyped()
      ensures |r| == 33
    {
      TicketFits(this);
      hide NumType.Holds, NumType.ToBytes;
      U32.ToBytes(MAGIC_NUMBER) + U8.ToBytes(ticketType) + U32.ToBytes(title.ToU32()) + U32.ToBytes(timeIssued)
      + U32.ToBytes(timeExpires) + U64.ToBytes(licenseId) + U64.ToBytes(userId)
    }

    function Bytes(): (r: seq<bv8>)
      requires WellTyped() && |username| <= NAME_SIZE
      ensures |r| == 125
    {
      Front() + username + Nuls(NAME_SIZE - |username|) + sessionKey + Nuls(4)
    }
  }

  lemma TicketFits(t: AuthTicket)
    requires 0 <= t.ticketType <= 2
    ensures U32.Holds(MAGIC_NUMBER) && U8.Holds(t.ticketType) && U32.Holds(t.title.ToU32())
  {
    TitleFits(t.title);
    hide Title.ToU32;
    Pow256Of4();
    assert Pow256(1) == 256;
  }

  /** What a client reads out of a ticket's bytes. */
  function ReadTicket(b: seq<bv8>): Checked<AuthTicket>
    requires |b| == TICKET_SIZE
  {
    var title :- TitleFrom(U32.FromBytes(b[5..9]));
    var name := b[33..97];
    Granted(AuthTicket(U8.FromBytes(b[4..5]), title, U32.FromBytes(b[9..13]), U32.FromBytes(b[13..17]),
                       U64.FromBytes(b[17..25]), U64.FromBytes(b[25..33]), name[..NulAt(name)], b[97..121]))
  }

  /** Where each field stands in a ticket. */
  lemma TicketAt(t: AuthTicket)
    requires t.WellTyped() && |t.username| <= NAME_SIZE
    requires U32.Holds(MAGIC_NUMBER) && U8.Holds(t.ticketType) && U32.Holds(t.title.ToU32())
    ensures var b := t.Bytes() + Nuls(3);
            && b[..4] == U32.ToBytes(MAGIC_NUMBER) && b[4..5] == U8.ToBytes(t.ticketType)
            && b[5..9] == U32.ToBytes(t.title.ToU32())
            && b[9..13] == U32.ToBytes(t.timeIssued) && b[13..17] == U32.ToBytes(t.timeExpires)
            && b[17..25] == U64.ToBytes(t.licenseId) && b[25..33] == U64.ToBytes(t.userId)
            && b[33..97] == t.username + Nuls(64 - |t.username|) && b[97..121] == t.sessionKey
    ensures MAGIC_NUMBER == 0xEFBD_ADDE
  {
    hide NumType.ToBytes, NumType.Holds;
    var f, b := t.Front(), t.Bytes() + Nuls(3);
    assert b[..33] == f;
    assert b[33..97] == t.username + Nuls(NAME_SIZE - |t.username|);
    assert b[97..121] == t.sessionKey;
    assert f[..4] == U32.ToBytes(MAGIC_NUMBER) && f[4..5] == U8.ToBytes(t.ticketType);
    assert f[5..9] == U32.ToBytes(t.title.ToU32()) && f[9..13] == U32.ToBytes(t.timeIssued);
    assert f[13..17] == U32.ToBytes(t.timeExpires) && f[17..25] == U64.ToBytes(t.licenseId);
    assert f[25..33] == U64.ToBytes(t.userId);
  }

  lemma {:induction false} TicketNumbers(t: AuthTicket)
    requires t.WellTyped() && |t.username| <= NAME_SIZE
    ensures var b := t.Bytes() + Nuls(3);
            && U8.FromBytes(b[4..5]) == t.ticketType && TitleFrom(U32.FromBytes(b[5..9])) == Granted(t.title)
            && U32.FromBytes(b[9..13]) == t.timeIssued && U32.FromBytes(b[13..17]) == t.timeExpires
            && U64.FromBytes(b[17..25]) == t.licenseId && U64.FromBytes(b[25..33]) == t.userId
  {
    TicketFits(t);
    TicketAt(t);
    hide NumType.ToBytes, NumType.FromBytes, NumType.Holds, AuthTicket.Bytes, Nuls, TitleFrom, Title.ToU32;
    NumRoundTrip(U8, t.ticketType);
    NumRoundTrip(U32, t.title.ToU32());
    NumRoundTrip(U32, t.timeIssued);
    NumRoundTrip(U32, t.timeExpires);
    NumRoundTrip(U64, t.licenseId);
    NumRoundTrip(U64, t.userId);
    TitleRoundTrip(t.title.ToU32(), t.title);
  }

  /** A ticket's fields are all there, at their places, exactly for a NUL-free name. */
  lemma {:induction false} TicketBack(t: AuthTicket)
    requires t.WellTyped() && |t.username| <= NAME_SIZE
    ensures ReadTicket(t.Bytes() + Nuls(3)) == Granted(t) <==> 0 !in t.username
  {
    TicketFits(t);
    TicketAt(t);
    TicketNumbers(t);
    NamePadded(t.username, NAME_SIZE - |t.username|);
    hide NumType.ToBytes, NumType.FromBytes, NumType.Holds, AuthTicket.Bytes, Nuls, NulAt, TitleFrom, Title.ToU32,
         AuthTicket.WellTyped;
    var b := t.Bytes() + Nuls(3);
    var name := b[33..97];
    assert ReadTicket(b) == Granted(t.(username := name[..NulAt(name)]));
  }

  // ---- writing a ticket ----

  /** A byte stream grew by these bytes. */
  predicate Wrote(from: seq<bool>, bytes: seq<bv8>, to: seq<bool>) {
    to == from + BitsOf(bytes)
  }

  lemma WroteMore(from: seq<bool>, bytes: seq<bv8>, to: seq<bool>, more: seq<bv8>, next: seq<bool>)
    requires Wrote(from, bytes, to) && next == to + BitsOf(more)
    ensures Wrote(from, bytes + more, next)
  {
    BitsOfAppend(bytes, more);
    assert from + BitsOf(bytes) + BitsOf(more) == from + (BitsOf(bytes) + BitsOf(more));
  }

  /** Byte after byte, with nothing pending. */
  predicate PlainBytes(writer: BdWriter)
    reads writer
  {
    writer.Valid() && writer.mode == ByteMode && !writer.typeChecked && writer.bitOffset == 8
  }

  /** The writer has put out these bytes since it stood at `from`. */
  predicate PutOut(writer: BdWriter, from: seq<bool>, bytes: seq<bv8>)
    reads writer
  {
    PlainBytes(writer) && Wrote(from, bytes, writer.Stream())
  }

  method PutNum(writer: BdWriter, t: NumType, n: int, ghost from: seq<bool>, ghost bytes: seq<bv8>)
    requires t.Holds(n) && PutOut(writer, from, bytes)
    modifies writer`out, writer`bitOffset, writer`lastByte
    ensures PutOut(writer, from, bytes + t.ToBytes(n))
  {
    ghost var to := writer.Stream();
    hide NumType.ToBytes, NumType.Holds, BdWriter.Stream, Wrote;
    writer.WriteNum(t, n);
    assert EncodeNum(t, n, false, ByteMode) == BitsOf(t.ToBytes(n)) by {
      assert [] + BitsOf(t.ToBytes(n)) == BitsOf(t.ToBytes(n));
    }
    WroteMore(from, bytes, to, t.ToBytes(n), writer.Stream());
  }

  method PutBytes(writer: BdWriter, more: seq<bv8>, ghost from: seq<bool>, ghost bytes: seq<bv8>)
    requires PutOut(writer, from, bytes)
    modifies writer`out, writer`bitOffset, writer`lastByte
    ensures PutOut(writer, from, bytes + more)
  {
    ghost var to := writer.Stream();
    hide BdWriter.Stream, Wrote;
    writer.WriteBytes(more);
    WroteMore(from, bytes, to, more, writer.Stream());
  }

  method StartBytes(writer: BdWriter, ghost from: seq<bool>)
    requires writer.Valid() && writer.bitOffset == 8 && from == writer.Stream()
    modifies writer`mode, writer`typeChecked
    ensures PutOut(writer, from, [])
  {
    writer.SetTypeChecked(false);
    writer.SetMode(ByteMode);
    assert from + BitsOf([]) == from;
  }

  /** The fields before the name. */
  method WriteFront(ticket: AuthTicket, writer: BdWriter, ghost from: seq<bool>)
    requires ticket.WellTyped() && PutOut(writer, from, [])
    modifies writer`out, writer`bitOffset, writer`lastByte
    ensures PutOut(writer, from, ticket.Front())
  {
    TicketFits(ticket);
    FrontIs(ticket);
    hide NumType.ToBytes, NumType.Holds, PutOut, Title.ToU32, AuthTicket.Front;
    ghost var done := U32.ToBytes(MAGIC_NUMBER);
    assert [] + done == done;
    PutNum(writer, U32, MAGIC_NUMBER, from, []);
    PutNum(writer, U8, ticket.ticketType, from, done);
    done := done + U8.ToBytes(ticket.ticketType);
    PutNum(writer, U32, ticket.title.ToU32(), from, done);
    done := done + U32.ToBytes(ticket.title.ToU32());
    PutNum(writer, U32, ticket.timeIssued, from, done);
    done := done + U32.ToBytes(ticket.timeIssued);
    PutNum(writer, U32, ticket.timeExpires, from, done);
    done := done + U32.ToBytes(ticket.timeExpires);
    PutNum(writer, U64, ticket.licenseId, from, done);
    done := done + U64.ToBytes(ticket.licenseId);
    PutNum(writer, U64, ticket.userId, from, done);
  }

  lemma FrontIs(t: AuthTicket)
    requires t.WellTyped()
    requires U32.Holds(MAGIC_NUMBER) && U8.Holds(t.ticketType) && U32.Holds(t.title.ToU32())
    ensures t.Front() == U32.ToBytes(MAGIC_NUMBER) + U8.ToBytes(t.ticketType) + U32.ToBytes(t.title.ToU32())
                         + U32.ToBytes(t.timeIssued) + U32.ToBytes(t.timeExpires) + U64.ToBytes(t.licenseId)
                         + U64.ToBytes(t.userId)
  {
    hide NumType.ToBytes, NumType.Holds;
  }

  /** The name, filled up, and what comes after it. */
  method WriteName(ticket: AuthTicket, writer: BdWriter, ghost from: seq<bool>)
    requires ticket.WellTyped() && |ticket.username| <= NAME_SIZE && PutOut(writer, from, ticket.Front())
    modifies writer`out, writer`bitOffset, writer`lastByte
    ensures PutOut(writer, from, ticket.Bytes())
  {
    hide PutOut, AuthTicket.Front, NumType.Holds;
    ghost var named := ticket.Front() + ticket.username;
    PutBytes(writer, ticket.username, from, ticket.Front());
    var done := |ticket.username|;
    assert named + Nuls(0) == named;
    while done < NAME_SIZE
      invariant |ticket.username| <= done <= NAME_SIZE
      invariant PutOut(writer, from, named + Nuls(done - |ticket.username|))
    {
      ghost var padded := named + Nuls(done - |ticket.username|);
      PutBytes(writer, [0], from, padded);
      assert padded + [0] == named + Nuls(done + 1 - |ticket.username|);
      done := done + 1;
    }
    ghost var padded := named + Nuls(NAME_SIZE - |ticket.username|);
    PutBytes(writer, ticket.sessionKey, from, padded);
    PutBytes(writer, [0, 0, 0, 0], from, padded + ticket.sessionKey);
    assert Nuls(4) == [0, 0, 0, 0];
  }

  /** The fields before the name are written even when the name is refused. */
  method SerializeTicket(ticket: AuthTicket, writer: BdWriter) returns (r: Checked<()>)
    requires ticket.WellTyped() && writer.Valid() && writer.bitOffset == 8
    modifies writer`out, writer`bitOffset, writer`lastByte, writer`mode, writer`typeChecked
    ensures if |ticket.username| <= NAME_SIZE
            then r == Granted(()) && PutOut(writer, old(writer.Stream()), ticket.Bytes())
            else r == Refused(UsernameTooLong) && PutOut(writer, old(writer.Stream()), ticket.Front())
  {
    ghost var from := writer.Stream();
    StartBytes(writer, from);
    hide PutOut, AuthTicket.Front, AuthTicket.Bytes, NumType.Holds, BdWriter.Stream;
    WriteFront(ticket, writer, from);
    if |ticket.username| > NAME_SIZE {
      return Refused(UsernameTooLong);
    }
    WriteName(ticket, writer, from);
    r := Granted(());
  }

  /** `serialize_ticket`: always 128 bytes, or a refusal. */
  method TicketOf(ticket: AuthTicket) returns (r: Checked<seq<bv8>>)
    requires ticket.WellTyped()
    ensures r == if |ticket.username| <= NAME_SIZE then Granted(ticket.Bytes() + Nuls(3)) else Refused(UsernameTooLong)
  {
    var writer := new BdWriter();
    hide AuthTicket.Front, AuthTicket.Bytes, NumType.Holds, PutOut;
    var written := SerializeTicket(ticket, writer);
    if written.Refused? {
      return Refused(written.why);
    }
    AllPutOut(writer, ticket.Bytes());
    if |writer.out| > TICKET_SIZE {
      return Refused(UsernameTooLong);
    }
    var buf := writer.out + Nuls(TICKET_SIZE - |writer.out|);
    r := Granted(buf);
  }

  lemma AllPutOut(writer: BdWriter, bytes: seq<bv8>)
    requires PutOut(writer, [], bytes)
    ensures writer.out == bytes
  {
    assert writer.Stream() == BitsOf(writer.out) && [] + BitsOf(bytes) == BitsOf(bytes);
    BitsOfInjective(writer.out, bytes);
  }

  // ---- issuing ----

  /** `% u32::MAX as i64`, whose sign is the dividend's, then `as u32`. */
  function TimeField(seconds: int): (r: int)
    ensures U32.Holds(r)
  {
    Pow256Of4();
    var m := if seconds >= 0 then seconds % 0xFFFF_FFFF else -((-seconds) % 0xFFFF_FFFF);
    m % 0x1_0000_0000
  }

  function IssuedProof(title: Title, userId: int, username: seq<bv8>, sessionKey: seq<bv8>, now: int): OpaqueProof {
    OpaqueProof(title, now + TICKET_LIFETIME_SECONDS, LICENSE, userId, sessionKey, username)
  }

  function IssuedTicket(title: Title, userId: int, username: seq<bv8>, sessionKey: seq<bv8>, now: int): AuthTicket {
    AuthTicket(USER_TO_SERVICE, title, TimeField(now), TimeField(now + TICKET_LIFETIME_SECONDS), LICENSE, userId,
               username, sessionKey)
  }

  /** What the two halves of a reply say to those who can read them: the ticket to the
      client, and the proof to the lobby once opened. */
  predicate ReplySays(ticket: seq<bv8>, plain: seq<bv8>, title: Title, userId: int, username: seq<bv8>,
                      sessionKey: seq<bv8>, now: int)
  {
    && |ticket| == TICKET_SIZE && |plain| == PROOF_SIZE && HasMagic(plain)
    && var (t, p) := (ReadTicket(ticket), ReadFields(plain));
       && t.Granted? && p.Granted?
       && t.value.title == p.value.title == title
       && t.value.userId == p.value.userId == userId
       && t.value.username == p.value.username == username
       && t.value.sessionKey == p.value.sessionKey == sessionKey
       && t.value.licenseId == p.value.licenseId == 1 && t.value.ticketType == 0
       && p.value.timeExpires == now + 300
       && (0 <= now && now + 300 < 0xFFFF_FFFF ==> t.value.timeIssued == now && t.value.timeExpires == now + 300)
  }

  lemma {:induction false} IssuedSays(title: Title, userId: int, username: seq<bv8>, sessionKey: seq<bv8>, now: int)
    requires |username| <= NAME_SIZE && 0 !in username
    requires IssuedTicket(title, userId, username, sessionKey, now).WellTyped()
    requires IssuedProof(title, userId, username, sessionKey, now).WellTyped()
    ensures ReplySays(IssuedTicket(title, userId, username, sessionKey, now).Bytes() + Nuls(3),
                      IssuedProof(title, userId, username, sessionKey, now).Plain(),
                      title, userId, username, sessionKey, now)
  {
    TicketBack(IssuedTicket(title, userId, username, sessionKey, now));
    FieldsBack(IssuedProof(title, userId, username, sessionKey, now));
    TimeFieldIs(now);
    TimeFieldIs(now + TICKET_LIFETIME_SECONDS);
    assert |IssuedTicket(title, userId, username, sessionKey, now).Bytes() + Nuls(3)| == TICKET_SIZE;
    hide AuthTicket.Bytes, OpaqueProof.Plain, ReadTicket, ReadFields, AuthTicket.WellTyped, OpaqueProof.WellTyped, HasMagic,
         Nuls, TimeField;
  }

  /** A time that fits is carried as it is. */
  lemma TimeFieldIs(seconds: int)
    ensures 0 <= seconds < 0xFFFF_FFFF ==> TimeField(seconds) == seconds
  {
  }

  datatype AuthReply = AuthReply(clientTicket: seq<bv8>, serverTicket: seq<bv8>)

  /** The issuing step of `handle_auth`.  A refusal leaves the keys alone, and the
      check on the ticket's name is what lets the proof never overrun. */
  method HandleAuth(c: Cipher, store: InMemoryKeyStore, titleId: int, userId: int, username: seq<bv8>,
                    sessionKey: seq<bv8>, now: int, made: Secret)
    returns (r: Checked<AuthReply>)
    requires store.Valid() && UndoesItself(c)
    requires U64.Holds(userId) && |sessionKey| == SESSION_KEY_SIZE && ValidUtf8(username)
    requires I64.Holds(now + TICKET_LIFETIME_SECONDS)
    modifies store, store.keys
    ensures store.Valid()
    ensures r.Refused? ==> store.State() == old(store.State())
    ensures r.Refused? <==> TitleFrom(titleId).Refused? || |username| > NAME_SIZE
    ensures r.Refused? ==> r == Refused(if TitleFrom(titleId).Refused? then UnknownTitle else UsernameTooLong)
    ensures r.Granted? ==>
              var title := TitleFrom(titleId).value;
              var proof := IssuedProof(title, userId, username, sessionKey, now);
              var ticket := IssuedTicket(title, userId, username, sessionKey, now);
              && proof.WellTyped() && ticket.WellTyped()
              && store.State() == old(store.State()).Asked(now, made)
              && r.value.clientTicket == ticket.Bytes() + Nuls(3)
              && r.value.serverTicket == c.encrypt(store.State().Current().secret, proof.Plain())
    ensures r.Granted? && 0 !in username ==>
              ReplySays(r.value.clientTicket, c.decrypt(store.State().Current().secret, r.value.serverTicket),
                        TitleFrom(titleId).value, userId, username, sessionKey, now)
  {
    LicenseFits();
    hide NumType.Holds, OpaqueProof.Plain, AuthTicket.Bytes, TimeField, ValidUtf8, ReplySays;
    var found := TitleFrom(titleId);
    if found.Refused? {
      return Refused(found.why);
    }
    var title := found.value;
    var ticket := IssuedTicket(title, userId, username, sessionKey, now);
    var clientTicket := TicketOf(ticket);
    if clientTicket.Refused? {
      return Refused(clientTicket.why);
    }
    var proof := IssuedProof(title, userId, username, sessionKey, now);
    var serverTicket := Serialize(proof, c, store, now, made);
    r := Granted(AuthReply(clientTicket.value, serverTicket.value));
    if 0 !in username {
      IssuedSays(title, userId, username, sessionKey, now);
    }
  }

  lemma LicenseFits()
    ensures U64.Holds(LICENSE)
  {
    assert Pow256(1) == 256;
    assert Pow256(8) >= Pow256(1);
  }

  // ---- admitting ----

  datatype SessionAuthentication = SessionAuthentication(userId: int, username: seq<bv8>, sessionKey: seq<bv8>, title: Title)

  function Admit(c: Cipher, keys: seq<Secret>, titleId: int, buf: seq<bv8>, now: int): Checked<SessionAuthentication> {
    var title :- TitleFrom(titleId);
    var proof :- ReadProof(c, buf, keys);
    if proof.timeExpires < now then Refused(AuthenticationExpired)
    else if proof.title != title then Refused(InvalidTitle)
    else Granted(SessionAuthentication(proof.userId, proof.username, proof.sessionKey, proof.title))
  }

  /** The checks of `LsgHandler::handle_message`, once the message is read. */
  method Authenticate(c: Cipher, store: InMemoryKeyStore, titleId: int, buf: seq<bv8>, now: int)
    returns (r: Checked<SessionAuthentication>)
    requires store.Valid()
    ensures r == Admit(c, store.State().ValidKeys(now), titleId, buf, now)
  {
    var found := TitleFrom(titleId);
    if found.Refused? {
      return Refused(found.why);
    }
    var read := Deserialize(c, buf, store, now);
    if read.Refused? {
      return Refused(read.why);
    }
    if read.value.timeExpires < now {
      return Refused(AuthenticationExpired);
    }
    if read.value.title != found.value {
      return Refused(InvalidTitle);
    }
    var proof := read.value;
    r := Granted(SessionAuthentication(proof.userId, proof.username, proof.sessionKey, proof.title));
  }

  // ---- end to end ----

  /** The key a proof was made with can still be used at any time its clock reading
      and all readings in between stay within fourteen minutes of the issue. */
  lemma {:induction false} IssuingKeyKept(before: seq<Ask>, t: int, made: Secret, after: seq<Ask>, now: int)
    requires AfterEpoch(before) && t > 0 && AfterEpoch(after) && now <= t + 840
    requires forall i :: 0 <= i < |after| ==> after[i].now <= t + 840
    ensures IssuingKey(before, t, made) in KeysLeft(before, t, made, after, now)
  {
    NewRingInv();
    KeyStore.RunKeeps(NewRing(), before);
    AskedKeeps(Run(NewRing(), before), t, made);
    var issued := Run(NewRing(), before).Asked(t, made);
    KeyStays(issued, after, issued.Current());
    ValidKeysAre(Run(issued, after).keys, now, issued.Current().secret);
  }

  /** What a holder of a proof gets, given whether its key is still about. */
  lemma {:induction false} Admitted(c: Cipher, p: OpaqueProof, key: Secret, keys: seq<Secret>, titleId: int, now: int)
    requires UndoesItself(c)
    requires p.WellTyped() && |p.username| <= NAME_SIZE && 0 !in p.username && !Mistaken(c, key, p.Plain(), keys)
    requires now <= p.timeExpires ==> key in keys
    ensures var buf := c.encrypt(key, p.Plain());
            var r := Admit(c, keys, titleId, buf, now);
            && (now <= p.timeExpires ==> ReadProof(c, buf, keys) == Granted(p))
            && (r.Granted? <==> now <= p.timeExpires && titleId == p.title.ToU32())
            && (r.Granted? ==> r.value == SessionAuthentication(p.userId, p.username, p.sessionKey, p.title))
            && (TitleFrom(titleId).Refused? ==> r == Refused(UnknownTitle))
            && (TitleFrom(titleId).Granted? && now > p.timeExpires ==> r == Refused(AuthenticationExpired) || r == Refused(UnknownKey))
            && (TitleFrom(titleId).Granted? && now <= p.timeExpires && titleId != p.title.ToU32() ==> r == Refused(InvalidTitle))
  {
    FieldsBack(p);
    OpensOrNot(c, key, p.Plain(), keys);
    TitleRoundTrip(titleId, p.title);
    hide UndoesItself, Mistaken, OpaqueProof.Plain, ReadFields, HasMagic, TitleFrom, Title.ToU32, Opened, ValidUtf8,
         NumType.Holds;
  }

  /** The key a proof was made with. */
  function IssuingKey(before: seq<Ask>, t: int, made: Secret): Secret {
    Run(NewRing(), before).Asked(t, made).Current().secret
  }

  /** The keys still valid at `now`, after more calls. */
  function KeysLeft(before: seq<Ask>, t: int, made: Secret, after: seq<Ask>, now: int): seq<Secret> {
    Run(Run(NewRing(), before).Asked(t, made), after).ValidKeys(now)
  }

  /** With a clock that does not run back, however many proofs are issued and keys
      rotated in between, a proof issued at t and presented at `now` gives back
      exactly what was issued, and admits its user if and only if it is presented
      for its own title within five minutes.  The one thing assumed of the keys is
      that none tried before the proof's own mistakes it. */
  lemma {:induction false} ProofEndToEnd(c: Cipher, before: seq<Ask>, p: OpaqueProof, t: int, made: Secret,
                                         after: seq<Ask>, titleId: int, now: int)
    requires UndoesItself(c)
    requires p.WellTyped() && |p.username| <= NAME_SIZE && 0 !in p.username
    requires p == IssuedProof(p.title, p.userId, p.username, p.sessionKey, t)
    requires AfterEpoch(before) && 0 < t <= now
    requires forall i :: 0 <= i < |after| ==> t <= after[i].now <= now
    requires !Mistaken(c, IssuingKey(before, t, made), p.Plain(), KeysLeft(before, t, made, after, now))
    ensures var buf := c.encrypt(IssuingKey(before, t, made), p.Plain());
            var keys := KeysLeft(before, t, made, after, now);
            var r := Admit(c, keys, titleId, buf, now);
            && (now <= t + 300 ==> ReadProof(c, buf, keys) == Granted(p))
            && (r.Granted? <==> now <= t + 300 && titleId == p.title.ToU32())
            && (r.Granted? ==> r.value == SessionAuthentication(p.userId, p.username, p.sessionKey, p.title))
            && (TitleFrom(titleId).Refused? ==> r == Refused(UnknownTitle))
            && (TitleFrom(titleId).Granted? && now > t + 300 ==> r == Refused(AuthenticationExpired) || r == Refused(UnknownKey))
            && (TitleFrom(titleId).Granted? && now <= t + 300 && titleId != p.title.ToU32() ==> r == Refused(InvalidTitle))
  {
    if now <= t + 300 {
      IssuingKeyKept(before, t, made, after, now);
    }
    hide Admit, ReadProof, TitleFrom, UndoesItself, Mistaken, OpaqueProof.Plain, ValidUtf8, NumType.Holds, IssuingKey, KeysLeft;
    Admitted(c, p, IssuingKey(before, t, made), KeysLeft(before, t, made, after, now), titleId, now);
  }

  // ---- the hypotheses can be met ----

  function Shifted(k: Secret, m: seq<bv8>): seq<bv8> {
    if k == [] || m == [] then m else [m[0] + k[0]] + m[1..]
  }

  function ShiftedBack(k: Secret, m: seq<bv8>): seq<bv8> {
    if k == [] || m == [] then m else [m[0] - k[0]] + m[1..]
  }

  /** A cipher that a wrong key never undoes: it moves the first byte by the key's. */
  function Shift(): Cipher {
    Cipher((k, m) => Shifted(k, m), (k, m) => ShiftedBack(k, m))
  }

  lemma ShiftUndoesItself()
    ensures UndoesItself(Shift())
  {
    forall k: Secret, m: seq<bv8> | |m| == PROOF_SIZE
      ensures ShiftedBack(k, Shifted(k, m)) == m
    {
    }
  }

  lemma MagicStarts(m: seq<bv8>)
    requires HasMagic(m)
    ensures m[0] == 0x37
  {
    var b := m[..8];
    LowByte(b[0] as int, FromLe(b[1..]));
    assert FromLe(b) == MAGIC;
    assert MAGIC % 256 == 0x37;
    IntOfByte(b[0]);
  }

  lemma ShiftTells(k: Secret, other: Secret, m: seq<bv8>)
    requires HasMagic(m) && k != [] && other != [] && k[0] != other[0]
    ensures !HasMagic(Shift().decrypt(other, Shift().encrypt(k, m)))
  {
    var n := ShiftedBack(other, Shifted(k, m));
    MagicStarts(m);
    assert m[0] + k[0] - other[0] != m[0];
    if HasMagic(n) {
      MagicStarts(n);
    }
  }

  /** Two keys made 61 seconds apart are both still valid, a proof was made under the
      first, and everything the end-to-end results assume holds. */
  lemma {:induction false} HypothesesMet() returns (c: Cipher, before: seq<Ask>, p: OpaqueProof, t: int, made: Secret, after: seq<Ask>, now: int)
    ensures UndoesItself(c) && p.WellTyped() && |p.username| <= NAME_SIZE && 0 !in p.username
    ensures p == IssuedProof(p.title, p.userId, p.username, p.sessionKey, t)
    ensures AfterEpoch(before) && 0 < t <= now && forall i :: 0 <= i < |after| ==> t <= after[i].now <= now
    ensures var keys := KeysLeft(before, t, made, after, now);
            && NoneMistaken(c, IssuingKey(before, t, made), p.Plain(), keys) && !Mistaken(c, IssuingKey(before, t, made), p.Plain(), keys)
            && IssuingKey(before, t, made) in keys && exists other :: other in keys && other != IssuingKey(before, t, made)
  {
    c, before, t, made, after, now := Shift(), [], 1, [1], [Ask(62, [2])], 62;
    p := IssuedProof(Iw4, 7, [], Nuls(SESSION_KEY_SIZE), t);
    ShiftUndoesItself();
    SmallFields();
    FieldsBack(p);
    TwoKeys();
    var keys := KeysLeft(before, t, made, after, now);
    forall other | other in keys && other != [1]
      ensures !HasMagic(c.decrypt(other, c.encrypt([1], p.Plain())))
    {
      ShiftTells([1], other, p.Plain());
    }
    hide OpaqueProof.Plain, Shift, UndoesItself, KeysLeft, HasMagic;
    OpensUnderItsKey(c, [1], p.Plain(), keys);
    assert [2] in keys && [2] != IssuingKey(before, t, made);
  }

  lemma SmallFields()
    ensures I64.Holds(301) && U64.Holds(7) && U64.Holds(LICENSE) && ValidUtf8([])
  {
    assert Pow256(1) == 256 && Pow256(2) == 65536;
    assert Pow256(8) >= 65536;
  }

  lemma {:induction false} TwoKeys()
    ensures IssuingKey([], 1, [1]) == [1]
    ensures forall key: Secret :: key in KeysLeft([], 1, [1], [Ask(62, [2])], 62) <==> key == [1] || key == [2]
  {
    var first := NewRing().Asked(1, [1]);
    assert first == Ring(NewRing().keys[1 := Key([1], 901)], 1);
    var both := first.Asked(62, [2]);
    assert both == Ring(first.keys[2 := Key([2], 962)], 2);
    assert [Ask(62, [2])][1..] == [];
    assert Run(first, [Ask(62, [2])]) == both;
    forall key: Secret
      ensures key in both.ValidKeys(62) <==> key == [1] || key == [2]
    {
      ValidKeysAre(both.keys, 62, key);
      assert both.keys[1] == Key([1], 901) && both.keys[2] == Key([2], 962);
    }
  }
}
