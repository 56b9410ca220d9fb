/** The opaque proof a client carries to the lobby: 128 bytes under a key that only
    the backend knows. */
module AuthProof {
  import opened Bits
  import opened BdFormat
  import opened KeyStore

  datatype Title = Iw4 | Iw5 | T5 | T6Xenon | T6Ps3 | T6Pc | T6WiiU {
    function ToU32(): (n: int)
      ensures 0 <= n < 20000
    {
      match this
      case Iw4 => 2010
      case Iw5 => 18409
      case T5 => 18301
      case T6Xenon => 18395
      case T6Ps3 => 18396
      case T6Pc => 18397
      case T6WiiU => 18480
    }
  }

  datatype Refusal =
    | UnknownTitle
    | UnknownKey
    | NotUtf8
    | AuthenticationExpired
    | InvalidTitle
    | UsernameTooLong

  datatype Checked<+T> = Granted(value: T) | Refused(why: Refusal) {
    predicate IsFailure() {
      Refused?
    }

    function PropagateFailure<U>(): Checked<U>
      requires Refused?
    {
      Refused(why)
    }

    function Extract(): T
      requires Granted?
    {
      value
    }
  }

  function TitleFrom(n: int): Checked<Title> {
    if n == 2010 then Granted(Iw4)
    else if n == 18409 then Granted(Iw5)
    else if n == 18301 then Granted(T5)
    else if n == 18395 then Granted(T6Xenon)
    else if n == 18396 then Granted(T6Ps3)
    else if n == 18397 then Granted(T6Pc)
    else if n == 18480 then Granted(T6WiiU)
    else Refused(UnknownTitle)
  }

  /** Exactly the seven known numbers name a title, and each its own. */
  lemma TitleRoundTrip(n: int, t: Title)
    ensures TitleFrom(n) == Granted(t) <==> n == t.ToU32()
    ensures TitleFrom(n).Refused? <==> n !in {2010, 18301, 18395, 18396, 18397, 18409, 18480}
    ensures (t == Iw4 <==> t.ToU32() == 2010) && (t == T5 <==> t.ToU32() == 18301) && (t == T6Xenon <==> t.ToU32() == 18395)
    ensures (t == T6Ps3 <==> t.ToU32() == 18396) && (t == T6Pc <==> t.ToU32() == 18397)
    ensures (t == Iw5 <==> t.ToU32() == 18409) && (t == T6WiiU <==> t.ToU32() == 18480)
  {
  }

  lemma TitleFits(t: Title)
    ensures U32.Holds(t.ToU32())
  {
    hide Title.ToU32;
    Pow256Of4();
  }

  const MAGIC := 0xC0FFEEFFEEAA1337
  const SESSION_KEY_SIZE := 24
  const NAME_SIZE := 64
  const PROOF_SIZE := 128

  lemma MagicFits()
    ensures U64.Holds(MAGIC)
  {
    Pow256Of4();
    assert Pow256(5) == 256 * Pow256(4) && Pow256(6) == 256 * Pow256(5);
    assert Pow256(7) == 256 * Pow256(6) && Pow256(8) == 256 * Pow256(7);
  }

  datatype OpaqueProof = OpaqueProof(
    title: Title,
    timeExpires: int,
    licenseId: int,
    userId: int,
    sessionKey: seq<bv8>,
    username: seq<bv8>)
  {
    /** What the field types promise. */
    predicate WellTyped() {
      && I64.Holds(timeExpires) && U64.Holds(licenseId) && U64.Holds(userId)
      && |sessionKey| == SESSION_KEY_SIZE && ValidUtf8(username)
    }

    /** Everything before the name. */
    function Header(): (r: seq<bv8>)
      requires WellTyped()
      ensures |r| == 60
    {
      MagicFits();
      TitleFits(title);
      hide NumType.Holds, NumType.ToBytes, ValidUtf8;
      U64.ToBytes(MAGIC) + U32.ToBytes(title.ToU32()) + I64.ToBytes(timeExpires) + U64.ToBytes(licenseId)
      + U64.ToBytes(userId) + sessionKey
    }

    function Plain(): (r: seq<bv8>)
      requires WellTyped() && |username| <= NAME_SIZE
      ensures |r| == PROOF_SIZE
    {
      Header() + username + Nuls(NAME_SIZE - |username|) + Nuls(4)
    }
  }

  function Nuls(n: nat): (r: seq<bv8>)
    ensures |r| == n
    ensures forall i :: 0 <= i < n ==> r[i] == 0
  {
    seq(n, _ => 0)
  }

  /** The first NUL byte, or the end. */
  function NulAt(s: seq<bv8>): (i: nat)
    ensures i <= |s| && forall k :: 0 <= k < i ==> s[k] != 0
    ensures i < |s| ==> s[i] == 0
  {
    if s == [] || s[0] == 0 then 0 else 1 + NulAt(s[1..])
  }

  predicate HasMagic(plain: seq<bv8>) {
    |plain| == PROOF_SIZE && U64.FromBytes(plain[..8]) == MAGIC
  }

  function ReadFields(plain: seq<bv8>): Checked<OpaqueProof>
    requires |plain| == PROOF_SIZE
  {
    var title :- TitleFrom(U32.FromBytes(plain[8..12]));
    var name := plain[60..124];
    var username := name[..NulAt(name)];
    if ValidUtf8(username)
    then Granted(OpaqueProof(title, I64.FromBytes(plain[12..20]), U64.FromBytes(plain[20..28]),
                             U64.FromBytes(plain[28..36]), plain[36..60], username))
    else Refused(NotUtf8)
  }

  // ---- the layout undone ----

  lemma NamePadded(name: seq<bv8>, pad: nat)
    ensures (name + Nuls(pad))[..NulAt(name + Nuls(pad))] == name <==> 0 !in name
  {
    var s := name + Nuls(pad);
    assert s[..|name|] == name;
    assert forall k :: 0 <= k < |name| ==> s[k] == name[k];
    assert pad > 0 ==> s[|name|] == 0;
  }

  /** Where each field stands in the 128 bytes. */
  lemma HeaderAt(p: OpaqueProof)
    requires p.WellTyped() && |p.username| <= NAME_SIZE && U64.Holds(MAGIC) && U32.Holds(p.title.ToU32())
    ensures var b := p.Plain();
            && b[..8] == U64.ToBytes(MAGIC) && b[8..12] == U32.ToBytes(p.title.ToU32())
            && b[12..20] == I64.ToBytes(p.timeExpires) && b[20..28] == U64.ToBytes(p.licenseId)
            && b[28..36] == U64.ToBytes(p.userId) && b[36..60] == p.sessionKey
            && b[60..124] == p.username + Nuls(64 - |p.username|) && b[124..] == [0, 0, 0, 0]
    ensures MAGIC == 0xC0FF_EEFF_EEAA_1337
  {
    hide NumType.ToBytes, NumType.Holds, ValidUtf8;
    var h := p.Header();
    assert p.Plain()[..60] == h;
    assert p.Plain()[60..124] == p.username + Nuls(NAME_SIZE - |p.username|);
    assert h[..8] == U64.ToBytes(MAGIC) && h[8..12] == U32.ToBytes(p.title.ToU32());
    assert h[12..20] == I64.ToBytes(p.timeExpires) && h[20..28] == U64.ToBytes(p.licenseId);
    assert h[28..36] == U64.ToBytes(p.userId) && h[36..60] == p.sessionKey;
  }

  lemma {:induction false} NumbersBack(p: OpaqueProof)
    requires p.WellTyped() && |p.username| <= NAME_SIZE
    ensures var b := p.Plain();
            && HasMagic(b) && TitleFrom(U32.FromBytes(b[8..12])) == Granted(p.title)
            && I64.FromBytes(b[12..20]) == p.timeExpires && U64.FromBytes(b[20..28]) == p.licenseId
            && U64.FromBytes(b[28..36]) == p.userId
  {
    MagicFits();
    TitleFits(p.title);
    HeaderAt(p);
    hide NumType.ToBytes, NumType.FromBytes, NumType.Holds, OpaqueProof.Plain, TitleFrom, Title.ToU32, ValidUtf8;
    NumRoundTrip(U64, MAGIC);
    NumRoundTrip(U32, p.title.ToU32());
    NumRoundTrip(I64, p.timeExpires);
    NumRoundTrip(U64, p.licenseId);
    NumRoundTrip(U64, p.userId);
    TitleRoundTrip(p.title.ToU32(), p.title);
  }

  /** The 128 bytes give back exactly the fields that went in when, and only when,
      the name has no NUL byte. */
  lemma {:induction false} FieldsBack(p: OpaqueProof)
    requires p.WellTyped() && |p.username| <= NAME_SIZE
    ensures HasMagic(p.Plain())
    ensures ReadFields(p.Plain()) == Granted(p) <==> 0 !in p.username
  {
    MagicFits();
    TitleFits(p.title);
    HeaderAt(p);
    NumbersBack(p);
    NamePadded(p.username, NAME_SIZE - |p.username|);
    assert ValidUtf8(p.username);
    hide NumType.ToBytes, NumType.FromBytes, NumType.Holds, OpaqueProof.Plain, Nuls, NulAt, ValidUtf8, TitleFrom,
         Title.ToU32, OpaqueProof.WellTyped, HasMagic;
    var b := p.Plain();
    var name := b[60..124];
    assert ReadFields(b).Granted? ==> ReadFields(b) == Granted(p.(username := name[..NulAt(name)]));
  }

  // ---- the cipher ----

  /** AES-256 in CBC mode.  What is needed of it is that a key undoes itself. */
  datatype Cipher = Cipher(encrypt: (Secret, seq<bv8>) -> seq<bv8>, decrypt: (Secret, seq<bv8>) -> seq<bv8>)

  ghost predicate UndoesItself(c: Cipher) {
    forall k: Secret, m: seq<bv8> :: |m| == PROOF_SIZE ==>
      |c.encrypt(k, m)| == PROOF_SIZE && |c.decrypt(k, m)| == PROOF_SIZE && c.decrypt(k, c.encrypt(k, m)) == m
  }

  // ---- opening a proof ----

  /** The first key under which the magic number shows. */
  function Opened(c: Cipher, buf: seq<bv8>, keys: seq<Secret>): (r: Checked<seq<bv8>>)
    ensures r.Granted? ==> |r.value| == PROOF_SIZE
  {
    if keys == [] then Refused(UnknownKey)
    else if HasMagic(c.decrypt(keys[0], buf)) then Granted(c.decrypt(keys[0], buf))
    else Opened(c, buf, keys[1..])
  }

  function ReadProof(c: Cipher, buf: seq<bv8>, keys: seq<Secret>): Checked<OpaqueProof> {
    var plain :- Opened(c, buf, keys);
    ReadFields(plain)
  }

  /** The place of the first key under which the magic number shows, or the end. */
  function FirstShown(c: Cipher, buf: seq<bv8>, keys: seq<Secret>): (i: nat)
    ensures i <= |keys| && forall j :: 0 <= j < i ==> !HasMagic(c.decrypt(keys[j], buf))
    ensures i < |keys| ==> HasMagic(c.decrypt(keys[i], buf))
  {
    if keys == [] || HasMagic(c.decrypt(keys[0], buf)) then 0 else 1 + FirstShown(c, buf, keys[1..])
  }

  lemma {:induction false} OpensFirstShown(c: Cipher, buf: seq<bv8>, keys: seq<Secret>)
    ensures var i := FirstShown(c, buf, keys);
            Opened(c, buf, keys) == if i < |keys| then Granted(c.decrypt(keys[i], buf)) else Refused(UnknownKey)
  {
    if keys != [] {
      OpensFirstShown(c, buf, keys[1..]);
    }
  }

  /** The first key to show the magic number shows something other than the proof. */
  predicate Mistaken(c: Cipher, k: Secret, m: seq<bv8>, keys: seq<Secret>) {
    var buf := c.encrypt(k, m);
    var i := FirstShown(c, buf, keys);
    i < |keys| && c.decrypt(keys[i], buf) != m
  }

  /** With its key among those tried, a proof opens to itself if and only if no key
      listed before shows the magic number on something else. */
  lemma {:induction false} OpensUnlessMistaken(c: Cipher, k: Secret, m: seq<bv8>, keys: seq<Secret>)
    requires UndoesItself(c) && HasMagic(m) && k in keys
    ensures Opened(c, c.encrypt(k, m), keys) == Granted(m) <==> !Mistaken(c, k, m, keys)
  {
    var at :| 0 <= at < |keys| && keys[at] == k;
    assert c.decrypt(keys[at], c.encrypt(k, m)) == m;
    OpensFirstShown(c, c.encrypt(k, m), keys);
    hide HasMagic;
  }

  /** Not mistaken, it opens to itself or not at all. */
  lemma {:induction false} OpensOrNot(c: Cipher, k: Secret, m: seq<bv8>, keys: seq<Secret>)
    requires UndoesItself(c) && HasMagic(m) && !Mistaken(c, k, m, keys)
    ensures var r := Opened(c, c.encrypt(k, m), keys); r == Granted(m) || (r == Refused(UnknownKey) && k !in keys)
  {
    if k in keys {
      OpensUnlessMistaken(c, k, m, keys);
    }
    OpensFirstShown(c, c.encrypt(k, m), keys);
    hide HasMagic;
  }

  /** On this proof and these keys, no key but the proof's own shows the magic number:
      a matter of luck for any one run, and overwhelmingly likely with random keys. */
  ghost predicate NoneMistaken(c: Cipher, k: Secret, m: seq<bv8>, keys: seq<Secret>) {
    forall other :: other in keys && other != k ==> !HasMagic(c.decrypt(other, c.encrypt(k, m)))
  }

  lemma {:induction false} OpensUnderItsKey(c: Cipher, k: Secret, m: seq<bv8>, keys: seq<Secret>)
    requires UndoesItself(c) && HasMagic(m) && NoneMistaken(c, k, m, keys)
    ensures Opened(c, c.encrypt(k, m), keys) == if k in keys then Granted(m) else Refused(UnknownKey)
    ensures !Mistaken(c, k, m, keys)
  {
    OpensFirstShown(c, c.encrypt(k, m), keys);
    var i := FirstShown(c, c.encrypt(k, m), keys);
    assert i < |keys| ==> keys[i] in keys;
    if k in keys {
      OpensUnlessMistaken(c, k, m, keys);
    }
  }

  // ---- the operations ----

  /** Too long a name overruns the 128 bytes, where the original panics. */
  method Serialize(p: OpaqueProof, c: Cipher, store: InMemoryKeyStore, now: int, made: Secret)
    returns (r: Checked<seq<bv8>>)
    requires p.WellTyped() && store.Valid() && UndoesItself(c)
    modifies store, store.keys
    ensures store.Valid()
    ensures if |p.username| > NAME_SIZE then r == Refused(UsernameTooLong) && store.State() == old(store.State())
            else && store.State() == old(store.State()).Asked(now, made)
                 && r == Granted(c.encrypt(store.State().Current().secret, p.Plain()))
                 && |r.value| == PROOF_SIZE
  {
    MagicFits();
    TitleFits(p.title);
    hide NumType.ToBytes, NumType.Holds, ValidUtf8;
    var bytes := U64.ToBytes(MAGIC);
    bytes := bytes + U32.ToBytes(p.title.ToU32());
    bytes := bytes + I64.ToBytes(p.timeExpires);
    bytes := bytes + U64.ToBytes(p.licenseId);
    bytes := bytes + U64.ToBytes(p.userId);
    bytes := bytes + p.sessionKey;
    assert bytes == p.Header();
    bytes := bytes + p.username;
    var done := |p.username|;
    while done < NAME_SIZE
      invariant |p.username| <= done && (done > |p.username| ==> done <= NAME_SIZE)
      invariant bytes == p.Header() + p.username + Nuls(done - |p.username|)
    {
      assert Nuls(done + 1 - |p.username|) == Nuls(done - |p.username|) + [0];
      bytes := bytes + [0];
      done := done + 1;
    }
    bytes := bytes + [0, 0, 0, 0];
    if |bytes| != PROOF_SIZE {
      return Refused(UsernameTooLong);
    }
    assert Nuls(4) == [0, 0, 0, 0];
    assert bytes == p.Plain();
    var key := store.GetCurrentKey(now, made);
    r := Granted(c.encrypt(key, bytes));
  }

  method Deserialize(c: Cipher, buf: seq<bv8>, store: InMemoryKeyStore, now: int) returns (r: Checked<OpaqueProof>)
    requires store.Valid()
    ensures r == ReadProof(c, buf, store.State().ValidKeys(now))
  {
    var lastBuf := Nuls(PROOF_SIZE);
    var keys := store.GetValidKeys(now);
    var i, decrypted := 0, false;
    while i < |keys| && !decrypted
      invariant 0 <= i <= |keys| && |lastBuf| == PROOF_SIZE
      invariant Opened(c, buf, keys) == if decrypted then Granted(lastBuf) else Opened(c, buf, keys[i..])
      decreases |keys| - i, !decrypted
    {
      var plain := c.decrypt(keys[i], buf);
      assert keys[i..][1..] == keys[i + 1..];
      if HasMagic(plain) {
        lastBuf, decrypted := plain, true;
      }
      i := i + 1;
    }
    if !decrypted {
      return Refused(UnknownKey);
    }
    r := ReadFields(lastBuf);
  }
}
