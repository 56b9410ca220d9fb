/** The rotating backend keys: a ring of sixteen slots, of which one is current. */
module KeyStore {

  /** The key and its initialisation vector, which always travel together. */
  type Secret = seq<bv8>

  /** An empty slot is one that was valid until the epoch. */
  datatype Key = Key(secret: Secret, validUntil: int)

  const EMPTY := Key([], 0)

  const KEY_LIFESPAN := 15 * 60
  const KEY_TIMEOUT := 14 * 60
  const MAX_CONCURRENTLY_VALID_KEYS := KEY_LIFESPAN / (KEY_LIFESPAN - KEY_TIMEOUT)
  const STORAGE_COUNT := MAX_CONCURRENTLY_VALID_KEYS + 1

  lemma Constants()
    ensures KEY_LIFESPAN == 900 && KEY_TIMEOUT == 840 && MAX_CONCURRENTLY_VALID_KEYS == 15 && STORAGE_COUNT == 16
  {
  }

  datatype Ring = Ring(keys: seq<Key>, index: nat) {
    predicate Sized() {
      |keys| == STORAGE_COUNT && index < STORAGE_COUNT
    }

    function Current(): Key
      requires Sized()
    {
      keys[index]
    }

    /** The slot a rotation writes. */
    function NextSlot(): (i: nat)
      requires Sized()
      ensures i < STORAGE_COUNT
    {
      (index + 1) % STORAGE_COUNT
    }

    predicate Stale(now: int)
      requires Sized()
    {
      Current().validUntil < now + KEY_TIMEOUT
    }

    /** Asking for the current key at `now`, with `fresh` the key to make if need be. */
    function Asked(now: int, made: Secret): (r: Ring)
      requires Sized()
      ensures r.Sized()
    {
      if Stale(now)
      then Ring(keys[NextSlot() := Key(made, now + KEY_LIFESPAN)], NextSlot())
      else this
    }

    function ValidKeys(now: int): seq<Secret> {
      StillValid(keys, now)
    }
  }

  function StillValid(keys: seq<Key>, now: int): seq<Secret> {
    if keys == [] then []
    else
      var last := |keys| - 1;
      StillValid(keys[..last], now) + if keys[last].validUntil >= now then [keys[last].secret] else []
  }

  function NewRing(): (r: Ring)
    ensures r.Sized() && forall i :: 0 <= i < STORAGE_COUNT ==> r.keys[i] == EMPTY
  {
    Ring(seq(STORAGE_COUNT, _ => EMPTY), 0)
  }

  class InMemoryKeyStore {
    const keys: array<Key>
    var keyIndex: nat

    predicate Valid()
      reads this, keys
    {
      State().Sized()
    }

    function State(): Ring
      reads this, keys
    {
      Ring(keys[..], keyIndex)
    }

    constructor ()
      ensures Valid() && fresh(keys) && State() == NewRing()
    {
      keys := new Key[STORAGE_COUNT](_ => EMPTY);
      keyIndex := 0;
    }

    method GetCurrentKey(now: int, made: Secret) returns (key: Secret)
      requires Valid()
      modifies this, keys
      ensures Valid() && State() == old(State()).Asked(now, made)
      ensures key == State().Current().secret
    {
      var minLifespan := now + KEY_TIMEOUT;
      var currentKey := keys[keyIndex];
      if currentKey.validUntil >= minLifespan {
        return currentKey.secret;
      }
      keyIndex := (keyIndex + 1) % STORAGE_COUNT;
      var nextKey := Key(made, now + KEY_LIFESPAN);
      keys[keyIndex] := nextKey;
      return nextKey.secret;
    }

    method GetValidKeys(now: int) returns (valid: seq<Secret>)
      requires Valid()
      ensures valid == State().ValidKeys(now)
    {
      valid := [];
      for i := 0 to keys.Length
        invariant valid == StillValid(keys[..i], now)
      {
        assert keys[..i + 1][..i] == keys[..i];
        if keys[i].validUntil >= now {
          valid := valid + [keys[i].secret];
        }
      }
      assert keys[..keys.Length] == keys[..];
    }
  }

  /** Exactly the keys still valid are handed out. */
  lemma {:induction false} ValidKeysAre(keys: seq<Key>, now: int, secret: Secret)
    ensures secret in StillValid(keys, now) <==> exists i :: 0 <= i < |keys| && keys[i].validUntil >= now && keys[i].secret == secret
  {
    if keys != [] {
      var last := |keys| - 1;
      var front := keys[..last];
      ValidKeysAre(front, now, secret);
      assert keys == front + [keys[last]];
      assert forall i :: 0 <= i < last ==> keys[i] == front[i];
      if i :| 0 <= i < |keys| && keys[i].validUntil >= now && keys[i].secret == secret && i < last {
        assert front[i].secret == secret;
      }
    }
  }

  predicate AllValid(keys: seq<Key>, now: int) {
    forall i :: 0 <= i < |keys| ==> keys[i].validUntil >= now
  }

  lemma {:induction false} ValidKeysCount(keys: seq<Key>, now: int)
    ensures |StillValid(keys, now)| <= |keys|
    ensures |StillValid(keys, now)| == |keys| <==> AllValid(keys, now)
  {
    if keys != [] {
      var last := |keys| - 1;
      ValidKeysCount(keys[..last], now);
      assert forall i :: 0 <= i < last ==> keys[i] == keys[..last][i];
    }
  }

  // ---- the keys by age ----

  /** The slots from the oldest key to the current one. */
  function ByAge(r: Ring): (a: seq<Key>)
    requires r.Sized()
    ensures |a| == STORAGE_COUNT && a[STORAGE_COUNT - 1] == r.Current()
  {
    r.keys[r.index + 1..] + r.keys[..r.index + 1]
  }

  lemma OldestSlot(r: Ring)
    requires r.Sized()
    ensures r.keys[r.NextSlot()] == ByAge(r)[0]
  {
    if r.index + 1 < STORAGE_COUNT {
      assert r.NextSlot() == r.index + 1;
    } else {
      assert r.NextSlot() == 0;
    }
  }

  /** A rotation drops the oldest key and adds a current one. */
  lemma RotationByAge(r: Ring, now: int, made: Secret)
    requires r.Sized() && r.Stale(now)
    ensures r.keys[r.NextSlot()] == ByAge(r)[0]
    ensures ByAge(r.Asked(now, made)) == ByAge(r)[1..] + [Key(made, now + KEY_LIFESPAN)]
  {
    if r.index + 1 < STORAGE_COUNT {
      assert r.NextSlot() == r.index + 1;
    } else {
      assert r.NextSlot() == 0;
    }
  }

  lemma SameKeys(r: Ring, key: Key)
    requires r.Sized()
    ensures key in r.keys <==> key in ByAge(r)
  {
    assert r.keys == r.keys[..r.index + 1] + r.keys[r.index + 1..];
  }

  /** Every key was made at least 61 seconds' validity after the one before it. */
  ghost predicate Spaced(a: seq<Key>) {
    && (forall i :: 0 <= i < |a| ==> a[i].validUntil >= 0)
    && (forall i, j :: 0 <= i < j < |a| && a[i].validUntil > 0 ==> a[j].validUntil >= a[i].validUntil + 61 * (j - i))
  }

  /** The oldest key and the current one, if the ring is full. */
  lemma AcrossTheRing(a: seq<Key>, j: nat)
    requires Spaced(a) && j < |a| && a[0].validUntil > 0
    ensures a[j].validUntil >= a[0].validUntil + 61 * j
  {
    if j > 0 {
      assert a[j].validUntil >= a[0].validUntil + 61 * (j - 0);
    }
  }

  ghost predicate RingInv(r: Ring) {
    r.Sized() && Spaced(ByAge(r))
  }

  lemma NewRingInv()
    ensures RingInv(NewRing())
  {
    assert forall i :: 0 <= i < STORAGE_COUNT ==> ByAge(NewRing())[i] == EMPTY;
  }

  /** Clock readings may go back and forth between calls; they are after the epoch. */
  lemma AskedKeeps(r: Ring, now: int, made: Secret)
    requires RingInv(r) && now > 0
    ensures RingInv(r.Asked(now, made))
  {
    if r.Stale(now) {
      RotationByAge(r, now, made);
      var a, b := ByAge(r), ByAge(r.Asked(now, made));
      forall i, j | 0 <= i < j < |b| && b[i].validUntil > 0
        ensures b[j].validUntil >= b[i].validUntil + 61 * (j - i)
      {
        assert b[i] == a[i + 1];
        if j < |b| - 1 {
          assert b[j] == a[j + 1];
        } else if i + 1 < j {
          assert a[j].validUntil >= a[i + 1].validUntil + 61 * (j - (i + 1));
        }
      }
      forall i | 0 <= i < |b|
        ensures b[i].validUntil >= 0
      {
        assert i < |b| - 1 ==> b[i] == a[i + 1];
      }
    }
  }

  // ---- runs ----

  datatype Ask = Ask(now: int, made: Secret)

  predicate AfterEpoch(asks: seq<Ask>) {
    forall i :: 0 <= i < |asks| ==> asks[i].now > 0
  }

  function Run(r: Ring, asks: seq<Ask>): (r': Ring)
    requires r.Sized()
    ensures r'.Sized()
    decreases asks
  {
    if asks == [] then r else Run(r.Asked(asks[0].now, asks[0].made), asks[1..])
  }

  lemma {:induction false} RunKeeps(r: Ring, asks: seq<Ask>)
    requires RingInv(r) && AfterEpoch(asks)
    ensures RingInv(Run(r, asks))
    decreases asks
  {
    if asks != [] {
      AskedKeeps(r, asks[0].now, asks[0].made);
      RunKeeps(r.Asked(asks[0].now, asks[0].made), asks[1..]);
    }
  }

  /** Sixteen rotations take at least 61 seconds each, a key lives for 900. */
  lemma OldestHasExpired(r: Ring, now: int)
    requires RingInv(r) && now > 0 && r.Stale(now)
    ensures var oldest := r.keys[r.NextSlot()].validUntil;
            oldest < now && (oldest > 0 ==> oldest < now - 75)
  {
    hide Spaced;
    OldestSlot(r);
    var a := ByAge(r);
    assert a[STORAGE_COUNT - 1] == r.Current();
    hide ByAge;
    if a[0].validUntil > 0 {
      AcrossTheRing(a, STORAGE_COUNT - 1);
    }
  }

  lemma CurrentIsValid(r: Ring, now: int)
    requires r.Sized() && !r.Stale(now)
    ensures r.Current().secret in r.ValidKeys(now)
  {
    ValidKeysAre(r.keys, now, r.Current().secret);
  }

  /** In every reachable ring, whatever the clock did: the key a rotation overwrites
      has been invalid for more than a minute, no other key is touched, and the key
      handed out is good for another fourteen minutes. */
  lemma RotationIsSafe(asks: seq<Ask>, now: int, made: Secret)
    requires AfterEpoch(asks) && now > 0
    ensures var r := Run(NewRing(), asks);
            var r' := r.Asked(now, made);
            && (r.Stale(now) ==>
                  && r.keys[r.NextSlot()].validUntil < now
                  && (r.keys[r.NextSlot()] != EMPTY ==> r.keys[r.NextSlot()].validUntil < now - 75)
                  && r'.keys == r.keys[r.NextSlot() := r'.Current()])
            && (!r.Stale(now) ==> r' == r)
            && (r.Stale(now) ==> r'.Current() == Key(made, now + 900))
            && (r.Stale(now) <==> r.Current().validUntil < now + 840)
            && r'.Current().validUntil >= now + 840
            && r'.Current().secret in r'.ValidKeys(now)
  {
    NewRingInv();
    RunKeeps(NewRing(), asks);
    RunEmpties(NewRing(), asks);
    var r := Run(NewRing(), asks);
    hide RingInv, Run;
    if r.Stale(now) {
      OldestHasExpired(r, now);
    }
    CurrentIsValid(r.Asked(now, made), now);
  }

  /** A slot valid until the epoch is one never used. */
  ghost predicate Unused(r: Ring) {
    forall i :: 0 <= i < |r.keys| && r.keys[i].validUntil <= 0 ==> r.keys[i] == EMPTY
  }

  lemma {:induction false} RunEmpties(r: Ring, asks: seq<Ask>)
    requires r.Sized() && AfterEpoch(asks) && Unused(r)
    ensures Unused(Run(r, asks))
    decreases asks
  {
    if asks != [] {
      RunEmpties(r.Asked(asks[0].now, asks[0].made), asks[1..]);
    }
  }

  /** When the newest key was made, if one ever was. */
  function MadeAt(r: Ring): int
    requires r.Sized()
  {
    r.Current().validUntil - KEY_LIFESPAN
  }

  /** Nothing in the ring expires before its oldest key. */
  lemma OldestExpiresFirst(r: Ring, now: int, key: Key)
    requires RingInv(r) && now > 0 && key in r.keys && r.keys[r.NextSlot()].validUntil >= now
    ensures key.validUntil >= now
  {
    hide Spaced;
    OldestSlot(r);
    SameKeys(r, key);
    var a := ByAge(r);
    hide ByAge;
    var j :| 0 <= j < |a| && a[j] == key;
    AcrossTheRing(a, j);
  }

  lemma OldestAgainstCurrent(r: Ring)
    requires RingInv(r) && r.keys[r.NextSlot()].validUntil > 0
    ensures r.Current().validUntil >= r.keys[r.NextSlot()].validUntil + 61 * (STORAGE_COUNT - 1)
  {
    hide Spaced;
    OldestSlot(r);
    AcrossTheRing(ByAge(r), STORAGE_COUNT - 1);
  }

  /** Sixteen keys are valid at once exactly when the oldest is; with a clock that
      has not gone back behind the last rotation it never is. */
  lemma ValidAtOnce(asks: seq<Ask>, now: int)
    requires AfterEpoch(asks) && now > 0
    ensures var r := Run(NewRing(), asks);
            && (|r.ValidKeys(now)| <= 15 <==> r.keys[r.NextSlot()].validUntil < now)
            && (now >= MadeAt(r) ==> |r.ValidKeys(now)| <= 15)
  {
    Constants();
    NewRingInv();
    RunKeeps(NewRing(), asks);
    hide Run, NewRing, RingInv, StillValid, AfterEpoch;
    OldestDecides(Run(NewRing(), asks), now);
  }

  lemma OldestDecides(r: Ring, now: int)
    requires RingInv(r) && now > 0
    ensures |r.ValidKeys(now)| <= MAX_CONCURRENTLY_VALID_KEYS <==> r.keys[r.NextSlot()].validUntil < now
    ensures now >= MadeAt(r) ==> r.keys[r.NextSlot()].validUntil < now
  {
    hide Spaced, StillValid;
    ValidKeysCount(r.keys, now);
    if r.keys[r.NextSlot()].validUntil >= now {
      OldestAgainstCurrent(r);
      assert AllValid(r.keys, now) by {
        forall i | 0 <= i < STORAGE_COUNT
          ensures r.keys[i].validUntil >= now
        {
          OldestExpiresFirst(r, now, r.keys[i]);
        }
      }
    }
  }

  /** A rotation every 61 seconds. */
  function Rotations(n: nat): seq<Ask> {
    if n == 0 then [] else Rotations(n - 1) + [Ask(61 * n, [])]
  }

  lemma {:induction false} RunSnoc(r: Ring, asks: seq<Ask>, ask: Ask)
    requires r.Sized()
    ensures Run(r, asks + [ask]) == Run(r, asks).Asked(ask.now, ask.made)
    decreases asks
  {
    if asks == [] {
      assert asks + [ask] == [ask];
      assert Run(r, [ask]) == Run(r.Asked(ask.now, ask.made), []);
    } else {
      assert (asks + [ask])[0] == asks[0] && (asks + [ask])[1..] == asks[1..] + [ask];
      RunSnoc(r.Asked(asks[0].now, asks[0].made), asks[1..], ask);
    }
  }

  /** The newest n keys come from n rotations a minute and a second apart. */
  ghost predicate Filled(a: seq<Key>, n: nat) {
    && |a| == STORAGE_COUNT
    && (n == 0 ==> a[STORAGE_COUNT - 1] == EMPTY)
    && forall i :: 0 <= i < STORAGE_COUNT && i >= STORAGE_COUNT - n ==>
         a[i].validUntil == KEY_LIFESPAN + 61 * (n + 1 + i - STORAGE_COUNT)
  }

  lemma FillOne(r: Ring, n: nat)
    requires r.Sized() && Filled(ByAge(r), n)
    ensures Filled(ByAge(r.Asked(61 * (n + 1), [])), n + 1)
  {
    assert ByAge(r)[STORAGE_COUNT - 1] == r.Current();
    RotationByAge(r, 61 * (n + 1), []);
  }

  lemma {:induction false} RotationsFill(n: nat)
    ensures AfterEpoch(Rotations(n)) && Filled(ByAge(Run(NewRing(), Rotations(n))), n)
  {
    if n > 0 {
      RotationsFill(n - 1);
      hide Filled, Run;
      RunSnoc(NewRing(), Rotations(n - 1), Ask(61 * n, []));
      FillOne(Run(NewRing(), Rotations(n - 1)), n - 1);
    }
  }

  lemma AllFilled(r: Ring, now: int)
    requires r.Sized() && Filled(ByAge(r), STORAGE_COUNT) && now <= KEY_LIFESPAN
    ensures forall i :: 0 <= i < STORAGE_COUNT ==> r.keys[i].validUntil >= now
  {
    forall i | 0 <= i < STORAGE_COUNT
      ensures r.keys[i].validUntil >= now
    {
      SameKeys(r, r.keys[i]);
    }
  }

  /** With a clock set back after sixteen rotations all sixteen keys are valid. */
  lemma SixteenValidWhenTheClockGoesBack() returns (asks: seq<Ask>, now: int)
    ensures AfterEpoch(asks) && now > 0 && |Run(NewRing(), asks).ValidKeys(now)| == 16
  {
    var n: nat :| n == STORAGE_COUNT;
    asks, now := Rotations(n), 1;
    RotationsFill(n);
    var r := Run(NewRing(), asks);
    hide Run, Rotations, Filled, AfterEpoch, NewRing;
    AllFilled(r, now);
    ValidKeysCount(r.keys, now);
  }

  /** A key stays in the ring through any calls whose clock readings are within its
      validity. */
  lemma {:induction false} KeyStays(r: Ring, asks: seq<Ask>, key: Key)
    requires RingInv(r) && AfterEpoch(asks) && key in r.keys
    requires forall i :: 0 <= i < |asks| ==> asks[i].now <= key.validUntil
    ensures key in Run(r, asks).keys
    decreases asks
  {
    if asks != [] {
      var now, made := asks[0].now, asks[0].made;
      AskedKeeps(r, now, made);
      if r.Stale(now) {
        OldestHasExpired(r, now);
        var i :| 0 <= i < |r.keys| && r.keys[i] == key;
        assert r.Asked(now, made).keys[i] == key;
      }
      KeyStays(r.Asked(now, made), asks[1..], key);
    }
  }
}
