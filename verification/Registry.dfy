/** The matchmaking registry: one session per connection and an index by session id,
    and what may be asked of them in any iteration order. */
module Registry {
  import opened Wrappers
  import opened Orders
  import opened Sums

  type SessionId = nat
  type Blob = seq<bv8>

  const ID_LEN := 8
  const SECRET_LEN := 16

  const I32_MAX := 0x7FFF_FFFF
  const ANY := I32_MAX
  const USIZE_MAX := 0xFFFF_FFFF_FFFF_FFFF

  datatype MatchMakingInfo = MatchMakingInfo(
    address: Blob,
    host: Blob,
    key: Blob,
    freePublicSlots: int,
    usedPublicSlots: int,
    freePrivateSlots: int,
    usedPrivateSlots: int,
    titleData: seq<int>)
  {
    /** What the field types promise. */
    predicate WellTyped() {
      && |titleData| == 9
      && (forall i :: 0 <= i < 9 ==> -I32_MAX - 1 <= titleData[i] <= I32_MAX)
      && -I32_MAX - 1 <= freePublicSlots <= I32_MAX && -I32_MAX - 1 <= usedPublicSlots <= I32_MAX
      && -I32_MAX - 1 <= freePrivateSlots <= I32_MAX && -I32_MAX - 1 <= usedPrivateSlots <= I32_MAX
    }

    /** `as u32`. */
    function Playlist(): nat
      requires WellTyped()
    {
      titleData[1] % 0x1_0000_0000
    }

    /** `(a.max(0) + b.max(0)) as usize`, wrapping where the sum leaves i32. */
    function Players(): nat {
      var sum := Clamp(usedPublicSlots) + Clamp(usedPrivateSlots);
      WrapI32(sum) % (USIZE_MAX + 1)
    }

    function FreeSlots(): int {
      WrapI32(Clamp(freePublicSlots) + Clamp(freePrivateSlots))
    }

    predicate Matches(q: SessionQuery)
      requires WellTyped() && |q.filters| == 6
    {
      && Wants(q.filters[1], titleData[1])
      && Wants(q.filters[2], titleData[4])
      && Wants(q.filters[4], titleData[2])
      && (q.filters[5] == ANY || FreeSlots() >= q.filters[5])
    }
  }

  datatype SessionQuery = SessionQuery(kind: int, limit: int, filters: seq<int>, extra: Option<int>) {
    function MaxResults(): nat {
      if limit > 0 then limit else USIZE_MAX
    }
  }

  predicate Wants(filter: int, value: int) {
    filter == ANY || filter == value
  }

  function Clamp(n: int): nat {
    if n > 0 then n else 0
  }

  function WrapI32(n: int): (r: int)
    ensures -I32_MAX - 1 <= r <= I32_MAX
    ensures -I32_MAX - 1 <= n <= I32_MAX ==> r == n
  {
    (n + I32_MAX + 1) % (2 * (I32_MAX + 1)) - I32_MAX - 1
  }

  /** What two slot counts come to, a negative one counting as none. */
  function Slots(first: int, second: int): nat {
    (if first < 0 then 0 else first) + if second < 0 then 0 else second
  }

  /** A session's count is its used slots as long as they fit an i32, and a number near
      the top of the word when they do not. */
  lemma PlayersAreUsedSlots(info: MatchMakingInfo)
    requires info.WellTyped()
    ensures var used := Slots(info.usedPublicSlots, info.usedPrivateSlots);
            info.Players() == if used <= 0x7FFF_FFFF then used else used + 0xFFFF_FFFF_0000_0000
  {
  }

  /** Every session's used slots, as advertised. */
  function UsedSlots(sessions: Sessions): map<SessionId, nat> {
    map c | c in sessions :: Slots(sessions[c].usedPublicSlots, sessions[c].usedPrivateSlots)
  }

  function AsU32(n: int): int {
    if n < 0 then n + 0x1_0000_0000 else n
  }

  /** Those of the sessions whose second title field, read as a u32, is the playlist. */
  function UsedSlotsOn(sessions: Sessions, playlist: nat): map<SessionId, nat>
    requires AllTyped(sessions)
  {
    map c | c in sessions && playlist == AsU32(sessions[c].titleData[1]) :: Slots(sessions[c].usedPublicSlots, sessions[c].usedPrivateSlots)
  }

  /** The player count conserves the used slots while each pair of them fits, in all and
      on each playlist. */
  lemma PopulationIsUsedSlots(p: Population, sessions: Sessions)
    requires AllTyped(sessions) && Tallies(p, sessions)
    requires forall c :: c in sessions ==> UsedSlots(sessions)[c] <= 0x7FFF_FFFF
    ensures p.players == Sum(UsedSlots(sessions)) == Sum(p.playlists)
    ensures forall l: nat :: p.On(l) == Sum(UsedSlotsOn(sessions, l))
    ensures forall l :: l in p.playlists <==> Sum(UsedSlotsOn(sessions, l)) > 0
  {
    forall c | c in sessions
      ensures sessions[c].Players() == UsedSlots(sessions)[c]
    {
      PlayersAreUsedSlots(sessions[c]);
    }
    assert PlayersOf(sessions) == UsedSlots(sessions);
    forall l: nat
      ensures PlayersOn(sessions, l) == UsedSlotsOn(sessions, l)
    {
      SamePlaylist(sessions, l);
    }
    hide PlayersOn, UsedSlotsOn, UsedSlots, PlayersOf;
    forall l: nat
      ensures p.On(l) == Sum(UsedSlotsOn(sessions, l))
      ensures l in p.playlists <==> Sum(UsedSlotsOn(sessions, l)) > 0
    {
      assert Sum(PlayersOn(sessions, l)) == p.On(l);
    }
  }

  lemma SamePlaylist(sessions: Sessions, l: nat)
    requires AllTyped(sessions)
    requires forall c :: c in sessions ==> sessions[c].Players() == UsedSlots(sessions)[c]
    ensures PlayersOn(sessions, l) == UsedSlotsOn(sessions, l)
  {
    hide MatchMakingInfo.Players;
    forall c | c in sessions
      ensures sessions[c].Playlist() == AsU32(sessions[c].titleData[1])
    {
      assert sessions[c].WellTyped();
    }
  }

  // ---- the two maps ----

  type Sessions = map<SessionId, MatchMakingInfo>

  /** The index says exactly which session each id belongs to. */
  ghost predicate Agree(sessions: Sessions, byHost: map<Blob, SessionId>) {
    && (forall c :: c in sessions ==>
          && sessions[c].WellTyped() && |sessions[c].host| == ID_LEN && |sessions[c].key| == SECRET_LEN
          && sessions[c].host in byHost && byHost[sessions[c].host] == c)
    && (forall h :: h in byHost ==> byHost[h] in sessions && sessions[byHost[h]].host == h)
  }

  /** Hence ids are unique and the maps have equally many entries. */
  lemma AgreedMaps(sessions: Sessions, byHost: map<Blob, SessionId>)
    requires Agree(sessions, byHost)
    ensures forall c, d :: c in sessions && d in sessions && sessions[c].host == sessions[d].host ==> c == d
    ensures forall h: Blob, c :: (h in byHost && byHost[h] == c) <==> (c in sessions && sessions[c].host == h)
    ensures |byHost| == |sessions|
  {
    SameSize(sessions, byHost);
  }

  lemma {:induction false} SameSize(sessions: Sessions, byHost: map<Blob, SessionId>)
    requires Agree(sessions, byHost)
    ensures |byHost| == |sessions|
    decreases |sessions|
  {
    if sessions == map[] {
      assert forall h :: h !in byHost;
      assert byHost == map[];
    } else {
      var c :| c in sessions;
      var h := sessions[c].host;
      SameSize(sessions - {c}, byHost - {h});
      assert |byHost - {h}| == |byHost| - 1 by {
        assert byHost.Keys == (byHost - {h}).Keys + {h};
      }
      assert |sessions - {c}| == |sessions| - 1 by {
        assert sessions.Keys == (sessions - {c}).Keys + {c};
      }
    }
  }

  /** The id is no other session's. */
  predicate FreeId(sessions: Sessions, c: SessionId, id: Blob) {
    |id| == ID_LEN && forall d :: d in sessions && d != c ==> sessions[d].host != id
  }

  // ---- the operations on the sessions alone ----

  datatype Op =
    | CreateOp(c: SessionId, info: MatchMakingInfo, id: Blob, secret: Blob)
    | UpdateOp(c: SessionId, info: MatchMakingInfo, id: Blob, secret: Blob)
    | DeleteOp(c: SessionId, id: Blob)
    | RemoveOp(c: SessionId)

  /** A newly minted id is nobody else's. */
  predicate Possible(sessions: Sessions, op: Op) {
    op.CreateOp? || (op.UpdateOp? && op.c !in sessions) ==> FreeId(sessions, op.c, op.id)
  }

  /** An update never takes over the id and the secret it advertises. */
  function StepOf(sessions: Sessions, op: Op): Sessions {
    match op
    case CreateOp(c, info, id, secret) => sessions[c := info.(host := id, key := secret)]
    case UpdateOp(c, info, id, secret) =>
      if c in sessions then sessions[c := info.(host := sessions[c].host, key := sessions[c].key)]
      else sessions[c := info.(host := id, key := secret)]
    case DeleteOp(c, id) => if c in sessions && sessions[c].host == id then sessions - {c} else sessions
    case RemoveOp(c) => sessions - {c}
  }

  predicate Runs(sessions: Sessions, ops: seq<Op>)
    decreases ops
  {
    ops != [] ==> Possible(sessions, ops[0]) && Runs(StepOf(sessions, ops[0]), ops[1..])
  }

  function Final(sessions: Sessions, ops: seq<Op>): Sessions
    decreases ops
  {
    if ops == [] then sessions else Final(StepOf(sessions, ops[0]), ops[1..])
  }

  ghost predicate UniqueIds(sessions: Sessions) {
    forall c, d :: c in sessions && d in sessions && sessions[c].host == sessions[d].host ==> c == d
  }

  lemma {:induction false} RunKeepsIdsUnique(sessions: Sessions, ops: seq<Op>)
    requires Runs(sessions, ops) && UniqueIds(sessions)
    ensures UniqueIds(Final(sessions, ops))
    decreases ops
  {
    if ops != [] {
      RunKeepsIdsUnique(StepOf(sessions, ops[0]), ops[1..]);
    }
  }

  /** The operations that end c's session: another create, its own deletion, or the
      end of its connection. */
  predicate Ends(sessions: Sessions, op: Op, c: SessionId) {
    op.c == c && (op.CreateOp? || op.RemoveOp? || (op.DeleteOp? && c in sessions && sessions[c].host == op.id))
  }

  predicate NeverEnds(sessions: Sessions, ops: seq<Op>, c: SessionId)
    decreases ops
  {
    ops != [] ==> !Ends(sessions, ops[0], c) && NeverEnds(StepOf(sessions, ops[0]), ops[1..], c)
  }

  /** Until it ends, a session keeps the id and the secret it was created with,
      whatever updates advertise and whatever the other connections do. */
  lemma {:induction false} IdentityKept(sessions: Sessions, ops: seq<Op>, c: SessionId)
    requires c in sessions && NeverEnds(sessions, ops, c)
    ensures var last := Final(sessions, ops);
            c in last && last[c].host == sessions[c].host && last[c].key == sessions[c].key
    decreases ops
  {
    if ops != [] {
      IdentityKept(StepOf(sessions, ops[0]), ops[1..], c);
    }
  }

  /** Nobody can end or change another connection's session. */
  lemma OthersUntouched(sessions: Sessions, op: Op, d: SessionId)
    requires op.c != d
    ensures (d in StepOf(sessions, op) <==> d in sessions) && (d in sessions ==> StepOf(sessions, op)[d] == sessions[d])
    ensures !Ends(sessions, op, d)
  {
  }

  /** And the operations that end it really do: only a create leaves a session, with
      a new identity. */
  lemma EndsForGood(sessions: Sessions, op: Op, c: SessionId)
    requires c in sessions && Possible(sessions, op)
    ensures Ends(sessions, op, c) <==>
              c !in StepOf(sessions, op) || (op.CreateOp? && op.c == c)
    ensures op.CreateOp? && op.c == c ==> StepOf(sessions, op)[c].host == op.id && StepOf(sessions, op)[c].key == op.secret
  {
  }

  /** What the connection advertised last, where `before` is what it had advertised. */
  function LastAdvertised(before: Option<MatchMakingInfo>, ops: seq<Op>, c: SessionId): Option<MatchMakingInfo>
    decreases ops
  {
    if ops == [] then before
    else LastAdvertised(if ops[0].c == c && (ops[0].CreateOp? || ops[0].UpdateOp?) then Some(ops[0].info) else before,
                        ops[1..], c)
  }

  /** All but the identity. */
  predicate SameAdvertisement(info: MatchMakingInfo, other: MatchMakingInfo) {
    && info.address == other.address && info.titleData == other.titleData
    && info.freePublicSlots == other.freePublicSlots && info.usedPublicSlots == other.usedPublicSlots
    && info.freePrivateSlots == other.freePrivateSlots && info.usedPrivateSlots == other.usedPrivateSlots
  }

  /** However a run goes, a session there shows what its own connection advertised last. */
  lemma {:induction false} AdvertisedIsLatest(sessions: Sessions, ops: seq<Op>, c: SessionId, before: Option<MatchMakingInfo>)
    requires c in sessions ==> before.Some? && SameAdvertisement(sessions[c], before.value)
    ensures c in Final(sessions, ops) ==>
              var last := LastAdvertised(before, ops, c);
              last.Some? && SameAdvertisement(Final(sessions, ops)[c], last.value)
    decreases ops
  {
    if ops != [] {
      var op := ops[0];
      AdvertisedIsLatest(StepOf(sessions, op), ops[1..], c,
                         if op.c == c && (op.CreateOp? || op.UpdateOp?) then Some(op.info) else before);
    }
  }

  // ---- what may be asked ----

  predicate Listable(sessions: Sessions, c: SessionId, q: SessionQuery, d: SessionId)
    requires |q.filters| == 6
  {
    d in sessions && d != c && sessions[d].WellTyped() && sessions[d].Matches(q)
  }

  function MatchingAddresses(sessions: Sessions, c: SessionId, q: SessionQuery): set<Blob>
    requires |q.filters| == 6
  {
    set d | d in sessions && Listable(sessions, c, q, d) :: sessions[d].address
  }

  ghost predicate IsListable(sessions: Sessions, c: SessionId, q: SessionQuery, info: MatchMakingInfo)
    requires |q.filters| == 6
  {
    exists d :: Listable(sessions, c, q, d) && info == sessions[d]
  }

  /** An exact answer: only other connections' matching sessions, no address twice, and
      as many as there are addresses to be had or the limit allows. */
  ghost predicate Answers(sessions: Sessions, c: SessionId, q: SessionQuery, found: seq<MatchMakingInfo>)
    requires |q.filters| == 6
  {
    && (forall i :: 0 <= i < |found| ==> IsListable(sessions, c, q, found[i]))
    && (forall i, j :: 0 <= i < j < |found| ==> found[i].address != found[j].address)
    && var all := |MatchingAddresses(sessions, c, q)|;
       |found| == if all < q.MaxResults() then all else q.MaxResults()
  }

  datatype Population = Totals(players: nat, playlists: map<nat, nat>) {
    function On(playlist: nat): nat {
      if playlist in playlists then playlists[playlist] else 0
    }

    /** One session's players counted in. */
    function With(n: nat, playlist: nat): Population {
      if n == 0 then this else Totals(players + n, playlists[playlist := On(playlist) + n])
    }
  }

  predicate AllTyped(sessions: Sessions) {
    forall c :: c in sessions ==> sessions[c].WellTyped()
  }

  function PlayersOf(sessions: Sessions): map<SessionId, nat> {
    map c | c in sessions :: sessions[c].Players()
  }

  function PlayersOn(sessions: Sessions, playlist: nat): map<SessionId, nat>
    requires AllTyped(sessions)
  {
    map c | c in sessions && sessions[c].Playlist() == playlist :: sessions[c].Players()
  }

  /** The totals, whatever order they were added up in. */
  ghost predicate Tallies(p: Population, sessions: Sessions)
    requires AllTyped(sessions)
  {
    && p.players == Sum(PlayersOf(sessions)) == Sum(p.playlists)
    && (forall l :: l in p.playlists ==> p.playlists[l] > 0)
    && (forall l: nat :: Sum(PlayersOn(sessions, l)) == p.On(l))
  }

  /** So two counts of the same sessions agree, even if they visited them differently. */
  lemma TalliesDetermine(p: Population, q: Population, sessions: Sessions)
    requires AllTyped(sessions) && Tallies(p, sessions) && Tallies(q, sessions)
    ensures p == q
  {
    hide PlayersOf, PlayersOn, AllTyped;
    forall l: nat
      ensures l in p.playlists <==> l in q.playlists
      ensures l in p.playlists ==> p.playlists[l] == q.playlists[l]
    {
      assert p.On(l) == Sum(PlayersOn(sessions, l)) == q.On(l);
    }
    assert p.playlists == q.playlists;
  }

  class SessionRegistry {
    var sessions: Sessions
    var byHost: map<Blob, SessionId>

    ghost predicate Valid()
      reads this
    {
      Agree(sessions, byHost)
    }

    constructor ()
      ensures Valid() && sessions == map[]
    {
      sessions, byHost := map[], map[];
    }

    method Forget(connection: SessionId) returns (r: Option<MatchMakingInfo>)
      requires Valid()
      modifies this
      ensures Valid() && sessions == old(sessions) - {connection}
      ensures r == if connection in old(sessions) then Some(old(sessions)[connection]) else None
    {
      if connection !in sessions {
        return None;
      }
      var info := sessions[connection];
      sessions := sessions - {connection};
      if |info.host| == ID_LEN && info.host in byHost && byHost[info.host] == connection {
        byHost := byHost - {info.host};
      }
      r := Some(info);
    }

    method Remember(connection: SessionId, info: MatchMakingInfo)
      requires Valid() && connection !in sessions
      requires info.WellTyped() && |info.key| == SECRET_LEN && FreeId(sessions, connection, info.host)
      modifies this
      ensures Valid() && sessions == old(sessions)[connection := info]
    {
      if |info.host| == ID_LEN {
        byHost := byHost[info.host := connection];
      }
      sessions := sessions[connection := info];
    }

    /** Draws ids until one is not taken. */
    method Mint(draws: seq<Blob>) returns (id: Blob)
      requires Valid() && (exists i :: 0 <= i < |draws| && draws[i] !in byHost)
      requires forall i :: 0 <= i < |draws| ==> |draws[i]| == ID_LEN
      ensures FreeIn(sessions, id) && id in draws
    {
      var i := 0;
      while draws[i] in byHost
        invariant 0 <= i < |draws|
        invariant forall k :: 0 <= k < i ==> draws[k] in byHost
        decreases |draws| - i
      {
        i := i + 1;
      }
      id := draws[i];
    }

    method Create(connection: SessionId, info: MatchMakingInfo, draws: seq<Blob>, secret: Blob) returns (id: Blob)
      requires Valid() && info.WellTyped() && |secret| == SECRET_LEN
      requires forall i :: 0 <= i < |draws| ==> |draws[i]| == ID_LEN
      requires exists i :: 0 <= i < |draws| && draws[i] !in byHost
      modifies this
      ensures Valid() && FreeId(old(sessions), connection, id)
      ensures sessions == StepOf(old(sessions), CreateOp(connection, info, id, secret))
    {
      ghost var i :| 0 <= i < |draws| && draws[i] !in byHost;
      var _ := Forget(connection);
      assert draws[i] !in byHost;
      id := Mint(draws);
      FreeAfter(old(sessions), connection, id);
      var minted := info.(host := id, key := secret);
      Remember(connection, minted);
    }

    method Update(connection: SessionId, info: MatchMakingInfo, draws: seq<Blob>, secret: Blob) returns (had: bool)
      requires Valid() && info.WellTyped() && |secret| == SECRET_LEN
      requires forall i :: 0 <= i < |draws| ==> |draws[i]| == ID_LEN
      requires connection !in sessions ==> exists i :: 0 <= i < |draws| && draws[i] !in byHost
      modifies this
      ensures Valid() && had == (connection in old(sessions))
      ensures connection in sessions
      ensures had || FreeId(old(sessions), connection, sessions[connection].host)
      ensures sessions == StepOf(old(sessions), UpdateOp(connection, info, sessions[connection].host, secret))
    {
      KeepsItsId(sessions, byHost, connection);
      var former := Forget(connection);
      had := former.Some?;
      var next;
      if had {
        next := info.(host := former.value.host, key := former.value.key);
      } else {
        assert sessions == old(sessions);
        var id := Mint(draws);
        FreeAfter(sessions, connection, id);
        next := info.(host := id, key := secret);
      }
      assert FreeId(sessions, connection, next.host);
      Remember(connection, next);
    }

    /** Removes a session on its own id alone. */
    method Delete(connection: SessionId, id: Blob) returns (deleted: bool)
      requires Valid()
      modifies this
      ensures Valid()
      ensures deleted <==> connection in old(sessions) && old(sessions)[connection].host == id
      ensures sessions == StepOf(old(sessions), DeleteOp(connection, id))
    {
      if |id| != ID_LEN {
        return false;
      }
      if id !in byHost || byHost[id] != connection {
        return false;
      }
      var was := Forget(connection);
      deleted := was.Some?;
    }

    method RemoveConnection(connection: SessionId) returns (had: bool)
      requires Valid()
      modifies this
      ensures Valid() && had == (connection in old(sessions))
      ensures sessions == StepOf(old(sessions), RemoveOp(connection))
    {
      var was := Forget(connection);
      had := was.Some?;
    }

    /** The filters of `list_for` on one session. */
    static method Sift(matches: bool, info: MatchMakingInfo, addresses: set<Blob>, found: seq<MatchMakingInfo>)
      returns (addresses': set<Blob>, found': seq<MatchMakingInfo>)
      ensures if matches && info.address !in addresses
              then addresses' == addresses + {info.address} && found' == found + [info]
              else addresses' == addresses && found' == found
    {
      addresses', found' := addresses, found;
      if matches && info.address !in addresses {
        addresses' := addresses + {info.address};
        found' := found + [info];
      }
    }

    /** `list_for`, visiting the sessions in some order. */
    method ListFor(connection: SessionId, query: SessionQuery, order: seq<SessionId>) returns (found: seq<MatchMakingInfo>)
      requires Valid() && |query.filters| == 6 && Enumerates(order, sessions.Keys)
      ensures Answers(sessions, connection, query, found)
    {
      assert AllTyped(sessions);
      found := Collect(sessions, connection, query, order);
    }

    static method Collect(all: Sessions, connection: SessionId, query: SessionQuery, order: seq<SessionId>)
      returns (found: seq<MatchMakingInfo>)
      requires AllTyped(all) && |query.filters| == 6 && Enumerates(order, all.Keys)
      ensures Answers(all, connection, query, found)
    {
      hide Listed, Answers, AddressesIn, Listable, Enumerates, MatchMakingInfo.Matches, IsListable, MatchingAddresses,
           MatchMakingInfo.WellTyped;
      var addresses: set<Blob> := {};
      found := [];
      var i := 0;
      assert order[..0] == [];
      ListNothing(all, connection, query);
      while i < |order| && |found| < query.MaxResults()
        invariant 0 <= i <= |order| && |found| <= query.MaxResults()
        invariant Listed(all, connection, query, order[..i], addresses, found)
      {
        var c := order[i];
        NotVisited(order, all.Keys, i);
        assert order[..i + 1] == order[..i] + [c];
        ListOne(all, connection, query, order[..i], addresses, found, c);
        addresses, found := Sift(c != connection && all[c].Matches(query), all[c], addresses, found);
        i := i + 1;
      }
      ListingDone(all, connection, query, order, i, addresses, found);
    }

    /** The body of the loop in `population`. */
    static method CountIn(p: Population, info: MatchMakingInfo) returns (q: Population)
      requires info.WellTyped()
      ensures q == p.With(info.Players(), info.Playlist())
    {
      hide MatchMakingInfo.Players, MatchMakingInfo.Playlist;
      q := p;
      var players := info.Players();
      if players > 0 {
        var playlist := info.Playlist();
        q := q.(playlists := q.playlists[playlist := q.On(playlist) + players]);
        q := q.(players := q.players + players);
      }
    }

    /** `population`, visiting the sessions in some order. */
    method Population(order: seq<SessionId>) returns (p: Population)
      requires Valid() && Enumerates(order, sessions.Keys)
      ensures AllTyped(sessions) && Tallies(p, sessions)
    {
      p := Totals(0, map[]);
      NothingTallied();
      assert Only(sessions, order[..0]) == map[];
      assert AllTyped(sessions);
      hide Tallies, MatchMakingInfo.Players, MatchMakingInfo.Playlist, MatchMakingInfo.WellTyped, Agree, Enumerates,
           Only;
      for i := 0 to |order|
        invariant AllTyped(Only(sessions, order[..i])) && Tallies(p, Only(sessions, order[..i]))
      {
        var c := order[i];
        NotVisited(order, sessions.Keys, i);
        assert order[..i + 1] == order[..i] + [c];
        OneMoreTallied(p, sessions, order[..i], c);
        p := CountIn(p, sessions[c]);
      }
      assert order[..|order|] == order;
      OnlyAll(sessions, order);
    }
  }

  predicate FreeIn(sessions: Sessions, id: Blob) {
    |id| == ID_LEN && forall d :: d in sessions ==> sessions[d].host != id
  }

  lemma FreeAfter(sessions: Sessions, c: SessionId, id: Blob)
    requires FreeIn(sessions - {c}, id)
    ensures FreeId(sessions, c, id)
  {
    forall d | d in sessions && d != c
      ensures sessions[d].host != id
    {
      assert d in sessions - {c} && (sessions - {c})[d] == sessions[d];
    }
  }

  lemma KeepsItsId(sessions: Sessions, byHost: map<Blob, SessionId>, c: SessionId)
    requires Agree(sessions, byHost)
    ensures c in sessions ==> FreeId(sessions - {c}, c, sessions[c].host) && |sessions[c].key| == SECRET_LEN
  {
  }

  // ---- listing ----

  function AddressesIn(sessions: Sessions, c: SessionId, q: SessionQuery, visited: seq<SessionId>): set<Blob>
    requires |q.filters| == 6
  {
    set d | d in visited && Listable(sessions, c, q, d) :: sessions[d].address
  }

  /** What has been found among the sessions visited so far. */
  ghost predicate Listed(sessions: Sessions, c: SessionId, q: SessionQuery, visited: seq<SessionId>,
                         addresses: set<Blob>, found: seq<MatchMakingInfo>)
    requires |q.filters| == 6
  {
    && addresses == AddressesIn(sessions, c, q, visited) && |addresses| == |found|
    && (forall i :: 0 <= i < |found| ==> IsListable(sessions, c, q, found[i]) && found[i].address in addresses)
    && (forall i, j :: 0 <= i < j < |found| ==> found[i].address != found[j].address)
  }

  lemma ListNothing(sessions: Sessions, c: SessionId, q: SessionQuery)
    requires |q.filters| == 6
    ensures Listed(sessions, c, q, [], {}, [])
  {
  }

  lemma ListOne(sessions: Sessions, c: SessionId, q: SessionQuery, visited: seq<SessionId>,
                addresses: set<Blob>, found: seq<MatchMakingInfo>, d: SessionId)
    requires |q.filters| == 6 && Listed(sessions, c, q, visited, addresses, found)
    requires d in sessions && sessions[d].WellTyped()
    ensures var info := sessions[d];
            if d != c && info.Matches(q) && info.address !in addresses
            then Listed(sessions, c, q, visited + [d], addresses + {info.address}, found + [info])
            else Listed(sessions, c, q, visited + [d], addresses, found)
  {
    hide MatchMakingInfo.Matches, MatchMakingInfo.WellTyped;
    var info := sessions[d];
    if Listable(sessions, c, q, d) {
      assert AddressesIn(sessions, c, q, visited + [d]) == AddressesIn(sessions, c, q, visited) + {info.address};
      assert IsListable(sessions, c, q, info);
    } else {
      assert AddressesIn(sessions, c, q, visited + [d]) == AddressesIn(sessions, c, q, visited);
    }
  }

  lemma AllVisited(sessions: Sessions, c: SessionId, q: SessionQuery, order: seq<SessionId>, i: nat, addresses: set<Blob>)
    requires |q.filters| == 6 && Enumerates(order, sessions.Keys) && i <= |order|
    requires addresses == AddressesIn(sessions, c, q, order[..i])
    ensures |addresses| <= |MatchingAddresses(sessions, c, q)|
    ensures i == |order| ==> addresses == MatchingAddresses(sessions, c, q)
  {
    var all := MatchingAddresses(sessions, c, q);
    assert addresses <= all;
    SubsetSize(addresses, all);
    if i == |order| {
      assert order[..i] == order;
      assert all <= addresses;
    }
  }

  lemma ListingDone(sessions: Sessions, c: SessionId, q: SessionQuery, order: seq<SessionId>, i: nat,
                    addresses: set<Blob>, found: seq<MatchMakingInfo>)
    requires |q.filters| == 6 && Enumerates(order, sessions.Keys) && i <= |order|
    requires Listed(sessions, c, q, order[..i], addresses, found)
    requires |found| <= q.MaxResults() && (i == |order| || |found| == q.MaxResults())
    ensures Answers(sessions, c, q, found)
  {
    AllVisited(sessions, c, q, order, i, addresses);
  }

  lemma SubsetSize<T>(a: set<T>, b: set<T>)
    requires a <= b
    ensures |a| <= |b|
  {
    assert b == a + (b - a);
  }

  // ---- the answers in terms of the fields ----

  /** One session against a query, field by field. */
  predicate Meets(info: MatchMakingInfo, filters: seq<int>)
    requires |info.titleData| == 9 && |filters| == 6
  {
    var free := Slots(info.freePublicSlots, info.freePrivateSlots);
    && (filters[1] == 0x7FFF_FFFF || info.titleData[1] == filters[1])
    && (filters[2] == 0x7FFF_FFFF || info.titleData[4] == filters[2])
    && (filters[4] == 0x7FFF_FFFF || info.titleData[2] == filters[4])
    && (filters[5] == 0x7FFF_FFFF || (if free <= 0x7FFF_FFFF then free else free - 0x1_0000_0000) >= filters[5])
  }

  lemma ListableMeets(sessions: Sessions, c: SessionId, q: SessionQuery, d: SessionId)
    requires |q.filters| == 6 && d in sessions && sessions[d].WellTyped()
    ensures Listable(sessions, c, q, d) <==> d != c && Meets(sessions[d], q.filters)
  {
  }

  /** Every answer is another connection's session whose title fields 1, 4 and 2 equal
      the filters 1, 2 and 4 and whose free slots reach the filter 5, a filter of 2^31 - 1
      asking for nothing, and a positive limit is never exceeded. */
  lemma AnswersMeet(sessions: Sessions, c: SessionId, q: SessionQuery, found: seq<MatchMakingInfo>)
    requires |q.filters| == 6 && AllTyped(sessions) && Answers(sessions, c, q, found)
    ensures forall i :: 0 <= i < |found| ==>
              && |found[i].titleData| == 9
              && Meets(found[i], q.filters)
              && exists d :: d in sessions && d != c && sessions[d] == found[i]
    ensures q.limit > 0 ==> |found| <= q.limit
  {
    forall i | 0 <= i < |found|
      ensures |found[i].titleData| == 9 && Meets(found[i], q.filters)
      ensures exists d :: d in sessions && d != c && sessions[d] == found[i]
    {
      assert IsListable(sessions, c, q, found[i]);
      var d :| Listable(sessions, c, q, d) && found[i] == sessions[d];
      ListableMeets(sessions, c, q, d);
    }
  }

  /** Unless a positive limit is used up, the address of every other connection's session
      that meets the filters is among the answers. */
  lemma NoneMissed(sessions: Sessions, c: SessionId, q: SessionQuery, found: seq<MatchMakingInfo>, d: SessionId)
    requires |q.filters| == 6 && AllTyped(sessions) && Answers(sessions, c, q, found)
    requires q.limit <= 0 || |found| < q.limit
    requires |sessions| <= 0xFFFF_FFFF_FFFF_FFFF
    requires d in sessions && d != c && Meets(sessions[d], q.filters)
    ensures exists i :: 0 <= i < |found| && found[i].address == sessions[d].address
  {
    ListableMeets(sessions, c, q, d);
    hide MatchMakingInfo.Matches, MatchMakingInfo.WellTyped, Meets;
    var all := MatchingAddresses(sessions, c, q);
    AddressesOfKeys(sessions, c, q);
    assert |found| == |all|;
    var addresses := seq(|found|, i requires 0 <= i < |found| => found[i].address);
    var shown := set a | a in addresses;
    forall i | 0 <= i < |found|
      ensures found[i].address in all
    {
      assert IsListable(sessions, c, q, found[i]);
    }
    DistinctSize(addresses);
    assert shown <= all && sessions[d].address in all;
    SubsetEqual(shown, all);
    assert sessions[d].address in addresses;
    var i :| 0 <= i < |addresses| && addresses[i] == sessions[d].address;
    assert found[i].address == sessions[d].address;
  }

  /** What the other fields say changes nothing. */
  lemma OnlyTheseFieldsCount(sessions: Sessions, others: Sessions, c: SessionId, q: SessionQuery)
    requires |q.filters| == 6 && AllTyped(sessions) && AllTyped(others) && sessions.Keys == others.Keys
    requires forall d :: d in sessions ==>
               var info, other := sessions[d], others[d];
               && info.address == other.address
               && info.titleData[1] == other.titleData[1]
               && info.titleData[2] == other.titleData[2]
               && info.titleData[4] == other.titleData[4]
               && info.freePublicSlots == other.freePublicSlots
               && info.freePrivateSlots == other.freePrivateSlots
    ensures forall d :: Listable(sessions, c, q, d) <==> Listable(others, c, q, d)
    ensures MatchingAddresses(sessions, c, q) == MatchingAddresses(others, c, q)
  {
    forall d
      ensures Listable(sessions, c, q, d) <==> Listable(others, c, q, d)
    {
      if d in sessions {
        ListableMeets(sessions, c, q, d);
        ListableMeets(others, c, q, d);
      }
    }
  }

  /** There are no more addresses than sessions. */
  lemma AddressesOfKeys(sessions: Sessions, c: SessionId, q: SessionQuery)
    requires |q.filters| == 6
    ensures |MatchingAddresses(sessions, c, q)| <= |sessions|
  {
    var ids := set d | d in sessions && Listable(sessions, c, q, d);
    ImageSize(sessions, ids);
    SubsetSize(ids, sessions.Keys);
    assert MatchingAddresses(sessions, c, q) == set d | d in ids :: sessions[d].address;
  }

  lemma {:induction false} ImageSize(sessions: Sessions, ids: set<SessionId>)
    requires ids <= sessions.Keys
    ensures |set d | d in ids :: sessions[d].address| <= |ids|
    decreases |ids|
  {
    if ids == {} {
      assert (set d | d in ids :: sessions[d].address) == {};
    } else {
      var e :| e in ids;
      ImageSize(sessions, ids - {e});
      var rest := set d | d in ids - {e} :: sessions[d].address;
      assert (set d | d in ids :: sessions[d].address) == rest + {sessions[e].address};
    }
  }

  lemma {:induction false} DistinctSize<T>(s: seq<T>)
    requires forall i, j :: 0 <= i < j < |s| ==> s[i] != s[j]
    ensures |set x | x in s| == |s|
  {
    if s != [] {
      DistinctSize(s[1..]);
      assert (set x | x in s) == (set x | x in s[1..]) + {s[0]} by {
        assert s == [s[0]] + s[1..];
      }
    }
  }

  lemma SubsetEqual<T>(a: set<T>, b: set<T>)
    requires a <= b && |a| == |b|
    ensures a == b
  {
    assert b == a + (b - a);
  }

  // ---- counting ----

  function Only(sessions: Sessions, some: seq<SessionId>): Sessions {
    map c | c in sessions && c in some :: sessions[c]
  }

  lemma OnlyAll(sessions: Sessions, order: seq<SessionId>)
    requires Enumerates(order, sessions.Keys)
    ensures Only(sessions, order) == sessions
  {
  }

  lemma NothingTallied()
    ensures Tallies(Totals(0, map[]), map[])
  {
    assert PlayersOf(map[]) == map[];
    forall l: nat
      ensures Sum(PlayersOn(map[], l)) == 0
    {
      assert PlayersOn(map[], l) == map[];
    }
  }

  lemma PlayersAdded(sessions: Sessions, c: SessionId, info: MatchMakingInfo)
    requires c !in sessions
    ensures Sum(PlayersOf(sessions[c := info])) == Sum(PlayersOf(sessions)) + info.Players()
  {
    assert PlayersOf(sessions[c := info]) == PlayersOf(sessions)[c := info.Players()];
    SumAdd(PlayersOf(sessions), c, info.Players());
  }

  lemma PlayersOnAdded(sessions: Sessions, c: SessionId, info: MatchMakingInfo, l: nat)
    requires AllTyped(sessions) && c !in sessions && info.WellTyped()
    ensures AllTyped(sessions[c := info])
    ensures Sum(PlayersOn(sessions[c := info], l)) ==
            Sum(PlayersOn(sessions, l)) + if l == info.Playlist() then info.Players() else 0
  {
    hide MatchMakingInfo.Players, MatchMakingInfo.Playlist, MatchMakingInfo.WellTyped;
    if l == info.Playlist() {
      assert PlayersOn(sessions[c := info], l) == PlayersOn(sessions, l)[c := info.Players()];
      SumAdd(PlayersOn(sessions, l), c, info.Players());
    } else {
      assert PlayersOn(sessions[c := info], l) == PlayersOn(sessions, l);
    }
  }

  lemma PlaylistsRaised(p: Population, n: nat, l: nat)
    ensures Sum(p.With(n, l).playlists) == Sum(p.playlists) + n
    ensures forall k: nat :: p.With(n, l).On(k) == p.On(k) + if k == l then n else 0
  {
    if n > 0 {
      if l in p.playlists {
        SumRaise(p.playlists, l, n);
      } else {
        SumAdd(p.playlists, l, n);
      }
    }
  }

  lemma TallyOne(p: Population, sessions: Sessions, c: SessionId, info: MatchMakingInfo)
    requires AllTyped(sessions) && c !in sessions && info.WellTyped() && Tallies(p, sessions)
    ensures AllTyped(sessions[c := info])
    ensures Tallies(p.With(info.Players(), info.Playlist()), sessions[c := info])
  {
    hide MatchMakingInfo.Players, MatchMakingInfo.Playlist, PlayersOf, PlayersOn;
    PlayersAdded(sessions, c, info);
    PlaylistsRaised(p, info.Players(), info.Playlist());
    forall l: nat
      ensures Sum(PlayersOn(sessions[c := info], l)) == p.With(info.Players(), info.Playlist()).On(l)
    {
      PlayersOnAdded(sessions, c, info, l);
    }
  }

  lemma OneMoreTallied(p: Population, sessions: Sessions, some: seq<SessionId>, c: SessionId)
    requires AllTyped(sessions) && c in sessions && c !in some
    requires AllTyped(Only(sessions, some)) && Tallies(p, Only(sessions, some))
    ensures AllTyped(Only(sessions, some + [c]))
    ensures Tallies(p.With(sessions[c].Players(), sessions[c].Playlist()), Only(sessions, some + [c]))
  {
    hide MatchMakingInfo.Players, MatchMakingInfo.Playlist, Tallies, MatchMakingInfo.WellTyped;
    assert Only(sessions, some + [c]) == Only(sessions, some)[c := sessions[c]];
    TallyOne(p, Only(sessions, some), c, sessions[c]);
  }
}
