/** The shared state behind the long poll: a revision per user, the moment each
    user was last seen, and a tick that every bump moves. */
module Watch {
  import opened Friends
  import opened Orders

  const ONLINE_FOR := 45

  function RevOf(rev: map<UserId, nat>, epoch: nat, u: UserId): nat {
    if u in rev then rev[u] else epoch
  }

  /** Every user goes up once for each time it is named. */
  function BumpAll(rev: map<UserId, nat>, epoch: nat, names: multiset<UserId>): map<UserId, nat> {
    map u | u in rev.Keys + (set n | n in names) :: RevOf(rev, epoch, u) + names[u]
  }

  lemma BumpCounts(rev: map<UserId, nat>, epoch: nat, names: multiset<UserId>, u: UserId)
    ensures RevOf(BumpAll(rev, epoch, names), epoch, u) == RevOf(rev, epoch, u) + names[u]
  {
  }

  lemma BumpOneMore(rev: map<UserId, nat>, epoch: nat, names: multiset<UserId>, user: UserId)
    ensures var rev' := BumpAll(rev, epoch, names);
            BumpAll(rev, epoch, names + multiset{user}) == rev'[user := RevOf(rev', epoch, user) + 1]
  {
    var rev' := BumpAll(rev, epoch, names);
    var more := BumpAll(rev, epoch, names + multiset{user});
    assert more.Keys == rev'.Keys + {user};
    forall u | u in more.Keys
      ensures more[u] == rev'[user := RevOf(rev', epoch, user) + 1][u]
    {
    }
  }

  lemma BumpNone(rev: map<UserId, nat>, epoch: nat)
    ensures BumpAll(rev, epoch, multiset{}) == rev
  {
  }

  predicate OnlineAt(seen: map<UserId, int>, now: int, u: UserId) {
    u in seen && now - seen[u] < ONLINE_FOR
  }

  /** Gone by the clock, but not yet noticed by a sweep. */
  predicate ExpiredAt(seen: map<UserId, int>, now: int, u: UserId) {
    u in seen && now - seen[u] >= ONLINE_FOR
  }

  function GoneAt(seen: map<UserId, int>, now: int): set<UserId> {
    set u | u in seen && ExpiredAt(seen, now, u)
  }

  class WatchState {
    const epoch: nat
    var revisions: map<UserId, nat>
    var seen: map<UserId, int>
    var tick: nat

    constructor (epoch: nat)
      ensures this.epoch == epoch && revisions == map[] && seen == map[] && tick == 0
    {
      this.epoch, revisions, seen, tick := epoch, map[], map[], 0;
    }

    method Revision(user: UserId) returns (r: nat)
      ensures r == RevOf(revisions, epoch, user)
    {
      r := if user in revisions then revisions[user] else epoch;
    }

    /** The lock section of `bump`. */
    method Increment(users: seq<UserId>)
      modifies this`revisions
      ensures revisions == BumpAll(old(revisions), epoch, multiset(users))
    {
      BumpNone(revisions, epoch);
      hide BumpAll;
      for i := 0 to |users|
        invariant revisions == BumpAll(old(revisions), epoch, multiset(users[..i]))
      {
        var user := users[i];
        assert users[..i + 1] == users[..i] + [user];
        BumpOneMore(old(revisions), epoch, multiset(users[..i]), user);
        revisions := revisions[user := RevOf(revisions, epoch, user) + 1];
      }
      assert users[..|users|] == users;
    }

    method Advance()
      modifies this`tick
      ensures tick == old(tick) + 1
    {
      tick := tick + 1;
    }

    /** The lock section of `touch`: whether the user was not online before. */
    method Touch(user: UserId, now: int) returns (arrived: bool)
      modifies this`seen
      ensures arrived == !OnlineAt(old(seen), now, user)
      ensures seen == old(seen)[user := now]
    {
      arrived := user !in seen || now - seen[user] >= ONLINE_FOR;
      seen := seen[user := now];
    }

    /** The lock section of `sweep`, visiting the map in some order. */
    method Sweep(now: int, order: seq<UserId>) returns (gone: seq<UserId>)
      requires Enumerates(order, seen.Keys)
      modifies this`seen
      ensures Enumerates(gone, GoneAt(old(seen), now))
      ensures seen == map u | u in old(seen) && u !in GoneAt(old(seen), now) :: old(seen)[u]
    {
      gone := [];
      ghost var found: set<UserId> := {};
      for i := 0 to |order|
        invariant seen == old(seen)
        invariant found == set u | u in order[..i] && ExpiredAt(seen, now, u)
        invariant Enumerates(gone, found)
      {
        var user := order[i];
        NotVisited(order, seen.Keys, i);
        assert order[..i + 1] == order[..i] + [user];
        if now - seen[user] >= ONLINE_FOR {
          EnumeratesMore(gone, found, user);
          gone := gone + [user];
          found := found + {user};
        }
      }
      assert order[..|order|] == order;
      assert found == GoneAt(seen, now);
      for i := 0 to |gone|
        invariant seen == map u | u in old(seen) && u !in gone[..i] :: old(seen)[u]
      {
        assert gone[..i + 1] == gone[..i] + [gone[i]];
        seen := seen - {gone[i]};
      }
      assert gone[..|gone|] == gone;
    }
  }
}
