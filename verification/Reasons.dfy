/** Nothing is bumped without a reason, and what is answered is what it should be:
    the long poll seen from the other side. */
module Reasons {
  import opened Friends
  import opened Watch
  import opened LongPoll
  import opened WakeUps
  import opened Freshness

  // ---- a debt is incurred only for a reason ----

  predicate Changes(p: Proc) {
    p.Act? || p.SetRead? || p.SetWrite? || p.Clear? || p.Touch? || p.Sweep?
  }

  /** x's friends come to be owed exactly when x's presence changed: it came online, its
      activity went, or the activity written is one that was found to differ. */
  lemma PresenceDebts(s: State, pid: Pid, x: UserId)
    requires Enabled(s, Step(pid)) && Changes(s.procs[pid]) && Settled(s, x)
    ensures var p := s.procs[pid];
            var s' := Next(s, Step(pid));
            !Settled(s', x) <==>
              || (Online(s', x) && !Online(s, x))
              || (x in s.activity && x !in s'.activity)
              || (p.SetWrite? && p.user == x && p.changed)
  {
    var s' := Next(s, Step(pid));
    assert !OwesFriendsOf(s.procs[pid], x);
    if OwesFriendsOf(s'.procs[pid], x) {
      assert !Settled(s', x);
    } else {
      assert s'.procs == s.procs[pid := s'.procs[pid]];
      assert forall q :: q in s'.procs && q != pid ==> s'.procs[q] == s.procs[q];
      StillUnexpired(s, pid, x);
    }
  }

  lemma StillUnexpired(s: State, pid: Pid, x: UserId)
    requires Enabled(s, Step(pid)) && !ExpiredAt(s.seen, s.now, x)
    ensures !ExpiredAt(Next(s, Step(pid)).seen, Next(s, Step(pid)).now, x)
  {
    hide WriterNext, PollNext;
  }

  /** A user comes to be owed a bump only by a friend operation that succeeded, and then
      exactly its two users do. */
  lemma RowDebts(s: State, pid: Pid, v: UserId)
    requires Enabled(s, Step(pid)) && Changes(s.procs[pid])
    ensures var p := s.procs[pid];
            Owed(Next(s, Step(pid)), v) <==>
              Owed(s, v) || (p.Act? && Apply(p.op, s.tables, p.user, p.other).0.Ok() && (v == p.user || v == p.other))
  {
    var s' := Next(s, Step(pid));
    var p, p' := s.procs[pid], s'.procs[pid];
    assert !Owes(p, v);
    assert Owes(p', v) <==> p.Act? && Apply(p.op, s.tables, p.user, p.other).0.Ok() && (v == p.user || v == p.other);
    assert s'.procs == s.procs[pid := p'];
    hide Next, Owes, Apply;
    OwedStays(s, s', pid, v);
    if Owed(s', v) && !Owes(p', v) {
      var q :| q in s'.procs && Owes(s'.procs[q], v);
      assert q != pid && q in s.procs && Owes(s.procs[q], v);
    }
  }

  /** Being seen while online owes nobody anything. */
  lemma OnlineTouchIsSilent(s: State, pid: Pid)
    requires Enabled(s, Step(pid)) && s.procs[pid].Touch? && Online(s, s.procs[pid].user)
    ensures var s' := Next(s, Step(pid));
            && s'.procs[pid] == Idle && s'.rev == s.rev && s'.tick == s.tick
            && (forall v: UserId :: Owed(s', v) <==> Owed(s, v))
            && (forall x: UserId :: Settled(s', x) <==> Settled(s, x))
  {
    var s' := Next(s, Step(pid));
    forall v: UserId
      ensures Owed(s', v) <==> Owed(s, v)
    {
      RowDebts(s, pid, v);
    }
    forall x: UserId
      ensures Settled(s', x) <==> Settled(s, x)
    {
      if Settled(s, x) {
        PresenceDebts(s, pid, x);
      } else {
        assert ExpiredAt(s'.seen, s'.now, x) <==> ExpiredAt(s.seen, s.now, x);
        if q :| q in s.procs && OwesFriendsOf(s.procs[q], x) {
          assert q != pid && s'.procs[q] == s.procs[q];
        }
      }
    }
  }

  /** Left to itself, set_activity ends with the activity it was given, and goes on to
      look up the friends exactly if that is a change. */
  lemma SetActivityAlone(s: State, pid: Pid, u: UserId, c: string)
    requires pid in s.procs && s.procs[pid] == SetRead(u, c)
    ensures var s' := StepOf(StepOf(s, pid), pid);
            && s'.activity == s.activity[u := c] && s'.tables == s.tables && s'.seen == s.seen && s'.rev == s.rev
            && s'.procs[pid] == if s'.activity == s.activity then Idle else Watchers(u, {})
  {
    assert u in s.activity && s.activity[u] == c ==> s.activity[u := c] == s.activity;
  }

  /** A bump left to itself moves the revision of each user it names, no other, by the
      times it is named, and then ticks once. */
  lemma BumpAlone(s: State, pid: Pid, names: multiset<UserId>, rest: set<UserId>, u: UserId)
    requires pid in s.procs && s.procs[pid] == Bumping(names, rest)
    ensures var bumped := StepOf(s, pid);
            bumped.procs[pid] == Ticking(names, rest) && Rev(bumped, u) == Rev(s, u) + names[u] && bumped.tick == s.tick
    ensures var done := StepOf(StepOf(s, pid), pid);
            done.procs[pid] == After(rest) && Rev(done, u) == Rev(s, u) + names[u] && done.tick == s.tick + 1
  {
    BumpCounts(s.rev, s.epoch, names, u);
    hide BumpAll;
  }

  /** Sweeping forgets exactly the users not seen for 45 seconds, and goes on to look up
      the friends of each. */
  lemma SweepFindsTheGone(s: State, pid: Pid, x: UserId)
    requires pid in s.procs && s.procs[pid].Sweep?
    ensures var s' := StepOf(s, pid);
            var gone := x in s.seen && s.now - s.seen[x] >= 45;
            && (x in s'.seen <==> x in s.seen && !gone) && (x in s'.seen ==> s'.seen[x] == s.seen[x])
            && (OwesFriendsOf(s'.procs[pid], x) <==> gone)
  {
    assert x in GoneAt(s.seen, s.now) <==> x in s.seen && s.now - s.seen[x] >= 45;
  }

  // ---- operations left to themselves, to their end ----

  lemma RunCons(s: State, a: Action, rest: seq<Action>)
    requires Enabled(s, a) && Runs(Next(s, a), rest)
    ensures Runs(s, [a] + rest) && Final(s, [a] + rest) == Final(Next(s, a), rest)
  {
    assert ([a] + rest)[0] == a && ([a] + rest)[1..] == rest;
  }

  lemma RunAppend(s: State, first: seq<Action>, second: seq<Action>)
    requires Runs(s, first) && Runs(Final(s, first), second)
    ensures Runs(s, first + second) && Final(s, first + second) == Final(Final(s, first), second)
    decreases first
  {
    if first == [] {
      assert first + second == second;
    } else {
      assert (first + second)[0] == first[0] && (first + second)[1..] == first[1..] + second;
      RunAppend(Next(s, first[0]), first[1..], second);
    }
  }

  /** s' is s with operation pid further on, the tick up by ticks, and perhaps other
      revisions. */
  predicate OnlyBumps(s: State, s': State, pid: Pid, p: Proc, ticks: nat) {
    s' == s.(procs := s.procs[pid := p], rev := s'.rev, tick := s.tick + ticks)
  }

  lemma OnlyBumpsTells(s: State, s': State, pid: Pid, p: Proc, ticks: nat)
    requires OnlyBumps(s, s', pid, p, ticks)
    ensures pid in s'.procs && s'.procs[pid] == p && s'.tables == s.tables
  {
  }

  lemma BumpsCompose(s: State, pid: Pid, q: Proc, s2: State, p2: Proc, t2: nat, s3: State, p3: Proc, t3: nat)
    requires OnlyBumps(To(s, pid, q), s2, pid, p2, t2) && OnlyBumps(s2, s3, pid, p3, t3)
    ensures OnlyBumps(s, s3, pid, p3, t2 + t3)
  {
    assert s.procs[pid := q][pid := p2][pid := p3] == s.procs[pid := p3];
  }

  lemma SameRev(s: State, pid: Pid, q: Proc, u: UserId)
    ensures Rev(To(s, pid, q), u) == Rev(s, u)
  {
  }

  /** How many of these users u watches. */
  function WatchedBy(t: Tables, users: set<UserId>, u: UserId): nat {
    |set x | x in users && u in WatchersOf(t, x)|
  }

  /** Whose watchers are bumped at all. */
  function Watched(t: Tables, users: set<UserId>): set<UserId> {
    set x | x in users && WatchersOf(t, x) != {}
  }

  lemma ThreeSteps(s: State, pid: Pid, s': State)
    requires pid in s.procs && s.procs[pid].Listing? && s.procs[pid].stage == ListFriends
    requires s' == StepOf(StepOf(StepOf(s, pid), pid), pid)
    ensures Runs(s, [Step(pid), Step(pid), Step(pid)]) && Final(s, [Step(pid), Step(pid), Step(pid)]) == s'
  {
    var s1 := Next(s, Step(pid));
    var s2 := Next(s1, Step(pid));
    RunCons(s2, Step(pid), []);
    RunCons(s1, Step(pid), [Step(pid)]);
    RunCons(s, Step(pid), [Step(pid), Step(pid)]);
  }

  lemma TwoSteps(s: State, pid: Pid, s': State)
    requires pid in s.procs && s.procs[pid].Bumping?
    requires s' == StepOf(StepOf(s, pid), pid)
    ensures Runs(s, [Step(pid), Step(pid)]) && Final(s, [Step(pid), Step(pid)]) == s'
  {
    var s1 := Next(s, Step(pid));
    RunCons(s1, Step(pid), []);
    RunCons(s, Step(pid), [Step(pid)]);
  }

  lemma {:induction false} NamesBumped(s: State, pid: Pid, names: multiset<UserId>, rest: set<UserId>)
    returns (actions: seq<Action>)
    requires pid in s.procs && s.procs[pid] == Bumping(names, rest)
    ensures Runs(s, actions) && OnlyBumps(s, Final(s, actions), pid, After(rest), 1)
    ensures forall u: UserId :: Rev(Final(s, actions), u) == Rev(s, u) + names[u]
  {
    actions := [Step(pid), Step(pid)];
    var s' := StepOf(StepOf(s, pid), pid);
    TwoSteps(s, pid, s');
    hide Runs, Final, BumpAll, After;
    forall u: UserId
      ensures Rev(s', u) == Rev(s, u) + names[u]
    {
      BumpAlone(s, pid, names, rest, u);
    }
  }

  /** Looking up the watchers of x and bumping them: each of them goes up by one and
      nobody else, with one tick if there are any. */
  lemma {:induction false} WatchersBumped(s: State, pid: Pid, x: UserId, rest: set<UserId>) returns (actions: seq<Action>)
    requires pid in s.procs && s.procs[pid] == Watchers(x, rest)
    ensures Runs(s, actions)
    ensures OnlyBumps(s, Final(s, actions), pid, After(rest), if WatchersOf(s.tables, x) == {} then 0 else 1)
    ensures forall u: UserId :: Rev(Final(s, actions), u) == Rev(s, u) + if u in WatchersOf(s.tables, x) then 1 else 0
  {
    ListedAlone(s, pid, x, rest);
    actions := [Step(pid), Step(pid), Step(pid)];
    var w := WatchersOf(s.tables, x);
    var q := if w == {} then After(rest) else Bumping(multiset(w), rest);
    hide Runs, Final, WatchersOf, After, Watchers, To, Rev;
    var s3 := To(s, pid, q);
    ToBumps(s, pid, q);
    OnlyBumpsTells(s, s3, pid, q, 0);
    hide OnlyBumps;
    if w != {} {
      var more := NamesBumped(s3, pid, multiset(w), rest);
      RunAppend(s, actions, more);
      actions := actions + more;
      BumpsCompose(s, pid, q, s3, q, 0, Final(s3, more), After(rest), 1);
    }
    forall u: UserId
      ensures Rev(s3, u) == Rev(s, u)
    {
      SameRev(s, pid, q, u);
    }
  }

  lemma ToBumps(s: State, pid: Pid, q: Proc)
    ensures OnlyBumps(s, To(s, pid, q), pid, q, 0) && OnlyBumps(To(s, pid, q), To(s, pid, q), pid, q, 0)
  {
    assert s.procs[pid := q][pid := q] == s.procs[pid := q];
  }

  lemma ListedAlone(s: State, pid: Pid, x: UserId, rest: set<UserId>)
    requires pid in s.procs && s.procs[pid] == Watchers(x, rest)
    ensures var w := WatchersOf(s.tables, x);
            && Runs(s, [Step(pid), Step(pid), Step(pid)])
            && Final(s, [Step(pid), Step(pid), Step(pid)]) ==
               To(s, pid, if w == {} then After(rest) else Bumping(multiset(w), rest))
  {
    ListingFindsWatchers(s, pid, x, rest);
    hide WatchersOf, PollNext, Written;
    ThreeSteps(s, pid, StepOf(StepOf(StepOf(s, pid), pid), pid));
  }

  /** An arrival, left to itself, moves the revision of each watcher by one. */
  lemma {:induction false} ArrivalAlone(s: State, pid: Pid, u: UserId) returns (actions: seq<Action>)
    requires pid in s.procs && s.procs[pid] == Touch(u) && !Online(s, u)
    ensures Runs(s, actions)
    ensures OnlyBumps(s.(seen := s.seen[u := s.now]), Final(s, actions), pid, Idle,
                      if WatchersOf(s.tables, u) == {} then 0 else 1)
    ensures forall v: UserId :: Rev(Final(s, actions), v) == Rev(s, v) + if v in WatchersOf(s.tables, u) then 1 else 0
  {
    var s1 := Next(s, Step(pid));
    assert s1 == To(s.(seen := s.seen[u := s.now]), pid, Watchers(u, {}));
    var more := WatchersBumped(s1, pid, u, {});
    RunCons(s, Step(pid), more);
    actions := [Step(pid)] + more;
    forall v: UserId
      ensures Rev(Final(s, actions), v) == Rev(s, v) + if v in WatchersOf(s.tables, u) then 1 else 0
    {
      assert Rev(Final(s1, more), v) == Rev(s1, v) + if v in WatchersOf(s.tables, u) then 1 else 0;
    }
  }

  /** A friend operation, left to itself, changes the rows and moves the revisions of its
      two users by one each, and then ticks once; a refused one does nothing. */
  lemma {:induction false} ActAlone(s: State, pid: Pid, op: FriendOp, user: UserId, other: UserId) returns (actions: seq<Action>)
    requires pid in s.procs && s.procs[pid] == Act(op, user, other)
    ensures var (reply, tables) := Apply(op, s.tables, user, other);
            && Runs(s, actions)
            && OnlyBumps(s.(tables := tables), Final(s, actions), pid, Idle, if reply.Ok() then 1 else 0)
            && forall v: UserId :: Rev(Final(s, actions), v) == Rev(s, v) +
                 if reply.Ok() then (if v == user then 1 else 0) + (if v == other then 1 else 0) else 0
  {
    ErrorsChangeNothing(op, s.tables, user, other);
    var (reply, tables) := Apply(op, s.tables, user, other);
    var s1 := Next(s, Step(pid));
    assert s1 == To(s.(tables := tables), pid, if reply.Ok() then Bumping(multiset{user, other}, {}) else Idle);
    RunCons(s, Step(pid), []);
    actions := [Step(pid)] + [];
    if reply.Ok() {
      hide Runs, Final, Apply, StepOf;
      var more := NamesBumped(s1, pid, multiset{user, other}, {});
      RunCons(s, Step(pid), more);
      actions := [Step(pid)] + more;
      forall v: UserId
        ensures Rev(Final(s, actions), v) == Rev(s, v) + (if v == user then 1 else 0) + if v == other then 1 else 0
      {
        assert Rev(Final(s1, more), v) == Rev(s1, v) + multiset{user, other}[v];
      }
    }
  }

  lemma OneLess(t: Tables, users: set<UserId>, x: UserId, u: UserId)
    requires x in users
    ensures WatchedBy(t, users, u) == WatchedBy(t, users - {x}, u) + if u in WatchersOf(t, x) then 1 else 0
  {
    hide WatchersOf;
    var all, fewer := set y | y in users && u in WatchersOf(t, y), set y | y in users - {x} && u in WatchersOf(t, y);
    assert all == if u in WatchersOf(t, x) then fewer + {x} else fewer;
  }

  lemma OneLessWatched(t: Tables, users: set<UserId>, x: UserId)
    requires x in users
    ensures |Watched(t, users)| == |Watched(t, users - {x})| + if WatchersOf(t, x) == {} then 0 else 1
  {
    hide WatchersOf;
    assert Watched(t, users) == if WatchersOf(t, x) == {} then Watched(t, users - {x}) else Watched(t, users - {x}) + {x};
  }

  lemma NobodyToSweep(s: State, pid: Pid)
    requires pid in s.procs && s.procs[pid] == After({})
    ensures Runs(s, []) && Final(s, []) == s && OnlyBumps(s, s, pid, Idle, |Watched(s.tables, {})|)
    ensures forall u: UserId :: WatchedBy(s.tables, {}, u) == 0
  {
    assert Watched(s.tables, {}) == {};
    forall u: UserId
      ensures WatchedBy(s.tables, {}, u) == 0
    {
      assert (set x | x in {} && u in WatchersOf(s.tables, x)) == {};
    }
    assert s == s.(procs := s.procs[pid := Idle]);
  }

  lemma NextSwept(s: State, pid: Pid, rest: set<UserId>, x: UserId)
    requires pid in s.procs && s.procs[pid] == After(rest) && x in rest
    ensures Enabled(s, Choose(pid, x)) && Next(s, Choose(pid, x)) == To(s, pid, Watchers(x, rest - {x}))
  {
  }

  /** The rest of a sweep, left to itself, comes to an end, in an order of its own: each
      revision goes up by the number of users gone that its user watches. */
  lemma {:induction false} SweepEnds(s: State, pid: Pid, rest: set<UserId>) returns (actions: seq<Action>)
    requires pid in s.procs && s.procs[pid] == After(rest)
    ensures Runs(s, actions)
    ensures OnlyBumps(s, Final(s, actions), pid, Idle, |Watched(s.tables, rest)|)
    ensures forall u: UserId :: Rev(Final(s, actions), u) == Rev(s, u) + WatchedBy(s.tables, rest, u)
    decreases |rest|
  {
    hide Runs, Final, Next, Enabled, WatchersOf, WatchedBy, Watched, After, Watchers, OnlyBumps, To, Rev;
    if rest == {} {
      actions := [];
      NobodyToSweep(s, pid);
    } else {
      var x :| x in rest;
      NextSwept(s, pid, rest, x);
      ToBumps(s, pid, Watchers(x, rest - {x}));
      var s1 := To(s, pid, Watchers(x, rest - {x}));
      OnlyBumpsTells(s, s1, pid, Watchers(x, rest - {x}), 0);
      var first := WatchersBumped(s1, pid, x, rest - {x});
      var s2 := Final(s1, first);
      var ticks := if WatchersOf(s.tables, x) == {} then 0 else 1;
      OnlyBumpsTells(s1, s2, pid, After(rest - {x}), ticks);
      var second := SweepEnds(s2, pid, rest - {x});
      RunAppend(s1, first, second);
      RunCons(s, Choose(pid, x), first + second);
      actions := [Choose(pid, x)] + (first + second);
      OneLessWatched(s.tables, rest, x);
      BumpsCompose(s, pid, Watchers(x, rest - {x}), s2, After(rest - {x}), ticks,
                   Final(s2, second), Idle, |Watched(s.tables, rest - {x})|);
      forall u: UserId
        ensures Rev(Final(s, actions), u) == Rev(s, u) + WatchedBy(s.tables, rest, u)
      {
        OneLess(s.tables, rest, x, u);
        SameRev(s, pid, Watchers(x, rest - {x}), u);
      }
    }
  }

  // ---- polls do not wake each other ----

  /** A step in which nothing happens that anybody is shown. */
  predicate Uneventful(s: State, a: Action) {
    match a
    case Begin(_, op) => !op.Bumping? && !op.Listing?
    case Step(pid) =>
      pid in s.procs &&
      (match s.procs[pid]
       case Act(op, user, other) => !Apply(op, s.tables, user, other).0.Ok()
       case SetRead(u, c) => u in s.activity && s.activity[u] == c
       case SetWrite(_, _, changed) => !changed
       case Clear(u) => u !in s.activity
       case Touch(u) => Online(s, u)
       case Sweep => GoneAt(s.seen, s.now) == {}
       case _ => true)
    case _ => true
  }

  predicate AllUneventful(s: State, actions: seq<Action>)
    requires Runs(s, actions)
    decreases actions
  {
    actions != [] ==> Uneventful(s, actions[0]) && AllUneventful(Next(s, actions[0]), actions[1..])
  }

  /** An operation with nothing to bump. */
  predicate Silent(p: Proc) {
    !p.Listing? && !p.Bumping? && !p.Ticking? && (p.Sweeping? ==> p.rest == {})
  }

  ghost predicate AllSilent(s: State) {
    forall pid :: pid in s.procs ==> Silent(s.procs[pid])
  }

  lemma StaysSilent(s: State, a: Action)
    requires Enabled(s, a) && Uneventful(s, a) && AllSilent(s)
    ensures AllSilent(Next(s, a))
  {
    var s' := Next(s, a);
    if !a.Advance? {
      assert a.pid in s.procs ==> Silent(s.procs[a.pid]);
      MoverSilent(s, a);
    }
    forall pid | pid in s'.procs
      ensures Silent(s'.procs[pid])
    {
      if a.Advance? || pid != a.pid {
        OthersStand(s, a, pid);
      }
    }
  }

  lemma MoverSilent(s: State, a: Action)
    requires Enabled(s, a) && Uneventful(s, a) && !a.Advance? && (a.pid in s.procs ==> Silent(s.procs[a.pid]))
    ensures a.pid in Next(s, a).procs && Silent(Next(s, a).procs[a.pid])
  {
    hide Written;
  }

  /** In a run where the friend operations fail, activities stay what they are, users
      are seen while online and nobody is found gone, no revision and no tick moves, and
      so no poll is answered: polls, which are seen whenever they ask, do not wake each
      other. */
  lemma {:induction false} PollsDoNotWakeEachOther(s: State, actions: seq<Action>)
    requires AllSilent(s) && Runs(s, actions) && AllUneventful(s, actions)
    ensures Final(s, actions).rev == s.rev && Final(s, actions).epoch == s.epoch && Final(s, actions).tick == s.tick
    ensures AllSilent(Final(s, actions))
    decreases actions
  {
    if actions != [] {
      var a := actions[0];
      assert a.Step? ==> Silent(s.procs[a.pid]);
      StaysSilent(s, a);
      WakelessStep(s, a);
      PollsDoNotWakeEachOther(Next(s, a), actions[1..]);
    }
  }

  // ---- what is answered ----

  /** What the current view shows of one user, in terms of the tables. */
  lemma ViewShows(s: State, u: UserId, f: UserId)
    ensures var v := CurrentView(s, u);
            var mutual := (u, f) in s.tables.friend && (f, u) in s.tables.friend;
            && (f in v.friends <==> (u, f) in s.tables.friend) && (f in v.friends ==> v.friends[f] == mutual)
            && (f in v.online <==> mutual) && (f in v.joinable <==> mutual)
            && (mutual ==> v.online[f] == (f in s.seen && s.now - s.seen[f] < 45))
            && (mutual ==> v.joinable[f] == (v.online[f] && f in s.activity))
            && (f in v.outgoing <==> (u, f) in s.tables.request)
            && (f in v.incoming <==> (f, u) in s.tables.request)
  {
    Members(s.tables, u, f);
  }

  /** v has the presence of now, except for `todo`. */
  predicate FilledBut(now: View, v: View, todo: set<UserId>) {
    && todo <= now.online.Keys == now.joinable.Keys
    && v.online == now.online - todo && v.joinable == now.joinable - todo
  }

  function Look(v: View, now: View, who: UserId): View
    requires who in now.online && who in now.joinable
  {
    v.(online := v.online[who := now.online[who]], joinable := v.joinable[who := now.joinable[who]])
  }

  lemma LookFills(now: View, v: View, todo: set<UserId>, who: UserId)
    requires FilledBut(now, v, todo) && who in todo
    ensures FilledBut(now, Look(v, now, who), todo - {who})
  {
    assert v.online[who := now.online[who]] == now.online - (todo - {who});
    assert v.joinable[who := now.joinable[who]] == now.joinable - (todo - {who});
  }

  lemma SameView(s: State, pid: Pid, p: Proc, u: UserId)
    ensures CurrentView(To(s, pid, p), u) == CurrentView(s, u)
  {
  }

  lemma ToTwice(s: State, pid: Pid, p: Proc, q: Proc)
    ensures To(To(s, pid, p), pid, q) == To(s, pid, q)
  {
  }

  lemma LookStep(s: State, pid: Pid, u: UserId, r: nat, v: View, todo: set<UserId>, who: UserId)
    returns (actions: seq<Action>)
    requires pid in s.procs && s.procs[pid] == ReadPresence(u, r, v, todo) && who in todo
    requires who in Mutuals(s.tables, u)
    ensures Runs(s, actions)
    ensures Final(s, actions) == To(s, pid, ReadPresence(u, r, Look(v, CurrentView(s, u), who), todo - {who}))
  {
    var s1 := Next(s, Choose(pid, who));
    if Online(s, who) {
      assert s1.procs[pid] == ReadActivity(u, r, v.(online := v.online[who := true]), who, todo - {who});
      RunCons(s1, Step(pid), []);
      RunCons(s, Choose(pid, who), [Step(pid)] + []);
      actions := [Choose(pid, who)] + ([Step(pid)] + []);
    } else {
      RunCons(s, Choose(pid, who), []);
      actions := [Choose(pid, who)] + [];
    }
  }

  lemma {:induction false} LookAtAll(s: State, pid: Pid, u: UserId, r: nat, v: View, todo: set<UserId>)
    returns (actions: seq<Action>)
    requires pid in s.procs && s.procs[pid] == ReadPresence(u, r, v, todo)
    requires FilledBut(CurrentView(s, u), v, todo) && todo <= Mutuals(s.tables, u)
    ensures Runs(s, actions)
    ensures Final(s, actions) == To(s, pid, ReadPresence(u, r, Looked(v, CurrentView(s, u)), {}))
    decreases |todo|
  {
    var now := CurrentView(s, u);
    if todo == {} {
      actions := [];
      NothingLeft(now, v);
      assert s == To(s, pid, ReadPresence(u, r, v, {}));
    } else {
      var who :| who in todo;
      assert who in now.online && who in now.joinable;
      hide CurrentView, Runs, Final, Mutuals;
      var v' := Look(v, now, who);
      var p' := ReadPresence(u, r, v', todo - {who});
      var first := LookStep(s, pid, u, r, v, todo, who);
      LookFills(now, v, todo, who);
      SameView(s, pid, p', u);
      assert Looked(v', now) == Looked(v, now);
      ToTwice(s, pid, p', ReadPresence(u, r, Looked(v, now), {}));
      var s1 := To(s, pid, p');
      assert s1.tables == s.tables && pid in s1.procs && s1.procs[pid] == p';
      hide FilledBut, To, Looked, Look;
      var second := LookAtAll(s1, pid, u, r, v', todo - {who});
      RunAppend(s, first, second);
      actions := first + second;
    }
  }

  function Looked(v: View, now: View): View {
    v.(online := now.online, joinable := now.joinable)
  }

  lemma NothingLeft(now: View, v: View)
    requires FilledBut(now, v, {})
    ensures Looked(v, now) == v
  {
    assert v.online == now.online && v.joinable == now.joinable;
  }

  /** A poll that has its revision and is left to itself answers it with the view as it
      is, and changes nothing else. */
  lemma {:induction false} PollAnswers(s: State, pid: Pid, u: UserId, r: nat) returns (actions: seq<Action>)
    requires pid in s.procs && s.procs[pid] == ReadFriends(u, r)
    ensures Runs(s, actions) && Final(s, actions) == To(s, pid, Done(u, r, CurrentView(s, u)))
  {
    var now := CurrentView(s, u);
    var v := NOTHING.(friends := Listed(s.tables, u));
    var mutuals := Mutuals(s.tables, u);
    var p1 := ReadPresence(u, r, v, mutuals);
    var seen := Looked(v, now);
    assert Enabled(s, Step(pid)) && Next(s, Step(pid)) == To(s, pid, p1);
    assert now == seen.(outgoing := OutgoingOf(s.tables, u), incoming := IncomingOf(s.tables, u));
    NothingFilled(s, u);
    SameView(s, pid, p1, u);
    ToTwice(s, pid, p1, ReadPresence(u, r, seen, {}));
    var s1 := To(s, pid, p1);
    assert s1.tables == s.tables && pid in s1.procs && s1.procs[pid] == p1;
    hide CurrentView, Runs, Final, Mutuals, FilledBut, Next, Enabled, Listed, OutgoingOf, IncomingOf, Looked, To;
    var looks := LookAtAll(s1, pid, u, r, v, mutuals);
    var ends := PollEnds(s, Final(s1, looks), pid, u, r, seen);
    RunAppend(s1, looks, ends);
    RunCons(s, Step(pid), looks + ends);
    actions := [Step(pid)] + (looks + ends);
  }

  lemma NothingFilled(s: State, u: UserId)
    ensures FilledBut(CurrentView(s, u), NOTHING.(friends := Listed(s.tables, u)), Mutuals(s.tables, u))
  {
    var now := CurrentView(s, u);
    assert now.online - Mutuals(s.tables, u) == map[] && now.joinable - Mutuals(s.tables, u) == map[];
  }

  lemma PollEnds(s: State, s2: State, pid: Pid, u: UserId, r: nat, v: View) returns (actions: seq<Action>)
    requires s2 == To(s, pid, ReadPresence(u, r, v, {}))
    ensures Runs(s2, actions)
    ensures Final(s2, actions) == To(s, pid, Done(u, r, v.(outgoing := OutgoingOf(s.tables, u), incoming := IncomingOf(s.tables, u))))
  {
    var s3 := Next(s2, Step(pid));
    assert s3 == To(s, pid, ReadIncoming(u, r, v.(outgoing := OutgoingOf(s.tables, u))));
    RunCons(s3, Step(pid), []);
    RunCons(s2, Step(pid), [Step(pid)] + []);
    actions := [Step(pid)] + ([Step(pid)] + []);
  }

  /** A poll with another revision than its user's goes on to read at once, one with the
      present revision parks on the present tick, and one whose time is up reads the
      revision once more. */
  lemma PollStarts(s: State, pid: Pid, u: UserId, since: nat)
    requires pid in s.procs
    ensures s.procs[pid] == Subscribing(u, since) ==>
              StepOf(StepOf(s, pid), pid) ==
              To(s, pid, if since != Rev(s, u) then ReadFriends(u, Rev(s, u)) else Parked(u, since, s.tick))
    ensures s.procs[pid].Parked? && s.procs[pid].user == u ==>
              StepOf(Next(s, Expire(pid)), pid) == To(s, pid, ReadFriends(u, Rev(s, u)))
    ensures s.procs[pid] == LastRead(u) ==> StepOf(s, pid) == To(s, pid, ReadFriends(u, Rev(s, u)))
  {
  }
}
