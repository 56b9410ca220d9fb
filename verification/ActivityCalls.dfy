/** Why an activity must not vanish under a set_activity that has compared and not
    written yet: exactly what goes wrong, and how callers can prevent it. */
module ActivityCalls {
  import opened Friends
  import opened Watch
  import opened LongPoll
  import opened WakeUps
  import opened Freshness

  // ---- exactly when an unchanged write is harmless ----

  lemma UnchangedNext(s: State, pid: Pid)
    requires Enabled(s, Step(pid)) && s.procs[pid].SetWrite? && !s.procs[pid].changed
    ensures var p := s.procs[pid];
            Next(s, Step(pid)) == s.(activity := s.activity[p.user := p.connection], procs := s.procs[pid := Idle])
  {
  }

  /** A write that was found to change nothing bumps nobody and owes nobody; every
      current view stays current if and only if its row is there, or nobody is shown
      the user online. */
  lemma UnchangedWrite(s: State, pid: Pid)
    requires Enabled(s, Step(pid)) && s.procs[pid].SetWrite? && !s.procs[pid].changed
    ensures var u := s.procs[pid].user;
            var s' := Next(s, Step(pid));
            && (forall v: UserId :: Rev(s', v) == Rev(s, v) && (Owed(s', v) <==> Owed(s, v)))
            && (forall x: UserId :: Settled(s', x) <==> Settled(s, x))
            && ((forall v: UserId :: CurrentView(s', v) == CurrentView(s, v)) <==>
                  HarmlessWrite(s, Step(pid)))
  {
    var u := s.procs[pid].user;
    var s' := Next(s, Step(pid));
    UnchangedNext(s, pid);
    hide Next, Enabled, Owed, Settled;
    SameDebts(s, s', pid);
    forall v: UserId
      ensures CurrentView(s', v) == CurrentView(s, v) <==> u in s.activity || !(Online(s, u) && u in Mutuals(s.tables, v))
    {
      ViewAfterWrite(s, s', u, v);
    }
    hide CurrentView, Mutuals, Online;
    if u !in s.activity && ShownOnline(s, u) {
      var v: UserId :| u in Mutuals(s.tables, v);
      assert CurrentView(s', v) != CurrentView(s, v);
    }
  }

  lemma ViewAfterWrite(s: State, s': State, u: UserId, v: UserId)
    requires s'.tables == s.tables && s'.seen == s.seen && s'.now == s.now
    requires u in s'.activity && forall x :: x != u ==> (x in s'.activity <==> x in s.activity)
    ensures CurrentView(s', v) == CurrentView(s, v) <==> u in s.activity || !(Online(s, u) && u in Mutuals(s.tables, v))
  {
    hide Listed, Mutuals, OutgoingOf, IncomingOf;
    if u in s.activity || !(Online(s, u) && u in Mutuals(s.tables, v)) {
      assert CurrentView(s', v).joinable == CurrentView(s, v).joinable;
    } else {
      assert CurrentView(s', v).joinable[u] != CurrentView(s, v).joinable[u];
    }
  }

  /** Two operations neither of which owes anything. */
  lemma SameDebts(s: State, s': State, pid: Pid)
    requires pid in s.procs && pid in s'.procs && s'.procs == s.procs[pid := s'.procs[pid]]
    requires s.seen == s'.seen && s.now == s'.now
    requires s.procs[pid].SetWrite? && s'.procs[pid].Idle?
    ensures forall v: UserId :: Owed(s', v) <==> Owed(s, v)
    ensures forall x: UserId :: Settled(s', x) <==> Settled(s, x)
  {
    DebtsKept(s, s', pid);
    assert s.procs == s'.procs[pid := s.procs[pid]];
    DebtsKept(s', s, pid);
  }

  /** So for every such write on a missing row: a client that held the current view of
      a user who is shown this one online holds a wrong view under a revision that
      still stands, and no debt that was not there before will tell it. */
  lemma LateWriteIsStale(s: State, pid: Pid, client: Pid, v: UserId)
    requires Enabled(s, Step(pid)) && s.procs[pid].SetWrite? && !s.procs[pid].changed && s.procs[pid].user !in s.activity
    requires client in s.procs && s.procs[client] == Done(v, Rev(s, v), CurrentView(s, v))
    requires Online(s, s.procs[pid].user) && s.procs[pid].user in Mutuals(s.tables, v)
    ensures var s' := Next(s, Step(pid));
            && s'.procs[client] == s.procs[client] && s'.procs[client].revision == Rev(s', v)
            && s'.procs[client].view != CurrentView(s', v)
            && (Owed(s', v) <==> Owed(s, v)) && (forall x: UserId :: Settled(s', x) <==> Settled(s, x))
  {
    UnchangedWrite(s, pid);
    UnchangedNext(s, pid);
    hide Next, Enabled, Owed, Settled, HarmlessWrite;
    var u := s.procs[pid].user;
    assert CurrentView(Next(s, Step(pid)), v).joinable[u] != CurrentView(s, v).joinable[u];
  }

  // ---- how callers can see to it ----

  /** Calls about one user's activity are taken one at a time: no activity is
      deleted while a set_activity that found it unchanged is about to write. */
  ghost predicate OneAtATime(s: State, a: Action) {
    a.Step? && a.pid in s.procs && s.procs[a.pid].Clear? ==>
      forall q :: q in s.procs && s.procs[q].SetWrite? && s.procs[q].user == s.procs[a.pid].user ==> s.procs[q].changed
  }

  ghost predicate TakenOneAtATime(s: State, actions: seq<Action>)
    requires Runs(s, actions)
    decreases actions
  {
    actions != [] ==> OneAtATime(s, actions[0]) && TakenOneAtATime(Next(s, actions[0]), actions[1..])
  }

  /** Every set_activity that found nothing to change would still find its row. */
  ghost predicate RowsStillThere(s: State) {
    forall q :: q in s.procs && s.procs[q].SetWrite? && !s.procs[q].changed ==> s.procs[q].user in s.activity
  }

  lemma NextKeepsRows(s: State, a: Action)
    requires RowsStillThere(s) && Enabled(s, a) && OneAtATime(s, a)
    ensures RowsStillThere(Next(s, a))
  {
  }

  lemma {:induction false} OneAtATimeFromRows(s: State, actions: seq<Action>)
    requires Runs(s, actions) && TakenOneAtATime(s, actions) && RowsStillThere(s)
    ensures WritesHarmless(s, actions)
    decreases actions
  {
    if actions != [] {
      NextKeepsRows(s, actions[0]);
      OneAtATimeFromRows(Next(s, actions[0]), actions[1..]);
    }
  }

  /** Serving each user's activity calls one at a time is enough for freshness. */
  lemma OneAtATimeSuffices(start: State, actions: seq<Action>)
    requires Quiet(start) && Runs(start, actions) && TakenOneAtATime(start, actions)
    ensures WritesHarmless(start, actions)
  {
    OneAtATimeFromRows(start, actions);
  }

  // ---- a run that goes wrong ----

  lemma {:induction false} RunMore(start: State, done: seq<Action>, a: Action) returns (more: seq<Action>)
    requires Runs(start, done) && Enabled(Final(start, done), a)
    ensures more == done + [a] && Runs(start, more) && Final(start, more) == Next(Final(start, done), a)
    decreases done
  {
    more := done + [a];
    if done == [] {
      assert more[0] == a && more[1..] == [];
    } else {
      assert more[0] == done[0] && more[1..] == done[1..] + [a];
      var _ := RunMore(Next(start, done[0]), done[1..], a);
    }
  }

  /** User 2 has one friend, user 1, who is online and in a game. */
  const PAIR := Tables({(1, 2), (2, 1)}, {})
  const RACE := State(0, 0, PAIR, map[1 := "game"], map[1 := 0], map[], 0, map[])

  lemma PairShown()
    ensures FriendsOf(PAIR, 1) == {2} && IncomingOf(PAIR, 1) == {} && OutgoingOf(PAIR, 1) == {}
    ensures Listed(PAIR, 2) == map[1 := true] && Mutuals(PAIR, 2) == {1}
    ensures OutgoingOf(PAIR, 2) == {} && IncomingOf(PAIR, 2) == {}
  {
    Members(PAIR, 1, 2);
    Members(PAIR, 2, 1);
    assert FriendsOf(PAIR, 2) == {1};
  }

  const WRITING := map[0 := SetWrite(1, "game", false)]
  const DELETED := RACE.(activity := map[], procs := WRITING)
  const BUMPED := DELETED.(rev := map[2 := 1], tick := 1, procs := WRITING[1 := Idle])
  const SEEN_GONE := View(map[1 := true], map[1 := true], map[1 := false], {}, {})

  const LISTING := To(DELETED, 1, Listing(1, ListFriends, {}, {}))
  const BUMPING := To(DELETED, 1, Bumping(multiset{2}, {}))
  const POLLED := To(BUMPED, 2, ReadPresence(2, 1, NOTHING.(friends := map[1 := true]), {1}))
  const ANSWERED := To(BUMPED, 2, ReadPresence(2, 1, SEEN_GONE, {}))
  const WRITTEN := BUMPED.(activity := map[1 := "game"],
                           procs := map[0 := Idle, 1 := Idle, 2 := Done(2, 1, SEEN_GONE)])

  /** RunMore, with the states before and after spelled out. */
  lemma Take(done: seq<Action>, s: State, a: Action, s': State) returns (more: seq<Action>)
    requires Runs(RACE, done) && Final(RACE, done) == s && Enabled(s, a) && Next(s, a) == s'
    ensures Runs(RACE, more) && Final(RACE, more) == s'
  {
    more := RunMore(RACE, done, a);
  }

  /** set_activity compares and finds nothing to do, and clear_activity deletes the row. */
  lemma ClearBetween() returns (done: seq<Action>)
    ensures Runs(RACE, done) && Final(RACE, done) == LISTING
  {
    var reading := To(RACE, 0, SetRead(1, "game"));
    var writing := To(RACE, 0, SetWrite(1, "game", false));
    done := Take([], RACE, Begin(0, SetRead(1, "game")), reading);
    hide Runs, Final;
    done := Take(done, reading, Step(0), writing);
    done := Take(done, writing, Begin(1, Clear(1)), To(writing, 1, Clear(1)));
    done := Take(done, To(writing, 1, Clear(1)), Step(1), LISTING);
  }

  const LOOKED_UP := To(DELETED, 1, Listing(1, ListOutgoing, {2}, {}))

  lemma ListBetween(before: seq<Action>) returns (done: seq<Action>)
    requires Runs(RACE, before) && Final(RACE, before) == LISTING
    ensures Runs(RACE, done) && Final(RACE, done) == LOOKED_UP
  {
    hide Runs, Final;
    PairShown();
    hide FriendsOf, IncomingOf, OutgoingOf;
    var none: set<UserId> := {};
    assert none + {2} == {2} && {2} + none == {2};
    var second := To(DELETED, 1, Listing(1, ListIncoming, {2}, {}));
    done := Take(before, LISTING, Step(1), second);
    done := Take(done, second, Step(1), LOOKED_UP);
  }

  lemma ListedBetween(before: seq<Action>) returns (done: seq<Action>)
    requires Runs(RACE, before) && Final(RACE, before) == LOOKED_UP
    ensures Runs(RACE, done) && Final(RACE, done) == BUMPING
  {
    hide Runs, Final;
    PairShown();
    hide FriendsOf, IncomingOf, OutgoingOf;
    var none: set<UserId> := {};
    assert {2} + none == {2} && multiset({2}) == multiset{2};
    done := Take(before, LOOKED_UP, Step(1), BUMPING);
  }

  const TICKING := To(DELETED.(rev := map[2 := 1]), 1, Ticking(multiset{2}, {}))

  lemma BumpBetween(before: seq<Action>) returns (done: seq<Action>)
    requires Runs(RACE, before) && Final(RACE, before) == BUMPING
    ensures Runs(RACE, done) && Final(RACE, done) == TICKING
  {
    hide Runs, Final;
    assert BumpAll(map[], 0, multiset{2}) == map[2 := 1];
    hide BumpAll;
    done := Take(before, BUMPING, Step(1), TICKING);
  }

  lemma TickBetween(before: seq<Action>) returns (done: seq<Action>)
    requires Runs(RACE, before) && Final(RACE, before) == TICKING
    ensures Runs(RACE, done) && Final(RACE, done) == BUMPED
  {
    hide Runs, Final;
    done := Take(before, TICKING, Step(1), BUMPED);
  }

  /** The friend polls. */
  lemma PollBetween(before: seq<Action>) returns (done: seq<Action>)
    requires Runs(RACE, before) && Final(RACE, before) == BUMPED
    ensures Runs(RACE, done) && Final(RACE, done) == POLLED
  {
    hide Runs, Final;
    PairShown();
    hide Listed, Mutuals;
    var waiting := To(BUMPED, 2, LastRead(2));
    var reading := To(BUMPED, 2, ReadFriends(2, 1));
    done := Take(before, BUMPED, Begin(2, LastRead(2)), waiting);
    done := Take(done, waiting, Step(2), reading);
    done := Take(done, reading, Step(2), POLLED);
  }

  lemma LookBetween(before: seq<Action>) returns (done: seq<Action>)
    requires Runs(RACE, before) && Final(RACE, before) == POLLED
    ensures Runs(RACE, done) && Final(RACE, done) == ANSWERED
  {
    hide Runs, Final;
    var looking := To(BUMPED, 2,
      ReadActivity(2, 1, NOTHING.(friends := map[1 := true], online := map[1 := true]), 1, {}));
    assert {1} - {1} == {};
    done := Take(before, POLLED, Choose(2, 1), looking);
    done := Take(done, looking, Step(2), ANSWERED);
  }

  const HOLDING := To(BUMPED, 2, Done(2, 1, SEEN_GONE))

  lemma AnswerBetween(before: seq<Action>) returns (done: seq<Action>)
    requires Runs(RACE, before) && Final(RACE, before) == ANSWERED
    ensures Runs(RACE, done) && Final(RACE, done) == HOLDING
  {
    hide Runs, Final;
    PairShown();
    hide IncomingOf, OutgoingOf;
    var last := To(BUMPED, 2, ReadIncoming(2, 1, SEEN_GONE));
    done := Take(before, ANSWERED, Step(2), last);
    done := Take(done, last, Step(2), HOLDING);
  }

  /** Only after the poll does set_activity write. */
  lemma WriteAtLast(before: seq<Action>) returns (done: seq<Action>)
    requires Runs(RACE, before) && Final(RACE, before) == HOLDING
    ensures Runs(RACE, done) && Final(RACE, done) == WRITTEN
  {
    hide Runs, Final;
    done := Take(before, HOLDING, Step(0), WRITTEN);
  }

  /** In the last state the friend's revision stands, nobody owes anybody a bump, and
      what the friend was told about user 1 is wrong. */
  lemma WrittenIsStale()
    ensures Rev(WRITTEN, 2) == 1 && !Owed(WRITTEN, 2) && (forall x: UserId :: Settled(WRITTEN, x))
    ensures 1 in CurrentView(WRITTEN, 2).joinable && CurrentView(WRITTEN, 2).joinable[1]
    ensures CurrentView(WRITTEN, 2) != SEEN_GONE
  {
    PairShown();
    hide Mutuals, Listed;
    assert CurrentView(WRITTEN, 2).joinable[1] && !SEEN_GONE.joinable[1];
  }

  /** A friend polling between clear_activity and a set_activity that had compared
      before it ends with a stale view that nobody will ever tell it about. */
  lemma StaleWhenCallsOverlap() returns (actions: seq<Action>)
    ensures Quiet(RACE) && Runs(RACE, actions) && !WritesHarmless(RACE, actions) && !TakenOneAtATime(RACE, actions)
    ensures var s := Final(RACE, actions);
            && 2 in s.procs && s.procs[2] == Done(2, Rev(s, 2), SEEN_GONE)
            && !Owed(s, 2) && (forall x: UserId :: Settled(s, x))
            && CurrentView(s, 2) != SEEN_GONE
  {
    hide Runs, Final, TakenOneAtATime, WritesHarmless, Owed, Settled, CurrentView;
    actions := ClearBetween();
    actions := ListBetween(actions);
    actions := ListedBetween(actions);
    actions := BumpBetween(actions);
    actions := TickBetween(actions);
    actions := PollBetween(actions);
    actions := LookBetween(actions);
    actions := AnswerBetween(actions);
    actions := WriteAtLast(actions);
    WrittenIsStale();
    if TakenOneAtATime(RACE, actions) {
      OneAtATimeSuffices(RACE, actions);
    }
    if WritesHarmless(RACE, actions) {
      LongPollFresh(RACE, actions, 2);
      assert false;
    }
  }
}
