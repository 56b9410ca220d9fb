/** What a waiting client can rely on in every run, whatever the writers do: no wake-up
    is lost, and a revision counts exactly the bumps that named its user. */
module WakeUps {
  import opened Friends
  import opened Watch
  import opened LongPoll

  predicate HasView(p: Proc) {
    p.ReadPresence? || p.ReadActivity? || p.ReadIncoming? || p.Done?
  }

  predicate HasRevision(p: Proc) {
    p.ReadFriends? || HasView(p)
  }

  ghost predicate NotAhead(s: State, p: Proc) {
    HasRevision(p) ==> p.revision <= Rev(s, p.user)
  }

  /** This operation has counted u up and has not ticked yet. */
  predicate NamesBeforeTick(s: State, bumper: Pid, u: UserId) {
    bumper in s.procs && s.procs[bumper].Ticking? && u in s.procs[bumper].names
  }

  ghost predicate TickOwed(s: State, u: UserId) {
    exists bumper :: NamesBeforeTick(s, bumper, u)
  }

  /** A parked poll with something to report has been woken or is about to be. */
  ghost predicate WillWake(s: State, p: Proc) {
    && (p.Checking? || p.Parked? ==> p.seenTick <= s.tick)
    && (p.Parked? && Rev(s, p.user) != p.since ==> p.seenTick < s.tick || TickOwed(s, p.user))
  }

  ghost predicate WakeInv(s: State) {
    forall pid :: pid in s.procs ==> NotAhead(s, s.procs[pid]) && WillWake(s, s.procs[pid])
  }

  /** Revisions and the tick only move up, and a wake-up owed is owed still or
      delivered. */
  ghost predicate WakesKept(s: State, s': State) {
    && s.tick <= s'.tick
    && (forall u: UserId :: Rev(s, u) <= Rev(s', u))
    && (forall u: UserId :: Rev(s, u) != Rev(s', u) ==> TickOwed(s', u))
    && (forall u: UserId :: TickOwed(s, u) ==> TickOwed(s', u) || s.tick < s'.tick)
  }

  lemma TicksKept(s: State, s': State, pid: Pid)
    requires pid in s'.procs && s'.procs == s.procs[pid := s'.procs[pid]]
    requires pid in s.procs ==> !s.procs[pid].Ticking?
    ensures forall u: UserId :: TickOwed(s, u) ==> TickOwed(s', u)
  {
    forall u: UserId | TickOwed(s, u)
      ensures TickOwed(s', u)
    {
      var q :| NamesBeforeTick(s, q, u);
      assert NamesBeforeTick(s', q, u);
    }
  }

  lemma BumpWakes(s: State, pid: Pid)
    requires Enabled(s, Step(pid)) && s.procs[pid].Bumping?
    ensures WakesKept(s, Next(s, Step(pid)))
  {
    var s' := Next(s, Step(pid));
    TicksKept(s, s', pid);
    forall u: UserId
      ensures Rev(s, u) <= Rev(s', u) && (Rev(s, u) != Rev(s', u) ==> TickOwed(s', u))
    {
      BumpCounts(s.rev, s.epoch, s.procs[pid].names, u);
      if Rev(s, u) != Rev(s', u) {
        assert NamesBeforeTick(s', pid, u);
      }
    }
  }

  lemma TickWakes(s: State, pid: Pid)
    requires Enabled(s, Step(pid)) && s.procs[pid].Ticking?
    ensures WakesKept(s, Next(s, Step(pid)))
  {
  }

  /** The steps that neither count up nor tick. */
  predicate Wakeless(s: State, a: Action) {
    !(a.Step? && a.pid in s.procs && (s.procs[a.pid].Bumping? || s.procs[a.pid].Ticking?))
  }

  lemma WakelessStep(s: State, a: Action)
    requires Enabled(s, a) && Wakeless(s, a)
    ensures var s' := Next(s, a);
            && s'.rev == s.rev && s'.epoch == s.epoch && s'.tick == s.tick
            && (a.Advance? ==> s'.procs == s.procs)
            && (!a.Advance? ==> a.pid in s'.procs && s'.procs == s.procs[a.pid := s'.procs[a.pid]])
  {
    hide PollNext, WriterNext;
  }

  lemma NextWakes(s: State, a: Action)
    requires Enabled(s, a)
    ensures WakesKept(s, Next(s, a))
  {
    if !Wakeless(s, a) {
      if s.procs[a.pid].Bumping? {
        BumpWakes(s, a.pid);
      } else {
        TickWakes(s, a.pid);
      }
    } else {
      var s' := Next(s, a);
      WakelessStep(s, a);
      assert !a.Advance? && a.pid in s.procs ==> !s.procs[a.pid].Ticking?;
      hide Next;
      if a.Advance? {
        forall u: UserId | TickOwed(s, u)
          ensures TickOwed(s', u)
        {
          var q :| NamesBeforeTick(s, q, u);
          assert NamesBeforeTick(s', q, u);
        }
      } else {
        TicksKept(s, s', a.pid);
      }
    }
  }

  predicate Waits(p: Proc) {
    p.Checking? || p.Parked?
  }

  /** A poll that read its revision keeps it. */
  lemma ReadersKeep(s: State, a: Action)
    requires Enabled(s, a) && (a.Step? || a.Choose?) && a.pid in s.procs && HasRevision(s.procs[a.pid])
    ensures var p, p' := s.procs[a.pid], Next(s, a).procs[a.pid];
            HasRevision(p') && p'.user == p.user && p'.revision == p.revision && Next(s, a).rev == s.rev && Next(s, a).epoch == s.epoch
  {
  }

  /** A poll parks only on the revision it was given, with the tick it just saw, and
      takes no revision but the present one. */
  lemma WaitersSee(s: State, a: Action)
    requires Enabled(s, a) && !a.Advance? && (a.pid in s.procs ==> !HasRevision(s.procs[a.pid]))
    requires a.pid in s.procs && Waits(s.procs[a.pid]) ==> s.procs[a.pid].seenTick <= s.tick
    ensures var s' := Next(s, a);
            var p' := s'.procs[a.pid];
            && (HasRevision(p') ==> p'.ReadFriends? && p'.revision == Rev(s', p'.user))
            && (Waits(p') ==> p'.seenTick <= s'.tick && (p'.Parked? ==> Rev(s', p'.user) == p'.since))
  {
    if a.Step? && a.pid in s.procs {
      var p := s.procs[a.pid];
      if !(p.Subscribing? || p.Checking? || p.Parked? || p.LastRead?) {
        WritersDoNotWait(s, a.pid);
      }
    }
  }

  lemma WritersDoNotWait(s: State, pid: Pid)
    requires Enabled(s, Step(pid)) && !HasRevision(s.procs[pid])
    requires var p := s.procs[pid]; !(p.Subscribing? || p.Checking? || p.Parked? || p.LastRead?)
    ensures var p' := Next(s, Step(pid)).procs[pid]; !HasRevision(p') && !Waits(p')
  {
    hide Written;
  }

  lemma MoverWakes(s: State, a: Action)
    requires WakeInv(s) && Enabled(s, a) && !a.Advance?
    ensures var s' := Next(s, a); a.pid in s'.procs && NotAhead(s', s'.procs[a.pid]) && WillWake(s', s'.procs[a.pid])
  {
    assert a.pid in s.procs ==> NotAhead(s, s.procs[a.pid]) && WillWake(s, s.procs[a.pid]);
    if a.pid in s.procs && HasRevision(s.procs[a.pid]) {
      assert a.Step? || a.Choose?;
      ReadersKeep(s, a);
    } else {
      WaitersSee(s, a);
    }
    hide Next;
  }

  lemma OthersStand(s: State, a: Action, pid: Pid)
    requires Enabled(s, a) && pid in Next(s, a).procs && (a.Advance? || pid != a.pid)
    ensures pid in s.procs && Next(s, a).procs[pid] == s.procs[pid]
  {
    hide PollNext, WriterNext;
  }

  lemma NextKeepsWakes(s: State, a: Action)
    requires WakeInv(s) && Enabled(s, a)
    ensures WakeInv(Next(s, a))
  {
    var s' := Next(s, a);
    NextWakes(s, a);
    hide Next, Enabled;
    forall pid | pid in s'.procs
      ensures NotAhead(s', s'.procs[pid]) && WillWake(s', s'.procs[pid])
    {
      if !a.Advance? && pid == a.pid {
        MoverWakes(s, a);
      } else {
        OthersStand(s, a, pid);
        assert NotAhead(s, s.procs[pid]) && WillWake(s, s.procs[pid]);
      }
    }
  }

  lemma {:induction false} RunKeepsWakes(s: State, actions: seq<Action>)
    requires Runs(s, actions) && WakeInv(s)
    ensures WakeInv(Final(s, actions))
    decreases actions
  {
    if actions != [] {
      NextKeepsWakes(s, actions[0]);
      RunKeepsWakes(Next(s, actions[0]), actions[1..]);
    }
  }

  // ---- what a client may rely on ----

  /** A poll parked although its user's revision moved has a tick it has not seen
      yet, or some bumper naming the user stands between its increment and its tick. */
  lemma NoLostWakeUp(start: State, actions: seq<Action>, pid: Pid)
    requires Quiet(start) && Runs(start, actions)
    requires pid in Final(start, actions).procs && Final(start, actions).procs[pid].Parked?
    ensures var s := Final(start, actions);
            var p := s.procs[pid];
            Rev(s, p.user) != p.since ==>
              Enabled(s, Step(pid)) || exists bumper :: NamesBeforeTick(s, bumper, p.user)
  {
    RunKeepsWakes(start, actions);
    var s := Final(start, actions);
    assert WillWake(s, s.procs[pid]);
  }

  /** Either way it reports: the bumper's tick lets the poll step, and a poll that
      can step leaves the wait with a revision other than the one it came with. */
  lemma WakeUpDelivers(start: State, actions: seq<Action>, pid: Pid, bumper: Pid)
    requires Quiet(start) && Runs(start, actions)
    requires pid in Final(start, actions).procs && Final(start, actions).procs[pid].Parked?
    ensures var s := Final(start, actions);
            var p := s.procs[pid];
            && (NamesBeforeTick(s, bumper, p.user) ==>
                  Enabled(s, Step(bumper)) && Enabled(Next(s, Step(bumper)), Step(pid)))
            && (Enabled(s, Step(pid)) ==>
                  var s1 := Next(s, Step(pid));
                  Enabled(s1, Step(pid)) &&
                  var q := Next(s1, Step(pid)).procs[pid];
                  if Rev(s, p.user) != p.since
                  then q == ReadFriends(p.user, Rev(s, p.user))
                  else q == Parked(p.user, p.since, s.tick))
  {
    RunKeepsWakes(start, actions);
    var s := Final(start, actions);
    assert WillWake(s, s.procs[pid]);
  }

  /** A revision a client holds is never ahead of its user's. */
  lemma NeverAhead(start: State, actions: seq<Action>, pid: Pid)
    requires Quiet(start) && Runs(start, actions)
    requires pid in Final(start, actions).procs && HasRevision(Final(start, actions).procs[pid])
    ensures var s := Final(start, actions); s.procs[pid].revision <= Rev(s, s.procs[pid].user)
  {
    RunKeepsWakes(start, actions);
    assert NotAhead(Final(start, actions), Final(start, actions).procs[pid]);
  }

  /** No writer is under way, nobody waits to be swept, and every poll is answered or
      waits for a tick. */
  ghost predicate AtRest(s: State) {
    && (forall pid :: pid in s.procs ==>
          var p := s.procs[pid];
          p.Idle? || p.Done? || (p.Parked? && p.seenTick == s.tick))
    && forall x: UserId :: !ExpiredAt(s.seen, s.now, x)
  }

  /** Then nobody waits in vain: a waiting client's revision is its user's present one. */
  lemma AtRestNobodyWaitsInVain(start: State, actions: seq<Action>, pid: Pid)
    requires Quiet(start) && Runs(start, actions) && AtRest(Final(start, actions))
    requires pid in Final(start, actions).procs && Final(start, actions).procs[pid].Parked?
    ensures var s := Final(start, actions); s.procs[pid].since == Rev(s, s.procs[pid].user)
  {
    NoLostWakeUp(start, actions, pid);
    assert Final(start, actions).procs[pid].seenTick == Final(start, actions).tick;
  }

  // ---- revisions ----

  /** How often this action names u in a bump. */
  function NamedBy(s: State, a: Action, u: UserId): nat
    requires Enabled(s, a)
  {
    if a.Step? && s.procs[a.pid].Bumping? then s.procs[a.pid].names[u] else 0
  }

  function TimesNamed(s: State, actions: seq<Action>, u: UserId): nat
    requires Runs(s, actions)
    decreases actions
  {
    if actions == [] then 0
    else NamedBy(s, actions[0], u) + TimesNamed(Next(s, actions[0]), actions[1..], u)
  }

  lemma NextCounts(s: State, a: Action, u: UserId)
    requires Enabled(s, a)
    ensures Rev(Next(s, a), u) == Rev(s, u) + NamedBy(s, a, u)
    ensures Next(s, a).epoch == s.epoch
  {
    if a.Step? && s.procs[a.pid].Bumping? {
      BumpCounts(s.rev, s.epoch, s.procs[a.pid].names, u);
    }
  }

  /** In every run a revision is where it began plus the number of times a bump has
      named its user; from an empty table it began at the epoch. */
  lemma {:induction false} RevisionCountsBumps(start: State, actions: seq<Action>, u: UserId)
    requires Runs(start, actions)
    ensures Rev(Final(start, actions), u) == Rev(start, u) + TimesNamed(start, actions, u)
    ensures start.rev == map[] ==> Rev(Final(start, actions), u) == start.epoch + TimesNamed(start, actions, u)
    decreases actions
  {
    if actions != [] {
      NextCounts(start, actions[0], u);
      RevisionCountsBumps(Next(start, actions[0]), actions[1..], u);
    }
  }
}
