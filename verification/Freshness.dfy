/** Long-poll freshness: a client whose revision is still its user's revision holds
    the current view, up to changes whose writer has not bumped that user yet. */
module Freshness {
  import opened Friends
  import opened Watch
  import opened LongPoll
  import opened WakeUps

  // ---- what an operation in flight still owes ----

  /** p has u among the users it is about to bump. */
  predicate Owes(p: Proc, u: UserId) {
    (p.Listing? && u in p.found) || (p.Bumping? && u in p.names)
  }

  /** p changed x's presence and has not looked up x's friends yet. */
  predicate OwesFriendsOf(p: Proc, x: UserId) {
    || (p.Listing? && p.stage == ListFriends && p.target == x)
    || ((p.Listing? || p.Bumping? || p.Ticking? || p.Sweeping?) && x in p.rest)
  }

  ghost predicate Owed(s: State, u: UserId) {
    exists pid :: pid in s.procs && Owes(s.procs[pid], u)
  }

  /** Nobody owes x's friends a bump, and x has not expired unnoticed. */
  ghost predicate Settled(s: State, x: UserId) {
    && !ExpiredAt(s.seen, s.now, x)
    && forall pid :: pid in s.procs ==> !OwesFriendsOf(s.procs[pid], x)
  }

  // ---- what a poll has read ----

  function MutualIn(v: View): set<UserId> {
    set f | f in v.friends && v.friends[f]
  }

  /** Which entries of the view are filled in so far. */
  predicate Shape(p: Proc) {
    match p
    case ReadPresence(_, _, v, todo) =>
      MutualIn(v) == v.online.Keys + todo && v.online.Keys !! todo && v.joinable.Keys == v.online.Keys
    case ReadActivity(_, _, v, x, todo) =>
      && MutualIn(v) == v.online.Keys + todo && v.online.Keys !! todo && x in v.online && v.online[x]
      && v.joinable.Keys == v.online.Keys - {x}
    case ReadIncoming(_, _, v) => MutualIn(v) == v.online.Keys == v.joinable.Keys
    case Done(_, _, v) => MutualIn(v) == v.online.Keys == v.joinable.Keys
    case _ => true
  }

  predicate RowsCurrent(s: State, p: Proc)
    requires HasView(p)
  {
    && p.view.friends == Listed(s.tables, p.user)
    && (p.ReadIncoming? || p.Done? ==> p.view.outgoing == OutgoingOf(s.tables, p.user))
    && (p.Done? ==> p.view.incoming == IncomingOf(s.tables, p.user))
  }

  ghost predicate PresenceCurrent(s: State, p: Proc, x: UserId)
    requires HasView(p)
  {
    && (x in p.view.online ==> p.view.online[x] == Online(s, x))
    && (x in p.view.joinable ==> p.view.joinable[x] == (Online(s, x) && x in s.activity))
  }

  ghost predicate Fresh(s: State, p: Proc) {
    HasRevision(p) ==>
      && NotAhead(s, p)
      && (HasView(p) && p.revision == Rev(s, p.user) && !Owed(s, p.user) ==>
            && RowsCurrent(s, p)
            && forall x :: x in p.view.online && Settled(s, x) ==> PresenceCurrent(s, p, x))
  }

  ghost predicate ProcInv(s: State, p: Proc) {
    Shape(p) && Fresh(s, p)
  }

  ghost predicate Inv(s: State) {
    forall pid :: pid in s.procs ==> ProcInv(s, s.procs[pid])
  }

  // ---- what a step must keep for the operations that did not move ----

  /** For each user u: if u's revision stands and u is owed nothing after the step,
      then nothing u's view depends on has changed. */
  ghost predicate UserKept(s: State, s': State, u: UserId) {
    && Rev(s, u) <= Rev(s', u)
    && (Rev(s, u) == Rev(s', u) && !Owed(s', u) ==>
          && !Owed(s, u)
          && Listed(s'.tables, u) == Listed(s.tables, u)
          && OutgoingOf(s'.tables, u) == OutgoingOf(s.tables, u)
          && IncomingOf(s'.tables, u) == IncomingOf(s.tables, u)
          && forall x :: x in Mutuals(s.tables, u) && Settled(s', x) ==>
               && Settled(s, x)
               && Online(s', x) == Online(s, x)
               && (Online(s, x) ==> (x in s'.activity <==> x in s.activity)))
  }

  lemma FreshKept(s: State, s': State, p: Proc)
    requires HasRevision(p) && Shape(p) && Fresh(s, p) && UserKept(s, s', p.user)
    ensures Fresh(s', p)
  {
    var u := p.user;
    if HasView(p) && p.revision == Rev(s', u) && !Owed(s', u) {
      assert RowsCurrent(s, p) && RowsCurrent(s', p);
      forall x | x in p.view.online && Settled(s', x)
        ensures PresenceCurrent(s', p, x)
      {
        assert x in MutualIn(p.view) && x in Mutuals(s.tables, u);
        assert Settled(s, x) && PresenceCurrent(s, p, x);
      }
    }
  }

  /** A step that keeps what the others rely on, and leaves the operation that moved
      in order, keeps the invariant. */
  lemma StepKeeps(s: State, s': State, moved: Pid)
    requires Inv(s) && (forall u: UserId :: UserKept(s, s', u))
    requires forall pid :: pid in s'.procs && pid != moved ==> pid in s.procs && s.procs[pid] == s'.procs[pid]
    requires moved in s'.procs ==> ProcInv(s', s'.procs[moved])
    ensures Inv(s')
  {
    forall pid | pid in s'.procs && pid != moved
      ensures ProcInv(s', s'.procs[pid])
    {
      var p := s.procs[pid];
      if HasRevision(p) {
        FreshKept(s, s', p);
      }
    }
  }

  // ---- debts ----

  lemma OwedStays(s: State, s': State, pid: Pid, u: UserId)
    requires pid in s'.procs && s'.procs == s.procs[pid := s'.procs[pid]]
    requires pid in s.procs && Owes(s.procs[pid], u) ==> Owes(s'.procs[pid], u)
    ensures Owed(s, u) ==> Owed(s', u)
  {
    if Owed(s, u) {
      var q :| q in s.procs && Owes(s.procs[q], u);
      assert q in s'.procs && Owes(s'.procs[q], u);
    }
  }

  lemma SettledBefore(s: State, s': State, pid: Pid, x: UserId)
    requires pid in s'.procs && s'.procs == s.procs[pid := s'.procs[pid]]
    requires pid in s.procs && OwesFriendsOf(s.procs[pid], x) ==> OwesFriendsOf(s'.procs[pid], x)
    requires Settled(s', x) && !ExpiredAt(s.seen, s.now, x)
    ensures Settled(s, x)
  {
    forall q | q in s.procs
      ensures !OwesFriendsOf(s.procs[q], x)
    {
      assert q in s'.procs && !OwesFriendsOf(s'.procs[q], x);
    }
  }

  /** Replacing one operation by another that owes at least as much loses no debt. */
  lemma DebtsKept(s: State, s': State, pid: Pid)
    requires pid in s'.procs && s'.procs == s.procs[pid := s'.procs[pid]]
    requires pid in s.procs ==> forall u: UserId :: Owes(s.procs[pid], u) ==> Owes(s'.procs[pid], u)
    requires pid in s.procs ==> forall x: UserId :: OwesFriendsOf(s.procs[pid], x) ==> OwesFriendsOf(s'.procs[pid], x)
    ensures forall u: UserId :: Owed(s, u) ==> Owed(s', u)
    ensures forall x: UserId :: Settled(s', x) && !ExpiredAt(s.seen, s.now, x) ==> Settled(s, x)
  {
    forall u: UserId
      ensures Owed(s, u) ==> Owed(s', u)
    {
      OwedStays(s, s', pid, u);
    }
    forall x: UserId | Settled(s', x) && !ExpiredAt(s.seen, s.now, x)
      ensures Settled(s, x)
    {
      SettledBefore(s, s', pid, x);
    }
  }

  /** A step that changes no data and drops no debt. */
  lemma QuietStep(s: State, pid: Pid, p': Proc)
    requires Inv(s) && ProcInv(To(s, pid, p'), p')
    requires pid in s.procs ==>
               && (forall u: UserId :: Owes(s.procs[pid], u) ==> Owes(p', u))
               && (forall x: UserId :: OwesFriendsOf(s.procs[pid], x) ==> OwesFriendsOf(p', x))
    ensures Inv(To(s, pid, p'))
  {
    var s' := To(s, pid, p');
    DebtsKept(s, s', pid);
    StepKeeps(s, s', pid);
  }

  // ---- the steps of a poll ----

  lemma WaitSteps(s: State, pid: Pid)
    requires Inv(s) && Enabled(s, Step(pid))
    requires s.procs[pid].Subscribing? || s.procs[pid].Checking? || s.procs[pid].Parked? || s.procs[pid].LastRead?
    ensures Inv(Next(s, Step(pid)))
  {
    QuietStep(s, pid, Next(s, Step(pid)).procs[pid]);
  }

  lemma ExpireStep(s: State, pid: Pid)
    requires Inv(s) && Enabled(s, Expire(pid))
    ensures Inv(Next(s, Expire(pid)))
  {
    QuietStep(s, pid, LastRead(s.procs[pid].user));
  }

  /** Nothing but this poll changed, so what it read before is as current as it was. */
  lemma SameWorld(s: State, pid: Pid, p': Proc)
    requires Inv(s) && pid in s.procs && HasRevision(s.procs[pid]) && HasView(p')
    ensures var s' := To(s, pid, p');
            && (forall u: UserId :: !Owed(s', u) ==> !Owed(s, u))
            && (forall x: UserId :: Settled(s', x) ==> Settled(s, x))
            && (forall x: UserId :: Online(s', x) == Online(s, x))
  {
    DebtsKept(s, To(s, pid, p'), pid);
  }

  lemma ReadFriendsStep(s: State, pid: Pid)
    requires Inv(s) && Enabled(s, Step(pid)) && s.procs[pid].ReadFriends?
    ensures Inv(Next(s, Step(pid)))
  {
    QuietStep(s, pid, Next(s, Step(pid)).procs[pid]);
  }

  /** p' has read on from p: it keeps the entries p has, and what it adds is current
      and about one user. */
  ghost predicate ReadsOn(s: State, p: Proc, p': Proc, who: UserId) {
    && HasView(p) && HasView(p') && Shape(p')
    && p'.user == p.user && p'.revision == p.revision && p'.view.friends == p.view.friends
    && (RowsCurrent(s, p) ==> RowsCurrent(s, p'))
    && (forall x :: x in p'.view.online && x != who ==>
          x in p.view.online && p'.view.online[x] == p.view.online[x])
    && (forall x :: x in p'.view.joinable && x != who ==>
          x in p.view.joinable && p'.view.joinable[x] == p.view.joinable[x])
    && (PresenceCurrent(s, p, who) ==> PresenceCurrent(s, p', who))
    && (who in p'.view.online && who !in p.view.online ==> PresenceCurrent(s, p', who))
  }

  lemma ReadMore(s: State, pid: Pid, p': Proc, who: UserId)
    requires Inv(s) && pid in s.procs && ReadsOn(s, s.procs[pid], p', who)
    ensures Inv(To(s, pid, p'))
  {
    var p := s.procs[pid];
    var s' := To(s, pid, p');
    SameWorld(s, pid, p');
    assert ProcInv(s, p);
    hide Shape, Settled, Owed;
    if p'.revision == Rev(s', p'.user) && !Owed(s', p'.user) {
      assert RowsCurrent(s, p) && RowsCurrent(s', p');
      forall x | x in p'.view.online && Settled(s', x)
        ensures PresenceCurrent(s', p', x)
      {
        if x in p.view.online {
          assert PresenceCurrent(s, p, x);
        }
      }
    }
    assert Fresh(s', p');
    QuietStep(s, pid, p');
  }

  lemma ReadPresenceTurn(s: State, pid: Pid, who: UserId)
    requires Inv(s) && Enabled(s, Choose(pid, who)) && s.procs[pid].ReadPresence?
    ensures Inv(Next(s, Choose(pid, who)))
  {
    var p' := Next(s, Choose(pid, who)).procs[pid];
    assert ProcInv(s, s.procs[pid]);
    hide Fresh;
    ReadMore(s, pid, p', who);
  }

  lemma ReadActivityStep(s: State, pid: Pid)
    requires Inv(s) && Enabled(s, Step(pid)) && s.procs[pid].ReadActivity?
    ensures Inv(Next(s, Step(pid)))
  {
    var p' := Next(s, Step(pid)).procs[pid];
    assert ProcInv(s, s.procs[pid]);
    hide Fresh;
    ReadMore(s, pid, p', s.procs[pid].friend);
  }

  lemma ReadRequestsSteps(s: State, pid: Pid)
    requires Inv(s) && Enabled(s, Step(pid)) && (s.procs[pid].ReadPresence? || s.procs[pid].ReadIncoming?)
    ensures Inv(Next(s, Step(pid)))
  {
    var p' := Next(s, Step(pid)).procs[pid];
    assert ProcInv(s, s.procs[pid]);
    hide Fresh;
    ReadMore(s, pid, p', 0);
  }

  // ---- the steps of a writer ----

  lemma BeginStep(s: State, pid: Pid, op: Proc)
    requires Inv(s) && Enabled(s, Begin(pid, op))
    ensures Inv(Next(s, Begin(pid, op)))
  {
    QuietStep(s, pid, op);
  }

  lemma SetReadStep(s: State, pid: Pid)
    requires Inv(s) && Enabled(s, Step(pid)) && (s.procs[pid].SetRead? || s.procs[pid].Sweeping?)
    ensures Inv(Next(s, Step(pid)))
  {
    QuietStep(s, pid, Next(s, Step(pid)).procs[pid]);
  }

  lemma SweepingTurn(s: State, pid: Pid, who: UserId)
    requires Inv(s) && Enabled(s, Choose(pid, who)) && s.procs[pid].Sweeping?
    ensures Inv(Next(s, Choose(pid, who)))
  {
    QuietStep(s, pid, Next(s, Choose(pid, who)).procs[pid]);
  }

  /** A friend operation changes the rows of its two users and at once owes both. */
  lemma ActStep(s: State, pid: Pid)
    requires Inv(s) && Enabled(s, Step(pid)) && s.procs[pid].Act?
    ensures Inv(Next(s, Step(pid)))
  {
    var p := s.procs[pid];
    var s' := Next(s, Step(pid));
    DebtsKept(s, s', pid);
    ErrorsChangeNothing(p.op, s.tables, p.user, p.other);
    forall u: UserId
      ensures UserKept(s, s', u)
    {
      if s'.tables != s.tables {
        assert s'.procs[pid].Bumping?;
        if u == p.user || u == p.other {
          assert Owes(s'.procs[pid], u);
        } else {
          OtherRows(p.op, s.tables, p.user, p.other, u);
        }
      }
    }
    StepKeeps(s, s', pid);
  }

  /** A friend operation shows nothing to anybody but its two users. */
  lemma OtherRows(op: FriendOp, t: Tables, user: UserId, other: UserId, u: UserId)
    requires u != user && u != other
    ensures var t' := Apply(op, t, user, other).1;
            Listed(t', u) == Listed(t, u) && OutgoingOf(t', u) == OutgoingOf(t, u) && IncomingOf(t', u) == IncomingOf(t, u)
  {
    var t' := Apply(op, t, user, other).1;
    forall a: UserId
      ensures ((u, a) in t'.friend <==> (u, a) in t.friend) && ((a, u) in t'.friend <==> (a, u) in t.friend)
      ensures ((u, a) in t'.request <==> (u, a) in t.request) && ((a, u) in t'.request <==> (a, u) in t.request)
    {
      OnlyBetween(op, t, user, other, u, a);
      OnlyBetween(op, t, user, other, a, u);
    }
    assert FriendsOf(t', u) == FriendsOf(t, u) by {
      forall a: UserId
        ensures a in FriendsOf(t', u) <==> a in FriendsOf(t, u)
      {
        Members(t', u, a);
        Members(t, u, a);
      }
    }
    assert OutgoingOf(t', u) == OutgoingOf(t, u) by {
      forall a: UserId
        ensures a in OutgoingOf(t', u) <==> a in OutgoingOf(t, u)
      {
        Members(t', u, a);
        Members(t, u, a);
      }
    }
    assert IncomingOf(t', u) == IncomingOf(t, u) by {
      forall a: UserId
        ensures a in IncomingOf(t', u) <==> a in IncomingOf(t, u)
      {
        Members(t', u, a);
        Members(t, u, a);
      }
    }
  }

  /** Writing or deleting an activity: if its presence changed, x's friends are owed. */
  lemma ActivitySteps(s: State, pid: Pid)
    requires Inv(s) && Enabled(s, Step(pid)) && HarmlessWrite(s, Step(pid))
    requires s.procs[pid].SetWrite? || s.procs[pid].Clear?
    ensures Inv(Next(s, Step(pid)))
  {
    var p := s.procs[pid];
    hide PollNext, RowsCurrent, HasView;
    var s' := Next(s, Step(pid));
    var x0 := p.user;
    DebtsKept(s, s', pid);
    if s'.procs[pid].Listing? {
      assert OwesFriendsOf(s'.procs[pid], x0);
    }
    assert Settled(s', x0) ==> s'.procs[pid].Idle?;
    forall u: UserId
      ensures UserKept(s, s', u)
    {
      forall x | x in Mutuals(s.tables, u) && Settled(s', x)
        ensures Settled(s, x) && (Online(s, x) ==> (x in s'.activity <==> x in s.activity))
      {
      }
    }
    StepKeeps(s, s', pid);
  }

  /** Being seen again: if that made x online, x's friends are owed. */
  lemma TouchStep(s: State, pid: Pid)
    requires Inv(s) && Enabled(s, Step(pid)) && s.procs[pid].Touch?
    ensures Inv(Next(s, Step(pid)))
  {
    var p := s.procs[pid];
    var s' := Next(s, Step(pid));
    var x0 := p.user;
    DebtsKept(s, s', pid);
    if s'.procs[pid].Listing? {
      assert OwesFriendsOf(s'.procs[pid], x0);
    }
    assert Settled(s', x0) ==> s'.procs[pid].Idle?;
    forall u: UserId
      ensures UserKept(s, s', u)
    {
      forall x | x in Mutuals(s.tables, u) && Settled(s', x)
        ensures Settled(s, x) && Online(s', x) == Online(s, x)
      {
      }
    }
    StepKeeps(s, s', pid);
  }

  /** Sweeping forgets only users that were offline already, and owes their friends. */
  lemma SweepStep(s: State, pid: Pid)
    requires Inv(s) && Enabled(s, Step(pid)) && s.procs[pid].Sweep?
    ensures Inv(Next(s, Step(pid)))
  {
    var s' := Next(s, Step(pid));
    var gone := GoneAt(s.seen, s.now);
    forall x | x in gone
      ensures !Settled(s', x)
    {
      assert OwesFriendsOf(s'.procs[pid], x);
    }
    DebtsKept(s, s', pid);
    forall u: UserId
      ensures UserKept(s, s', u)
    {
      forall x | x in Mutuals(s.tables, u) && Settled(s', x)
        ensures Settled(s, x) && Online(s', x) == Online(s, x)
      {
        assert x !in gone;
      }
    }
    StepKeeps(s, s', pid);
  }

  /** Time passing turns nobody's presence but that of users it leaves unswept. */
  lemma AdvanceStep(s: State, span: nat, pid: Pid)
    requires Inv(s) && pid !in s.procs
    ensures Inv(Next(s, Advance(span)))
  {
    var s' := Next(s, Advance(span));
    forall u: UserId
      ensures UserKept(s, s', u)
    {
      assert Owed(s', u) ==> Owed(s, u);
    }
    StepKeeps(s, s', pid);
  }

  /** Looking up x's friends turns the debt for x into a debt to each of them. */
  lemma ListFriendsStep(s: State, pid: Pid)
    requires Inv(s) && Enabled(s, Step(pid)) && s.procs[pid].Listing? && s.procs[pid].stage == ListFriends
    ensures Inv(Next(s, Step(pid)))
  {
    var s' := Next(s, Step(pid));
    var target := s.procs[pid].target;
    forall u: UserId
      ensures UserKept(s, s', u)
    {
      OwedStays(s, s', pid, u);
      if !Owed(s', u) {
        assert !Owes(s'.procs[pid], u);
        Members(s.tables, target, u);
        Members(s.tables, u, target);
        assert target !in Mutuals(s.tables, u);
        forall x | x in Mutuals(s.tables, u) && Settled(s', x)
          ensures Settled(s, x)
        {
          SettledBefore(s, s', pid, x);
        }
      }
    }
    StepKeeps(s, s', pid);
  }

  lemma ListRequestsSteps(s: State, pid: Pid)
    requires Inv(s) && Enabled(s, Step(pid)) && s.procs[pid].Listing? && s.procs[pid].stage != ListFriends
    ensures Inv(Next(s, Step(pid)))
  {
    QuietStep(s, pid, Next(s, Step(pid)).procs[pid]);
  }

  /** A bump pays its debts by moving every named user's revision, and owes a tick. */
  lemma BumpingStep(s: State, pid: Pid)
    requires Inv(s) && Enabled(s, Step(pid)) && s.procs[pid].Bumping?
    ensures Inv(Next(s, Step(pid)))
  {
    var s' := Next(s, Step(pid));
    var names := s.procs[pid].names;
    forall u: UserId
      ensures UserKept(s, s', u)
    {
      BumpCounts(s.rev, s.epoch, names, u);
      if Rev(s, u) == Rev(s', u) {
        OwedStays(s, s', pid, u);
        forall x | Settled(s', x)
          ensures Settled(s, x)
        {
          SettledBefore(s, s', pid, x);
        }
      } else {
        assert u in s'.procs[pid].names;
      }
    }
    StepKeeps(s, s', pid);
  }

  lemma TickingStep(s: State, pid: Pid)
    requires Inv(s) && Enabled(s, Step(pid)) && s.procs[pid].Ticking?
    ensures Inv(Next(s, Step(pid)))
  {
    var s' := Next(s, Step(pid));
    DebtsKept(s, s', pid);
    forall u: UserId
      ensures UserKept(s, s', u)
    {
    }
    StepKeeps(s, s', pid);
  }

  // ---- every run ----

  lemma NextKeeps(s: State, a: Action)
    requires Inv(s) && Enabled(s, a) && HarmlessWrite(s, a)
    ensures Inv(Next(s, a))
  {
    hide Inv;
    match a {
      case Begin(pid, op) => BeginStep(s, pid, op);
      case Expire(pid) => ExpireStep(s, pid);
      case Advance(span) =>
        var pid := Unused(s.procs.Keys);
        AdvanceStep(s, span, pid);
      case Choose(pid, who) =>
        if s.procs[pid].Sweeping? {
          SweepingTurn(s, pid, who);
        } else {
          ReadPresenceTurn(s, pid, who);
        }
      case Step(pid) =>
        match s.procs[pid] {
          case Act(_, _, _) => ActStep(s, pid);
          case SetRead(_, _) => SetReadStep(s, pid);
          case SetWrite(_, _, _) => ActivitySteps(s, pid);
          case Clear(_) => ActivitySteps(s, pid);
          case Touch(_) => TouchStep(s, pid);
          case Sweep => SweepStep(s, pid);
          case Sweeping(_) => SetReadStep(s, pid);
          case Listing(_, stage, _, _) =>
            if stage == ListFriends {
              ListFriendsStep(s, pid);
            } else {
              ListRequestsSteps(s, pid);
            }
          case Bumping(_, _) => BumpingStep(s, pid);
          case Ticking(_, _) => TickingStep(s, pid);
          case Subscribing(_, _) => WaitSteps(s, pid);
          case Checking(_, _, _) => WaitSteps(s, pid);
          case Parked(_, _, _) => WaitSteps(s, pid);
          case LastRead(_) => WaitSteps(s, pid);
          case ReadFriends(_, _) => ReadFriendsStep(s, pid);
          case ReadPresence(_, _, _, _) => ReadRequestsSteps(s, pid);
          case ReadActivity(_, _, _, _, _) => ReadActivityStep(s, pid);
          case ReadIncoming(_, _, _) => ReadRequestsSteps(s, pid);
        }
    }
  }

  /** A process id nobody uses. */
  lemma Unused(used: set<Pid>) returns (pid: Pid)
    ensures pid !in used
  {
    pid := UpperBound(used);
  }

  lemma {:induction false} UpperBound(used: set<Pid>) returns (bound: Pid)
    ensures forall q :: q in used ==> q < bound
  {
    if used == {} {
      bound := 0;
    } else {
      var q :| q in used;
      var below := UpperBound(used - {q});
      bound := if below > q then below else q + 1;
      forall p | p in used
        ensures p < bound
      {
        if p != q {
          assert p in used - {q};
        }
      }
    }
  }

  lemma {:induction false} RunKeeps(s: State, actions: seq<Action>)
    requires Runs(s, actions) && WritesHarmless(s, actions) && Inv(s)
    ensures Inv(Final(s, actions))
    decreases actions
  {
    if actions != [] {
      NextKeeps(s, actions[0]);
      RunKeeps(Next(s, actions[0]), actions[1..]);
    }
  }

  /** After any interleaving: a client that holds its user's present revision holds
      the present view, but for users some writer still has to bump.  Its rows are
      stale only if a bump of the user itself is on its way, and a friend's presence
      only if that friend's watchers are still to be bumped or it expired unswept. */
  lemma LongPollFresh(start: State, actions: seq<Action>, pid: Pid)
    requires Quiet(start) && Runs(start, actions) && WritesHarmless(start, actions)
    requires pid in Final(start, actions).procs && Final(start, actions).procs[pid].Done?
    ensures var s := Final(start, actions);
            var client := s.procs[pid];
            client.revision == Rev(s, client.user) && !Owed(s, client.user) ==>
              var now := CurrentView(s, client.user);
              && client.view.friends == now.friends
              && client.view.outgoing == now.outgoing && client.view.incoming == now.incoming
              && client.view.online.Keys == client.view.joinable.Keys == Mutuals(s.tables, client.user)
              && (forall x :: x in Mutuals(s.tables, client.user) && Settled(s, x) ==>
                    client.view.online[x] == now.online[x] && client.view.joinable[x] == now.joinable[x])
              && ((forall x :: x in Mutuals(s.tables, client.user) ==> Settled(s, x)) ==> client.view == now)
  {
    RunKeeps(start, actions);
    var s := Final(start, actions);
    var client := s.procs[pid];
    assert ProcInv(s, client);
    if client.revision == Rev(s, client.user) && !Owed(s, client.user) {
      assert MutualIn(client.view) == Mutuals(s.tables, client.user);
      forall x | x in Mutuals(s.tables, client.user) && Settled(s, x)
        ensures PresenceCurrent(s, client, x)
      {
      }
      if forall x :: x in Mutuals(s.tables, client.user) ==> Settled(s, x) {
        assert client.view.online == CurrentView(s, client.user).online;
        assert client.view.joinable == CurrentView(s, client.user).joinable;
      }
    }
  }

  lemma NothingOwed(s: State)
    requires AtRest(s)
    ensures forall u: UserId :: !Owed(s, u) && Settled(s, u)
  {
  }

  /** At rest, whoever was answered with the present revision holds the present view. */
  lemma {:induction false} AtRestEverybodyIsCurrent(start: State, actions: seq<Action>, pid: Pid)
    requires Quiet(start) && Runs(start, actions) && WritesHarmless(start, actions) && AtRest(Final(start, actions))
    requires pid in Final(start, actions).procs && Final(start, actions).procs[pid].Done?
    ensures var s := Final(start, actions);
            var client := s.procs[pid];
            client.revision == Rev(s, client.user) ==> client.view == CurrentView(s, client.user)
  {
    LongPollFresh(start, actions, pid);
    NothingOwed(Final(start, actions));
  }
}
