/** The social long poll as interleaved atomic steps.  Every lock section and every
    database call is one step; any number of operations run at once and any of them
    may take the next step.  Writers change the data, then bump revisions, then
    tick; a poll subscribes, reads the revision, and only then reads its view. */
module LongPoll {
  import opened Friends
  import opened Watch

  type Pid = nat

  // ---- what a poll reports ----

  /** The roster and presence a client receives for its user: each friend with
      `mutual`, each mutual friend with `online` and `joinable`, and both kinds of
      pending request. */
  datatype View = View(
    friends: map<UserId, bool>,
    online: map<UserId, bool>,
    joinable: map<UserId, bool>,
    outgoing: set<UserId>,
    incoming: set<UserId>)

  const NOTHING := View(map[], map[], map[], {}, {})

  // ---- operations in flight ----

  datatype Stage = ListFriends | ListIncoming | ListOutgoing

  datatype Proc =
    | Idle
    // friends::request, accept, remove behind `act`
    | Act(op: FriendOp, user: UserId, other: UserId)
    // activity::set_activity: compare, then upsert
    | SetRead(user: UserId, connection: string)
    | SetWrite(user: UserId, connection: string, changed: bool)
    | Clear(user: UserId)
    | Touch(user: UserId)
    | Sweep
    // sweep's loop over the users found gone
    | Sweeping(rest: set<UserId>)
    // bump_watchers_of: three listings, then the bump
    | Listing(target: UserId, stage: Stage, found: set<UserId>, rest: set<UserId>)
    | Bumping(names: multiset<UserId>, rest: set<UserId>)
    | Ticking(names: multiset<UserId>, rest: set<UserId>)
    // changed_since
    | Subscribing(user: UserId, since: nat)
    | Checking(user: UserId, since: nat, seenTick: nat)
    | Parked(user: UserId, since: nat, seenTick: nat)
    | LastRead(user: UserId)
    // the body of `social` after the wait
    | ReadFriends(user: UserId, revision: nat)
    | ReadPresence(user: UserId, revision: nat, view: View, todo: set<UserId>)
    | ReadActivity(user: UserId, revision: nat, view: View, friend: UserId, todo: set<UserId>)
    | ReadIncoming(user: UserId, revision: nat, view: View)
    | Done(user: UserId, revision: nat, view: View)

  datatype State = State(
    epoch: nat,
    now: int,
    tables: Tables,
    activity: map<UserId, string>,
    seen: map<UserId, int>,
    rev: map<UserId, nat>,
    tick: nat,
    procs: map<Pid, Proc>)

  function Rev(s: State, u: UserId): nat {
    RevOf(s.rev, s.epoch, u)
  }

  predicate Online(s: State, u: UserId) {
    OnlineAt(s.seen, s.now, u)
  }

  /** The friends whose presence is shown at all. */
  function Mutuals(t: Tables, u: UserId): set<UserId> {
    set f | f in Listed(t, u) && Listed(t, u)[f]
  }

  function CurrentView(s: State, u: UserId): View {
    View(Listed(s.tables, u),
         map f | f in Mutuals(s.tables, u) :: Online(s, f),
         map f | f in Mutuals(s.tables, u) :: Online(s, f) && f in s.activity,
         OutgoingOf(s.tables, u),
         IncomingOf(s.tables, u))
  }

  // ---- steps ----

  datatype Action =
    | Begin(pid: Pid, op: Proc)             // a request arrives
    | Step(pid: Pid)                        // an operation takes its next step
    | Choose(pid: Pid, who: UserId)         // ... in a loop whose order is not fixed
    | Expire(pid: Pid)                      // a parked poll reaches its deadline
    | Advance(span: nat)                      // time passes

  /** An invitation and a change of name bump as well, though what they change is not
      part of the view. */
  predicate Startable(p: Proc) {
    || p.Act? || p.SetRead? || p.Clear? || p.Touch? || p.Sweep? || p.Subscribing? || p.LastRead?
    || (p.Bumping? && p.rest == {})
    || (p.Listing? && p == Watchers(p.target, {}))
  }

  predicate Enabled(s: State, a: Action) {
    match a
    case Begin(pid, op) => pid !in s.procs && Startable(op)
    case Step(pid) =>
      && pid in s.procs
      && var p := s.procs[pid];
         && !p.Idle? && !p.Done?
         && (p.Sweeping? ==> p.rest == {})
         && (p.ReadPresence? ==> p.todo == {})
         && (p.Parked? ==> s.tick != p.seenTick)
    case Choose(pid, who) =>
      && pid in s.procs
      && var p := s.procs[pid];
         (p.Sweeping? && who in p.rest) || (p.ReadPresence? && who in p.todo)
    case Expire(pid) => pid in s.procs && s.procs[pid].Parked?
    case Advance(_) => true
  }

  function After(rest: set<UserId>): Proc {
    if rest == {} then Idle else Sweeping(rest)
  }

  function Watchers(target: UserId, rest: set<UserId>): Proc {
    Listing(target, ListFriends, {}, rest)
  }

  function To(s: State, pid: Pid, p: Proc): State {
    s.(procs := s.procs[pid := p])
  }

  predicate Polls(p: Proc) {
    || p.Subscribing? || p.Checking? || p.Parked? || p.LastRead?
    || p.ReadFriends? || p.ReadPresence? || p.ReadActivity? || p.ReadIncoming? || p.Done?
  }

  /** A poll only reads: what it will do next. */
  function PollNext(s: State, p: Proc): Proc
    requires Polls(p)
  {
    match p
    case Subscribing(u, since) => Checking(u, since, s.tick)
    case Checking(u, since, seenTick) =>
      if Rev(s, u) != since then ReadFriends(u, Rev(s, u)) else Parked(u, since, seenTick)
    case Parked(u, since, _) => Checking(u, since, s.tick)
    case LastRead(u) => ReadFriends(u, Rev(s, u))
    case ReadFriends(u, r) =>
      ReadPresence(u, r, NOTHING.(friends := Listed(s.tables, u)), Mutuals(s.tables, u))
    case ReadPresence(u, r, v, _) => ReadIncoming(u, r, v.(outgoing := OutgoingOf(s.tables, u)))
    case ReadActivity(u, r, v, x, todo) =>
      ReadPresence(u, r, v.(joinable := v.joinable[x := x in s.activity]), todo)
    case ReadIncoming(u, r, v) => Done(u, r, v.(incoming := IncomingOf(s.tables, u)))
    case Done(_, _, _) => p
  }

  /** What a writer's step changes. */
  function Written(s: State, p: Proc): State {
    match p
    case Act(op, user, other) => s.(tables := Apply(op, s.tables, user, other).1)
    case SetWrite(u, c, _) => s.(activity := s.activity[u := c])
    case Clear(u) => s.(activity := s.activity - {u})
    case Touch(u) => s.(seen := s.seen[u := s.now])
    case Sweep => s.(seen := s.seen - GoneAt(s.seen, s.now))
    case Bumping(names, _) => s.(rev := BumpAll(s.rev, s.epoch, names))
    case Ticking(_, _) => s.(tick := s.tick + 1)
    case _ => s
  }

  /** And what it will do next. */
  function WriterNext(s: State, p: Proc): Proc {
    match p
    case Act(op, user, other) =>
      if Apply(op, s.tables, user, other).0.Ok() then Bumping(multiset{user, other}, {}) else Idle
    case SetRead(u, c) => SetWrite(u, c, u !in s.activity || s.activity[u] != c)
    case SetWrite(u, _, changed) => if changed then Watchers(u, {}) else Idle
    case Clear(u) => if u in s.activity then Watchers(u, {}) else Idle
    case Touch(u) => if Online(s, u) then Idle else Watchers(u, {})
    case Sweep => After(GoneAt(s.seen, s.now))
    case Listing(x, stage, found, rest) =>
      (match stage
       case ListFriends => Listing(x, ListIncoming, found + FriendsOf(s.tables, x), rest)
       case ListIncoming => Listing(x, ListOutgoing, found + IncomingOf(s.tables, x), rest)
       case ListOutgoing =>
         var all := found + OutgoingOf(s.tables, x);
         if all == {} then After(rest) else Bumping(multiset(all), rest))
    case Bumping(names, rest) => Ticking(names, rest)
    case Ticking(_, rest) => After(rest)
    case _ => Idle
  }

  /** The step of one operation. */
  function StepOf(s: State, pid: Pid): State
    requires Enabled(s, Step(pid))
  {
    var p := s.procs[pid];
    if Polls(p) then To(s, pid, PollNext(s, p)) else To(Written(s, p), pid, WriterNext(s, p))
  }

  /** A turn of a loop: the next user swept, or the next friend's presence. */
  function ChooseOf(s: State, pid: Pid, who: UserId): State
    requires Enabled(s, Choose(pid, who))
  {
    match s.procs[pid]
    case Sweeping(rest) => To(s, pid, Watchers(who, rest - {who}))
    case ReadPresence(u, r, v, todo) =>
      var v' := v.(online := v.online[who := Online(s, who)]);
      To(s, pid, if Online(s, who) then ReadActivity(u, r, v', who, todo - {who})
                 else ReadPresence(u, r, v'.(joinable := v.joinable[who := false]), todo - {who}))
    case _ => s
  }

  function Next(s: State, a: Action): State
    requires Enabled(s, a)
  {
    match a
    case Begin(pid, op) => To(s, pid, op)
    case Step(pid) => StepOf(s, pid)
    case Choose(pid, who) => ChooseOf(s, pid, who)
    case Expire(pid) => To(s, pid, LastRead(s.procs[pid].user))
    case Advance(span) => s.(now := s.now + span)
  }

  /** Left to itself, the lookup in three listings bumps exactly the watchers. */
  lemma ListingFindsWatchers(s: State, pid: Pid, x: UserId, rest: set<UserId>)
    requires pid in s.procs && s.procs[pid] == Watchers(x, rest)
    ensures var watchers := WatchersOf(s.tables, x);
            StepOf(StepOf(StepOf(s, pid), pid), pid)
            == To(s, pid, if watchers == {} then After(rest) else Bumping(multiset(watchers), rest))
  {
    var found := {} + FriendsOf(s.tables, x);
    assert found == FriendsOf(s.tables, x);
    assert StepOf(s, pid) == To(s, pid, Listing(x, ListIncoming, found, rest));
    assert StepOf(StepOf(s, pid), pid) == To(s, pid, Listing(x, ListOutgoing, found + IncomingOf(s.tables, x), rest));
  }

  /** A run that starts with no operation in flight, whatever the tables hold. */
  predicate Quiet(s: State) {
    s.procs == map[]
  }

  /** Somebody is shown u, and shown it online. */
  ghost predicate ShownOnline(s: State, u: UserId) {
    Online(s, u) && exists v: UserId :: u in Mutuals(s.tables, v)
  }

  /** A set_activity that found nothing to change finds its row still there when it
      writes, because it was not deleted in between or was written again; or else it
      matters to nobody. */
  ghost predicate HarmlessWrite(s: State, a: Action) {
    a.Step? && a.pid in s.procs && s.procs[a.pid].SetWrite? && !s.procs[a.pid].changed ==>
      s.procs[a.pid].user in s.activity || !ShownOnline(s, s.procs[a.pid].user)
  }

  ghost predicate Runs(s: State, actions: seq<Action>)
    decreases actions
  {
    actions != [] ==>
      && Enabled(s, actions[0])
      && Runs(Next(s, actions[0]), actions[1..])
  }

  function Final(s: State, actions: seq<Action>): State
    requires Runs(s, actions)
    decreases actions
  {
    if actions == [] then s else Final(Next(s, actions[0]), actions[1..])
  }

  ghost predicate WritesHarmless(s: State, actions: seq<Action>)
    requires Runs(s, actions)
    decreases actions
  {
    actions != [] ==> HarmlessWrite(s, actions[0]) && WritesHarmless(Next(s, actions[0]), actions[1..])
  }
}
