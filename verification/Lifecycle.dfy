/** From connecting to hanging up: session ids, the message router and the
    matchmaking registry's connections, as interleaved steps.  Each session's thread
    handles one message at a time; ending a session runs the callbacks in the order
    they were added, the registry's before the router's. */
module Lifecycle {
  import opened Wrappers
  import opened Messages
  import Registry

  type SessionId = nat
  type UserId = int

  datatype Auth = Auth(user: UserId, key: seq<bv8>)

  datatype Recipient = Recipient(session: SessionId, key: seq<bv8>)

  // ---- the router and the id counter ----

  /** `retain(|_, r| r.session != session)`. */
  function Retained(recipients: map<UserId, Recipient>, session: SessionId): map<UserId, Recipient> {
    map u | u in recipients && recipients[u].session != session :: recipients[u]
  }

  /** What `deliver` tries to put on whose connection, under which key. */
  datatype Delivery = Delivery(to: Recipient, message: PushMessage)

  class MessageRouter {
    var recipients: map<UserId, Recipient>
    var nextId: nat

    constructor ()
      ensures recipients == map[] && nextId == 1
    {
      recipients, nextId := map[], 1;
    }

    method Register(session: SessionId, auth: Option<Auth>)
      modifies this`recipients
      ensures recipients == match auth
                            case None => old(recipients)
                            case Some(a) => old(recipients)[a.user := Recipient(session, a.key)]
    {
      if auth.None? {
        return;
      }
      recipients := recipients[auth.value.user := Recipient(session, auth.value.key)];
    }

    method Unregister(session: SessionId)
      modifies this`recipients
      ensures recipients == Retained(old(recipients), session)
    {
      recipients := map u | u in recipients && recipients[u].session != session :: recipients[u];
    }

    method Online() returns (n: nat)
      ensures n == |recipients|
    {
      n := |recipients|;
    }

    /** Every call takes an id, reachable recipient or not.  `writes` says whether
        writing the frame to a connection succeeds. */
    method Deliver(recipient: UserId, sender: UserId, senderName: seq<bv8>, timestamp: int, payload: seq<bv8>,
                   writes: Recipient -> bool)
      returns (delivered: bool, tried: Option<Delivery>)
      modifies this`nextId
      ensures nextId == old(nextId) + 1
      ensures delivered <==> recipient in recipients && writes(recipients[recipient])
      ensures tried == if recipient in recipients
                       then Some(Delivery(recipients[recipient],
                                          PushMessage(recipient, old(nextId), timestamp, sender, senderName, payload)))
                       else None
    {
      var message := PushMessage(recipient, nextId, timestamp, sender, senderName, payload);
      nextId := nextId + 1;
      if recipient !in recipients {
        return false, None;
      }
      var r := recipients[recipient];
      delivered, tried := writes(r), Some(Delivery(r, message));
    }
  }

  class SessionManager {
    var sessionIdCounter: SessionId

    constructor ()
      ensures sessionIdCounter == 0
    {
      sessionIdCounter := 0;
    }

    method RegisterSession() returns (id: SessionId)
      modifies this
      ensures id == old(sessionIdCounter) && sessionIdCounter == old(sessionIdCounter) + 1
    {
      id := sessionIdCounter;
      sessionIdCounter := sessionIdCounter + 1;
    }
  }

  // ---- one connection's life ----

  datatype Conn =
    | Open
    | SigningIn(auth: Auth)   // authenticated, the router not told yet
    | Closing                 // its thread has left the message loop
    | Unlisted                // the registry has been told, the router not yet

  /** `sessions` is what the matchmaking registry holds. */
  datatype State = State(
    nextId: SessionId,
    conns: map<SessionId, Conn>,
    recipients: map<UserId, Recipient>,
    sessions: Registry.Sessions)

  const START := State(0, map[], map[], map[])

  datatype Action =
    | Connect(s: SessionId)
    | Authenticate(s: SessionId, auth: Auth)
    | Register(s: SessionId, auth: Auth)
    | MatchMake(s: SessionId, op: Registry.Op)
    | HangUp(s: SessionId)
    | LeaveRegistry(s: SessionId)
    | LeaveRouter(s: SessionId)

  predicate Enabled(st: State, a: Action) {
    match a
    case Connect(s) => s == st.nextId
    case Authenticate(s, _) => s in st.conns && st.conns[s] == Open
    case Register(s, auth) => s in st.conns && st.conns[s] == SigningIn(auth)
    case MatchMake(s, op) =>
      s in st.conns && st.conns[s] == Open && op.c == s && !op.RemoveOp? && Registry.Possible(st.sessions, op)
    case HangUp(s) => s in st.conns && st.conns[s] == Open
    case LeaveRegistry(s) => s in st.conns && st.conns[s] == Closing
    case LeaveRouter(s) => s in st.conns && st.conns[s] == Unlisted
  }

  function Step(st: State, a: Action): State {
    match a
    case Connect(s) => st.(nextId := st.nextId + 1, conns := st.conns[s := Open])
    case Authenticate(s, auth) => st.(conns := st.conns[s := SigningIn(auth)])
    case Register(s, auth) =>
      st.(conns := st.conns[s := Open], recipients := st.recipients[auth.user := Recipient(s, auth.key)])
    case MatchMake(_, op) => st.(sessions := Registry.StepOf(st.sessions, op))
    case HangUp(s) => st.(conns := st.conns[s := Closing])
    case LeaveRegistry(s) =>
      st.(conns := st.conns[s := Unlisted], sessions := Registry.StepOf(st.sessions, Registry.RemoveOp(s)))
    case LeaveRouter(s) => st.(conns := st.conns - {s}, recipients := Retained(st.recipients, s))
  }

  /** A run, read from its end. */
  predicate Runs(actions: seq<Action>) {
    actions != [] ==>
      var last := |actions| - 1;
      Runs(actions[..last]) && Enabled(Final(actions[..last]), actions[last])
  }

  function Final(actions: seq<Action>): State {
    if actions == [] then START
    else Step(Final(actions[..|actions| - 1]), actions[|actions| - 1])
  }

  // ---- nothing dangles ----

  /** Every id the router or the registry holds belongs to a live session. */
  ghost predicate AllHeldAreLive(st: State) {
    && (forall s :: s in st.conns ==> s < st.nextId)
    && (forall u :: u in st.recipients ==> st.recipients[u].session in st.conns)
    && (forall s :: s in st.sessions ==> s in st.conns && !st.conns[s].Unlisted?)
  }

  lemma StepKeepsLive(st: State, a: Action)
    requires AllHeldAreLive(st) && Enabled(st, a)
    ensures AllHeldAreLive(Step(st, a))
  {
  }

  lemma {:induction false} RunKeepsLive(actions: seq<Action>)
    requires Runs(actions)
    ensures AllHeldAreLive(Final(actions))
  {
    if actions != [] {
      RunKeepsLive(actions[..|actions| - 1]);
      StepKeepsLive(Final(actions[..|actions| - 1]), actions[|actions| - 1]);
    }
  }

  /** So does every id in the registry's index, whichever of its operations kept it. */
  lemma IndexHoldsLive(actions: seq<Action>, byHost: map<Registry.Blob, SessionId>)
    requires Runs(actions) && Registry.Agree(Final(actions).sessions, byHost)
    ensures forall host :: host in byHost ==> byHost[host] in Final(actions).conns
    ensures Registry.UniqueIds(Final(actions).sessions) && |byHost| == |Final(actions).sessions|
  {
    RunKeepsLive(actions);
    Registry.AgreedMaps(Final(actions).sessions, byHost);
  }

  // ---- ids ----

  lemma {:induction false} IdsBelowNext(actions: seq<Action>, i: nat)
    requires Runs(actions) && i < |actions| && actions[i].Connect?
    ensures actions[i].s < Final(actions).nextId
  {
    var last := |actions| - 1;
    if i < last {
      assert actions[..last][i] == actions[i];
      IdsBelowNext(actions[..last], i);
    }
  }

  /** No two connections of one run get the same id, whatever ended in between. */
  lemma {:induction false} IdsNeverReused(actions: seq<Action>, i: nat, j: nat)
    requires Runs(actions) && i < j < |actions| && actions[i].Connect? && actions[j].Connect?
    ensures actions[i].s < actions[j].s
  {
    var last := |actions| - 1;
    if j == last {
      assert actions[..last][i] == actions[i];
      IdsBelowNext(actions[..last], i);
    } else {
      assert actions[..last][i] == actions[i] && actions[..last][j] == actions[j];
      IdsNeverReused(actions[..last], i, j);
    }
  }

  // ---- who is online ----

  /** The latest registration of u in the run. */
  function Latest(actions: seq<Action>, u: UserId): Option<Recipient> {
    if actions == [] then None
    else
      var last := |actions| - 1;
      match actions[last]
      case Register(s, auth) =>
        if auth.user == u then Some(Recipient(s, auth.key)) else Latest(actions[..last], u)
      case _ => Latest(actions[..last], u)
  }

  predicate Ended(actions: seq<Action>, s: SessionId) {
    LeaveRouter(s) in actions
  }

  /** An ended session is gone for good. */
  lemma {:induction false} EndedIsGone(actions: seq<Action>, s: SessionId)
    requires Runs(actions) && Ended(actions, s)
    ensures s < Final(actions).nextId && s !in Final(actions).conns
  {
    var last := |actions| - 1;
    var front := actions[..last];
    assert actions == front + [actions[last]];
    RunKeepsLive(front);
    if Ended(front, s) {
      EndedIsGone(front, s);
    }
  }

  predicate Reachable(actions: seq<Action>, u: UserId) {
    Latest(actions, u).Some? && !Ended(actions, Latest(actions, u).value.session)
  }

  /** The router reaches exactly the users whose latest registering session has not
      ended, through that session and under that session's key. */
  lemma {:induction false} RouterHoldsTheLatest(actions: seq<Action>, u: UserId)
    requires Runs(actions)
    ensures u in Final(actions).recipients <==> Reachable(actions, u)
    ensures Reachable(actions, u) ==> Final(actions).recipients[u] == Latest(actions, u).value
  {
    if actions != [] {
      var last := |actions| - 1;
      var front, a := actions[..last], actions[last];
      assert actions == front + [a];
      assert forall s :: Ended(actions, s) <==> Ended(front, s) || a == LeaveRouter(s);
      RouterHoldsTheLatest(front, u);
      RunKeepsLive(front);
      if a.Register? && Ended(front, a.s) {
        EndedIsGone(front, a.s);
      }
    }
  }

  /** `online` counts those users. */
  lemma {:induction false} OnlineCountsReachable(actions: seq<Action>, users: set<UserId>)
    requires Runs(actions) && (forall u :: u in users <==> Reachable(actions, u))
    ensures |Final(actions).recipients| == |users|
  {
    var recipients := Final(actions).recipients;
    forall u: UserId
      ensures u in recipients.Keys <==> u in users
    {
      RouterHoldsTheLatest(actions, u);
    }
    assert recipients.Keys == users;
  }

  /** The end of an older session does not touch a newer registration. */
  lemma {:induction false} OldEndKeepsNew(actions: seq<Action>, s: SessionId, u: UserId)
    requires Runs(actions + [LeaveRouter(s)]) && Reachable(actions, u) && Latest(actions, u).value.session != s
    ensures var st := Final(actions + [LeaveRouter(s)]);
            u in st.recipients && st.recipients[u] == Latest(actions, u).value
  {
    var all := actions + [LeaveRouter(s)];
    assert all[..|all| - 1] == actions;
    RouterHoldsTheLatest(actions, u);
  }
}
