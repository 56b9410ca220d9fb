/** The friend graph: the two tables of the social database and the three
    operations on them. */
module Friends {
  type UserId = nat

  datatype Tables = Tables(friend: set<(UserId, UserId)>, request: set<(UserId, UserId)>)

  datatype FriendOp = Request | Accept | Remove

  /** What the operation reports: false is an error, and then nothing was changed. */
  datatype Reply = Requested | NowFriends | Removed | NotYourself | NoSuchRequest {
    predicate Ok() {
      Requested? || NowFriends? || Removed?
    }
  }

  function AcceptPair(t: Tables, user: UserId, other: UserId): Tables {
    Tables(t.friend + {(user, other), (other, user)}, t.request - {(user, other), (other, user)})
  }

  function Apply(op: FriendOp, t: Tables, user: UserId, other: UserId): (Reply, Tables) {
    match op
    case Request =>
      if user == other then (NotYourself, t)
      else if (other, user) in t.request then (NowFriends, AcceptPair(t, user, other))
      else (Requested, t.(request := t.request + {(user, other)}))
    case Accept =>
      if (other, user) in t.request then (NowFriends, AcceptPair(t, user, other)) else (NoSuchRequest, t)
    case Remove =>
      (Removed, Tables(t.friend - {(user, other), (other, user)}, t.request - {(user, other), (other, user)}))
  }

  // ---- what the database shows about a user ----

  function FriendsOf(t: Tables, u: UserId): set<UserId> {
    set p | p in t.friend && p.0 == u :: p.1
  }

  function IncomingOf(t: Tables, u: UserId): set<UserId> {
    set p | p in t.request && p.1 == u :: p.0
  }

  function OutgoingOf(t: Tables, u: UserId): set<UserId> {
    set p | p in t.request && p.0 == u :: p.1
  }

  /** `list`: a user's friends, each with whether the row goes both ways. */
  function Listed(t: Tables, u: UserId): map<UserId, bool> {
    map f | f in FriendsOf(t, u) :: (f, u) in t.friend
  }

  function WatchersOf(t: Tables, u: UserId): set<UserId> {
    FriendsOf(t, u) + IncomingOf(t, u) + OutgoingOf(t, u)
  }

  /** Everyone in the roster or the incoming list of u. */
  function ShownTo(t: Tables, u: UserId): set<UserId> {
    Listed(t, u).Keys + OutgoingOf(t, u) + IncomingOf(t, u)
  }

  // ---- the tables in the database ----

  class FriendDb {
    var friend: set<(UserId, UserId)>
    var request: set<(UserId, UserId)>

    function State(): Tables
      reads this
    {
      Tables(friend, request)
    }

    constructor ()
      ensures State() == Tables({}, {})
    {
      friend, request := {}, {};
    }

    method RequestFriend(from: UserId, to: UserId) returns (r: Reply)
      modifies this
      ensures (r, State()) == Apply(Request, old(State()), from, to)
    {
      if from == to {
        return NotYourself;
      }
      var pending := (to, from) in request;
      if pending {
        r := AcceptLocked(from, to);
        return;
      }
      request := request + {(from, to)};
      return Requested;
    }

    method AcceptFriend(user: UserId, from: UserId) returns (r: Reply)
      modifies this
      ensures (r, State()) == Apply(Accept, old(State()), user, from)
    {
      var pending := (from, user) in request;
      if !pending {
        return NoSuchRequest;
      }
      r := AcceptLocked(user, from);
    }

    method AcceptLocked(user: UserId, other: UserId) returns (r: Reply)
      modifies this
      ensures r == NowFriends && State() == AcceptPair(old(State()), user, other)
    {
      request := request - {(user, other), (other, user)};
      var rows := [(user, other), (other, user)];
      for i := 0 to 2
        invariant friend == old(friend) + (if i > 0 then {rows[0]} else {}) + (if i > 1 then {rows[1]} else {})
        invariant request == old(request) - {(user, other), (other, user)}
      {
        friend := friend + {rows[i]};
      }
      return NowFriends;
    }

    method RemoveFriend(user: UserId, other: UserId) returns (r: Reply)
      modifies this
      ensures (r, State()) == Apply(Remove, old(State()), user, other)
    {
      friend := friend - {(user, other), (other, user)};
      request := request - {(user, other), (other, user)};
      return Removed;
    }
  }

  // ---- the graph every run keeps ----

  ghost predicate GraphInv(t: Tables) {
    && (forall a: UserId, b: UserId :: (a, b) in t.friend ==> (b, a) in t.friend && a != b)
    && (forall a: UserId, b: UserId :: (a, b) in t.request ==> (b, a) !in t.request && a != b)
  }

  lemma GraphKept(op: FriendOp, t: Tables, user: UserId, other: UserId)
    requires GraphInv(t)
    ensures GraphInv(Apply(op, t, user, other).1)
  {
  }

  datatype Call = Call(op: FriendOp, user: UserId, other: UserId)

  function RunCalls(t: Tables, calls: seq<Call>): Tables
    decreases calls
  {
    if calls == [] then t else RunCalls(Apply(calls[0].op, t, calls[0].user, calls[0].other).1, calls[1..])
  }

  lemma {:induction false} GraphKeptByRuns(t: Tables, calls: seq<Call>)
    requires GraphInv(t)
    ensures GraphInv(RunCalls(t, calls))
    decreases calls
  {
    if calls != [] {
      GraphKept(calls[0].op, t, calls[0].user, calls[0].other);
      GraphKeptByRuns(Apply(calls[0].op, t, calls[0].user, calls[0].other).1, calls[1..]);
    }
  }

  /** After any run from empty tables: every listed friend is mutual, watching is
      symmetric, and u watches v exactly when v is shown to u. */
  lemma WatchingIsShowing(calls: seq<Call>, u: UserId, v: UserId)
    ensures var t := RunCalls(Tables({}, {}), calls);
            && (v in Listed(t, u) ==> Listed(t, u)[v])
            && (u in WatchersOf(t, v) <==> v in WatchersOf(t, u))
            && (u in WatchersOf(t, v) <==> v in ShownTo(t, u))
            && u !in ShownTo(t, u)
  {
    var t := RunCalls(Tables({}, {}), calls);
    GraphKeptByRuns(Tables({}, {}), calls);
    Members(t, u, v);
    Members(t, v, u);
    Members(t, u, u);
  }

  lemma Members(t: Tables, u: UserId, v: UserId)
    ensures v in FriendsOf(t, u) <==> (u, v) in t.friend
    ensures v in IncomingOf(t, u) <==> (v, u) in t.request
    ensures v in OutgoingOf(t, u) <==> (u, v) in t.request
  {
  }

  /** An operation touches no row but those between its two users, and an error
      touches none. */
  lemma OnlyBetween(op: FriendOp, t: Tables, user: UserId, other: UserId, a: UserId, b: UserId)
    requires (a, b) != (user, other) && (a, b) != (other, user)
    ensures var t' := Apply(op, t, user, other).1;
            ((a, b) in t'.friend <==> (a, b) in t.friend) && ((a, b) in t'.request <==> (a, b) in t.request)
  {
  }

  lemma ErrorsChangeNothing(op: FriendOp, t: Tables, user: UserId, other: UserId)
    ensures !Apply(op, t, user, other).0.Ok() ==> Apply(op, t, user, other).1 == t
  {
  }

  /** When each reply is given, and the rows it announces. */
  lemma RepliesTell(op: FriendOp, t: Tables, user: UserId, other: UserId)
    ensures var (r, t') := Apply(op, t, user, other);
            && (r == NotYourself <==> op == Request && user == other)
            && (r == NoSuchRequest <==> op == Accept && (other, user) !in t.request)
            && (r == NowFriends <==> (op == Accept || (op == Request && user != other)) && (other, user) in t.request)
            && (r == Removed <==> op == Remove)
            && (r == Requested ==> t'.friend == t.friend && (user, other) in t'.request && (other, user) !in t'.request)
            && (r == NowFriends ==> (user, other) in t'.friend && (other, user) in t'.friend
                                    && (user, other) !in t'.request && (other, user) !in t'.request)
            && (r == Removed ==> (user, other) !in t'.friend && (other, user) !in t'.friend
                                 && (user, other) !in t'.request && (other, user) !in t'.request)
            && (r == NotYourself || r == NoSuchRequest ==> t' == t)
  {
  }

  /** What becoming friends takes, and what one remove undoes. */
  lemma RequestAcceptRemove(t: Tables, a: UserId, b: UserId)
    requires GraphInv(t) && a != b && (b, a) !in t.request
    ensures var t1 := Apply(Request, t, a, b).1;
            var t2 := Apply(Accept, t1, b, a).1;
            var crossed := Apply(Request, t1, b, a).1;
            var t3 := Apply(Remove, t2, a, b).1;
            && t1.friend == t.friend && t2 == crossed
            && (a, b) in t2.friend && (b, a) in t2.friend && (a, b) !in t2.request && (b, a) !in t2.request
            && t3.friend == t.friend - {(a, b), (b, a)} && t3.request == t.request - {(a, b), (b, a)}
  {
  }

  // ---- nobody becomes a friend without having agreed ----

  lemma {:induction false} RunSnoc(t: Tables, calls: seq<Call>, c: Call)
    ensures RunCalls(t, calls + [c]) == Apply(c.op, RunCalls(t, calls), c.user, c.other).1
    decreases calls
  {
    if calls == [] {
      assert ([] + [c])[1..] == [];
      assert RunCalls(t, [c]) == RunCalls(Apply(c.op, t, c.user, c.other).1, []);
    } else {
      assert (calls + [c])[0] == calls[0] && (calls + [c])[1..] == calls[1..] + [c];
      RunSnoc(Apply(calls[0].op, t, calls[0].user, calls[0].other).1, calls[1..], c);
    }
  }

  /** Call i asks b on behalf of a. */
  predicate Asks(calls: seq<Call>, i: nat, a: UserId, b: UserId) {
    i < |calls| && calls[i] == Call(Request, a, b)
  }

  /** Call j answers a on behalf of b, by accepting or by asking back. */
  predicate Answers(calls: seq<Call>, j: nat, a: UserId, b: UserId) {
    j < |calls| && (calls[j] == Call(Accept, b, a) || calls[j] == Call(Request, b, a))
  }

  ghost predicate Agreed(calls: seq<Call>, a: UserId, b: UserId) {
    exists i: nat, j: nat :: i < j && Asks(calls, i, a, b) && Answers(calls, j, a, b)
  }

  lemma AgreedStays(calls: seq<Call>, c: Call, a: UserId, b: UserId)
    requires Agreed(calls, a, b)
    ensures Agreed(calls + [c], a, b)
  {
    var i: nat, j: nat :| i < j && Asks(calls, i, a, b) && Answers(calls, j, a, b);
    assert Asks(calls + [c], i, a, b) && Answers(calls + [c], j, a, b);
  }

  lemma {:induction false} EveryRowHasItsCalls(calls: seq<Call>)
    ensures var t := RunCalls(Tables({}, {}), calls);
            && (forall a: UserId, b: UserId :: (a, b) in t.request ==> exists i: nat :: Asks(calls, i, a, b))
            && (forall a: UserId, b: UserId :: (a, b) in t.friend ==> Agreed(calls, a, b) || Agreed(calls, b, a))
    decreases |calls|
  {
    if calls != [] {
      var last := |calls| - 1;
      var front, c := calls[..last], calls[last];
      assert calls == front + [c];
      RunSnoc(Tables({}, {}), front, c);
      EveryRowHasItsCalls(front);
      var t0, t := RunCalls(Tables({}, {}), front), RunCalls(Tables({}, {}), calls);
      forall a: UserId, b: UserId | (a, b) in t.request
        ensures exists i: nat :: Asks(calls, i, a, b)
      {
        if (a, b) in t0.request {
          var i: nat :| Asks(front, i, a, b);
          assert Asks(calls, i, a, b);
        } else {
          assert Asks(calls, last, a, b);
        }
      }
      forall a: UserId, b: UserId | (a, b) in t.friend
        ensures Agreed(calls, a, b) || Agreed(calls, b, a)
      {
        if (a, b) in t0.friend {
          if Agreed(front, a, b) {
            AgreedStays(front, c, a, b);
          } else {
            AgreedStays(front, c, b, a);
          }
        } else {
          assert (c.other, c.user) in t0.request;
          var i: nat :| Asks(front, i, c.other, c.user);
          assert Asks(calls, i, c.other, c.user) && Answers(calls, last, c.other, c.user);
        }
      }
    }
  }

  /** Two users are friends only if one asked and the other answered later. */
  lemma FriendsAgreed(calls: seq<Call>, a: UserId, b: UserId)
    requires (a, b) in RunCalls(Tables({}, {}), calls).friend
    ensures Agreed(calls, a, b) || Agreed(calls, b, a)
  {
    EveryRowHasItsCalls(calls);
  }
}
