/** Group counts: each call takes two locks one after the other, so that calls of
    different sessions interleave between what sessions hold and what is counted. */
module Groups {
  import opened Orders

  type GroupId = nat
  type SessionId = nat

  function Of(counts: map<GroupId, nat>, g: GroupId): nat {
    if g in counts then counts[g] else 0
  }

  /** One up for every group joined. */
  function Raised(counts: map<GroupId, nat>, joined: set<GroupId>): map<GroupId, nat> {
    map g | g in counts.Keys + joined :: Of(counts, g) + if g in joined then 1 else 0
  }

  /** One down for each time a group is named, but not below zero, and not where there
      is no count. */
  function Lowered(counts: map<GroupId, nat>, named: multiset<GroupId>): map<GroupId, nat> {
    map g | g in counts :: if counts[g] >= named[g] then counts[g] - named[g] else 0
  }

  /** No count is missing or stops at zero: the branches that log an error, and the one
      that silently does not subtract, are not taken. */
  predicate Covers(counts: map<GroupId, nat>, named: multiset<GroupId>) {
    forall g :: g in named ==> Of(counts, g) >= named[g]
  }

  class GroupService {
    var counts: map<GroupId, nat>
    var sessionGroups: map<SessionId, seq<GroupId>>

    constructor ()
      ensures counts == map[] && sessionGroups == map[]
    {
      counts, sessionGroups := map[], map[];
    }

    method GetGroupCounts(groups: seq<GroupId>) returns (r: seq<nat>)
      ensures |r| == |groups| && forall i :: 0 <= i < |r| ==> r[i] == Of(counts, groups[i])
    {
      r := [];
      for i := 0 to |groups|
        invariant |r| == i && forall k :: 0 <= k < i ==> r[k] == Of(counts, groups[k])
      {
        r := r + [if groups[i] in counts then counts[groups[i]] else 0];
      }
    }

    /** The first lock section of `set_groups`. */
    method StoreGroups(session: SessionId, groups: seq<GroupId>) returns (previous: set<GroupId>)
      modifies this`sessionGroups
      ensures previous == Held(old(sessionGroups), session)
      ensures sessionGroups == old(sessionGroups)[session := groups]
    {
      previous := {};
      if session in sessionGroups {
        previous := SetOf(sessionGroups[session]);
        sessionGroups := sessionGroups - {session};
      }
      sessionGroups := sessionGroups[session := groups];
    }

    /** The second: the loops over the joined groups and over those left, each in some
        order. */
    method CountGroups(groups: seq<GroupId>, previous: set<GroupId>, joinedOrder: seq<GroupId>, leftOrder: seq<GroupId>)
      requires Enumerates(joinedOrder, Joined(groups, previous)) && Enumerates(leftOrder, Left(groups, previous))
      modifies this`counts
      ensures counts == Lowered(Raised(old(counts), Joined(groups, previous)), multiset(Left(groups, previous)))
    {
      hide Joined, Left, Raised, Lowered;
      SameNames(leftOrder, Left(groups, previous));
      RaiseAll(joinedOrder, Joined(groups, previous));
      LowerAll(leftOrder);
    }

    method RaiseAll(order: seq<GroupId>, joined: set<GroupId>)
      requires Enumerates(order, joined)
      modifies this`counts
      ensures counts == Raised(old(counts), joined)
    {
      RaisedByNone(counts);
      assert SetOf(order[..0]) == {};
      hide Raised, Enumerates, SetOf;
      for i := 0 to |order|
        invariant counts == Raised(old(counts), SetOf(order[..i]))
      {
        RaisedOneMore(old(counts), order, i, joined);
        counts := counts[order[i] := (if order[i] in counts then counts[order[i]] else 0) + 1];
      }
      AllListed(order, joined);
    }

    /** Subtracting one for each group named. */
    method LowerAll(groups: seq<GroupId>)
      modifies this`counts
      ensures counts == Lowered(old(counts), multiset(groups))
    {
      assert multiset(groups[..0]) == multiset{};
      LoweredByNone(counts);
      for i := 0 to |groups|
        invariant counts == Lowered(old(counts), multiset(groups[..i]))
      {
        assert groups[..i + 1] == groups[..i] + [groups[i]];
        LoweredOneMore(old(counts), multiset(groups[..i]), groups[i]);
        if groups[i] in counts && counts[groups[i]] > 0 {
          counts := counts[groups[i] := counts[groups[i]] - 1];
        }
      }
      assert groups[..|groups|] == groups;
    }

    /** The first lock section of `remove_all_groups_for_session`. */
    method DropGroups(session: SessionId) returns (groups: seq<GroupId>)
      modifies this`sessionGroups
      ensures groups == if session in old(sessionGroups) then old(sessionGroups)[session] else []
      ensures sessionGroups == old(sessionGroups) - {session}
    {
      groups := if session in sessionGroups then sessionGroups[session] else [];
      sessionGroups := sessionGroups - {session};
    }
  }

  function SetOf(groups: seq<GroupId>): set<GroupId> {
    set g | g in groups
  }

  function Held(sessionGroups: map<SessionId, seq<GroupId>>, s: SessionId): set<GroupId> {
    if s in sessionGroups then SetOf(sessionGroups[s]) else {}
  }

  /** The groups counted up: those not held before. */
  function Joined(groups: seq<GroupId>, previous: set<GroupId>): set<GroupId> {
    set g | g in groups && g !in previous
  }

  /** The groups counted down: those held before, except the ones counted up.  As the
      ones counted up were never held, that is every group held before. */
  function Left(groups: seq<GroupId>, previous: set<GroupId>): set<GroupId> {
    set g | g in previous && g !in Joined(groups, previous)
  }

  lemma LeftIsAllOfThem(groups: seq<GroupId>, previous: set<GroupId>)
    ensures Left(groups, previous) == previous
  {
  }

  // ---- the loops ----

  lemma RaisedByNone(counts: map<GroupId, nat>)
    ensures Raised(counts, {}) == counts
  {
  }

  lemma RaisedOneMore(counts: map<GroupId, nat>, order: seq<GroupId>, i: nat, joined: set<GroupId>)
    requires Enumerates(order, joined) && i < |order|
    ensures var now := Raised(counts, SetOf(order[..i]));
            Raised(counts, SetOf(order[..i + 1])) == now[order[i] := Of(now, order[i]) + 1]
  {
    NotVisited(order, joined, i);
    assert order[..i + 1] == order[..i] + [order[i]];
    assert SetOf(order[..i + 1]) == SetOf(order[..i]) + {order[i]};
    hide Enumerates;
    RaisedByOne(counts, SetOf(order[..i]), order[i]);
  }

  lemma RaisedByOne(counts: map<GroupId, nat>, joined: set<GroupId>, g: GroupId)
    requires g !in joined
    ensures var now := Raised(counts, joined); Raised(counts, joined + {g}) == now[g := Of(now, g) + 1]
  {
  }

  lemma AllListed(order: seq<GroupId>, s: set<GroupId>)
    requires Enumerates(order, s)
    ensures SetOf(order[..|order|]) == s
  {
    assert order[..|order|] == order;
  }

  lemma LoweredByNone(counts: map<GroupId, nat>)
    ensures Lowered(counts, multiset{}) == counts
  {
  }

  lemma LoweredOneMore(counts: map<GroupId, nat>, named: multiset<GroupId>, g: GroupId)
    ensures var now := Lowered(counts, named);
            Lowered(counts, named + multiset{g}) == if g in now && now[g] > 0 then now[g := now[g] - 1] else now
  {
  }

  lemma {:induction false} SameNames(order: seq<GroupId>, s: set<GroupId>)
    requires Enumerates(order, s)
    ensures multiset(order) == multiset(s)
    decreases |order|
  {
    if order == [] {
      assert s == {};
    } else {
      var last := |order| - 1;
      NotVisited(order, s, last);
      assert order == order[..last] + [order[last]];
      assert Enumerates(order[..last], s - {order[last]}) by {
        forall x
          ensures x in order[..last] <==> x in s - {order[last]}
        {
          assert x in order <==> x in order[..last] || x == order[last];
        }
      }
      SameNames(order[..last], s - {order[last]});
      assert multiset(s) == multiset(s - {order[last]}) + multiset{order[last]};
    }
  }

  // ---- the steps ----

  /** A call between its two lock sections. */
  datatype Pending = Setting(groups: seq<GroupId>, previous: set<GroupId>) | Dropping(groups: seq<GroupId>)

  datatype State = State(counts: map<GroupId, nat>, sessionGroups: map<SessionId, seq<GroupId>>, pending: map<SessionId, Pending>)

  const START := State(map[], map[], map[])

  datatype Action =
    | SetStore(s: SessionId, groups: seq<GroupId>)
    | DropStore(s: SessionId)
    | Count(s: SessionId)

  predicate Enabled(st: State, a: Action) {
    match a
    case SetStore(s, _) => s !in st.pending
    case DropStore(s) => s !in st.pending
    case Count(s) => s in st.pending
  }

  /** What the second lock section adds and takes away. */
  function Adds(p: Pending): set<GroupId> {
    if p.Setting? then Joined(p.groups, p.previous) else {}
  }

  function Takes(p: Pending): multiset<GroupId> {
    if p.Setting? then multiset(Left(p.groups, p.previous)) else multiset(p.groups)
  }

  function StoredBy(st: State, s: SessionId): seq<GroupId> {
    if s in st.sessionGroups then st.sessionGroups[s] else []
  }

  function Step(st: State, a: Action): State
    requires Enabled(st, a)
  {
    match a
    case SetStore(s, groups) =>
      State(st.counts, st.sessionGroups[s := groups], st.pending[s := Setting(groups, Held(st.sessionGroups, s))])
    case DropStore(s) => State(st.counts, st.sessionGroups - {s}, st.pending[s := Dropping(StoredBy(st, s))])
    case Count(s) =>
      State(Lowered(Raised(st.counts, Adds(st.pending[s])), Takes(st.pending[s])), st.sessionGroups, st.pending - {s})
  }

  predicate Runs(st: State, actions: seq<Action>)
    decreases actions
  {
    actions != [] ==> Enabled(st, actions[0]) && Runs(Step(st, actions[0]), actions[1..])
  }

  function Final(st: State, actions: seq<Action>): State
    requires Runs(st, actions)
    decreases actions
  {
    if actions == [] then st else Final(Step(st, actions[0]), actions[1..])
  }

  // ---- what the counts stand for ----

  /** What is counted for a session: until its call's second section, what it held
      before the call. */
  function Counted(st: State, s: SessionId): set<GroupId> {
    if s in st.pending then
      match st.pending[s]
      case Setting(_, previous) => previous
      case Dropping(groups) => SetOf(groups)
    else Held(st.sessionGroups, s)
  }

  function Sessions(st: State): set<SessionId> {
    st.sessionGroups.Keys + st.pending.Keys
  }

  function CountedFor(st: State, g: GroupId): set<SessionId> {
    set s | s in Sessions(st) && g in Counted(st, s)
  }

  function HoldersOf(st: State, g: GroupId): set<SessionId> {
    set s | s in st.sessionGroups && g in st.sessionGroups[s]
  }

  /** Every count is the number of sessions counted for its group. */
  ghost predicate CountsAgree(st: State) {
    forall g: GroupId :: Of(st.counts, g) == |CountedFor(st, g)|
  }

  /** A call under way is about what its session has stored. */
  ghost predicate InStep(st: State) {
    forall s :: s in st.pending ==>
      match st.pending[s]
      case Setting(groups, _) => s in st.sessionGroups && st.sessionGroups[s] == groups
      case Dropping(_) => s !in st.sessionGroups
  }

  lemma StepKeepsInStep(st: State, a: Action)
    requires InStep(st) && Enabled(st, a)
    ensures InStep(Step(st, a))
  {
    hide Raised, Lowered;
  }

  /** Two sets that differ in one element at most. */
  lemma OneApart(a: set<SessionId>, b: set<SessionId>, s: SessionId)
    requires a - {s} == b - {s}
    ensures |b| == |a| + (if s in b then 1 else 0) - (if s in a then 1 else 0)
  {
    assert s in a ==> a == (a - {s}) + {s};
    assert s in b ==> b == (b - {s}) + {s};
    assert s !in a ==> a == a - {s};
    assert s !in b ==> b == b - {s};
  }

  /** A step changes what is counted for its own session only. */
  lemma SessionMoves(st: State, a: Action, g: GroupId)
    requires InStep(st) && Enabled(st, a)
    ensures var st' := Step(st, a);
            |CountedFor(st', g)| == |CountedFor(st, g)|
            + (if g in Counted(st', a.s) then 1 else 0) - (if g in Counted(st, a.s) then 1 else 0)
  {
    var st' := Step(st, a);
    OthersStay(st, a);
    InSessions(st, a.s, g);
    StepKeepsInStep(st, a);
    InSessions(st', a.s, g);
    hide Counted, Step, Sessions;
    OneApart(CountedFor(st, g), CountedFor(st', g), a.s);
  }

  lemma OthersStay(st: State, a: Action)
    requires Enabled(st, a)
    ensures var st' := Step(st, a);
            forall d :: d != a.s ==> (d in Sessions(st) <==> d in Sessions(st')) && Counted(st, d) == Counted(st', d)
  {
    hide Raised, Lowered, Adds, Takes;
  }

  lemma InSessions(st: State, s: SessionId, g: GroupId)
    ensures s in CountedFor(st, g) <==> g in Counted(st, s)
  {
  }

  // ---- exactly when a count stays right ----

  /** A group the call keeps is counted down all the same; a group named more than once
      by a leaving session is counted down more than once, which only goes unnoticed
      when nobody else is counted for it. */
  ghost predicate HarmlessFor(st: State, s: SessionId, g: GroupId)
    requires s in st.pending
  {
    match st.pending[s]
    case Setting(groups, previous) => !(g in groups && g in previous)
    case Dropping(groups) => multiset(groups)[g] > 1 ==> |CountedFor(st, g)| == 1
  }

  ghost predicate Harmless(st: State, s: SessionId)
    requires s in st.pending
  {
    forall g: GroupId :: HarmlessFor(st, s, g)
  }

  /** What a second lock section makes of one count. */
  lemma CountOne(counts: map<GroupId, nat>, adds: set<GroupId>, takes: multiset<GroupId>, g: GroupId)
    ensures var raised := Of(counts, g) + if g in adds then 1 else 0;
            Of(Lowered(Raised(counts, adds), takes), g) == if raised >= takes[g] then raised - takes[g] else 0
  {
  }

  /** Counts that are right stay right over a second lock section if and only if it is
      harmless. */
  lemma CountStaysRight(st: State, s: SessionId)
    requires InStep(st) && CountsAgree(st) && s in st.pending
    ensures CountsAgree(Step(st, Count(s))) <==> Harmless(st, s)
  {
    var st' := Step(st, Count(s));
    forall g: GroupId
      ensures Of(st'.counts, g) == |CountedFor(st', g)| <==> HarmlessFor(st, s, g)
    {
      assert Of(st.counts, g) == |CountedFor(st, g)|;
      CountStaysRightFor(st, s, g);
    }
  }

  lemma CountStaysRightFor(st: State, s: SessionId, g: GroupId)
    requires InStep(st) && s in st.pending && Of(st.counts, g) == |CountedFor(st, g)|
    ensures var st' := Step(st, Count(s));
            Of(st'.counts, g) == |CountedFor(st', g)| <==> HarmlessFor(st, s, g)
  {
    var p := st.pending[s];
    var st' := Step(st, Count(s));
    CountOne(st.counts, Adds(p), Takes(p), g);
    SessionMoves(st, Count(s), g);
    InSessions(st, s, g);
    assert g in Counted(st, s) ==> |CountedFor(st, g)| > 0;
    assert st'.counts == Lowered(Raised(st.counts, Adds(p)), Takes(p));
    assert Counted(st', s) == Held(st.sessionGroups, s);
    hide CountedFor, Raised, Lowered, Step;
    match p
    case Setting(groups, previous) =>
      LeftIsAllOfThem(groups, previous);
      assert Takes(p)[g] == if g in previous then 1 else 0;
    case Dropping(groups) =>
      assert Takes(p) == multiset(groups) && Adds(p) == {};
      assert g in multiset(groups) <==> g in groups;
  }

  /** The first lock section changes no count and nothing counted. */
  lemma StoreStaysRight(st: State, a: Action)
    requires InStep(st) && CountsAgree(st) && Enabled(st, a) && !a.Count?
    ensures CountsAgree(Step(st, a))
  {
    var st' := Step(st, a);
    assert Counted(st', a.s) == Counted(st, a.s);
    hide CountedFor;
    forall g: GroupId
      ensures Of(st'.counts, g) == |CountedFor(st', g)|
    {
      SessionMoves(st, a, g);
    }
  }

  /** The counts are right at every point of the run. */
  ghost predicate AlwaysRight(st: State, actions: seq<Action>)
    requires Runs(st, actions)
    decreases actions
  {
    CountsAgree(st) && (actions != [] ==> AlwaysRight(Step(st, actions[0]), actions[1..]))
  }

  ghost predicate AlwaysHarmless(st: State, actions: seq<Action>)
    requires Runs(st, actions)
    decreases actions
  {
    actions != [] ==>
      && (actions[0].Count? ==> Harmless(st, actions[0].s))
      && AlwaysHarmless(Step(st, actions[0]), actions[1..])
  }

  lemma {:induction false} RightFrom(st: State, actions: seq<Action>)
    requires InStep(st) && CountsAgree(st) && Runs(st, actions)
    ensures AlwaysRight(st, actions) <==> AlwaysHarmless(st, actions)
    decreases actions
  {
    if actions != [] {
      var next := Step(st, actions[0]);
      StepKeepsInStep(st, actions[0]);
      if actions[0].Count? {
        CountStaysRight(st, actions[0].s);
      } else {
        StoreStaysRight(st, actions[0]);
      }
      if CountsAgree(next) {
        RightFrom(next, actions[1..]);
      }
    }
  }

  lemma StartsRight()
    ensures InStep(START) && CountsAgree(START)
  {
    forall g: GroupId
      ensures CountedFor(START, g) == {}
    {
    }
  }

  /** In any interleaving from the start, the counts are right at every point if and
      only if every second lock section is harmless. */
  lemma CountsRightExactly(actions: seq<Action>)
    requires Runs(START, actions)
    ensures AlwaysRight(START, actions) <==> AlwaysHarmless(START, actions)
  {
    StartsRight();
    RightFrom(START, actions);
  }

  // ---- what callers can see to ----

  predicate Distinct(groups: seq<GroupId>) {
    forall i, j :: 0 <= i < j < |groups| ==> groups[i] != groups[j]
  }

  /** A call names no group its session already holds, and a session that leaves has
      stored no group twice. */
  predicate Careful(st: State, a: Action) {
    && (a.SetStore? ==> forall g :: g in a.groups ==> g !in Held(st.sessionGroups, a.s))
    && (a.DropStore? ==> Distinct(StoredBy(st, a.s)))
  }

  predicate AlwaysCareful(st: State, actions: seq<Action>)
    requires Runs(st, actions)
    decreases actions
  {
    actions != [] ==> Careful(st, actions[0]) && AlwaysCareful(Step(st, actions[0]), actions[1..])
  }

  ghost predicate CarefulCalls(st: State) {
    forall s :: s in st.pending ==>
      match st.pending[s]
      case Setting(groups, previous) => forall g :: g in groups ==> g !in previous
      case Dropping(groups) => Distinct(groups)
  }

  lemma {:induction false} DistinctOnce(groups: seq<GroupId>)
    requires Distinct(groups)
    ensures multiset(groups) == multiset(SetOf(groups))
  {
    SameNames(groups, SetOf(groups));
  }

  lemma CarefulIsHarmless(st: State, s: SessionId)
    requires CarefulCalls(st) && s in st.pending
    ensures Harmless(st, s)
  {
    if st.pending[s].Dropping? {
      DistinctOnce(st.pending[s].groups);
    }
  }

  lemma CarefulKept(st: State, a: Action)
    requires CarefulCalls(st) && Enabled(st, a) && Careful(st, a)
    ensures CarefulCalls(Step(st, a))
  {
    hide Raised, Lowered;
  }

  /** Careful calls never run into a missing count or one at zero. */
  lemma NeverSaturates(st: State, s: SessionId)
    requires CountsAgree(st) && CarefulCalls(st) && s in st.pending
    ensures Covers(Raised(st.counts, Adds(st.pending[s])), Takes(st.pending[s]))
  {
    var p := st.pending[s];
    if p.Setting? {
      LeftIsAllOfThem(p.groups, p.previous);
    } else {
      DistinctOnce(p.groups);
    }
    assert Takes(p) == multiset(Counted(st, s));
    forall g | g in Takes(p)
      ensures Of(Raised(st.counts, Adds(p)), g) >= Takes(p)[g]
    {
      InSessions(st, s, g);
      assert |CountedFor(st, g)| > 0;
    }
  }

  lemma {:induction false} CarefulRun(st: State, actions: seq<Action>)
    requires Runs(st, actions) && AlwaysCareful(st, actions) && InStep(st) && CountsAgree(st) && CarefulCalls(st)
    ensures InStep(Final(st, actions)) && CountsAgree(Final(st, actions)) && CarefulCalls(Final(st, actions))
    decreases actions
  {
    if actions != [] {
      var a := actions[0];
      StepKeepsInStep(st, a);
      CarefulKept(st, a);
      if a.Count? {
        CarefulIsHarmless(st, a.s);
        CountStaysRight(st, a.s);
      } else {
        StoreStaysRight(st, a);
      }
      CarefulRun(Step(st, a), actions[1..]);
    }
  }

  /** Over any interleaving of careful calls: a count is the number of sessions counted
      for the group, which is the number that hold it once no call is between its
      sections; and no subtraction ever misses or saturates. */
  lemma GroupCountsExact(actions: seq<Action>, g: GroupId)
    requires Runs(START, actions) && AlwaysCareful(START, actions)
    ensures var st := Final(START, actions);
            && Of(st.counts, g) == |CountedFor(st, g)|
            && (st.pending == map[] ==> Of(st.counts, g) == |HoldersOf(st, g)|)
            && (forall s :: s in st.pending ==> Covers(Raised(st.counts, Adds(st.pending[s])), Takes(st.pending[s])))
  {
    StartsRight();
    CarefulRun(START, actions);
    var st := Final(START, actions);
    forall s | s in st.pending
      ensures Covers(Raised(st.counts, Adds(st.pending[s])), Takes(st.pending[s]))
    {
      NeverSaturates(st, s);
    }
    AtRestHeld(st, g);
  }

  lemma AtRestHeld(st: State, g: GroupId)
    ensures st.pending == map[] ==> CountedFor(st, g) == HoldersOf(st, g)
  {
  }

  // ---- one call on its own ----

  /** No call is under way, and every count is the number of holders. */
  ghost predicate RightAtRest(st: State) {
    st.pending == map[] && forall g: GroupId :: Of(st.counts, g) == |HoldersOf(st, g)|
  }

  lemma RestIsAgreement(st: State)
    requires st.pending == map[]
    ensures InStep(st) && (RightAtRest(st) <==> CountsAgree(st))
  {
    forall g: GroupId
      ensures CountedFor(st, g) == HoldersOf(st, g)
    {
      AtRestHeld(st, g);
    }
  }

  function SetGroups(st: State, s: SessionId, groups: seq<GroupId>): State
    requires s !in st.pending
  {
    Step(Step(st, SetStore(s, groups)), Count(s))
  }

  function LeaveGroups(st: State, s: SessionId): State
    requires s !in st.pending
  {
    Step(Step(st, DropStore(s)), Count(s))
  }

  /** A call's second section straight after its first. */
  lemma Undisturbed(st: State, a: Action)
    requires RightAtRest(st) && !a.Count?
    ensures var stored := Step(st, a);
            && a.s in stored.pending && Step(stored, Count(a.s)).pending == map[]
            && (RightAtRest(Step(stored, Count(a.s))) <==> Harmless(stored, a.s))
  {
    RestIsAgreement(st);
    StoreStaysRight(st, a);
    StepKeepsInStep(st, a);
    var stored := Step(st, a);
    var done := Step(stored, Count(a.s));
    assert done.pending == map[];
    hide Step;
    CountStaysRight(stored, a.s);
    RestIsAgreement(done);
  }

  lemma HarmlessSetting(st: State, s: SessionId)
    requires s in st.pending && st.pending[s].Setting?
    ensures Harmless(st, s) <==> forall g :: g in st.pending[s].groups ==> g !in st.pending[s].previous
  {
    if Harmless(st, s) {
      forall g | g in st.pending[s].groups
        ensures g !in st.pending[s].previous
      {
        assert HarmlessFor(st, s, g);
      }
    }
  }

  /** One undisturbed call of `set_groups` leaves right counts right if and only if it
      names no group its session already holds. */
  lemma KeptGroupsAreLost(st: State, s: SessionId, groups: seq<GroupId>)
    requires RightAtRest(st)
    ensures RightAtRest(SetGroups(st, s, groups)) <==> forall g :: g in groups ==> g !in Held(st.sessionGroups, s)
  {
    Undisturbed(st, SetStore(s, groups));
    HarmlessSetting(Step(st, SetStore(s, groups)), s);
    hide Harmless, RightAtRest;
  }

  lemma HarmlessLeaving(st: State, s: SessionId, g: GroupId)
    requires RightAtRest(st)
    ensures var stored := Step(st, DropStore(s));
            HarmlessFor(stored, s, g) <==> (multiset(StoredBy(st, s))[g] > 1 ==> HoldersOf(st, g) == {s})
  {
    if multiset(StoredBy(st, s))[g] > 1 {
      assert g in StoredBy(st, s);
      SessionMoves(st, DropStore(s), g);
      AtRestHeld(st, g);
      OnlyHolder(HoldersOf(st, g), s);
    }
  }

  /** One undisturbed departure leaves right counts right if and only if no group that
      the session stored more than once has another holder. */
  lemma DuplicatesTakeFromOthers(st: State, s: SessionId)
    requires RightAtRest(st)
    ensures RightAtRest(LeaveGroups(st, s)) <==>
              forall g: GroupId :: multiset(StoredBy(st, s))[g] > 1 ==> HoldersOf(st, g) == {s}
  {
    Undisturbed(st, DropStore(s));
    assert LeaveGroups(st, s) == Step(Step(st, DropStore(s)), Count(s));
    forall g: GroupId
      ensures HarmlessFor(Step(st, DropStore(s)), s, g) <==>
                (multiset(StoredBy(st, s))[g] > 1 ==> HoldersOf(st, g) == {s})
    {
      HarmlessLeaving(st, s, g);
    }
    hide HarmlessFor, Step, HoldersOf, StoredBy, LeaveGroups, RightAtRest;
  }

  lemma OnlyHolder(holders: set<SessionId>, s: SessionId)
    requires s in holders
    ensures |holders| == 1 <==> holders == {s}
  {
    assert holders == (holders - {s}) + {s};
  }

  /** What the two calls make of one count, and of what is held. */
  lemma AfterSetGroups(st: State, s: SessionId, groups: seq<GroupId>, g: GroupId)
    requires s !in st.pending
    ensures var st' := SetGroups(st, s, groups);
            var previous := Held(st.sessionGroups, s);
            && st'.sessionGroups == st.sessionGroups[s := groups] && st'.pending == st.pending
            && var raised := Of(st.counts, g) + if g in groups && g !in previous then 1 else 0;
               Of(st'.counts, g) == if g !in previous then raised else if raised > 0 then raised - 1 else 0
  {
    var previous := Held(st.sessionGroups, s);
    LeftIsAllOfThem(groups, previous);
    CountOne(st.counts, Joined(groups, previous), multiset(previous), g);
  }

  lemma AfterLeaving(st: State, s: SessionId, g: GroupId)
    requires s !in st.pending
    ensures var st' := LeaveGroups(st, s);
            var named := multiset(StoredBy(st, s))[g];
            && st'.sessionGroups == st.sessionGroups - {s}
            && Of(st'.counts, g) == if Of(st.counts, g) >= named then Of(st.counts, g) - named else 0
  {
    CountOne(st.counts, {}, multiset(StoredBy(st, s)), g);
  }

  /** A session that sets the one group it holds again is no longer counted. */
  lemma RetainedGroupForgotten(s: SessionId, g: GroupId)
    ensures var st := SetGroups(SetGroups(START, s, [g]), s, [g]);
            HoldersOf(st, g) == {s} && Of(st.counts, g) == 0
  {
    var once := SetGroups(START, s, [g]);
    AfterSetGroups(START, s, [g], g);
    hide SetGroups;
    AfterSetGroups(once, s, [g], g);
  }

  /** A session that sets a group twice over takes another's count along when it
      leaves. */
  lemma DuplicateForgetsAnother(s: SessionId, t: SessionId, g: GroupId)
    requires s != t
    ensures var st := LeaveGroups(SetGroups(SetGroups(START, s, [g, g]), t, [g]), s);
            HoldersOf(st, g) == {t} && Of(st.counts, g) == 0
  {
    BothJoin(s, t, g);
    hide SetGroups, LeaveGroups, HoldersOf;
    FirstLeaves(SetGroups(SetGroups(START, s, [g, g]), t, [g]), s, t, g);
  }

  lemma FirstLeaves(two: State, s: SessionId, t: SessionId, g: GroupId)
    requires s != t && two.sessionGroups == map[s := [g, g], t := [g]] && two.pending == map[] && Of(two.counts, g) == 2
    ensures HoldersOf(LeaveGroups(two, s), g) == {t} && Of(LeaveGroups(two, s).counts, g) == 0
  {
    AfterLeaving(two, s, g);
    assert multiset(StoredBy(two, s))[g] == 2 by {
      assert StoredBy(two, s) == [g] + [g];
      assert multiset([g] + [g]) == multiset([g]) + multiset([g]);
    }
    hide LeaveGroups, StoredBy, Of;
    assert LeaveGroups(two, s).sessionGroups == map[t := [g]];
    OneHolderLeft(LeaveGroups(two, s), t, g);
    hide HoldersOf;
  }

  lemma BothJoin(s: SessionId, t: SessionId, g: GroupId)
    requires s != t
    ensures var two := SetGroups(SetGroups(START, s, [g, g]), t, [g]);
            two.sessionGroups == map[s := [g, g], t := [g]] && two.pending == map[] && Of(two.counts, g) == 2
  {
    hide SetGroups;
    AfterSetGroups(START, s, [g, g], g);
    var one := SetGroups(START, s, [g, g]);
    assert one.sessionGroups == map[s := [g, g]] && Of(one.counts, g) == 1;
    AfterSetGroups(one, t, [g], g);
  }

  lemma OneHolderLeft(st: State, t: SessionId, g: GroupId)
    requires st.sessionGroups == map[t := [g]]
    ensures HoldersOf(st, g) == {t}
  {
  }
}
