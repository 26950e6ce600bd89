/** Whole runs of the download queue: any events in any order, with peers recognised differently from one event to the
    next. */
module DownloadRuns {
  import opened Collections
  import opened DownloadItem
  import opened DownloadStore
  import opened DownloadQueue

  datatype Event =
    | Second(tick: nat, env: Env)
    | Want(user: HintedUser, env: Env)
    | Forced(id: UserId, now: nat)
    | UpnpReady(now: nat)
    | Blocked(id: UserId, now: nat)
    | Broke(source: HintedUser, failure: Failure, env: Env)
    | Connected(uc: HintedUser, nmdc: bool, env: Env)
    | Granted(user: HintedUser, env: Env)
    | SlotForgotten(user: HintedUser, queuePos: nat, env: Env)
    | Identified(id: UserId)

  /** The timer's clock does not run backwards, and whoever is wanted is recognised as the same user. */
  ghost predicate PossibleRun(events: seq<Event>) {
    && (forall i, j :: 0 <= i < j < |events| && events[i].Second? && events[j].Second? ==>
       events[i].tick <= events[j].tick)
    && (forall i :: 0 <= i < |events| && events[i].Want? ==> Reflexive(events[i].env))
  }

  /** Peers are always recognised by the same classes. */
  ghost predicate FixedClasses(events: seq<Event>, peer: UserId -> nat) {
    forall i :: 0 <= i < |events| ==> InClasses(events[i], peer)
  }

  ghost predicate InClasses(event: Event, peer: UserId -> nat) {
    event.Second? || event.Want? ==> Classes(event.env, peer)
  }

  predicate NeverForced(events: seq<Event>) {
    forall i :: 0 <= i < |events| ==> !events[i].Forced?
  }

  // ----- what an event does -----

  /** A round: which attempts start and which are given up, and what becomes of items whose peer has no other. */
  ghost predicate RoundEffect(before: map<nat, Item>, after: map<nat, Item>, tick: nat, env: Env) {
    && ApartAtStart(before, after, env) && StartedNow(before, after, tick) && OverInTime(before, after, [], tick, env)
    && after.Keys <= before.Keys && forall id :: id in before ==> StrangerEnds(before, after, id, tick, env)
  }

  ghost predicate WantEffect(before: map<nat, Item>, after: map<nat, Item>, user: HintedUser, env: Env) {
    if env.noShareInfo(user) || !env.allowConnect(user) then after == before
    else if exists id :: id in before && env.samePeer(user, before[id].user)
    then exists id: nat, stale :: JoinedTo(before, after, id, stale, user, env)
    else exists id: nat :: id !in before && after == before[id := NewItem(user)]
  }

  ghost predicate ForceEffect(before: map<nat, Item>, after: map<nat, Item>, user: UserId, now: nat) {
    && after.Keys == before.Keys
    && forall id :: id in after ==>
         after[id] ==
         if after[id].user.user == user then Revived(before[id], true, now).(lastAttempt := 0) else before[id]
  }

  /** Only the timer's rounds start attempts. */
  ghost predicate Effect(event: Event, before: map<nat, Item>, after: map<nat, Item>) {
    match event
    case Second(tick, env) => RoundEffect(before, after, tick, env)
    case Want(user, env) => WantEffect(before, after, user, env) && NoStart(before, after)
    case Forced(id, now) => ForceEffect(before, after, id, now) && NoStart(before, after)
    case _ => NoStart(before, after)
  }

  predicate Concerns(source: HintedUser, it: Item, env: Env) {
    it.user.user == source.user || env.samePeer(source, it.user)
  }

  /** Whoever closes a connection for want of a slot, as far as its item goes, was connected. */
  ghost predicate RefusesConnected(event: Event, before: map<nat, Item>) {
    event.Broke? && !event.failure.protocolError && PastHandshake(event.failure.phase) ==>
      forall id :: id in before && Concerns(event.source, before[id], event.env) ==> before[id].state == ACTIVE
  }

  /** Unless items are merged, an item gets more slot waits only if it is refused without being connected. */
  ghost predicate WaitsKept(event: Event, before: map<nat, Item>, after: map<nat, Item>) {
    if event.Second? || event.Want? then FewWaitsKept(before, after, event.env)
    else AllFewWaits(before) && RefusesConnected(event, before) ==> AllFewWaits(after)
  }

  /** What every event keeps; only forcing can make an attempt lose its time. */
  ghost predicate Keeps(event: Event, before: map<nat, Item>, after: map<nat, Item>) {
    && WaitsKept(event, before, after)
    && (!event.Forced? && AllPunctual(before) ==> AllPunctual(after))
    && forall peer :: InClasses(event, peer) && Single(before, peer) ==> Single(after, peer)
  }

  ghost function Done(event: Event, before: map<nat, Item>, after: map<nat, Item>): Claim {
    Claim(Effect(event, before, after) && Keeps(event, before, after))
  }

  lemma QuietDone(event: Event, before: map<nat, Item>, after: map<nat, Item>)
    requires Quiet(before, after).holds && !event.Second? && !event.Want? && !event.Forced?
    requires WaitsKept(event, before, after)
    ensures Done(event, before, after).holds
  {
  }

  lemma ForceDone(event: Event, before: map<nat, Item>, after: map<nat, Item>)
    requires event.Forced? && ForceEffect(before, after, event.id, event.now) && NoStart(before, after)
    ensures Done(event, before, after).holds
  {
    assert forall id :: id in after ==> after[id].user == before[id].user && after[id].hurried == before[id].hurried;
  }

  method HandleRound(m: ConnectionManager, tick: nat, env: Env)
    requires m.Valid() && m.clock <= tick
    modifies m
    ensures m.Valid() && m.clock == tick && Done(Second(tick, env), old(m.items), m.items).holds
  {
    var removed := m.OnSecond(tick, env);
    assert RoundEffect(old(m.items), m.items, tick, env);
  }

  method HandleRequest(m: ConnectionManager, event: Event)
    requires m.Valid() && ((event.Want? && Reflexive(event.env)) || event.Forced?)
    modifies m
    ensures m.Valid() && m.clock == old(m.clock) && Done(event, old(m.items), m.items).holds
  {
    match event
    case Want(user, env) => HandleWant(m, user, env);
    case Forced(id, now) => HandleForce(m, id, now);
  }

  method HandleWant(m: ConnectionManager, user: HintedUser, env: Env)
    requires m.Valid() && Reflexive(env)
    modifies m
    ensures m.Valid() && m.clock == old(m.clock) && Done(Want(user, env), old(m.items), m.items).holds
  {
    m.GetDownloadConnection(user, env);
    assert WantEffect(old(m.items), m.items, user, env);
    assert Effect(Want(user, env), old(m.items), m.items);
  }

  method HandleForce(m: ConnectionManager, id: UserId, now: nat)
    requires m.Valid()
    modifies m
    ensures m.Valid() && m.clock == old(m.clock) && Done(Forced(id, now), old(m.items), m.items).holds
  {
    m.Force(id, now);
    ForceDone(Forced(id, now), old(m.items), m.items);
  }

  method HandleOther(m: ConnectionManager, event: Event)
    requires m.Valid() && !event.Second? && !event.Want? && !event.Forced?
    modifies m
    ensures m.Valid() && m.clock == old(m.clock) && Quiet(old(m.items), m.items).holds
    ensures WaitsKept(event, old(m.items), m.items)
  {
    match event
    case UpnpReady(now) => m.OnUpnpReady(now);
    case Blocked(id, now) => m.BlockRetry(id, now);
    case Broke(source, failure, env) => HandleBroken(m, source, failure, env);
    case Connected(uc, nmdc, env) => HandleConnected(m, uc, nmdc, env);
    case Granted(user, env) => m.ClearOutgoingStrikes(user, env);
    case SlotForgotten(user, queuePos, env) => m.ForgetDownloadSlot(user, queuePos, env);
    case Identified(id) => m.InfReceived(id);
  }

  method HandleBroken(m: ConnectionManager, source: HintedUser, failure: Failure, env: Env)
    requires m.Valid()
    modifies m
    ensures m.Valid() && m.clock == old(m.clock) && Quiet(old(m.items), m.items).holds
    ensures WaitsKept(Broke(source, failure, env), old(m.items), m.items)
  {
    m.Failed(source, failure, env);
  }

  method HandleConnected(m: ConnectionManager, uc: HintedUser, nmdc: bool, env: Env)
    requires m.Valid()
    modifies m
    ensures m.Valid() && m.clock == old(m.clock) && Quiet(old(m.items), m.items).holds
    ensures AllFewWaits(old(m.items)) ==> AllFewWaits(m.items)
  {
    var taken := m.AddDownloadConnection(uc, nmdc, env);
  }

  method Handle(m: ConnectionManager, event: Event)
    requires m.Valid() && (event.Want? ==> Reflexive(event.env)) && (event.Second? ==> m.clock <= event.tick)
    modifies m
    ensures m.Valid() && m.clock == (if event.Second? then event.tick else old(m.clock))
    ensures Done(event, old(m.items), m.items).holds
  {
    ghost var before := m.items;
    if event.Second? {
      HandleRound(m, event.tick, event.env);
    } else if event.Want? || event.Forced? {
      HandleRequest(m, event);
    } else {
      HandleOther(m, event);
      QuietDone(event, before, m.items);
    }
  }

  // ----- runs -----

  /** The attempt budget and the pacing. */
  ghost predicate AllOk(items: map<nat, Item>) {
    forall id :: id in items ==> Budget(items[id]) && Timed(items[id])
  }

  /** The items before the first event and after each. */
  ghost predicate Trace(events: seq<Event>, trace: seq<map<nat, Item>>) {
    && |trace| == |events| + 1 && trace[0] == map[] && (forall k :: 0 <= k < |trace| ==> AllOk(trace[k]))
    && forall k :: 0 <= k < |events| ==> Done(events[k], trace[k], trace[k + 1]).holds
  }

  /** Any run from an empty queue, whoever is recognised as whom: items are freed once each, no two live ones share a
      user, every item keeps to its budget of six attempts and times its attempts from their start unless a merge
      hurried them, and the trace says what every event did. */
  method Run(events: seq<Event>)
    returns (trace: seq<map<nat, Item>>, downloads: seq<nat>, clock: nat, nextId: nat, ghost freed: seq<nat>)
    requires PossibleRun(events)
    ensures Trace(events, trace)
    ensures var items := trace[|events|];
            && Live(items, downloads) && DistinctUsers(items) && FreedOnce(items, freed, nextId)
            && forall id :: id in items ==> ItemOk(items[id], clock)
  {
    var m := new ConnectionManager();
    trace := [m.items];
    for k := 0 to |events|
      invariant fresh(m) && m.Valid() && |trace| == k + 1 && trace[0] == map[] && trace[k] == m.items
      invariant forall i :: 0 <= i <= k ==> AllOk(trace[i])
      invariant forall i :: 0 <= i < k ==> Done(events[i], trace[i], trace[i + 1]).holds
      invariant m.clock == 0 || exists i :: 0 <= i < k && events[i].Second? && events[i].tick == m.clock
    {
      Handle(m, events[k]);
      trace := trace + [m.items];
    }
    m.UsersAreDistinct();
    return trace, m.downloads, m.clock, m.nextId, m.freed;
  }

  /** Whoever is recognised as whom: an attempt only starts in a round of the timer, is timed and counted from there,
      and starts only if in that round its peer is not recognised as that of any other attempt that runs; of two that
      start in one round this holds for the later one. */
  lemma AttemptsStartApart(events: seq<Event>, trace: seq<map<nat, Item>>, k: nat, i: nat, j: nat)
    requires Trace(events, trace) && k < |events| && i != j && i in trace[k + 1] && j in trace[k + 1]
    requires trace[k + 1][i].state == CONNECTING && trace[k + 1][j].state == CONNECTING
    requires i in trace[k] ==> trace[k][i].state != CONNECTING
    ensures events[k].Second? && i in trace[k] && j in trace[k]
    ensures trace[k + 1][i].since == events[k].tick && trace[k + 1][i].tries == trace[k][i].tries + 1
    ensures var same := events[k].env.samePeer;
            || !same(trace[k][i].user, trace[k + 1][j].user)
            || (trace[k][j].state != CONNECTING && !same(trace[k][j].user, trace[k + 1][i].user))
  {
    assert Done(events[k], trace[k], trace[k + 1]).holds;
  }

  /** With fixed classes no class ever has two items, so nothing is ever merged and no attempt is hurried. */
  lemma {:induction false} OneItemPerClass(events: seq<Event>, trace: seq<map<nat, Item>>, peer: UserId -> nat, k: nat)
    requires Trace(events, trace) && FixedClasses(events, peer) && k < |trace|
    ensures Single(trace[k], peer)
  {
    if k > 0 {
      OneItemPerClass(events, trace, peer, k - 1);
      assert Done(events[k - 1], trace[k - 1], trace[k]).holds && InClasses(events[k - 1], peer);
    }
  }

  /** Without Force every attempt is timed from its start or later. */
  lemma {:induction false} PunctualUnlessForced(events: seq<Event>, trace: seq<map<nat, Item>>, k: nat)
    requires Trace(events, trace) && NeverForced(events) && k < |trace|
    ensures AllPunctual(trace[k])
  {
    if k > 0 {
      PunctualUnlessForced(events, trace, k - 1);
      assert Done(events[k - 1], trace[k - 1], trace[k]).holds;
    }
  }

  /** Nobody refuses a slot without being connected. */
  ghost predicate RefusedConnected(events: seq<Event>, trace: seq<map<nat, Item>>)
    requires |trace| == |events| + 1
  {
    forall k :: 0 <= k < |events| ==> RefusesConnected(events[k], trace[k])
  }

  /** A connection takes the slot waits back. So, with fixed classes, no item ever has more than one: a peer without a
      slot is called every five minutes, and never parked for it. */
  lemma {:induction false} WaitsNeverGrow(events: seq<Event>, trace: seq<map<nat, Item>>, peer: UserId -> nat, k: nat)
    requires Trace(events, trace) && FixedClasses(events, peer) && RefusedConnected(events, trace) && k < |trace|
    ensures AllFewWaits(trace[k])
    ensures forall id :: id in trace[k] ==> QueueBackoffMs(trace[k][id].slotWaits) <= 5 * 60_000
  {
    if k > 0 {
      WaitsNeverGrow(events, trace, peer, k - 1);
      OneItemPerClass(events, trace, peer, k - 1);
      assert Done(events[k - 1], trace[k - 1], trace[k]).holds && InClasses(events[k - 1], peer);
      assert RefusesConnected(events[k - 1], trace[k - 1]);
    }
    forall id | id in trace[k] ensures QueueBackoffMs(trace[k][id].slotWaits) <= 5 * 60_000 {
      SlotWaitGrows(trace[k][id].slotWaits);
    }
  }

  /** The timer gives up on a wanted attempt in this event. */
  predicate GivenUpIn(event: Event, before: map<nat, Item>, after: map<nat, Item>, id: nat) {
    event.Second? && id in before && before[id].state == CONNECTING && Wanted(before[id], event.env)
        && Ended(after, [], id)
  }

  /** So without Force no attempt is given up until its full wait is over, whoever is recognised as whom. */
  lemma FullWaitUnlessForced(events: seq<Event>, trace: seq<map<nat, Item>>, k: nat, id: nat)
    requires Trace(events, trace) && NeverForced(events) && k < |events|
    requires GivenUpIn(events[k], trace[k], trace[k + 1], id)
    ensures trace[k][id].since + CONNECT_TIMEOUT_MS < events[k].tick
  {
    PunctualUnlessForced(events, trace, k);
    assert Done(events[k], trace[k], trace[k + 1]).holds;
    assert TimeOver(trace[k], id, events[k].tick, events[k].env);
  }

  /** Nor with Force, if peers are always recognised by the same classes. */
  lemma FullWaitInFixedClasses(events: seq<Event>, trace: seq<map<nat, Item>>, peer: UserId -> nat, k: nat, id: nat)
    requires Trace(events, trace) && FixedClasses(events, peer) && k < |events|
    requires GivenUpIn(events[k], trace[k], trace[k + 1], id)
    ensures trace[k][id].since + CONNECT_TIMEOUT_MS < events[k].tick
  {
    OneItemPerClass(events, trace, peer, k);
    assert Done(events[k], trace[k], trace[k + 1]).holds && InClasses(events[k], peer) && AllOk(trace[k]);
    assert TimeOver(trace[k], id, events[k].tick, events[k].env);
  }

  // ----- a run in which an attempt is given up early -----

  /** Everybody is online and wanted; the two users are recognised as one peer or not. */
  function Usual(now: nat, together: bool, answer: ConnectResult): Env {
    Env(now, (a: HintedUser, b: HintedUser) => a.user == b.user || together, u => false, u => true, u => false,
        u => false, u => true, u => true, u => true, true, u => true, u => false, u => false, u => None, u => answer)
  }

  const FIRST := HintedUser(1, "hub")
  const SECOND := HintedUser(2, "other")

  const SECOND_WANTED: Event := Want(SECOND, Usual(0, false, HubWait))
  const SECOND_REFUSED: Event := Second(1_000, Usual(1_000, false, Refused("")))
  const FIRST_WANTED: Event := Want(FIRST, Usual(19_500, false, HubWait))
  const FIRST_STARTED: Event := Second(20_000, Usual(20_000, false, Sent("", "")))
  const FIRST_FORCED: Event := Forced(1, 30_200)
  const BOTH_WANTED: Event := Want(FIRST, Usual(30_700, true, HubWait))
  const GIVEN_UP: Event := Second(52_000, Usual(52_000, false, HubWait))

  /** The second user's request is refused at one second, the first user's attempt starts at 20, and between the rounds
      at 30 and 31 it is forced and the two are recognised as one peer. At 52 seconds the round comes that gives the
      attempt up. The rounds in between change nothing and are left out. */
  function EarlyEvents(): seq<Event> {
    [SECOND_WANTED, SECOND_REFUSED, FIRST_WANTED, FIRST_STARTED, FIRST_FORCED, BOTH_WANTED, GIVEN_UP]
  }

  lemma Strange(now: nat, answer: ConnectResult, it: Item)
    ensures Untangled(it, Usual(now, false, answer))
  {
  }

  /** A round over items whose peers are not recognised as each other. */
  lemma RoundOf(before: map<nat, Item>, after: map<nat, Item>, tick: nat, answer: ConnectResult, id: nat, v: Visited)
    requires id in before && Done(Second(tick, Usual(tick, false, answer)), before, after).holds
    requires forall d :: AfterVisit(before[id], tick, Usual(tick, false, answer), ALONE, d) == v
    ensures DoneAs(v, after, id, id !in after)
  {
    Strange(tick, answer, before[id]);
    assert StrangerEnds(before, after, id, tick, Usual(tick, false, answer));
  }

  const REFUSED := NewItem(SECOND).(lastAttempt := 1_000)
  const STARTED := NewItem(FIRST).(state := CONNECTING, lastAttempt := 20_000, since := 20_000, tries := 1,
                                   connectAttempts := 1)

  lemma RefusedAtOnce()
    ensures var env := Usual(1_000, false, Refused(""));
            forall d :: AfterVisit(NewItem(SECOND), 1_000, env, ALONE, d) == Visited(REFUSED, false, false)
  {
  }

  lemma StartedAtTwenty()
    ensures var env := Usual(20_000, false, Sent("", ""));
            && (forall d :: AfterVisit(NewItem(FIRST), 20_000, env, ALONE, d) == Visited(STARTED, false, true))
            && (forall d :: AfterVisit(REFUSED, 20_000, env, ALONE, d) == Visited(REFUSED, false, false))
  {
  }

  const HURRIED := STARTED.(lastAttempt := 1_000, hurried := true)

  lemma GivenUpAtFiftyTwo()
    ensures forall d :: AfterVisit(HURRIED, 52_000, Usual(52_000, false, HubWait), ALONE, d)
                        == Visited(Rested(TimedOut(HURRIED).(user := HintedUser(1, "")), 52_000), false, false)
  {
  }

  lemma WantedFirst(before: map<nat, Item>, after: map<nat, Item>, user: HintedUser, now: nat) returns (id: nat)
    requires Done(Want(user, Usual(now, false, HubWait)), before, after).holds
    requires forall i :: i in before ==> before[i].user.user != user.user
    ensures id !in before && after == before[id := NewItem(user)]
  {
    id :| id !in before && after == before[id := NewItem(user)];
  }

  lemma FirstIsStarted(before: map<nat, Item>, after: map<nat, Item>, a: nat, b: nat)
    requires a != b && before == map[b := REFUSED, a := NewItem(FIRST)]
    requires Done(FIRST_STARTED, before, after).holds
    ensures after == map[b := REFUSED, a := STARTED]
  {
    StartedAtTwenty();
    RoundOf(before, after, 20_000, Sent("", ""), a, Visited(STARTED, false, true));
    RoundOf(before, after, 20_000, Sent("", ""), b, Visited(REFUSED, false, false));
    assert after.Keys == {a, b};
  }

  lemma FirstIsForced(before: map<nat, Item>, after: map<nat, Item>, a: nat, b: nat)
    requires a != b && before == map[b := REFUSED, a := STARTED] && Done(FIRST_FORCED, before, after).holds
    ensures after == map[b := REFUSED, a := STARTED.(lastAttempt := 0)]
  {
    assert after.Keys == {a, b};
  }

  lemma OnlyOne(ids: seq<nat>, b: nat)
    requires NoDup(ids) && forall i: nat :: i in ids <==> i == b
    ensures ids == [b]
  {
    assert b in ids;
    assert ids[0] in ids && ids[|ids| - 1] in ids;
  }

  lemma MergedOne(items: map<nat, Item>, keep: Item, b: nat)
    requires b in items
    ensures MergedAll(items, keep, [b]) == Merged(keep, items[b])
  {
    assert [b][..0] == [];
  }

  lemma HurriedByMerge()
    ensures Merged(STARTED.(lastAttempt := 0), REFUSED) == HURRIED && Joined(HURRIED, FIRST, 30_700) == HURRIED
  {
  }

  lemma JoinsFirst(before: map<nat, Item>, after: map<nat, Item>, a: nat, b: nat) returns (stale: seq<nat>)
    requires a != b && before == map[b := REFUSED, a := STARTED.(lastAttempt := 0)]
    requires Done(BOTH_WANTED, before, after).holds
    ensures JoinedTo(before, after, a, stale, FIRST, Usual(30_700, true, HubWait))
  {
    var env := Usual(30_700, true, HubWait);
    assert a in before && env.samePeer(FIRST, before[a].user);
    var id: nat, s :| JoinedTo(before, after, id, s, FIRST, env);
    assert id == a;
    stale := s;
  }

  lemma OthersGone(before: map<nat, Item>, a: nat, b: nat)
    requires a != b && before.Keys == {a, b}
    ensures before - (set i | i in [b]) == map[a := before[a]]
  {
  }

  lemma SecondIsMerged(before: map<nat, Item>, after: map<nat, Item>, a: nat, b: nat)
    requires a != b && before == map[b := REFUSED, a := STARTED.(lastAttempt := 0)]
    requires Done(BOTH_WANTED, before, after).holds
    ensures after == map[a := HURRIED]
  {
    var stale := JoinsFirst(before, after, a, b);
    OnlyOne(stale, b);
    MergedAfter(before, after, a, b);
  }

  lemma MergedAfter(before: map<nat, Item>, after: map<nat, Item>, a: nat, b: nat)
    requires a != b && before == map[b := REFUSED, a := STARTED.(lastAttempt := 0)]
    requires after == (before - (set i | i in [b]))[a := Joined(MergedAll(before, before[a], [b]), FIRST, 30_700)]
    ensures after == map[a := HURRIED]
  {
    OthersGone(before, a, b);
    MergedOne(before, before[a], b);
    HurriedByMerge();
  }

  lemma BothAreQueued(t0: map<nat, Item>, t1: map<nat, Item>, t2: map<nat, Item>, t3: map<nat, Item>)
    returns (a: nat, b: nat)
    requires t0 == map[] && Done(SECOND_WANTED, t0, t1).holds
    requires Done(SECOND_REFUSED, t1, t2).holds
    requires Done(FIRST_WANTED, t2, t3).holds
    ensures a != b && t3 == map[b := REFUSED, a := NewItem(FIRST)]
  {
    b := WantedFirst(t0, t1, SECOND, 0);
    RefusedAtOnce();
    RoundOf(t1, t2, 1_000, Refused(""), b, Visited(REFUSED, false, false));
    assert t2 == map[b := REFUSED];
    a := WantedFirst(t2, t3, FIRST, 19_500);
  }

  lemma GivenUpEarly(before: map<nat, Item>, after: map<nat, Item>, a: nat)
    requires before == map[a := HURRIED] && Done(GIVEN_UP, before, after).holds
    ensures GivenUpIn(GIVEN_UP, before, after, a)
    ensures a in after && after[a].state == WAITING && after[a].errors == 1
  {
    GivenUpAtFiftyTwo();
    var rested := Rested(TimedOut(HURRIED).(user := HintedUser(1, "")), 52_000);
    RoundOf(before, after, 52_000, HubWait, a, Visited(rested, false, false));
  }

  lemma EarlySteps(trace: seq<map<nat, Item>>)
    requires Trace(EarlyEvents(), trace)
    ensures |trace| == 8 && trace[0] == map[]
    ensures Done(SECOND_WANTED, trace[0], trace[1]).holds
    ensures Done(SECOND_REFUSED, trace[1], trace[2]).holds
    ensures Done(FIRST_WANTED, trace[2], trace[3]).holds
    ensures Done(FIRST_STARTED, trace[3], trace[4]).holds
    ensures Done(FIRST_FORCED, trace[4], trace[5]).holds
    ensures Done(BOTH_WANTED, trace[5], trace[6]).holds
    ensures Done(GIVEN_UP, trace[6], trace[7]).holds
  {
    var events := EarlyEvents();
    assert Done(events[0], trace[0], trace[1]).holds && Done(events[1], trace[1], trace[2]).holds;
    assert Done(events[2], trace[2], trace[3]).holds && Done(events[3], trace[3], trace[4]).holds;
    assert Done(events[4], trace[4], trace[5]).holds && Done(events[5], trace[5], trace[6]).holds;
    assert Done(events[6], trace[6], trace[7]).holds;
  }

  /** A run in which an attempt that started at 20 seconds is given up at 52, 18 seconds before its wait is over: it was
      forced, and a waiting item of what is now the same peer, whose last attempt is older, was merged into it. */
  lemma EarlyTimeout(trace: seq<map<nat, Item>>)
    requires Trace(EarlyEvents(), trace)
    ensures exists id: nat ::
              && GivenUpIn(EarlyEvents()[6], trace[6], trace[7], id) && trace[6][id].since == 20_000
              && EarlyEvents()[6].tick == 52_000 < trace[6][id].since + CONNECT_TIMEOUT_MS
              && id in trace[7] && trace[7][id].state == WAITING && trace[7][id].errors == 1
  {
    EarlySteps(trace);
    var a, b := BothAreQueued(trace[0], trace[1], trace[2], trace[3]);
    FirstIsStarted(trace[3], trace[4], a, b);
    FirstIsForced(trace[4], trace[5], a, b);
    SecondIsMerged(trace[5], trace[6], a, b);
    GivenUpEarly(trace[6], trace[7], a);
  }

  /** The run itself. */
  method RunEarly() returns (trace: seq<map<nat, Item>>, id: nat)
    ensures Trace(EarlyEvents(), trace) && GivenUpIn(EarlyEvents()[6], trace[6], trace[7], id)
    ensures EarlyEvents()[6].tick < trace[6][id].since + CONNECT_TIMEOUT_MS
  {
    var downloads, clock, nextId;
    ghost var freed;
    trace, downloads, clock, nextId, freed := Run(EarlyEvents());
    EarlyTimeout(trace);
    id :| id in trace[6] && GivenUpIn(EarlyEvents()[6], trace[6], trace[7], id) && trace[6][id].since == 20_000;
  }
}
