/** The download queue and the skip lists together: how often a peer that never answers is tried. */
module PeerTimeouts {
  import opened Collections
  import opened DownloadItem
  import opened DownloadStore
  import opened DownloadQueue
  import R = DownloadRuns
  import H = HubSkip

  /** One round of the timer: its tick, the identities of the peer that are online, the hint of the peer's source in
      the queue, if it has one, and another one to fall back on, whether a request is accepted, and everything else it
      asks. */
  datatype Round = Round(tick: nat, users: seq<H.OnlineUser>, source: Option<string>, spare: string, accepted: bool,
                         env: Env)

  /** The peer is seen on some of these hubs, and recognised as nobody else. */
  ghost predicate SeenOn(r: Round, cid: UserId, hubs: set<string>) {
    && H.AnyViable(r.users) && H.ViableHubs(r.users) <= hubs && "" !in H.ViableHubs(r.users) && Stranger(r.env, cid)
  }

  /** What the skip lists answer in a round: whether all hubs of the peer timed out, the hub its source resolves to,
      and the best identity for a request with the hint of the item or with any other. */
  datatype Answers = Answers(allTimedOut: bool, resolved: Option<string>, hint: string, own: Option<H.OnlineUser>,
                             other: Option<H.OnlineUser>)

  function Resolved(best: Option<H.OnlineUser>, hint: string, spare: string): string {
    if best.Some? && best.value.hub != "" then best.value.hub else if hint != "" then hint else spare
  }

  function SelectHub(u: HintedUser, resolved: Option<string>): Option<HintedUser> {
    if resolved.Some? && resolved.value != u.hint then Some(HintedUser(u.user, resolved.value)) else None
  }

  function Request(best: Option<H.OnlineUser>, hub: string, accepted: bool): ConnectResult {
    if best.None? then Refused(hub)
    else if !best.value.allowHubConnect then HubWait
    else if !accepted then Refused(best.value.hub)
    else Sent(best.value.hub, best.value.hub)
  }

  /** A request only goes out to somebody, through a hub that lets us connect, and goes through that hub. */
  lemma RequestMeans(best: Option<H.OnlineUser>, hub: string, accepted: bool)
    ensures Request(best, hub, accepted).Sent? <==> best.Some? && best.value.allowHubConnect && accepted
    ensures Request(best, hub, accepted).HubWait? <==> best.Some? && !best.value.allowHubConnect
    ensures Request(best, hub, accepted).Sent? ==> Request(best, hub, accepted).usedHub == best.value.hub
  {
  }

  function RequestAs(u: HintedUser, r: Round, a: Answers): ConnectResult {
    var best := if u.hint == a.hint then a.own else a.other;
    Request(best, Resolved(best, u.hint, r.spare), r.accepted)
  }

  /** What the queue is told about the peer, which never answered. */
  function Consulted(r: Round, cid: UserId, a: Answers): Env {
    r.env.(reached := (u: UserId) => if u == cid then false else r.env.reached(u),
           allHubsTimedOut := (u: UserId) => if u == cid then a.allTimedOut else r.env.allHubsTimedOut(u),
           select := (u: HintedUser) => if u.user != cid then r.env.select(u) else SelectHub(u, a.resolved),
           connect := (u: HintedUser) => if u.user != cid then r.env.connect(u) else RequestAs(u, r, a))
  }

  /** The best identity outside the list is on a hub of these that is not listed; there is none exactly if all are. */
  ghost predicate Chosen(best: Option<H.OnlineUser>, hubs: set<string>, skip: set<string>, allTimedOut: bool) {
    && (best.Some? ==> best.value.hub in hubs && best.value.hub !in skip && best.value.hub != "")
    && (best.None? <==> allTimedOut)
  }

  /** The source resolves to a hub that is not listed; when all are, to its own hint. */
  predicate Resolves(a: Answers, r: Round, hubs: set<string>, skip: set<string>) {
    && (a.resolved.Some? <==> r.source.Some?)
    && (a.resolved.Some? && !a.allTimedOut ==> a.resolved.value in hubs && a.resolved.value !in skip)
    && (a.resolved.Some? && a.allTimedOut ==>
          a.resolved.value == if r.source.value != "" then r.source.value else r.spare)
  }

  ghost predicate Answered(a: Answers, r: Round, hubs: set<string>, skip: set<string>) {
    && Chosen(a.own, hubs, skip, a.allTimedOut) && Chosen(a.other, hubs, skip, a.allTimedOut)
    && (hubs <= skip ==> a.allTimedOut) && Resolves(a, r, hubs, skip)
  }

  method BestFor(lists: H.PeerConnectHub, cid: UserId, users: seq<H.OnlineUser>, hint: string, ghost hubs: set<string>)
    returns (best: Option<H.OnlineUser>)
    requires cid !in lists.reachedPeers && H.AnyViable(users) && H.ViableHubs(users) <= hubs
             && "" !in H.ViableHubs(users)
    modifies lists`timeoutHubs
    ensures lists.Skip(cid) == old(lists.Skip(cid))
    ensures Chosen(best, hubs, lists.Skip(cid), H.AnyViable(users) && H.AllViableListed(users, lists.Skip(cid)))
  {
    ghost var skip := lists.Skip(cid);
    var b := lists.FindBestOnlineUser(cid, users, hint, false);
    H.ChoiceRules(users, hint, skip, false);
    best := if b.Some? then Some(users[b.value]) else None;
    assert forall i :: 0 <= i < |users| && users[i].viable ==> users[i].hub in H.ViableHubs(users);
  }

  /** All the answers of a round, the choice of an identity first: a request goes by the hint that one leaves. */
  method Consult(lists: H.PeerConnectHub, cid: UserId, r: Round, hint: string, ghost hubs: set<string>)
    returns (a: Answers)
    requires cid !in lists.reachedPeers && SeenOn(r, cid, hubs)
    modifies lists`timeoutHubs
    ensures Answered(a, r, hubs, lists.Skip(cid)) && a.hint == hint && lists.Skip(cid) == old(lists.Skip(cid))
  {
    var all := lists.AllHubsConnectTimedOut(cid, r.users);
    var own := BestFor(lists, cid, r.users, hint, hubs);
    var resolved, other := None, own;
    if r.source.Some? {
      var best := BestFor(lists, cid, r.users, r.source.value, hubs);
      resolved := Some(Resolved(best, r.source.value, r.spare));
      other := BestFor(lists, cid, r.users, resolved.value, hubs);
    }
    a := Answers(all, resolved, hint, own, other);
    assert forall i :: 0 <= i < |r.users| && r.users[i].viable ==> r.users[i].hub in H.ViableHubs(r.users);
  }

  // ----- what a round makes of the item -----

  /** The state of the peer's item and list: as many hubs are listed as attempts timed out, a running attempt goes
      through one that is not, and when all are the item waits to be dropped. */
  predicate Tracked(it: Item, skip: set<string>, hubs: set<string>, timeouts: nat) {
    && skip <= hubs && |skip| == timeouts
    && (it.state == CONNECTING ==> it.user.hint in hubs && it.user.hint !in skip && it.user.hint != "")
    && (hubs <= skip ==> it.state == WAITING)
  }

  lemma ConsultedUntangled(it: Item, r: Round, a: Answers)
    requires Stranger(r.env, it.user.user)
    ensures Untangled(it, Consulted(r, it.user.user, a))
  {
    var e := Consulted(r, it.user.user, a);
    forall u: HintedUser, v: HintedUser | u.user == it.user.user && (e.samePeer(u, v) || e.samePeer(v, u))
      ensures v.user == it.user.user {
      assert r.env.samePeer(u, v) || r.env.samePeer(v, u);
    }
  }

  /** An attempt that starts goes through a hub that is not listed. */
  lemma AttemptThroughBest(it: Item, r: Round, a: Answers, hubs: set<string>, skip: set<string>)
    requires it.state == WAITING && Answered(a, r, hubs, skip)
    ensures var e := Consulted(r, it.user.user, a);
            var s := Attempted(Switched(it, e, ALONE), r.tick, e);
            s.state == CONNECTING ==>
              s.user.user == it.user.user && s.user.hint in hubs && s.user.hint !in skip && s.user.hint != ""
  {
    var e := Consulted(r, it.user.user, a);
    var s := Switched(it, e, ALONE);
    assert e.connect(s.user) == RequestAs(s.user, r, a);
  }

  lemma StartsThroughBest(it: Item, r: Round, a: Answers, hubs: set<string>, skip: set<string>, d: bool)
    requires it.state != CONNECTING && Budget(it) && Answered(a, r, hubs, skip)
    ensures var s := AfterVisit(it, r.tick, Consulted(r, it.user.user, a), ALONE, d).item;
            s.state == CONNECTING ==> s.user.hint in hubs && s.user.hint !in skip && s.user.hint != ""
  {
    AttemptThroughBest(Revived(it, false, r.env.now).(state := WAITING), r, a, hubs, skip);
  }

  /** A round in which no attempt is over: with all hubs listed the item leaves. */
  lemma NotOver(it: Item, r: Round, skip: set<string>, hubs: set<string>, timeouts: nat, a: Answers, d: bool)
    requires Budget(it) && Tracked(it, skip, hubs, timeouts) && !(WaitedOut(it, r.tick) && Wanted(it, r.env))
    requires Answered(a, r, hubs, skip)
    ensures var v := AfterVisit(it, r.tick, Consulted(r, it.user.user, a), ALONE, d);
            && (hubs <= skip ==> v.drop)
            && (!v.drop ==> Tracked(v.item, skip, hubs, timeouts) && v.item.user.user == it.user.user)
  {
    var e := Consulted(r, it.user.user, a);
    VisitUser(it, r.tick, e, ALONE, d);
    if it.state == CONNECTING {
      if Wanted(it, e) {
        VisitTimesOut(it, r.tick, e, ALONE, d);
      }
    } else {
      StartsThroughBest(it, r, a, hubs, skip, d);
    }
  }

  /** The source is known by a hint other than the hub that timed out. */
  predicate Elsewhere(r: Round, hub: string) {
    r.source.Some? && (if r.source.value != "" then r.source.value else r.spare) != hub
  }

  /** A round in which one is over: the item waits to go on through another hub. If all hubs have timed out it leaves
      at once, unless its source is known by another hint, which it then waits with as if that were another hub. */
  lemma Over(it: Item, r: Round, skip: set<string>, hubs: set<string>, a: Answers, d: bool)
    requires Budget(it) && WaitedOut(it, r.tick) && Wanted(it, r.env) && it.user.hint in skip
             && Answered(a, r, hubs, skip)
    ensures var v := AfterVisit(it, r.tick, Consulted(r, it.user.user, a), ALONE, d);
            && v.item.user.user == it.user.user && (!v.drop ==> v.item.state == WAITING)
            && (a.allTimedOut ==> (v.drop <==> !Elsewhere(r, it.user.hint)))
  {
    var e := Consulted(r, it.user.user, a);
    VisitUser(it, r.tick, e, ALONE, d);
    VisitTimesOut(it, r.tick, e, ALONE, d);
    VisitDrops(it, r.tick, e, ALONE, d);
  }

  lemma OneMoreListed(skip: set<string>, hub: string, hubs: set<string>)
    requires skip <= hubs && hub in hubs && hub !in skip
    ensures skip + {hub} <= hubs && |skip + {hub}| == |skip| + 1 <= |hubs|
    ensures |skip| + 1 == |hubs| ==> hubs <= skip + {hub}
  {
    Included(skip + {hub}, hubs);
  }

  /** A timeout is counted. With as many of them as hubs, the item leaves in this round exactly if its source is not
      known by another hint, and in any case in the next; otherwise it is tracked on. */
  predicate Outcome(v: Visited, it: Item, r: Round, skip: set<string>, hubs: set<string>, timeouts: nat,
                    timedOut: bool) {
    var count := if timedOut then timeouts + 1 else timeouts;
    && (!v.drop ==> v.item.user.user == it.user.user && Tracked(v.item, skip, hubs, count))
    && count <= |hubs|
    && (count == |hubs| ==> (v.drop <==> !timedOut || !Elsewhere(r, it.user.hint)))
  }

  /** What a round makes of the item and the list, whatever the round asks and answers about others. */
  lemma RoundOver(it: Item, r: Round, skip: set<string>, hubs: set<string>, timeouts: nat, timedOut: bool,
                  now: set<string>, a: Answers, d: bool)
    requires Budget(it) && Tracked(it, skip, hubs, timeouts) && timedOut == (WaitedOut(it, r.tick) && Wanted(it, r.env))
    requires now == (if timedOut then skip + {it.user.hint} else skip) && Answered(a, r, hubs, now)
    ensures Outcome(AfterVisit(it, r.tick, Consulted(r, it.user.user, a), ALONE, d), it, r, now, hubs, timeouts,
            timedOut)
  {
    if timedOut {
      OneMoreListed(skip, it.user.hint, hubs);
      Over(it, r, now, hubs, a, d);
    } else {
      Included(skip, hubs);
      NotOver(it, r, skip, hubs, timeouts, a, d);
    }
  }

  /** What the round's answers are for the peer, with the hub of an attempt that is over listed. */
  method Ask(lists: H.PeerConnectHub, it: Item, r: Round, timedOut: bool, ghost hubs: set<string>, ghost timeouts: nat)
    returns (env: Env)
    requires Budget(it) && timedOut == (WaitedOut(it, r.tick) && Wanted(it, r.env))
             && it.user.user !in lists.reachedPeers
    requires SeenOn(r, it.user.user, hubs) && Tracked(it, lists.Skip(it.user.user), hubs, timeouts)
    modifies lists`timeoutHubs
    ensures Untangled(it, env)
    ensures forall d :: Outcome(AfterVisit(it, r.tick, env, ALONE, d), it, r, lists.Skip(it.user.user), hubs, timeouts,
            timedOut)
  {
    var cid := it.user.user;
    ghost var skip := lists.Skip(cid);
    if timedOut {
      lists.NoteConnectTimeout(cid, it.user.hint);
    }
    ghost var now := lists.Skip(cid);
    var a := Consult(lists, cid, r, it.user.hint, hubs);
    env := Consulted(r, cid, a);
    ConsultedUntangled(it, r, a);
    RoundOver(it, r, skip, hubs, timeouts, timedOut, now, a, false);
    RoundOver(it, r, skip, hubs, timeouts, timedOut, now, a, true);
  }

  /** The item is gone, and the peer's session with it. */
  method EndSession(lists: H.PeerConnectHub, cid: UserId, unreachable: bool)
    modifies lists
    ensures cid !in lists.reachedPeers && lists.Skip(cid) == {} && (unreachable ==> cid in lists.unreachablePeers)
  {
    if unreachable {
      lists.NoteUnreachablePeer(cid);
    }
    lists.ClearPeerSession(cid);
  }

  /** The round itself: the item is visited as if it were alone. */
  method VisitAlone(m: ConnectionManager, id: nat, tick: nat, env: Env) returns (gone: bool, ghost v: Visited)
    requires m.Valid() && id in m.items && m.clock <= tick && Untangled(m.items[id], env)
    modifies m
    ensures m.Valid() && m.clock == tick && (gone <==> id !in m.items) && (gone <==> v.drop)
            && (!gone ==> m.items[id] == v.item)
    ensures exists d :: v == AfterVisit(old(m.items[id]), tick, env, ALONE, d)
  {
    ghost var before := m.items;
    var removed := m.OnSecond(tick, env);
    assert StrangerEnds(before, m.items, id, tick, env);
    gone := id !in m.items;
    var spent := DoneAs(AfterVisit(before[id], tick, env, ALONE, true), m.items, id, gone);
    v := AfterVisit(before[id], tick, env, ALONE, spent);
  }

  /** One round of the timer for a peer that has not answered. */
  method TimerRound(m: ConnectionManager, lists: H.PeerConnectHub, id: nat, r: Round, ghost hubs: set<string>,
                    ghost timeouts: nat)
    returns (timedOut: bool, gone: bool)
    requires m.Valid() && id in m.items && m.clock <= r.tick
    requires var cid := m.items[id].user.user;
             cid !in lists.reachedPeers && SeenOn(r, cid, hubs) && Tracked(m.items[id], lists.Skip(cid), hubs, timeouts)
    modifies m, lists
    ensures m.Valid() && m.clock == r.tick
    ensures var it, count := old(m.items[id]), if timedOut then timeouts + 1 else timeouts;
            && it.user.user !in lists.reachedPeers && count <= |hubs|
            && (count == |hubs| ==> (gone <==> !timedOut || !Elsewhere(r, it.user.hint)))
            && (gone && Wanted(it, r.env) ==> it.user.user in lists.unreachablePeers)
            && (if gone then id !in m.items && lists.Skip(it.user.user) == {}
                else && id in m.items && m.items[id].user.user == it.user.user
                     && Tracked(m.items[id], lists.Skip(it.user.user), hubs, count))
  {
    var it := m.items[id];
    timedOut := WaitedOut(it, r.tick) && Wanted(it, r.env);
    var env := Ask(lists, it, r, timedOut, hubs, timeouts);
    ghost var v;
    gone, v := VisitAlone(m, id, r.tick, env);
    assert Outcome(v, it, r, lists.Skip(it.user.user), hubs, timeouts, timedOut);
    if gone {
      var dropped := Wanted(it, r.env) || (!env.noShareInfo(it.user) && it.state == WAITING && Droppable(it, env));
      EndSession(lists, it.user.user, dropped);
    }
  }

  // ----- everything else that may happen to the item in between -----

  datatype Event = Timer(round: Round) | Else(event: R.Event)

  /** Not a round of the timer and no connection of the peer, which nobody else is recognised as. */
  ghost predicate Possible(event: R.Event, cid: UserId) {
    match event
    case Second(_, _) => false
    case Want(_, env) => Reflexive(env) && Stranger(env, cid)
    case Connected(uc, _, env) => uc.user != cid && Stranger(env, cid)
    case Broke(_, _, env) => Stranger(env, cid)
    case Granted(_, env) => Stranger(env, cid)
    case SlotForgotten(_, _, env) => Stranger(env, cid)
    case _ => true
  }

  /** No attempt of the item starts or changes its hub, and it does not stop waiting. */
  predicate Steady(it: Item, after: Item) {
    && after.user.user == it.user.user
    && (after.state == CONNECTING ==> it.state == CONNECTING && after.user == it.user)
    && (it.state == WAITING ==> after.state == WAITING)
  }

  predicate Steadied(before: map<nat, Item>, after: map<nat, Item>, id: nat) {
    id in before && id in after ==> Steady(before[id], after[id])
  }

  lemma WantSteady(before: map<nat, Item>, after: map<nat, Item>, id: nat, user: HintedUser, env: Env)
    requires DistinctUsers(before) && id in before && Stranger(env, before[id].user.user)
             && R.WantEffect(before, after, user, env)
    requires Reflexive(env) && (before[id].state == CONNECTING ==> before[id].user.hint != "")
    ensures Steadied(before, after, id) && id in after
  {
    var known := exists i :: i in before && env.samePeer(user, before[i].user);
    if !env.noShareInfo(user) && env.allowConnect(user) && known {
      var i: nat, stale :| JoinedTo(before, after, i, stale, user, env);
      JoinSteady(before, after, id, i, stale, user, env);
    }
  }

  lemma JoinSteady(before: map<nat, Item>, after: map<nat, Item>, id: nat, i: nat, stale: seq<nat>, user: HintedUser,
                   env: Env)
    requires DistinctUsers(before) && id in before && Stranger(env, before[id].user.user)
             && JoinedTo(before, after, i, stale, user, env)
    requires Reflexive(env) && (before[id].state == CONNECTING ==> before[id].user.hint != "")
    ensures Steadied(before, after, id) && id in after
  {
    if env.samePeer(user, before[id].user) {
      assert user.user == before[id].user.user;
      assert before[i].user.user == user.user;
    }
    assert !Stale(before, id, i, user, env);
  }

  /** A request for anybody, or Force. */
  method HandleRequest(m: ConnectionManager, id: nat, event: R.Event)
    requires m.Valid() && id in m.items && (event.Want? || event.Forced?) && Possible(event, m.items[id].user.user)
    requires m.items[id].state == CONNECTING ==> m.items[id].user.hint != ""
    modifies m
    ensures m.Valid() && m.clock == old(m.clock) && Steadied(old(m.items), m.items, id)
  {
    m.UsersAreDistinct();
    match event
    case Want(user, env) => m.GetDownloadConnection(user, env); WantSteady(old(m.items), m.items, id, user, env);
    case Forced(user, now) => m.Force(user, now);
  }

  /** A connection broke. */
  method HandleFailure(m: ConnectionManager, id: nat, source: HintedUser, failure: Failure, env: Env)
    requires m.Valid() && id in m.items && Stranger(env, m.items[id].user.user)
    modifies m
    ensures m.Valid() && m.clock == old(m.clock) && Steadied(old(m.items), m.items, id)
  {
    m.Failed(source, failure, env);
  }

  /** A connection of somebody else got through. */
  method HandleConnection(m: ConnectionManager, id: nat, uc: HintedUser, nmdc: bool, env: Env)
    requires m.Valid() && id in m.items && uc.user != m.items[id].user.user && Stranger(env, m.items[id].user.user)
    modifies m
    ensures m.Valid() && m.clock == old(m.clock) && Steadied(old(m.items), m.items, id)
  {
    var taken := m.AddDownloadConnection(uc, nmdc, env);
  }

  method HandleRest(m: ConnectionManager, id: nat, event: R.Event)
    requires m.Valid() && id in m.items && (event.Granted? || event.SlotForgotten? || event.Identified?)
    modifies m
    ensures m.Valid() && m.clock == old(m.clock) && Steadied(old(m.items), m.items, id)
  {
    match event
    case Granted(user, env) => m.ClearOutgoingStrikes(user, env);
    case SlotForgotten(user, queuePos, env) => m.ForgetDownloadSlot(user, queuePos, env);
    case Identified(user) => m.InfReceived(user);
  }

  method HandleOwn(m: ConnectionManager, id: nat, event: R.Event)
    requires m.Valid() && id in m.items && (event.UpnpReady? || event.Blocked?)
    modifies m
    ensures m.Valid() && m.clock == old(m.clock) && Steadied(old(m.items), m.items, id)
  {
    match event
    case UpnpReady(now) => m.OnUpnpReady(now);
    case Blocked(user, now) => m.BlockRetry(user, now);
  }

  /** Anything else that happens leaves the item tracked, or takes it from the queue. */
  method Happen(m: ConnectionManager, lists: H.PeerConnectHub, id: nat, event: R.Event, ghost hubs: set<string>,
                ghost timeouts: nat)
    returns (gone: bool)
    requires m.Valid() && id in m.items && Possible(event, m.items[id].user.user)
    requires var cid := m.items[id].user.user;
             cid !in lists.reachedPeers && Tracked(m.items[id], lists.Skip(cid), hubs, timeouts)
    modifies m, lists
    ensures m.Valid() && m.clock == old(m.clock)
    ensures var cid := old(m.items[id].user.user);
            && cid !in lists.reachedPeers
            && (if gone then id !in m.items && lists.Skip(cid) == {}
                else && id in m.items && m.items[id].user.user == cid
                     && Tracked(m.items[id], lists.Skip(cid), hubs, timeouts))
  {
    var cid := m.items[id].user.user;
    if event.Want? || event.Forced? {
      HandleRequest(m, id, event);
    } else if event.Broke? {
      HandleFailure(m, id, event.source, event.failure, event.env);
    } else if event.Connected? {
      HandleConnection(m, id, event.uc, event.nmdc, event.env);
    } else if event.UpnpReady? || event.Blocked? {
      HandleOwn(m, id, event);
    } else {
      HandleRest(m, id, event);
    }
    gone := id !in m.items;
    if gone {
      EndSession(lists, cid, false);
    }
  }

  // ----- runs -----

  /** An event that is possible when the clock shows this time. */
  ghost predicate PossibleAt(e: Event, cid: UserId, hubs: set<string>, clock: nat) {
    match e
    case Timer(r) => SeenOn(r, cid, hubs) && clock <= r.tick
    case Else(event) => Possible(event, cid)
  }

  ghost predicate PossibleRun(events: seq<Event>, cid: UserId, hubs: set<string>, clock: nat) {
    && (forall i :: 0 <= i < |events| ==> PossibleAt(events[i], cid, hubs, clock))
    && forall i, j :: 0 <= i < j < |events| && events[i].Timer? && events[j].Timer? ==>
       events[i].round.tick <= events[j].round.tick
  }

  lemma RunsOn(events: seq<Event>, cid: UserId, hubs: set<string>, clock: nat)
    requires events != [] && PossibleRun(events, cid, hubs, clock)
    ensures PossibleRun(events[1..], cid, hubs, if events[0].Timer? then events[0].round.tick else clock)
  {
    forall i | 0 <= i < |events| - 1
      ensures PossibleAt(events[1..][i], cid, hubs, if events[0].Timer? then events[0].round.tick else clock) {
      assert PossibleAt(events[i + 1], cid, hubs, clock);
    }
  }

  /** The item is there and tracked. */
  ghost predicate InQueue(items: map<nat, Item>, id: nat, cid: UserId, skip: set<string>, hubs: set<string>,
                          timeouts: nat) {
    id in items && items[id].user.user == cid && Tracked(items[id], skip, hubs, timeouts)
  }

  /** One event of a run. With as many timeouts as hubs the item does not survive another round of the timer. */
  method Step(m: ConnectionManager, lists: H.PeerConnectHub, id: nat, e: Event, ghost cid: UserId,
              ghost hubs: set<string>, ghost timeouts: nat)
    returns (timedOut: bool, gone: bool)
    requires m.Valid() && InQueue(m.items, id, cid, lists.Skip(cid), hubs, timeouts)
    requires cid !in lists.reachedPeers && PossibleAt(e, cid, hubs, m.clock) && timeouts <= |hubs|
    modifies m, lists
    ensures m.Valid() && m.clock == if e.Timer? then e.round.tick else old(m.clock)
    ensures var count := if timedOut then timeouts + 1 else timeouts;
            && count <= |hubs| && (e.Timer? && !timedOut && count == |hubs| ==> gone) && (timedOut ==> e.Timer?)
            && (gone <==> id !in m.items)
            && (!gone ==> cid !in lists.reachedPeers && InQueue(m.items, id, cid, lists.Skip(cid), hubs, count))
  {
    timedOut := false;
    if e.Timer? {
      timedOut, gone := TimerRound(m, lists, id, e.round, hubs, timeouts);
    } else {
      gone := Happen(m, lists, id, e.event, hubs, timeouts);
    }
  }

  /** However its identities, hints and outcomes change from round to round, whatever happens to other items, and
      whatever is asked of the queue in between: the item of a peer that never answers and is seen on these hubs only
      has at most as many timeouts as there are hubs, and after the last of them it leaves in the next round of the
      timer at the latest. */
  method TimeOuts(m: ConnectionManager, lists: H.PeerConnectHub, id: nat, events: seq<Event>, ghost hubs: set<string>)
    returns (timeouts: nat, last: nat, gone: bool)
    requires m.Valid() && id in m.items && m.items[id].state != CONNECTING && hubs != {}
    requires var cid := m.items[id].user.user;
             cid !in lists.reachedPeers && lists.Skip(cid) == {} && PossibleRun(events, cid, hubs, m.clock)
    modifies m, lists
    ensures timeouts <= |hubs| && (gone <==> id !in m.items)
    ensures timeouts == |hubs| && (exists k :: last < k < |events| && events[k].Timer?) ==> gone
  {
    ghost var cid := m.items[id].user.user;
    timeouts, last, gone := 0, 0, false;
    var k := 0;
    while k < |events| && !gone
      invariant k <= |events| && m.Valid() && (gone <==> id !in m.items) && timeouts <= |hubs|
      invariant !gone ==> cid !in lists.reachedPeers && InQueue(m.items, id, cid, lists.Skip(cid), hubs, timeouts)
      invariant !gone && timeouts == |hubs| ==> forall j :: last < j < k ==> !events[j].Timer?
      invariant PossibleRun(events[k..], cid, hubs, m.clock)
    {
      RunsOn(events[k..], cid, hubs, m.clock);
      assert events[k..][0] == events[k] && events[k..][1..] == events[k + 1..];
      assert PossibleAt(events[k..][0], cid, hubs, m.clock);
      var timedOut;
      timedOut, gone := Step(m, lists, id, events[k], cid, hubs, timeouts);
      timeouts, last := if timedOut then timeouts + 1 else timeouts, if timedOut then k else last;
      k := k + 1;
    }
  }
}
