/** The items of the download connection queue. They live at addresses in a store, so that freeing one is visible:
    items[id] may only be used while id is live. What holds of the store over the timer's round is proved here. */
module DownloadStore {
  import opened Collections
  import opened DownloadItem

  ghost predicate Live(items: map<nat, Item>, downloads: seq<nat>) {
    && NoDup(downloads)
    && (forall id :: id in downloads <==> id in items)
  }

  /** No two items hold the same user. */
  ghost predicate DistinctUsers(items: map<nat, Item>) {
    forall i, j :: i in items && j in items && i != j ==> items[i].user.user != items[j].user.user
  }

  ghost predicate Held(items: map<nat, Item>, holder: map<UserId, nat>) {
    forall id :: id in items ==> items[id].user.user in holder && holder[items[id].user.user] == id
  }

  /** At most one item of every class of peers. */
  ghost predicate OnePerClass(items: map<nat, Item>, peer: UserId -> nat) {
    forall i, j :: i in items && j in items && i != j ==> peer(items[i].user.user) != peer(items[j].user.user)
  }

  ghost predicate NoneHurried(items: map<nat, Item>) {
    forall id :: id in items ==> !items[id].hurried
  }

  /** Every class of peers has one item, and no attempt was hurried by a merge. */
  ghost predicate Single(items: map<nat, Item>, peer: UserId -> nat) {
    OnePerClass(items, peer) && NoneHurried(items)
  }

  ghost predicate AllFewWaits(items: map<nat, Item>) {
    forall id :: id in items ==> FewWaits(items[id])
  }

  /** As long as nothing is merged, no item gets more slot waits. */
  ghost predicate FewWaitsKept(before: map<nat, Item>, after: map<nat, Item>, env: Env) {
    AllFewWaits(before) && (exists peer :: Classes(env, peer) && Single(before, peer)) ==> AllFewWaits(after)
  }

  ghost predicate AllPunctual(items: map<nat, Item>) {
    forall id :: id in items ==> Punctual(items[id])
  }

  /** Only this item changed. */
  ghost predicate OnlyItem(before: map<nat, Item>, after: map<nat, Item>, id: nat) {
    && id in after && after.Keys == before.Keys
    && forall i :: i in before && i != id ==> after[i] == before[i]
  }

  lemma OnlyItemTransitive(a: map<nat, Item>, b: map<nat, Item>, c: map<nat, Item>, id: nat)
    requires OnlyItem(a, b, id) && OnlyItem(b, c, id)
    ensures OnlyItem(a, c, id)
  {
  }

  /** No attempt was started, and what connects kept its user. */
  ghost predicate NoStart(before: map<nat, Item>, after: map<nat, Item>) {
    forall id :: id in after && after[id].state == CONNECTING ==>
      id in before && before[id].state == CONNECTING && after[id].user.user == before[id].user.user
  }

  /** No attempt was started or hurried or lost its time, and no item came in or changed its user. */
  ghost function Quiet(before: map<nat, Item>, after: map<nat, Item>): Claim {
    Claim(
      && NoStart(before, after) && (AllPunctual(before) ==> AllPunctual(after))
      && forall peer :: Single(before, peer) ==> Single(after, peer))
  }

  predicate Gentle(it: Item, after: Item) {
    && after.user.user == it.user.user && (after.hurried ==> it.hurried)
    && (after.state == CONNECTING ==> it.state == CONNECTING) && (Punctual(it) ==> Punctual(after))
  }

  lemma QuietAll(before: map<nat, Item>, after: map<nat, Item>)
    requires after.Keys <= before.Keys && forall id :: id in after ==> Gentle(before[id], after[id])
    ensures Quiet(before, after).holds
  {
  }

  lemma QuietOne(before: map<nat, Item>, after: map<nat, Item>, id: nat)
    requires id in before && OnlyItem(before, after, id) && Gentle(before[id], after[id])
    ensures Quiet(before, after).holds
  {
    QuietAll(before, after);
  }

  lemma QuietNone(items: map<nat, Item>)
    ensures Quiet(items, items).holds
  {
  }

  /** Items were freed once each, and none of them is live. */
  ghost predicate FreedOnce(items: map<nat, Item>, freed: seq<nat>, nextId: nat) {
    && NoDup(freed)
    && (forall id :: id in freed ==> id !in items && id < nextId)
    && (forall id :: id in items ==> id < nextId)
  }

  /** Another idle item of the peer. */
  predicate Stale(items: map<nat, Item>, i: nat, id: nat, user: HintedUser, env: Env) {
    i in items && i != id && !InUse(items[i]) && env.samePeer(user, items[i].user)
  }

  /** Another item of the same peer is connected or connecting. */
  ghost predicate ServedElsewhere(items: map<nat, Item>, id: nat, env: Env)
    requires id in items
  {
    exists i :: i in items && i != id && InUse(items[i]) && env.samePeer(items[id].user, items[i].user)
  }

  /** A waiting item that another one of the peer takes over. */
  ghost predicate TakenOver(items: map<nat, Item>, id: nat, env: Env)
    requires id in items
  {
    items[id].state == WAITING && !env.noShareInfo(items[id].user) && ServedElsewhere(items, id, env)
  }

  ghost predicate Busy(items: map<nat, Item>, id: nat, env: Env)
    requires id in items
  {
    exists i :: i in items && items[i].state == CONNECTING && env.samePeer(items[id].user, items[i].user)
  }

  /** No other item holds the identity the item would switch to. */
  ghost predicate Free(items: map<nat, Item>, id: nat, env: Env)
    requires id in items
  {
    env.select(items[id].user).Some? ==>
      forall i :: i in items && i != id ==> items[i].user.user != env.select(items[id].user).value.user
  }

  /** What a visit needs to know of the other items. */
  ghost function Around(items: map<nat, Item>, id: nat, env: Env): Others
    requires id in items
  {
    Others(Busy(items, id, env), Free(items, id, env))
  }

  lemma AroundSame(before: map<nat, Item>, after: map<nat, Item>, id: nat, env: Env)
    requires id in before && OnlyItem(before, after, id) && after[id].user == before[id].user
    requires before[id].state == after[id].state || (before[id].state != CONNECTING && after[id].state != CONNECTING)
    ensures Around(after, id, env) == Around(before, id, env)
  {
    assert forall i :: i in before ==>
             before[i].user == after[i].user && (before[i].state == CONNECTING <==> after[i].state == CONNECTING);
  }

  /** The others stay as they are, except that one in use takes over the counters of the waiting item of the same
      peer. */
  ghost predicate OthersMerged(before: map<nat, Item>, after: map<nat, Item>, id: nat, env: Env)
    requires id in before
  {
    && after.Keys == before.Keys
    && forall i :: i in before && i != id ==>
         || after[i] == before[i]
         || (before[id].state == WAITING && InUse(before[i]) && env.samePeer(before[id].user, before[i].user)
             && after[i] == Merged(before[i], before[id]))
  }

  /** The items that may, or may not, get a slot, in the order of the queue. */
  function Granting(items: map<nat, Item>, ids: seq<nat>, env: Env, grant: bool): seq<nat>
    requires forall id :: id in ids ==> id in items
  {
    if ids == [] then [] else
      var n := |ids| - 1;
      Granting(items, ids[..n], env, grant) + if MayGrantSlot(items[ids[n]], env) == grant then [ids[n]] else []
  }

  lemma {:induction false} GrantingMembers(items: map<nat, Item>, ids: seq<nat>, env: Env, grant: bool, id: nat)
    requires forall i :: i in ids ==> i in items
    ensures id in Granting(items, ids, env, grant) <==> id in ids && MayGrantSlot(items[id], env) == grant
  {
    if ids != [] {
      GrantingMembers(items, ids[..|ids| - 1], env, grant, id);
      assert ids == ids[..|ids| - 1] + [ids[|ids| - 1]];
    }
  }

  lemma {:induction false} GrantingOnce(items: map<nat, Item>, ids: seq<nat>, env: Env, grant: bool)
    requires NoDup(ids) && forall i :: i in ids ==> i in items
    ensures NoDup(Granting(items, ids, env, grant))
  {
    if ids != [] {
      var n := |ids| - 1;
      GrantingOnce(items, ids[..n], env, grant);
      GrantingMembers(items, ids[..n], env, grant, ids[n]);
      assert ids[n] !in ids[..n];
    }
  }

  lemma AppendKeepsLive(items: map<nat, Item>, ids: seq<nat>, id: nat, it: Item)
    requires Live(items, ids) && id !in items
    ensures Live(items[id := it], ids + [id])
  {
    var more := ids + [id];
    assert forall k :: 0 <= k < |ids| ==> more[k] == ids[k];
    forall i ensures i in more <==> i in items[id := it] {
      if i == id { assert more[|ids|] == i; }
      if i in ids {
        var k :| 0 <= k < |ids| && ids[k] == i;
        assert more[k] == i;
      }
    }
  }

  lemma RemoveKeepsLive(ids: seq<nat>, k: nat)
    requires NoDup(ids) && k < |ids|
    ensures var rest := ids[..k] + ids[k + 1..];
            NoDup(rest) && forall id :: id in rest <==> id in ids && id != ids[k]
  {
    var rest := ids[..k] + ids[k + 1..];
    forall id | id in ids && id != ids[k] ensures id in rest {
      var i :| 0 <= i < |ids| && ids[i] == id;
      assert rest[if i < k then i else i - 1] == id;
    }
  }

  // ----- one visit -----

  /** What the visit of one item does to the store. */
  ghost predicate VisitStep(before: map<nat, Item>, after: map<nat, Item>, id: nat, tick: nat, env: Env,
                            attemptDone: bool, drop: bool, started: bool)
    requires id in before
  {
    && OthersMerged(before, after, id, env)
    && if before[id].state != ACTIVE && TakenOver(before, id, env) then drop && !started && after[id] == before[id]
       else var v := AfterVisit(before[id], tick, env, Around(before, id, env), attemptDone);
            after == before[id := v.item] && drop == v.drop && started == v.started
  }

  lemma VisitUserRunning(it: Item, tick: nat, env: Env, others: Others, attemptDone: bool)
    requires Budget(it) && it.state == CONNECTING
    requires AfterVisit(it, tick, env, others, attemptDone).item.state == CONNECTING
    ensures AfterVisit(it, tick, env, others, attemptDone).item.user == it.user
  {
  }

  /** With one item per class nothing is merged, so nothing is hurried, and it stays that way. */
  lemma StepKeepsSingle(before: map<nat, Item>, after: map<nat, Item>, id: nat, tick: nat, env: Env, attemptDone: bool,
                        drop: bool, started: bool, peer: UserId -> nat)
    requires id in before && VisitStep(before, after, id, tick, env, attemptDone, drop, started)
             && ItemOk(before[id], tick)
    requires Classes(env, peer) && Single(before, peer)
    ensures Single(after, peer)
  {
    forall i | i in before && i != id ensures after[i] == before[i] {
      assert peer(before[i].user.user) != peer(before[id].user.user);
    }
    VisitHurriesNothing(before[id], tick, env, Around(before, id, env), attemptDone);
    VisitUser(before[id], tick, env, Around(before, id, env), attemptDone);
    assert peer(after[id].user.user) == peer(before[id].user.user);
  }

  /** An item that has to go does, and one that goes may. */
  lemma StepDrops(before: map<nat, Item>, after: map<nat, Item>, id: nat, tick: nat, env: Env, attemptDone: bool,
                  drop: bool, started: bool)
    requires id in before && VisitStep(before, after, id, tick, env, attemptDone, drop, started) && Budget(before[id])
    ensures Unwanted(before[id], env) ==> drop
    ensures drop ==> Removable(before[id], env)
  {
    if !TakenOver(before, id, env) {
      VisitDrops(before[id], tick, env, Around(before, id, env), attemptDone);
    }
  }

  // ----- a round so far -----

  /** What the timer may remove: no connected item, and of those that are wanted none whose peer has been reached,
      unless it only waits. */
  predicate Removable(it: Item, env: Env) {
    it.state != ACTIVE && (!Wanted(it, env) || !env.reached(it.user.user) || it.state == WAITING)
  }

  /** What the timer must remove. */
  predicate Unwanted(it: Item, env: Env) {
    it.state != ACTIVE && !Wanted(it, env)
  }

  /** Of the first k items in the order, those that had to be removed are, and the others only if they may be. */
  ghost predicate Sifted(before: map<nat, Item>, order: seq<nat>, k: nat, removed: seq<nat>, env: Env) {
    && NoDup(removed)
    && (forall id :: id in removed ==> id in before && Removable(before[id], env))
    && (forall j :: 0 <= j < k && j < |order| && order[j] in before && Unwanted(before[order[j]], env) ==>
       order[j] in removed)
  }

  lemma SiftOne(before: map<nat, Item>, order: seq<nat>, k: nat, removed: seq<nat>, drop: bool, env: Env)
    requires NoDup(order) && k < |order| && order[k] in before && Sifted(before, order, k, removed, env)
    requires order[k] !in removed
    requires drop ==> Removable(before[order[k]], env)
    requires Unwanted(before[order[k]], env) ==> drop
    ensures Sifted(before, order, k + 1, if drop then removed + [order[k]] else removed, env)
  {
    var more := if drop then removed + [order[k]] else removed;
    forall id | id in removed ensures id in more {}
    if drop {
      assert more[|removed|] == order[k];
    }
  }

  /** A waiting item of the same peer whose last attempt is later. */
  ghost predicate GivenTime(before: map<nat, Item>, id: nat, time: nat, env: Env)
    requires id in before
  {
    exists i :: i in before && i != id && before[i].state == WAITING && env.samePeer(before[i].user, before[id].user)
                && before[i].lastAttempt == time > before[id].lastAttempt
  }

  /** Not visited yet: as it was, unless it runs and was given the time of a waiting item of its peer. */
  ghost predicate Unvisited(before: map<nat, Item>, now: map<nat, Item>, id: nat, env: Env) {
    && id in before && id in now && now[id].user == before[id].user && now[id].state == before[id].state
    && (!InUse(before[id]) ==> now[id] == before[id])
    && (now[id].lastAttempt == before[id].lastAttempt || GivenTime(before, id, now[id].lastAttempt, env))
  }

  ghost predicate RestUnvisited(before: map<nat, Item>, now: map<nat, Item>, order: seq<nat>, k: nat, env: Env) {
    forall m :: k <= m < |order| ==> Unvisited(before, now, order[m], env)
  }

  lemma StaysUnvisited(before: map<nat, Item>, now: map<nat, Item>, after: map<nat, Item>, i: nat, id: nat, env: Env)
    requires i != id && Unvisited(before, now, i, env) && Unvisited(before, now, id, env)
             && OthersMerged(now, after, id, env)
    ensures Unvisited(before, after, i, env)
  {
    if after[i] != now[i] && now[i].lastAttempt < now[id].lastAttempt {
      assert before[id].lastAttempt == now[id].lastAttempt > before[i].lastAttempt;
      assert GivenTime(before, i, after[i].lastAttempt, env);
    }
  }

  /** The full wait for an answer was over when the round began; or the attempt had no time, because it was forced, and
      one of a waiting item of the peer is that old. */
  ghost predicate TimeOver(before: map<nat, Item>, id: nat, tick: nat, env: Env)
    requires id in before
  {
    || WaitedOut(before[id], tick)
    || (before[id].lastAttempt == 0
        && exists i :: i in before && i != id && before[i].state == WAITING
                       && env.samePeer(before[i].user, before[id].user)
                       && 0 < before[i].lastAttempt && before[i].lastAttempt + CONNECT_TIMEOUT_MS < tick)
  }

  lemma UnvisitedTimeOver(before: map<nat, Item>, now: map<nat, Item>, id: nat, tick: nat, env: Env)
    requires Unvisited(before, now, id, env) && WaitedOut(now[id], tick)
    ensures TimeOver(before, id, tick, env)
  {
  }

  predicate Ended(now: map<nat, Item>, removed: seq<nat>, id: nat) {
    id in removed || id !in now || now[id].state != CONNECTING
  }

  /** Running attempts of wanted items that are over: only those whose time was over. */
  ghost predicate OverInTime(before: map<nat, Item>, now: map<nat, Item>, removed: seq<nat>, tick: nat, env: Env) {
    forall id :: id in before && before[id].state == CONNECTING && Wanted(before[id], env)
                 && Ended(now, removed, id) ==>
                   TimeOver(before, id, tick, env)
  }

  lemma StepOverInTime(before: map<nat, Item>, now: map<nat, Item>, after: map<nat, Item>, id: nat, removed: seq<nat>,
                       tick: nat, env: Env, attemptDone: bool, drop: bool, started: bool)
    requires Unvisited(before, now, id, env) && VisitStep(now, after, id, tick, env, attemptDone, drop, started)
    requires Budget(now[id]) && id !in removed && OverInTime(before, now, removed, tick, env)
    ensures OverInTime(before, after, if drop then removed + [id] else removed, tick, env)
  {
    if now[id].state == CONNECTING && Wanted(now[id], env) {
      VisitTimesOut(now[id], tick, env, Around(now, id, env), attemptDone);
      if WaitedOut(now[id], tick) {
        UnvisitedTimeOver(before, now, id, tick, env);
      }
    }
  }

  /** Of two running attempts a later one was started only with the other's peer not recognised as its own. */
  ghost predicate ApartAtStart(before: map<nat, Item>, now: map<nat, Item>, env: Env) {
    forall i, j :: i in now && j in now && i in before && j in before && i != j
                   && now[i].state == CONNECTING && now[j].state == CONNECTING && before[i].state != CONNECTING ==>
                     || !env.samePeer(before[i].user, now[j].user)
                     || (before[j].state != CONNECTING && !env.samePeer(before[j].user, now[i].user))
  }

  /** What a visit means for who is connecting: the others stay, and an attempt starts only if none of the peer runs. */
  lemma StepStarts(now: map<nat, Item>, after: map<nat, Item>, id: nat, tick: nat, env: Env, attemptDone: bool,
                   drop: bool, started: bool)
    requires id in now && VisitStep(now, after, id, tick, env, attemptDone, drop, started) && Budget(now[id])
    ensures after.Keys == now.Keys
    ensures forall i :: i in now && i != id ==> after[i].user == now[i].user && after[i].state == now[i].state
    ensures started ==> forall j :: j in now && now[j].state == CONNECTING ==> !env.samePeer(now[id].user, now[j].user)
    ensures after[id].state == CONNECTING ==> started || now[id].state == CONNECTING
    ensures after[id].state == CONNECTING && now[id].state == CONNECTING ==> after[id].user == now[id].user
  {
    VisitStarts(now[id], tick, env, Around(now, id, env), attemptDone);
    if now[id].state == CONNECTING && after[id].state == CONNECTING && !TakenOver(now, id, env) {
      VisitUserRunning(now[id], tick, env, Around(now, id, env), attemptDone);
    }
  }

  lemma StepApart(before: map<nat, Item>, now: map<nat, Item>, after: map<nat, Item>, id: nat, tick: nat, env: Env,
                  attemptDone: bool, drop: bool, started: bool)
    requires Unvisited(before, now, id, env) && VisitStep(now, after, id, tick, env, attemptDone, drop, started)
    requires Budget(now[id]) && ApartAtStart(before, now, env)
    ensures ApartAtStart(before, after, env)
  {
    StepStarts(now, after, id, tick, env, attemptDone, drop, started);
  }

  ghost predicate PunctualBut(items: map<nat, Item>, removed: seq<nat>) {
    forall id :: id in items && id !in removed ==> Punctual(items[id])
  }

  lemma StepPunctual(now: map<nat, Item>, after: map<nat, Item>, id: nat, removed: seq<nat>, tick: nat, env: Env,
                     attemptDone: bool, drop: bool, started: bool)
    requires id in now && VisitStep(now, after, id, tick, env, attemptDone, drop, started)
    requires (forall i :: i in now ==> ItemOk(now[i], tick)) && PunctualBut(now, removed)
    ensures PunctualBut(after, if drop then removed + [id] else removed)
  {
    var more := if drop then removed + [id] else removed;
    forall i | i in after && i !in more ensures Punctual(after[i]) {
      assert i !in removed;
      if i == id {
        VisitKeepsOk(now[id], tick, env, Around(now, id, env), attemptDone);
      } else if after[i] != now[i] {
        MergeKeepsOk(now[i], now[id], tick);
      }
    }
  }

  // ----- items whose peer is recognised as nobody else -----

  ghost predicate Stranger(env: Env, user: UserId) {
    forall a: HintedUser, b: HintedUser :: a.user == user && (env.samePeer(a, b) || env.samePeer(b, a)) ==>
        b.user == user
  }

  /** Recognised as nobody else, and to be reached through other hubs at most. */
  ghost predicate Untangled(it: Item, env: Env) {
    Stranger(env, it.user.user) && (env.select(it.user).Some? ==> env.select(it.user).value.user == it.user.user)
  }

  const ALONE := Others(false, true)

  lemma StrangerVisit(now: map<nat, Item>, after: map<nat, Item>, id: nat, tick: nat, env: Env, attemptDone: bool,
                      drop: bool, started: bool)
    requires id in now && VisitStep(now, after, id, tick, env, attemptDone, drop, started)
    requires DistinctUsers(now) && Budget(now[id]) && Untangled(now[id], env)
    ensures var v := AfterVisit(now[id], tick, env, ALONE, attemptDone); drop == v.drop && after[id] == v.item
  {
    assert forall i :: i in now && i != id ==> !env.samePeer(now[id].user, now[i].user);
    assert !TakenOver(now, id, env) && Free(now, id, env);
    if now[id].state != CONNECTING {
      assert !Busy(now, id, env);
    }
  }

  lemma StrangerStays(now: map<nat, Item>, after: map<nat, Item>, i: nat, id: nat, env: Env)
    requires id in now && i in now && i != id && OthersMerged(now, after, id, env)
    requires DistinctUsers(now) && Stranger(env, now[i].user.user)
    ensures after[i] == now[i]
  {
  }

  /** The visited ones among them: exactly what becomes of them. */
  ghost predicate StrangersDone(before: map<nat, Item>, now: map<nat, Item>, order: seq<nat>, k: nat, removed: seq<nat>,
                                tick: nat, env: Env) {
    forall m :: 0 <= m < k && m < |order| && order[m] in before ==>
        StrangerDone(before, now, order[m], removed, tick, env)
  }

  ghost predicate StrangerDone(before: map<nat, Item>, now: map<nat, Item>, id: nat, removed: seq<nat>, tick: nat,
                               env: Env)
    requires id in before
  {
    Untangled(before[id], env) ==>
      || DoneAs(AfterVisit(before[id], tick, env, ALONE, false), now, id, id in removed)
      || DoneAs(AfterVisit(before[id], tick, env, ALONE, true), now, id, id in removed)
  }

  predicate DoneAs(v: Visited, now: map<nat, Item>, id: nat, gone: bool) {
    (v.drop <==> gone) && (!v.drop ==> id in now && now[id] == v.item)
  }

  /** At the end of the round; whether an attempt had been spent on another item before is all that is not said. */
  ghost predicate StrangerEnds(before: map<nat, Item>, after: map<nat, Item>, id: nat, tick: nat, env: Env)
    requires id in before
  {
    Untangled(before[id], env) ==>
      || DoneAs(AfterVisit(before[id], tick, env, ALONE, false), after, id, id !in after)
      || DoneAs(AfterVisit(before[id], tick, env, ALONE, true), after, id, id !in after)
  }

  /** The others among them: nothing has happened to them. */
  ghost predicate StrangersWait(before: map<nat, Item>, now: map<nat, Item>, order: seq<nat>, k: nat, env: Env) {
    forall m :: k <= m < |order| && order[m] in before && Stranger(env, before[order[m]].user.user) ==>
      order[m] in now && now[order[m]] == before[order[m]]
  }

  lemma StepStrangersWait(before: map<nat, Item>, now: map<nat, Item>, after: map<nat, Item>, order: seq<nat>, k: nat,
                          env: Env)
    requires NoDup(order) && k < |order| && order[k] in now && OthersMerged(now, after, order[k], env)
    requires DistinctUsers(now) && StrangersWait(before, now, order, k, env)
    ensures StrangersWait(before, after, order, k + 1, env)
  {
    forall m | k < m < |order| && order[m] in before && Stranger(env, before[order[m]].user.user)
      ensures order[m] in after && after[order[m]] == before[order[m]] {
      StrangerStays(now, after, order[m], order[k], env);
    }
  }

  lemma StrangerStaysDone(before: map<nat, Item>, now: map<nat, Item>, after: map<nat, Item>, i: nat, id: nat,
                          removed: seq<nat>, more: seq<nat>, tick: nat, env: Env)
    requires id in now && i in before && i != id && OthersMerged(now, after, id, env) && DistinctUsers(now)
    requires StrangerDone(before, now, i, removed, tick, env) && (i in removed <==> i in more)
    ensures StrangerDone(before, after, i, more, tick, env)
  {
    if Untangled(before[i], env) {
      VisitUser(before[i], tick, env, ALONE, false);
      VisitUser(before[i], tick, env, ALONE, true);
      if i in now && now[i].user.user == before[i].user.user {
        StrangerStays(now, after, i, id, env);
      }
    }
  }

  lemma StepStrangersDone(before: map<nat, Item>, now: map<nat, Item>, after: map<nat, Item>, order: seq<nat>, k: nat,
                          removed: seq<nat>, tick: nat, env: Env, attemptDone: bool, drop: bool, started: bool)
    requires NoDup(order) && k < |order| && order[k] in before && order[k] in now && order[k] !in removed
    requires VisitStep(now, after, order[k], tick, env, attemptDone, drop, started)
    requires DistinctUsers(now) && Budget(now[order[k]]) && StrangersWait(before, now, order, k, env)
    requires StrangersDone(before, now, order, k, removed, tick, env)
    ensures StrangersDone(before, after, order, k + 1, if drop then removed + [order[k]] else removed, tick, env)
  {
    var id, more := order[k], if drop then removed + [order[k]] else removed;
    forall m | 0 <= m < k && order[m] in before ensures StrangerDone(before, after, order[m], more, tick, env) {
      StrangerStaysDone(before, now, after, order[m], id, removed, more, tick, env);
    }
    if Untangled(before[id], env) {
      assert now[id] == before[id];
      StrangerVisit(now, after, id, tick, env, attemptDone, drop, started);
    }
  }

  // ----- what a round starts -----

  /** Every attempt that runs and did not before was started at this tick and counted. */
  ghost predicate StartedNow(before: map<nat, Item>, now: map<nat, Item>, tick: nat) {
    forall id :: id in now && id in before && now[id].state == CONNECTING && before[id].state != CONNECTING ==>
      now[id].since == tick && now[id].tries == before[id].tries + 1
  }

  lemma StepStartedNow(before: map<nat, Item>, now: map<nat, Item>, after: map<nat, Item>, id: nat, tick: nat, env: Env,
                       attemptDone: bool, drop: bool, started: bool)
    requires Unvisited(before, now, id, env) && VisitStep(now, after, id, tick, env, attemptDone, drop, started)
    requires Budget(now[id]) && StartedNow(before, now, tick)
    ensures StartedNow(before, after, tick)
  {
    VisitStarts(now[id], tick, env, Around(now, id, env), attemptDone);
  }

  /** Who has been visited and who is to be removed. */
  ghost function Progress(before: map<nat, Item>, now: map<nat, Item>, order: seq<nat>, k: nat, removed: seq<nat>,
                          env: Env): Claim {
    Claim(
      && now.Keys == before.Keys && (forall i :: i in order <==> i in before)
      && RestUnvisited(before, now, order, k, env) && Sifted(before, order, k, removed, env)
      && k <= |order| && (forall id :: id in removed ==> id in order[..k]))
  }

  /** Which attempts were started and which are over. */
  ghost function Attempts(before: map<nat, Item>, now: map<nat, Item>, removed: seq<nat>, tick: nat, env: Env): Claim {
    Claim(OverInTime(before, now, removed, tick, env) && ApartAtStart(before, now, env)
        && StartedNow(before, now, tick))
  }

  ghost function Strangers(before: map<nat, Item>, now: map<nat, Item>, order: seq<nat>, k: nat, removed: seq<nat>,
                           tick: nat, env: Env): Claim {
    Claim(StrangersDone(before, now, order, k, removed, tick, env) && StrangersWait(before, now, order, k, env))
  }

  /** What is kept if it held before. */
  ghost function Keeping(before: map<nat, Item>, now: map<nat, Item>, removed: seq<nat>, env: Env): Claim {
    Claim(
      && (AllPunctual(before) ==> PunctualBut(now, removed))
      && (forall peer :: Classes(env, peer) && Single(before, peer) ==> Single(now, peer))
      && FewWaitsKept(before, now, env))
  }

  /** All that is known of the round when k items have been visited. */
  ghost function RoundSoFar(before: map<nat, Item>, now: map<nat, Item>, order: seq<nat>, k: nat, removed: seq<nat>,
                            tick: nat, env: Env): Claim {
    Claim(
      && Progress(before, now, order, k, removed, env).holds && Attempts(before, now, removed, tick, env).holds
      && Strangers(before, now, order, k, removed, tick, env).holds && Keeping(before, now, removed, env).holds)
  }

  lemma RoundBegins(before: map<nat, Item>, order: seq<nat>, tick: nat, env: Env)
    requires forall i :: i in order <==> i in before
    ensures RoundSoFar(before, before, order, 0, [], tick, env).holds
  {
  }

  lemma StepSifts(before: map<nat, Item>, now: map<nat, Item>, after: map<nat, Item>, order: seq<nat>, k: nat,
                  removed: seq<nat>, tick: nat, env: Env, attemptDone: bool, drop: bool, started: bool)
    requires NoDup(order) && k < |order| && Unvisited(before, now, order[k], env) && order[k] !in removed
    requires VisitStep(now, after, order[k], tick, env, attemptDone, drop, started) && Budget(now[order[k]])
    requires Sifted(before, order, k, removed, env)
    ensures Sifted(before, order, k + 1, if drop then removed + [order[k]] else removed, env)
  {
    StepDrops(now, after, order[k], tick, env, attemptDone, drop, started);
    SiftOne(before, order, k, removed, drop, env);
  }

  lemma StepRest(before: map<nat, Item>, now: map<nat, Item>, after: map<nat, Item>, order: seq<nat>, k: nat, env: Env)
    requires NoDup(order) && k < |order| && RestUnvisited(before, now, order, k, env)
             && OthersMerged(now, after, order[k], env)
    ensures RestUnvisited(before, after, order, k + 1, env)
  {
    forall m | k + 1 <= m < |order| ensures Unvisited(before, after, order[m], env) {
      StaysUnvisited(before, now, after, order[m], order[k], env);
    }
  }

  lemma StepAllSingle(before: map<nat, Item>, now: map<nat, Item>, after: map<nat, Item>, id: nat, tick: nat, env: Env,
                      attemptDone: bool, drop: bool, started: bool)
    requires id in now && VisitStep(now, after, id, tick, env, attemptDone, drop, started) && ItemOk(now[id], tick)
    requires forall peer :: Classes(env, peer) && Single(before, peer) ==> Single(now, peer)
    ensures forall peer :: Classes(env, peer) && Single(before, peer) ==> Single(after, peer)
  {
    forall peer | Classes(env, peer) && Single(before, peer) ensures Single(after, peer) {
      StepKeepsSingle(now, after, id, tick, env, attemptDone, drop, started, peer);
    }
  }

  lemma StepWaits(before: map<nat, Item>, now: map<nat, Item>, after: map<nat, Item>, id: nat, tick: nat, env: Env,
                  attemptDone: bool, drop: bool, started: bool)
    requires id in now && VisitStep(now, after, id, tick, env, attemptDone, drop, started) && ItemOk(now[id], tick)
    requires forall peer :: Classes(env, peer) && Single(before, peer) ==> Single(now, peer)
    requires FewWaitsKept(before, now, env)
    ensures FewWaitsKept(before, after, env)
  {
    if peer :| AllFewWaits(before) && Classes(env, peer) && Single(before, peer) {
      forall i | i in now && i != id ensures after[i] == now[i] {
        assert peer(now[i].user.user) != peer(now[id].user.user);
      }
      VisitWaits(now[id], tick, env, Around(now, id, env), attemptDone);
    }
  }

  lemma StepProgress(before: map<nat, Item>, now: map<nat, Item>, after: map<nat, Item>, order: seq<nat>, k: nat,
                     removed: seq<nat>, tick: nat, env: Env, attemptDone: bool, drop: bool, started: bool)
    requires NoDup(order) && k < |order| && Progress(before, now, order, k, removed, env).holds
    requires order[k] in now && VisitStep(now, after, order[k], tick, env, attemptDone, drop, started)
             && Budget(now[order[k]])
    ensures Unvisited(before, now, order[k], env) && order[k] !in removed
    ensures Progress(before, after, order, k + 1, if drop then removed + [order[k]] else removed, env).holds
  {
    var id := order[k];
    assert id in order && id !in order[..k] && order[..k + 1] == order[..k] + [id];
    assert Unvisited(before, now, id, env);
    StepRest(before, now, after, order, k, env);
    StepSifts(before, now, after, order, k, removed, tick, env, attemptDone, drop, started);
  }

  lemma StepAttempts(before: map<nat, Item>, now: map<nat, Item>, after: map<nat, Item>, id: nat, removed: seq<nat>,
                     tick: nat, env: Env, attemptDone: bool, drop: bool, started: bool)
    requires Unvisited(before, now, id, env) && VisitStep(now, after, id, tick, env, attemptDone, drop, started)
    requires Budget(now[id]) && id !in removed && Attempts(before, now, removed, tick, env).holds
    ensures Attempts(before, after, if drop then removed + [id] else removed, tick, env).holds
  {
    StepOverInTime(before, now, after, id, removed, tick, env, attemptDone, drop, started);
    StepApart(before, now, after, id, tick, env, attemptDone, drop, started);
    StepStartedNow(before, now, after, id, tick, env, attemptDone, drop, started);
  }

  lemma StepStrangers(before: map<nat, Item>, now: map<nat, Item>, after: map<nat, Item>, order: seq<nat>, k: nat,
                      removed: seq<nat>, tick: nat, env: Env, attemptDone: bool, drop: bool, started: bool)
    requires NoDup(order) && k < |order| && order[k] in before && order[k] in now && order[k] !in removed
    requires VisitStep(now, after, order[k], tick, env, attemptDone, drop, started)
    requires DistinctUsers(now) && Budget(now[order[k]]) && Strangers(before, now, order, k, removed, tick, env).holds
    ensures Strangers(before, after, order, k + 1, if drop then removed + [order[k]] else removed, tick, env).holds
  {
    StepStrangersDone(before, now, after, order, k, removed, tick, env, attemptDone, drop, started);
    StepStrangersWait(before, now, after, order, k, env);
  }

  lemma StepKeeps(before: map<nat, Item>, now: map<nat, Item>, after: map<nat, Item>, id: nat, removed: seq<nat>,
                  tick: nat, env: Env, attemptDone: bool, drop: bool, started: bool)
    requires id in now && VisitStep(now, after, id, tick, env, attemptDone, drop, started)
    requires (forall i :: i in now ==> ItemOk(now[i], tick)) && Keeping(before, now, removed, env).holds
    ensures Keeping(before, after, if drop then removed + [id] else removed, env).holds
  {
    if AllPunctual(before) {
      StepPunctual(now, after, id, removed, tick, env, attemptDone, drop, started);
    }
    StepAllSingle(before, now, after, id, tick, env, attemptDone, drop, started);
    StepWaits(before, now, after, id, tick, env, attemptDone, drop, started);
  }

  lemma RoundStep(before: map<nat, Item>, now: map<nat, Item>, after: map<nat, Item>, order: seq<nat>, k: nat,
                  removed: seq<nat>, tick: nat, env: Env, attemptDone: bool, drop: bool, started: bool)
    requires NoDup(order) && k < |order| && RoundSoFar(before, now, order, k, removed, tick, env).holds
    requires DistinctUsers(now) && forall i :: i in now ==> ItemOk(now[i], tick)
    requires order[k] in now && VisitStep(now, after, order[k], tick, env, attemptDone, drop, started)
    ensures RoundSoFar(before, after, order, k + 1, if drop then removed + [order[k]] else removed, tick, env).holds
  {
    StepProgress(before, now, after, order, k, removed, tick, env, attemptDone, drop, started);
    StepAttempts(before, now, after, order[k], removed, tick, env, attemptDone, drop, started);
    StepStrangers(before, now, after, order, k, removed, tick, env, attemptDone, drop, started);
    StepKeeps(before, now, after, order[k], removed, tick, env, attemptDone, drop, started);
  }

  lemma RoundEndsSingle(before: map<nat, Item>, now: map<nat, Item>, gone: set<nat>, env: Env)
    requires forall peer :: Classes(env, peer) && Single(before, peer) ==> Single(now, peer)
    ensures forall peer :: Classes(env, peer) && Single(before, peer) ==> Single(now - gone, peer)
  {
    forall peer | Classes(env, peer) && Single(before, peer) ensures Single(now - gone, peer) {
      assert Single(now, peer);
    }
  }

  /** At the end of the round the listed items are removed. */
  lemma RoundEnds(before: map<nat, Item>, now: map<nat, Item>, order: seq<nat>, removed: seq<nat>, tick: nat, env: Env)
    requires RoundSoFar(before, now, order, |order|, removed, tick, env).holds
    ensures NoDup(removed) && (forall id :: id in removed ==> id in now) && now.Keys == before.Keys
    ensures var after := now - (set id | id in removed);
            && ApartAtStart(before, after, env) && StartedNow(before, after, tick)
               && OverInTime(before, after, [], tick, env)
            && (forall id :: id in before && Unwanted(before[id], env) ==> id in removed)
            && (forall id :: id in removed ==> Removable(before[id], env))
            && (forall id :: id in before ==> StrangerEnds(before, after, id, tick, env))
            && (AllPunctual(before) ==> AllPunctual(after))
            && (forall peer :: Classes(env, peer) && Single(before, peer) ==> Single(after, peer))
            && FewWaitsKept(before, after, env)
  {
    var after := now - (set id | id in removed);
    RoundEndsSingle(before, now, (set id | id in removed), env);
    forall id | id in before
      ensures Unwanted(before[id], env) ==> id in removed
      ensures StrangerEnds(before, after, id, tick, env) {
      assert id in order;
      var m :| 0 <= m < |order| && order[m] == id;
      assert StrangerDone(before, now, order[m], removed, tick, env);
    }
  }

  // ----- a new request -----

  /** The first k of the others merged into keep and freed. */
  ghost function MergedInto(before: map<nat, Item>, keep: nat, others: seq<nat>, k: nat): map<nat, Item>
    requires keep in before && k <= |others| && forall i :: i in others ==> i in before
  {
    (before - (set i | i in others[..k]))[keep := MergedAll(before, before[keep], others[..k])]
  }

  lemma MergedIntoMore(before: map<nat, Item>, keep: nat, others: seq<nat>, k: nat)
    requires keep in before && k < |others| && (forall i :: i in others ==> i in before)
    requires NoDup(others) && keep !in others
    ensures var now, other := MergedInto(before, keep, others, k), others[k];
            && other in now && other != keep
            && MergedInto(before, keep, others, k + 1) == now[keep := Merged(now[keep], now[other])] - {other}
  {
    assert others[k] in others && others[k] !in others[..k];
    MergedAllMore(before, before[keep], others, k);
  }

  /** What has become of the items when the idle ones of the peer, the stale list, have been merged into one, which is
      in use if any of the peer is, and that one has taken over the wanted identity. */
  ghost predicate JoinedTo(before: map<nat, Item>, after: map<nat, Item>, id: nat, stale: seq<nat>, user: HintedUser,
                           env: Env) {
    && id in before && env.samePeer(user, before[id].user)
    && (!InUse(before[id]) ==> forall i :: i in before && env.samePeer(user, before[i].user) ==> !InUse(before[i]))
    && NoDup(stale) && (forall i :: i in stale <==> Stale(before, i, id, user, env))
    && after == (before - (set i | i in stale))[id := Joined(MergedAll(before, before[id], stale), user, env.now)]
  }

  lemma {:induction false} MergedAllPunctual(items: map<nat, Item>, keep: Item, others: seq<nat>)
    requires (forall i :: i in others ==> i in items) && Punctual(keep)
    ensures Punctual(MergedAll(items, keep, others))
  {
    if others != [] {
      MergedAllPunctual(items, keep, others[..|others| - 1]);
    }
  }

  /** The one found carries the state of all of them, and takes the identity if it waits; no other idle item of the peer
      is left; all others are untouched, and no attempt starts. */
  lemma JoinedToRules(before: map<nat, Item>, after: map<nat, Item>, id: nat, stale: seq<nat>, user: HintedUser,
                      env: Env)
    requires JoinedTo(before, after, id, stale, user, env)
    ensures && id in after
            && after[id].state == (if before[id].state == NO_DOWNLOAD_SLOTS then WAITING else before[id].state)
    ensures before[id].state == WAITING ==> after[id].user == user
    ensures before[id].state != WAITING ==> after[id].user.user == before[id].user.user
    ensures forall i :: i in after && i != id && env.samePeer(user, before[i].user) ==> InUse(after[i])
    ensures forall i :: i in before && i != id && !Stale(before, i, id, user, env) ==>
              i in after && after[i] == before[i]
    ensures NoStart(before, after)
  {
  }

  lemma JoinedToWaits(before: map<nat, Item>, after: map<nat, Item>, id: nat, stale: seq<nat>, user: HintedUser,
                      env: Env)
    requires JoinedTo(before, after, id, stale, user, env)
    ensures FewWaitsKept(before, after, env)
  {
    if peer :| AllFewWaits(before) && Classes(env, peer) && Single(before, peer) {
      assert forall i :: i in before && i != id ==> peer(before[i].user.user) != peer(before[id].user.user);
      assert forall i :: !Stale(before, i, id, user, env);
      HasMember(stale);
      assert after[id] == Joined(before[id], user, env.now);
    }
  }

  lemma JoinedToSingle(before: map<nat, Item>, after: map<nat, Item>, id: nat, stale: seq<nat>, user: HintedUser,
                       env: Env, peer: UserId -> nat)
    requires JoinedTo(before, after, id, stale, user, env) && Classes(env, peer) && Single(before, peer)
    ensures Single(after, peer)
  {
    assert forall i :: i in before && i != id ==> peer(before[i].user.user) != peer(before[id].user.user);
    assert forall i :: !Stale(before, i, id, user, env);
    HasMember(stale);
    assert peer(after[id].user.user) == peer(before[id].user.user);
  }

  lemma JoinedToKeeps(before: map<nat, Item>, after: map<nat, Item>, id: nat, stale: seq<nat>, user: HintedUser,
                      env: Env)
    requires JoinedTo(before, after, id, stale, user, env)
    ensures AllPunctual(before) ==> AllPunctual(after)
    ensures forall peer :: Classes(env, peer) && Single(before, peer) ==> Single(after, peer)
    ensures FewWaitsKept(before, after, env)
  {
    if AllPunctual(before) {
      MergedAllPunctual(before, before[id], stale);
    }
    JoinedToWaits(before, after, id, stale, user, env);
    forall peer | Classes(env, peer) && Single(before, peer) ensures Single(after, peer) {
      JoinedToSingle(before, after, id, stale, user, env, peer);
    }
  }

  lemma AddedKeeps(before: map<nat, Item>, id: nat, user: HintedUser, env: Env)
    requires id !in before && forall i :: i in before ==> !env.samePeer(user, before[i].user)
    ensures AllPunctual(before) ==> AllPunctual(before[id := NewItem(user)])
    ensures forall peer :: Classes(env, peer) && Single(before, peer) ==> Single(before[id := NewItem(user)], peer)
    ensures FewWaitsKept(before, before[id := NewItem(user)], env)
  {
  }

  // ----- port mapping -----

  /** The first k items in the list nudged. */
  ghost function NudgedFirst(items: map<nat, Item>, ids: seq<nat>, k: nat, now: nat): map<nat, Item>
    requires k <= |ids|
  {
    map id | id in items :: if id in ids[..k] then Nudged(items[id], now) else items[id]
  }

  lemma NudgedMore(items: map<nat, Item>, ids: seq<nat>, k: nat, now: nat)
    requires k < |ids| && NoDup(ids) && ids[k] in items
    ensures var first := NudgedFirst(items, ids, k, now);
            NudgedFirst(items, ids, k + 1, now) == first[ids[k] := Nudged(first[ids[k]], now)]
  {
    assert ids[..k + 1] == ids[..k] + [ids[k]];
    assert ids[k] !in ids[..k];
  }

  lemma NudgedEnds(items: map<nat, Item>, ids: seq<nat>, now: nat)
    requires forall id :: id in items ==> id in ids
    ensures var all := NudgedFirst(items, ids, |ids|, now);
            && all.Keys == items.Keys && (forall id :: id in items ==> all[id] == Nudged(items[id], now))
            && Quiet(items, all).holds
  {
    assert ids[..|ids|] == ids;
    QuietAll(items, NudgedFirst(items, ids, |ids|, now));
  }

  // ----- a broken connection -----

  function AfterFailure(items: map<nat, Item>, id: nat, failure: Failure, env: Env): map<nat, Item>
    requires id in items
  {
    if env.paused(items[id].user) then items - {id} else items[id := Applied(items[id], failure, env)]
  }

  lemma FailureQuiet(items: map<nat, Item>, id: nat, failure: Failure, env: Env, clock: nat)
    requires id in items && ItemOk(items[id], clock)
    ensures Quiet(items, AfterFailure(items, id, failure, env)).holds
  {
    AppliedKeepsOk(items[id], failure, env, clock);
    QuietAll(items, AfterFailure(items, id, failure, env));
  }
}
