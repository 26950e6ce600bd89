/** The connection manager's download queue: the timer's round over all items, new requests with merging, and what
    answers and failures of peers do to it. */
module DownloadQueue {
  import opened Collections
  import opened DownloadItem
  import opened DownloadStore

  class ConnectionManager {
    var items: map<nat, Item>
    var downloads: seq<nat>
    var nextId: nat
    var clock: nat
    ghost var freed: seq<nat>
    /** The item of every user that has one. */
    ghost var holder: map<UserId, nat>

    ghost predicate Valid()
      reads this
    {
      && Live(items, downloads) && Held(items, holder) && FreedOnce(items, freed, nextId)
      && forall id :: id in items ==> ItemOk(items[id], clock)
    }

    lemma UsersAreDistinct()
      requires Valid()
      ensures DistinctUsers(items)
    {
      forall i, j | i in items && j in items && i != j ensures items[i].user.user != items[j].user.user {
        assert holder[items[i].user.user] == i && holder[items[j].user.user] == j;
      }
    }

    constructor ()
      ensures Valid() && items == map[] && downloads == [] && clock == 0 && freed == []
    {
      items, downloads, nextId, clock, freed, holder := map[], [], 0, 0, [], map[];
    }

    method FindDownloadCqi(user: HintedUser, env: Env) returns (match_: Option<nat>)
      requires Live(items, downloads)
      ensures match_.None? ==> forall id :: id in items ==> !env.samePeer(user, items[id].user)
      ensures match_.Some? ==>
                && match_.value in items && env.samePeer(user, items[match_.value].user)
                && (!InUse(items[match_.value]) ==>
                      forall id :: id in items && env.samePeer(user, items[id].user) ==> !InUse(items[id]))
                && (items[match_.value].state != ACTIVE ==>
                      forall id :: id in items && env.samePeer(user, items[id].user) ==> items[id].state != ACTIVE)
    {
      match_ := None;
      for k := 0 to |downloads|
        invariant match_.None? ==> forall i :: 0 <= i < k ==> !env.samePeer(user, items[downloads[i]].user)
        invariant match_.Some? ==>
                && match_.value in items && env.samePeer(user, items[match_.value].user)
                && (!InUse(items[match_.value]) ==>
                      forall i :: 0 <= i < k && env.samePeer(user, items[downloads[i]].user) ==>
                          !InUse(items[downloads[i]]))
                && (items[match_.value].state != ACTIVE ==>
                      forall i :: 0 <= i < k && env.samePeer(user, items[downloads[i]].user) ==>
                          items[downloads[i]].state != ACTIVE)
      {
        var id := downloads[k];
        if env.samePeer(user, items[id].user) {
          if match_.None? || (items[match_.value].state != ACTIVE &&
                              (InUse(items[id])
                               || (items[match_.value].state == NO_DOWNLOAD_SLOTS && items[id].state == WAITING))) {
            match_ := Some(id);
          }
        }
      }
    }

    method PeerConnectInFlight(user: HintedUser, env: Env) returns (busy: bool)
      requires Live(items, downloads)
      ensures busy <==> exists id :: id in items && items[id].state == CONNECTING && env.samePeer(user, items[id].user)
    {
      for k := 0 to |downloads|
        invariant forall i :: 0 <= i < k ==>
          !(items[downloads[i]].state == CONNECTING && env.samePeer(user, items[downloads[i]].user))
      {
        if items[downloads[k]].state == CONNECTING && env.samePeer(user, items[downloads[k]].user) {
          return true;
        }
      }
      return false;
    }

    method GetCQI(user: HintedUser) returns (id: nat)
      requires Valid() && forall i :: i in items ==> items[i].user.user != user.user
      modifies this
      ensures Valid() && id !in old(items) && items == old(items)[id := NewItem(user)]
      ensures downloads == old(downloads) + [id] && freed == old(freed) && clock == old(clock)
    {
      id := nextId;
      nextId := nextId + 1;
      items := items[id := NewItem(user)];
      holder := holder[user.user := id];
      downloads := downloads + [id];
      AppendKeepsLive(old(items), old(downloads), id, NewItem(user));
    }

    /** Writes the fields of one item. */
    method Set(id: nat, it: Item)
      requires Valid() && id in items && ItemOk(it, clock)
      requires || it.user.user == items[id].user.user
               || forall i :: i in items && i != id ==> items[i].user.user != it.user.user
      modifies this`items, this`holder
      ensures Valid() && items == old(items)[id := it] && OnlyItem(old(items), items, id)
    {
      items := items[id := it];
      holder := holder[it.user.user := id];
    }

    /** Takes another hub or identity of the same peer, unless an item already holds the identity. */
    method SwitchDownloadIdentity(id: nat, env: Env) returns (switched: bool)
      requires Valid() && id in items
      modifies this`items, this`holder
      ensures Valid() && OnlyItem(old(items), items, id)
      ensures switched <==> env.select(old(items)[id].user).Some? && Free(old(items), id, env)
      ensures items[id] ==
              if switched then old(items)[id].(user := env.select(old(items)[id].user).value) else old(items)[id]
    {
      var next := env.select(items[id].user);
      if next.None? {
        return false;
      }
      for k := 0 to |downloads|
        invariant forall i :: 0 <= i < k && downloads[i] != id ==> items[downloads[i]].user.user != next.value.user
      {
        if downloads[k] != id && items[downloads[k]].user.user == next.value.user {
          return false;
        }
      }
      Set(id, items[id].(user := next.value));
      return true;
    }

    method MergeQueueState(keep: nat, other: nat)
      requires Valid() && keep in items && other in items && keep != other
      modifies this`items, this`holder
      ensures Valid() && items == old(items)[keep := Merged(old(items)[keep], old(items)[other])]
    {
      MergeKeepsOk(items[keep], items[other], clock);
      Set(keep, Merged(items[keep], items[other]));
    }

    /** One attempt. It starts only if the hub is not pausing and the request went out. */
    method StartAttempt(id: nat, tick: nat, env: Env) returns (started: bool)
      requires Valid() && id in items && clock == tick
      requires items[id].state == WAITING && 0 <= items[id].errors < MAX_CONNECT_ERRORS
      modifies this`items, this`holder
      ensures Valid() && OnlyItem(old(items), items, id) && items[id] == Attempted(old(items)[id], tick, env)
      ensures started <==> env.connect(old(items)[id].user).Sent?
    {
      var it := items[id];
      var outcome := env.connect(it.user);
      if outcome.HubWait? {
        return false;
      }
      it := it.(lastAttempt := tick, connectAttempts := it.connectAttempts + 1);
      if outcome.hub != "" {
        it := it.(user := it.user.(hint := outcome.hub));
      }
      if outcome.Refused? {
        if it.connectAttempts > 0 {
          it := it.(connectAttempts := it.connectAttempts - 1);
        }
      } else {
        it := it.(state := CONNECTING, tries := it.tries + 1, since := tick, hurried := false);
        if outcome.usedHub != "" {
          it := it.(user := it.user.(hint := outcome.usedHub));
        }
      }
      assert it == Attempted(items[id], tick, env);
      AttemptKeepsOk(items[id], tick, env);
      Set(id, it);
      return outcome.Sent?;
    }

    /** The wait for a running attempt is over. */
    method OnDownloadConnectTimeout(id: nat, env: Env) returns (drop: bool)
      requires Valid() && id in items && items[id].state == CONNECTING
      modifies this`items, this`holder
      ensures Valid() && OnlyItem(old(items), items, id)
      ensures var v := AfterTimeout(old(items)[id], env, Around(old(items), id, env));
              items[id] == v.item && drop == v.drop
    {
      ghost var others := Around(items, id, env);
      var timedOut := TimedOut(items[id]);
      RestedOk(timedOut, env.now, clock);
      Set(id, timedOut);
      ghost var a := items;
      assert Free(a, id, env) == others.free;
      var switched := SwitchDownloadIdentity(id, env);
      ghost var b := items;
      OnlyItemTransitive(old(items), a, b, id);
      drop := !switched && Droppable(timedOut, env);
      if !drop {
        Rest(id, switched, env.now);
        OnlyItemTransitive(old(items), b, items, id);
      }
    }

    /** After a timeout: without another identity the hub that failed is not favoured again, and
        too many errors park the item. */
    method Rest(id: nat, switched: bool, now: nat)
      requires Valid() && id in items && items[id].state == CONNECTING
      requires ItemOk(items[id].(errors := items[id].errors - 1), clock)
      modifies this`items, this`holder
      ensures Valid() && OnlyItem(old(items), items, id) && items[id].state == WAITING
      ensures items[id].errors == if old(items)[id].errors >= MAX_CONNECT_ERRORS then -1 else old(items)[id].errors
      ensures var it := old(items)[id];
              items[id] == Rested(if switched then it else it.(user := it.user.(hint := "")), now)
    {
      var it := items[id];
      if !switched {
        it := it.(user := it.user.(hint := ""));
      }
      RestedOk(it, now, clock);
      Set(id, Rested(it, now));
    }

    /** A waiting item whose peer is connected or connecting elsewhere, or is out of reach. */
    method CheckWaiting(id: nat, env: Env) returns (drop: bool)
      requires Valid() && id in items
      modifies this`items, this`holder
      ensures Valid() && items[id] == old(items)[id] && OthersMerged(old(items), items, id, env)
      ensures drop <==>
                && old(items)[id].state == WAITING
                && (ServedElsewhere(old(items), id, env) || Droppable(old(items)[id], env))
      ensures !(old(items)[id].state == WAITING && ServedElsewhere(old(items), id, env)) ==> items == old(items)
      ensures forall i :: i in old(items) && i != id && old(items)[i].state in {ACTIVE, CONNECTING}
                          && env.samePeer(old(items)[id].user, old(items)[i].user) ==>
                (old(items)[id].state == WAITING ==> drop)
    {
      if items[id].state != WAITING {
        return false;
      }
      var alias := FindDownloadCqi(items[id].user, env);
      if alias.Some? && alias.value != id && InUse(items[alias.value]) {
        MergeQueueState(alias.value, id);
        return true;
      }
      return Droppable(items[id], env);
    }

    /** The checks that remove an item. */
    method CheckGone(id: nat, env: Env) returns (drop: bool)
      requires Valid() && id in items
      modifies this`items, this`holder
      ensures Valid() && items[id] == old(items)[id] && OthersMerged(old(items), items, id, env)
      ensures drop <==> || !Wanted(old(items)[id], env) || TakenOver(old(items), id, env)
                        || (old(items)[id].state == WAITING && Droppable(old(items)[id], env))
      ensures !TakenOver(old(items), id, env) ==> items == old(items)
    {
      if env.noShareInfo(items[id].user) {
        return true;
      }
      drop := CheckWaiting(id, env);
      if drop {
        return;
      }
      return !env.online(items[id].user.user) || env.passive(items[id].user.user) || env.paused(items[id].user);
    }

    method CheckTimeout(id: nat, tick: nat, env: Env) returns (drop: bool)
      requires Valid() && id in items && clock == tick && items[id].state == CONNECTING
      modifies this`items, this`holder
      ensures Valid() && OnlyItem(old(items), items, id)
      ensures var v := AfterRunning(old(items)[id], tick, env, Around(old(items), id, env));
              items[id] == v.item && drop == v.drop
    {
      drop := false;
      if items[id].lastAttempt == 0 {
        Set(id, items[id].(lastAttempt := tick));
      } else if items[id].lastAttempt + CONNECT_TIMEOUT_MS < tick {
        drop := OnDownloadConnectTimeout(id, env);
      }
    }

    /** The part of the timer's round that starts attempts. */
    method TryStart(id: nat, tick: nat, env: Env, attemptDone: bool) returns (drop: bool, started: bool)
      requires Valid() && id in items && clock == tick && items[id].state == WAITING && items[id].errors >= 0
      modifies this`items, this`holder
      ensures Valid() && OnlyItem(old(items), items, id)
      ensures var v := AfterStart(old(items)[id], tick, env, Around(old(items), id, env), attemptDone);
              items[id] == v.item && drop == v.drop && started == v.started
    {
      drop, started := false, false;
      if items[id].errors >= MAX_CONNECT_ERRORS {
        if Droppable(items[id], env) {
          return true, false;
        }
        Set(id, GivenUp(items[id], env.now));
        return;
      }
      if (items[id].lastAttempt != 0 && attemptDone) || !env.upnpReady || !env.ready(items[id].user) {
        return;
      }
      var busy := PeerConnectInFlight(items[id].user, env);
      if busy {
        return;
      }
      if !env.startDownload(items[id].user) {
        Set(id, items[id].(state := NO_DOWNLOAD_SLOTS, lastAttempt := 0, queuePos := -1));
        return;
      }
      started := SwitchAndStart(id, tick, env);
    }

    method SwitchAndStart(id: nat, tick: nat, env: Env) returns (started: bool)
      requires Valid() && id in items && clock == tick && items[id].state == WAITING
               && 0 <= items[id].errors < MAX_CONNECT_ERRORS
      modifies this`items, this`holder
      ensures Valid() && OnlyItem(old(items), items, id)
      ensures var s := Switched(old(items)[id], env, Around(old(items), id, env));
              items[id] == Attempted(s, tick, env) && started == env.connect(s.user).Sent?
    {
      var switched := SwitchDownloadIdentity(id, env);
      ghost var a := items;
      started := StartAttempt(id, tick, env);
      OnlyItemTransitive(old(items), a, items, id);
    }

    /** An item that stays. */
    method Advance(id: nat, tick: nat, env: Env, attemptDone: bool) returns (drop: bool, started: bool)
      requires Valid() && id in items && clock == tick && items[id].state != ACTIVE
      modifies this`items, this`holder
      ensures Valid() && OnlyItem(old(items), items, id)
      ensures var v := AfterKept(old(items)[id], tick, env, Around(old(items), id, env), attemptDone);
              items[id] == v.item && drop == v.drop && started == v.started
    {
      drop, started := false, false;
      ghost var others := Around(items, id, env);
      if items[id].errors == -1 {
        return;
      }
      if items[id].state == CONNECTING {
        drop := CheckTimeout(id, tick, env);
        return;
      }
      if items[id].state == NO_DOWNLOAD_SLOTS {
        if !env.startDownload(items[id].user) {
          return;
        }
        Set(id, items[id].(state := WAITING));
      }
      ghost var a := items;
      assert Around(a, id, env) == others by { AroundSame(old(items), a, id, env); }
      if !BackoffActive(items[id], env.now) {
        drop, started := TryStart(id, tick, env, attemptDone);
        OnlyItemTransitive(old(items), a, items, id);
      }
    }

    method ReviveDownloadQueue(id: nat, forced: bool, now: nat)
      requires Valid() && id in items && items[id].state != CONNECTING
      modifies this`items, this`holder
      ensures Valid() && OnlyItem(old(items), items, id) && items[id] == Revived(old(items)[id], forced, now)
    {
      Set(id, Revived(items[id], forced, now));
    }

    /** An item that is wanted: a parked one may come back. */
    method Keep(id: nat, tick: nat, env: Env, attemptDone: bool) returns (drop: bool, started: bool)
      requires Valid() && id in items && clock == tick && items[id].state != ACTIVE
      modifies this`items, this`holder
      ensures Valid() && OnlyItem(old(items), items, id)
      ensures var r := Revived(old(items)[id], false, env.now);
              var v := AfterKept(r, tick, env, Around(old(items), id, env), attemptDone);
              items[id] == v.item && drop == v.drop && started == v.started
    {
      ghost var before := items;
      if items[id].errors == -1 {
        ReviveDownloadQueue(id, false, env.now);
        AroundSame(before, items, id, env);
      }
      ghost var a := items;
      drop, started := Advance(id, tick, env, attemptDone);
      OnlyItemTransitive(before, a, items, id);
    }

    /** One item in the timer's round. drop: it is to be removed at the end of the round. */
    method Visit(id: nat, tick: nat, env: Env, attemptDone: bool) returns (drop: bool, started: bool)
      requires Valid() && id in items && clock == tick
      modifies this`items, this`holder
      ensures Valid() && OthersMerged(old(items), items, id, env)
      ensures if old(items)[id].state != ACTIVE && TakenOver(old(items), id, env)
              then drop && !started && items[id] == old(items)[id]
              else var v := AfterVisit(old(items)[id], tick, env, Around(old(items), id, env), attemptDone);
                   items == old(items)[id := v.item] && drop == v.drop && started == v.started
    {
      drop, started := false, false;
      if items[id].state == ACTIVE {
        return;
      }
      drop := CheckGone(id, env);
      if !drop {
        drop, started := Keep(id, tick, env, attemptDone);
      }
    }

    /** The order of the round: items that may get a slot come first, otherwise the order is kept. */
    method PreferFreeSlots(env: Env) returns (order: seq<nat>)
      requires Live(items, downloads)
      ensures order == Granting(items, downloads, env, true) + Granting(items, downloads, env, false)
      ensures NoDup(order) && forall id :: id in order <==> id in items
    {
      var first, last := [], [];
      for k := 0 to |downloads|
        invariant first == Granting(items, downloads[..k], env, true)
                  && last == Granting(items, downloads[..k], env, false)
      {
        var id := downloads[k];
        assert downloads[..k + 1][..k] == downloads[..k];
        if MayGrantSlot(items[id], env) {
          first := first + [id];
        } else {
          last := last + [id];
        }
      }
      assert downloads[..|downloads|] == downloads;
      order := first + last;
      GrantingOnce(items, downloads, env, true);
      GrantingOnce(items, downloads, env, false);
      forall id ensures id in first <==> id in downloads && MayGrantSlot(items[id], env)
                ensures id in last <==> id in downloads && !MayGrantSlot(items[id], env) {
        GrantingMembers(items, downloads, env, true, id);
        GrantingMembers(items, downloads, env, false, id);
      }
      JoinedOnce(first, last);
    }

    /** The next item in the round. */
    method VisitNext(ghost before: map<nat, Item>, order: seq<nat>, k: nat, removed: seq<nat>, tick: nat, env: Env,
                     attemptDone: bool)
      returns (removed': seq<nat>, attemptDone': bool)
      requires Valid() && clock == tick && NoDup(order) && k < |order|
      requires RoundSoFar(before, items, order, k, removed, tick, env).holds && order[k] in items
      modifies this`items, this`holder
      ensures Valid() && RoundSoFar(before, items, order, k + 1, removed', tick, env).holds
              && items.Keys == old(items).Keys
    {
      ghost var now := items;
      UsersAreDistinct();
      var drop, started := Visit(order[k], tick, env, attemptDone);
      RoundStep(before, now, items, order, k, removed, tick, env, attemptDone, drop, started);
      removed', attemptDone' := if drop then removed + [order[k]] else removed, attemptDone || started;
    }

    method VisitAll(order: seq<nat>, tick: nat, env: Env) returns (removed: seq<nat>)
      requires Valid() && clock == tick && NoDup(order) && forall id :: id in order <==> id in items
      modifies this`items, this`holder
      ensures Valid() && RoundSoFar(old(items), items, order, |order|, removed, tick, env).holds
    {
      ghost var before := items;
      removed := [];
      var attemptDone := false;
      RoundBegins(before, order, tick, env);
      for k := 0 to |order|
        invariant Valid() && items.Keys == before.Keys
        invariant RoundSoFar(before, items, order, k, removed, tick, env).holds
      {
        assert order[k] in order;
        removed, attemptDone := VisitNext(before, order, k, removed, tick, env, attemptDone);
      }
    }

    /** The timer's round over the whole queue. */
    method OnSecond(tick: nat, env: Env) returns (removed: seq<nat>)
      requires Valid() && clock <= tick
      modifies this
      ensures Valid() && clock == tick
      ensures NoDup(removed) && items.Keys == old(items).Keys - (set id | id in removed)
      ensures freed == old(freed) + removed
      ensures forall id :: id in old(items) && Unwanted(old(items)[id], env) ==> id in removed
      ensures forall id :: id in removed ==> id in old(items) && Removable(old(items)[id], env)
      ensures ApartAtStart(old(items), items, env) && StartedNow(old(items), items, tick)
      ensures OverInTime(old(items), items, [], tick, env)
      ensures forall id :: id in old(items) ==> StrangerEnds(old(items), items, id, tick, env)
      ensures AllPunctual(old(items)) ==> AllPunctual(items)
      ensures forall peer :: Classes(env, peer) && Single(old(items), peer) ==> Single(items, peer)
      ensures FewWaitsKept(old(items), items, env)
    {
      Tick(tick);
      var order := PreferFreeSlots(env);
      ghost var before := items;
      removed := VisitAll(order, tick, env);
      RoundEnds(before, items, order, removed, tick, env);
      RemoveAll(removed);
    }

    method Tick(tick: nat)
      requires Valid() && clock <= tick
      modifies this`clock
      ensures Valid() && clock == tick
    {
      clock := tick;
    }

    method RemoveAll(removed: seq<nat>)
      requires Valid() && NoDup(removed) && forall id :: id in removed ==> id in items
      modifies this
      ensures Valid() && clock == old(clock)
      ensures items == old(items) - (set id | id in removed) && freed == old(freed) + removed
    {
      for k := 0 to |removed|
        invariant Valid() && clock == old(clock)
        invariant items == old(items) - (set id | id in removed[..k]) && freed == old(freed) + removed[..k]
      {
        assert removed[k] in removed && removed[k] !in removed[..k];
        PutCQI(removed[k]);
        assert removed[..k + 1] == removed[..k] + [removed[k]];
      }
      assert removed[..|removed|] == removed;
    }

    /** Wants a download from a user: joins what is queued for the peer, or queues the user. */
    method GetDownloadConnection(user: HintedUser, env: Env)
      requires Valid() && Reflexive(env)
      modifies this
      ensures Valid() && clock == old(clock) && NoStart(old(items), items)
      ensures env.noShareInfo(user) || !env.allowConnect(user) ==> items == old(items)
      ensures !env.noShareInfo(user) && env.allowConnect(user) ==>
                if exists id :: id in old(items) && env.samePeer(user, old(items)[id].user)
                then exists id: nat, stale :: JoinedTo(old(items), items, id, stale, user, env)
                else exists id: nat :: id !in old(items) && items == old(items)[id := NewItem(user)]
      ensures AllPunctual(old(items)) ==> AllPunctual(items)
      ensures forall peer :: Classes(env, peer) && Single(old(items), peer) ==> Single(items, peer)
      ensures FewWaitsKept(old(items), items, env)
    {
      if env.noShareInfo(user) || !env.allowConnect(user) {
        return;
      }
      var found := FindDownloadCqi(user, env);
      if found.None? {
        var id := GetCQI(user);
        AddedKeeps(old(items), id, user, env);
      } else {
        ghost var stale := Join(found.value, user, env);
        JoinedToRules(old(items), items, found.value, stale, user, env);
        JoinedToKeeps(old(items), items, found.value, stale, user, env);
      }
    }

    /** Merges all idle items of the peer into one, and hands that one the wanted identity. */
    method Join(id: nat, user: HintedUser, env: Env) returns (ghost stale: seq<nat>)
      requires Valid() && Reflexive(env) && id in items && env.samePeer(user, items[id].user)
      requires !InUse(items[id]) ==>
                 forall i :: i in items && env.samePeer(user, items[i].user) ==> !InUse(items[i])
      modifies this
      ensures Valid() && clock == old(clock) && freed == old(freed) + stale
      ensures JoinedTo(old(items), items, id, stale, user, env)
    {
      var others := FindStale(id, user, env);
      MergeAll(id, others);
      TakeOver(id, user, env.now);
      return others;
    }

    method TakeOver(id: nat, user: HintedUser, now: nat)
      requires Valid() && id in items
      requires items[id].state == WAITING ==> forall i :: i in items && i != id ==> items[i].user.user != user.user
      modifies this`items, this`holder
      ensures Valid() && items == old(items)[id := Joined(old(items)[id], user, now)]
    {
      JoinedOk(items[id], user, now, clock);
      Set(id, Joined(items[id], user, now));
    }

    method FindStale(id: nat, user: HintedUser, env: Env) returns (stale: seq<nat>)
      requires Live(items, downloads)
      ensures NoDup(stale)
      ensures forall i :: i in stale <==> Stale(items, i, id, user, env)
    {
      stale := [];
      for k := 0 to |downloads|
        invariant NoDup(stale)
        invariant forall i :: i in stale <==>
                    i in downloads[..k] && i != id && !InUse(items[i]) && env.samePeer(user, items[i].user)
      {
        var i := downloads[k];
        assert i !in downloads[..k];
        if i != id && !InUse(items[i]) && env.samePeer(user, items[i].user) {
          stale := stale + [i];
        }
      }
      assert downloads[..|downloads|] == downloads;
    }

    /** keep takes over from all the others, which are freed. */
    method MergeAll(keep: nat, others: seq<nat>)
      requires Valid() && keep in items && keep !in others && NoDup(others)
      requires forall i :: i in others ==> i in items
      modifies this
      ensures Valid() && clock == old(clock) && freed == old(freed) + others
      ensures items == (old(items) - (set i | i in others))[keep := MergedAll(old(items), old(items)[keep], others)]
    {
      ghost var before := items;
      for k := 0 to |others|
        invariant Valid() && clock == old(clock) && freed == old(freed) + others[..k] && keep in items
        invariant items == MergedInto(before, keep, others, k)
      {
        MergedIntoMore(before, keep, others, k);
        MergeAndFree(keep, others[k]);
        assert others[..k + 1] == others[..k] + [others[k]];
      }
      assert others[..|others|] == others;
    }

    method MergeAndFree(keep: nat, other: nat)
      requires Valid() && keep in items && other in items && keep != other
      modifies this
      ensures Valid() && clock == old(clock) && freed == old(freed) + [other]
      ensures items == old(items)[keep := Merged(old(items)[keep], old(items)[other])] - {other}
    {
      MergeQueueState(keep, other);
      PutCQI(other);
    }

    /** Force: the next round may start an attempt at once, parked or not. */
    method Force(user: UserId, now: nat)
      requires Valid()
      modifies this`items, this`holder
      ensures Valid() && items.Keys == old(items).Keys
      ensures forall id :: id in items && items[id].user.user == user ==>
                items[id].errors >= 0 && items[id] == Revived(old(items)[id], true, now).(lastAttempt := 0)
      ensures forall id :: id in items && items[id].user.user != user ==> items[id] == old(items)[id]
      ensures NoStart(old(items), items)
    {
      var found := FindUser(user);
      if found.Some? {
        Set(found.value, Revived(items[found.value], true, now).(lastAttempt := 0));
      }
    }

    method FindUser(user: UserId) returns (found: Option<nat>)
      requires Live(items, downloads)
      ensures found.None? ==> forall id :: id in items ==> items[id].user.user != user
      ensures found.Some? ==> found.value in items && items[found.value].user.user == user
    {
      for k := 0 to |downloads|
        invariant forall i :: 0 <= i < k ==> items[downloads[i]].user.user != user
      {
        if items[downloads[k]].user.user == user {
          return Some(downloads[k]);
        }
      }
      return None;
    }

    /** Port mapping came up: idle items need not wait out a gap. Running attempts are not touched. */
    method OnUpnpReady(now: nat)
      requires Valid()
      modifies this`items, this`holder
      ensures Valid() && items.Keys == old(items).Keys
      ensures forall id :: id in items ==> items[id] == Nudged(old(items)[id], now)
      ensures Quiet(old(items), items).holds
    {
      ghost var before := items;
      for k := 0 to |downloads|
        invariant Valid() && items == NudgedFirst(before, downloads, k, now)
      {
        NudgedMore(before, downloads, k, now);
        Nudge(downloads[k], now);
      }
      NudgedEnds(before, downloads, now);
    }

    method Nudge(id: nat, now: nat)
      requires Valid() && id in items
      modifies this`items, this`holder
      ensures Valid() && items == old(items)[id := Nudged(old(items)[id], now)]
    {
      if !InUse(items[id]) && !BackoffActive(items[id], now) {
        Set(id, items[id].(lastAttempt := 0));
      }
    }

    /** Parks the user's item; a running attempt is called off. */
    method BlockRetry(user: UserId, now: nat)
      requires Valid()
      modifies this`items, this`holder
      ensures Valid() && items.Keys == old(items).Keys
      ensures forall id :: id in items && items[id].user.user == user ==>
                items[id] == GivenUp(old(items)[id], now).(state := if old(items)[id].state == CONNECTING then WAITING
                                                                    else old(items)[id].state)
      ensures forall id :: id in items && items[id].user.user != user ==> items[id] == old(items)[id]
      ensures Quiet(old(items), items).holds
    {
      var found := FindUser(user);
      if found.Some? {
        var it := GivenUp(items[found.value], now);
        Set(found.value, if it.state == CONNECTING then it.(state := WAITING) else it);
      }
      QuietAll(old(items), items);
    }

    /** A download connection of the user broke: drop the item if nothing is wanted any more,
        otherwise apply the retry policy. */
    method Failed(source: HintedUser, failure: Failure, env: Env)
      requires Valid()
      modifies this
      ensures Valid() && clock == old(clock)
      ensures forall id :: id in old(items) && old(items)[id].user.user == source.user ==>
                items == AfterFailure(old(items), id, failure, env)
      ensures forall id :: id in old(items) && old(items)[id].user.user == source.user ==>
                (id in items <==> !env.paused(old(items)[id].user))
      ensures items == old(items)
              || exists id: nat :: id in old(items)
                                   && (old(items)[id].user.user == source.user
                                      || env.samePeer(source, old(items)[id].user))
                                   && items == AfterFailure(old(items), id, failure, env)
      ensures Quiet(old(items), items).holds
    {
      ghost var before := items;
      var found := FindUser(source.user);
      if found.Some? {
        UsersAreDistinct();
      } else {
        found := FindDownloadCqi(source, env);
      }
      if found.Some? {
        FailureQuiet(before, found.value, failure, env, clock);
        FailDownloadQueue(found.value, failure, env);
      } else {
        QuietNone(before);
      }
    }

    method FailDownloadQueue(id: nat, failure: Failure, env: Env)
      requires Valid() && id in items
      modifies this
      ensures Valid() && clock == old(clock) && items == AfterFailure(old(items), id, failure, env)
    {
      if env.paused(items[id].user) {
        PutCQI(id);
      } else {
        AppliedKeepsOk(items[id], failure, env, clock);
        Set(id, Applied(items[id], failure, env));
      }
    }

    /** A connection got through the handshake: it takes over the waiting or connecting item of the
        peer, but never one queued on another hub. */
    method AddDownloadConnection(uc: HintedUser, nmdc: bool, env: Env) returns (taken: Option<nat>)
      requires Valid()
      modifies this`items, this`holder
      ensures Valid() && items.Keys == old(items).Keys
      ensures taken.Some? ==>
                var id := taken.value;
                && OnlyItem(old(items), items, id)
                && (old(items)[id].state == WAITING || old(items)[id].state == CONNECTING)
                && env.samePeer(uc, old(items)[id].user) && items[id].state == ACTIVE
                && (nmdc && uc.hint != "" ==> items[id].user.hint == uc.hint)
                && items[id] == old(items)[id].(user := items[id].user, state := ACTIVE, slotWaits := 0, errors := 0,
                                                lastAttempt := 0, tries := 0)
      ensures taken.None? ==> forall id :: id in items ==> items[id] == old(items)[id].(user := items[id].user)
      ensures forall id :: id in items && !env.samePeer(uc, old(items)[id].user) ==> items[id] == old(items)[id]
      ensures !nmdc && (exists id :: id in old(items) && env.samePeer(uc, old(items)[id].user))
              && (forall id :: id in old(items) && env.samePeer(uc, old(items)[id].user) ==>
                    old(items)[id].state == WAITING || old(items)[id].state == CONNECTING)
              ==> taken.Some?
      ensures Quiet(old(items), items).holds
    {
      taken := None;
      var found := FindDownloadCqi(uc, env);
      if found.None? {
        QuietNone(items);
        return;
      }
      taken := Associate(found.value, uc, nmdc);
      QuietOne(old(items), items, found.value);
    }

    /** Binds the connection to the item found, if it belongs to the hub and is not in use yet. */
    method Associate(id: nat, uc: HintedUser, nmdc: bool) returns (taken: Option<nat>)
      requires Valid() && id in items
      modifies this`items, this`holder
      ensures Valid() && OnlyItem(old(items), items, id)
      ensures items[id].user.user == old(items)[id].user.user
      ensures taken.Some? ==>
                && taken.value == id && (old(items)[id].state == WAITING || old(items)[id].state == CONNECTING)
                && (nmdc && uc.hint != "" ==> items[id].user.hint == uc.hint)
                && items[id] == old(items)[id].(user := items[id].user, state := ACTIVE, slotWaits := 0, errors := 0,
                                                lastAttempt := 0, tries := 0)
      ensures taken.None? ==> items[id] == old(items)[id].(user := items[id].user)
      ensures !nmdc && (old(items)[id].state == WAITING || old(items)[id].state == CONNECTING) ==> taken.Some?
    {
      taken := None;
      var it := items[id];
      if it.user.hint == "" && uc.hint != "" {
        it := it.(user := it.user.(hint := uc.hint));
      }
      if nmdc && it.user.hint != "" && uc.hint != "" && it.user.hint != uc.hint {
        return;
      }
      if it.state == WAITING || it.state == CONNECTING {
        it := it.(state := ACTIVE, slotWaits := 0, errors := 0, lastAttempt := 0, tries := 0);
        taken := Some(id);
      }
      Set(id, it);
    }

    /** The peer granted a slot on the current connection, or queued us: remembered in its item, if there is one. */
    method NoteSlot(user: HintedUser, granted: bool, queuePos: int, env: Env)
      requires Valid()
      modifies this`items, this`holder
      ensures Valid() && items.Keys == old(items).Keys
      ensures forall id :: id in items ==>
                || items[id] == old(items)[id]
                || (env.samePeer(user, old(items)[id].user)
                    && items[id] == old(items)[id].(grantedSlot := granted, queuePos := queuePos))
      ensures (exists id :: id in items && env.samePeer(user, items[id].user)) ==>
                exists id :: id in items && env.samePeer(user, items[id].user) && items[id].grantedSlot == granted
                             && items[id].queuePos == queuePos
      ensures Quiet(old(items), items).holds
    {
      var found := FindDownloadCqi(user, env);
      if found.Some? {
        Set(found.value, items[found.value].(grantedSlot := granted, queuePos := queuePos));
        QuietOne(old(items), items, found.value);
      } else {
        QuietNone(items);
      }
    }

    method ClearOutgoingStrikes(user: HintedUser, env: Env)
      requires Valid()
      modifies this`items, this`holder
      ensures Valid() && items.Keys == old(items).Keys
      ensures forall id :: id in items ==>
                || items[id] == old(items)[id]
                || (env.samePeer(user, old(items)[id].user)
                    && items[id] == old(items)[id].(grantedSlot := true, queuePos := -1))
      ensures (exists id :: id in items && env.samePeer(user, items[id].user)) ==>
                exists id :: id in items && env.samePeer(user, items[id].user) && items[id].grantedSlot
      ensures Quiet(old(items), items).holds
    {
      NoteSlot(user, true, -1, env);
    }

    method ForgetDownloadSlot(user: HintedUser, queuePos: nat, env: Env)
      requires Valid()
      modifies this`items, this`holder
      ensures Valid() && items.Keys == old(items).Keys
      ensures forall id :: id in items ==>
                || items[id] == old(items)[id]
                || (env.samePeer(user, old(items)[id].user)
                    && items[id] == old(items)[id].(grantedSlot := false, queuePos := queuePos))
      ensures (exists id :: id in items && env.samePeer(user, items[id].user)) ==>
                exists id :: id in items && env.samePeer(user, items[id].user) && !items[id].grantedSlot
                    && items[id].queuePos == queuePos
      ensures Quiet(old(items), items).holds
    {
      NoteSlot(user, false, queuePos, env);
    }

    /** An ADC peer told who it is: its item has no errors any more, parked or not. */
    method InfReceived(user: UserId)
      requires Valid()
      modifies this`items, this`holder
      ensures Valid() && items.Keys == old(items).Keys
      ensures forall id :: id in items ==>
                items[id] == if items[id].user.user == user then Answered(old(items)[id]) else old(items)[id]
      ensures forall id :: id in items && items[id].user.user == user ==> items[id].errors == 0
      ensures Quiet(old(items), items).holds
    {
      var found := FindUser(user);
      if found.Some? {
        UsersAreDistinct();
        Set(found.value, Answered(items[found.value]));
        QuietOne(old(items), items, found.value);
      } else {
        QuietNone(items);
      }
    }

    method PutCQI(id: nat)
      requires Valid() && id in items
      modifies this
      ensures Valid() && items == old(items) - {id} && freed == old(freed) + [id] && clock == old(clock)
    {
      var k := IndexOf(id);
      downloads := downloads[..k] + downloads[k + 1..];
      items := items - {id};
      freed := freed + [id];
      RemoveKeepsLive(old(downloads), k);
    }

    method IndexOf(id: nat) returns (k: nat)
      requires id in downloads
      ensures k < |downloads| && downloads[k] == id
    {
      k := 0;
      while downloads[k] != id
        invariant k < |downloads| && forall i :: 0 <= i < k ==> downloads[i] != id
        decreases |downloads| - k
      {
        k := k + 1;
      }
    }
  }
}
