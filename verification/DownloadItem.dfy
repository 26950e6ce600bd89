/** One item of the download connection queue: what the timer, the retry policy and merging do to it. */
module DownloadItem {
  import opened Collections

  const MAX_CONNECT_ERRORS := 6
  const MAX_SLOT_WAITS := 12
  const SLOT_WAIT_BASE_MS := 5 * 60 * 1000
  const CONNECT_TIMEOUT_MS := 50 * 1000
  const GIVE_UP_COOLDOWN_MS := 60 * 60 * 1000

  type UserId = nat
  datatype HintedUser = HintedUser(user: UserId, hint: string)
  datatype ItemState = CONNECTING | WAITING | NO_DOWNLOAD_SLOTS | ACTIVE

  /** One queue item. The last three fields are history: attempts started since the item was
      created, parked, or answered by the peer; the tick of the latest start; and whether a merge
      has set lastAttempt of the running attempt to a time before its start. */
  datatype Item = Item(user: HintedUser, state: ItemState, errors: int, lastAttempt: nat, slotWaits: int,
                       connectAttempts: nat, queuePos: int, grantedSlot: bool,
                       tries: nat, since: nat, hurried: bool)

  function NewItem(user: HintedUser): Item {
    Item(user, WAITING, 0, 0, 0, 0, -1, false, 0, 0, false)
  }

  datatype ConnectResult = HubWait | Refused(hub: string) | Sent(hub: string, usedHub: string)

  /** What the queue asks of the rest of the program while it handles one event. */
  datatype Env = Env(
    now: nat,
    samePeer: (HintedUser, HintedUser) -> bool,
    noShareInfo: HintedUser -> bool,
    online: UserId -> bool,
    passive: UserId -> bool,
    paused: HintedUser -> bool,
    startDownload: HintedUser -> bool,
    allowConnect: HintedUser -> bool,
    ready: HintedUser -> bool,
    upnpReady: bool,
    freeSlot: HintedUser -> bool,
    reached: UserId -> bool,
    allHubsTimedOut: UserId -> bool,
    select: HintedUser -> Option<HintedUser>,
    connect: HintedUser -> ConnectResult)

  /** Two hinted users of one user are always the same peer. */
  ghost predicate Reflexive(env: Env) {
    forall a: HintedUser, b: HintedUser :: a.user == b.user ==> env.samePeer(a, b)
  }

  /** In this event peers are the classes of peer, and identities are switched within a class. */
  ghost predicate Classes(env: Env, peer: UserId -> nat) {
    && (forall a, b :: env.samePeer(a, b) <==> peer(a.user) == peer(b.user))
    && (forall a :: env.select(a).Some? ==> peer(env.select(a).value.user) == peer(a.user))
  }

  // ----- per-item rules -----

  function SlotWaitBackoffMs(slotWaits: int): (ms: nat)
    ensures ms <= 30 * 60 * 1000
  {
    if slotWaits <= 0 then 0
    else if SLOT_WAIT_BASE_MS * slotWaits < 30 * 60 * 1000 then SLOT_WAIT_BASE_MS * slotWaits
    else 30 * 60 * 1000
  }

  function QueueBackoffMs(slotWaits: int): (ms: nat)
    ensures ms > 0
  {
    if SlotWaitBackoffMs(slotWaits) > 0 then SlotWaitBackoffMs(slotWaits) else CONNECT_TIMEOUT_MS
  }

  predicate BackoffActive(it: Item, now: nat) {
    || it.errors == -1
    || (it.state != CONNECTING && it.lastAttempt != 0 && now < it.lastAttempt + QueueBackoffMs(it.slotWaits))
  }

  predicate InUse(it: Item) {
    it.state == ACTIVE || it.state == CONNECTING
  }

  /** The peer neither queued us nor says it has no free slot. */
  predicate MayGrantSlot(it: Item, env: Env) {
    it.slotWaits <= 0 && env.freeSlot(it.user)
  }

  /** Parking: no more attempts until the item is revived. */
  function GivenUp(it: Item, now: nat): Item {
    it.(errors := -1, lastAttempt := now, tries := 0)
  }

  function Revived(it: Item, forced: bool, now: nat): Item {
    if it.errors != -1 || (!forced && it.lastAttempt != 0 && now < it.lastAttempt + GIVE_UP_COOLDOWN_MS) then it
    else it.(errors := 0, slotWaits := 0, queuePos := -1, lastAttempt := 0, connectAttempts := 0)
  }

  /** A merge hands the running attempt of keep a lastAttempt from before it started: keep was
      forced and other is older. */
  predicate Hurries(keep: Item, other: Item) {
    keep.state == CONNECTING && keep.lastAttempt == 0 && 0 < other.lastAttempt < keep.since
  }

  function Max(a: int, b: int): (m: int)
    ensures m == a || m == b
  {
    if a < b then b else a
  }

  function Merged(keep: Item, other: Item): Item {
    keep.(errors := Max(keep.errors, other.errors),
          lastAttempt := if keep.lastAttempt < other.lastAttempt then other.lastAttempt else keep.lastAttempt,
          slotWaits := Max(keep.slotWaits, other.slotWaits),
          connectAttempts := Max(keep.connectAttempts, other.connectAttempts),
          hurried := keep.hurried || Hurries(keep, other))
  }

  /** The items of a list merged into one, in turn. */
  function MergedAll(items: map<nat, Item>, keep: Item, others: seq<nat>): (it: Item)
    requires forall i :: i in others ==> i in items
    ensures it.user == keep.user && it.state == keep.state
  {
    if others == [] then keep else
      var n := |others| - 1;
      Merged(MergedAll(items, keep, others[..n]), items[others[n]])
  }

  lemma MergedAllMore(items: map<nat, Item>, keep: Item, others: seq<nat>, k: nat)
    requires k < |others| && forall i :: i in others ==> i in items
    ensures others[..k + 1] == others[..k] + [others[k]]
    ensures MergedAll(items, keep, others[..k + 1]) == Merged(MergedAll(items, keep, others[..k]), items[others[k]])
  {
    assert others[..k + 1][..k] == others[..k];
  }

  /** What a queued item needs to stay queued: a peer that is known, online and reachable, and
      something to download from it. */
  predicate Wanted(it: Item, env: Env) {
    && !env.noShareInfo(it.user) && env.online(it.user.user)
    && !env.passive(it.user.user) && !env.paused(it.user)
  }

  /** The full wait for an answer is over. */
  predicate WaitedOut(it: Item, tick: nat) {
    it.state == CONNECTING && it.lastAttempt != 0 && it.lastAttempt + CONNECT_TIMEOUT_MS < tick
  }

  predicate Droppable(it: Item, env: Env) {
    && !env.reached(it.user.user)
    && (env.allHubsTimedOut(it.user.user) || it.errors >= MAX_CONNECT_ERRORS)
  }

  /** An item found for a wanted user: a waiting one takes the identity, an idle one may go on. */
  function Joined(it: Item, user: HintedUser, now: nat): Item {
    var i0 := if it.state == WAITING then it.(user := user)
              else if user.hint != "" && it.user.hint == "" then it.(user := it.user.(hint := user.hint))
              else it;
    if InUse(i0) then i0
    else
      var i1 := Revived(i0, false, now);
      if i1.state == NO_DOWNLOAD_SLOTS then i1.(state := WAITING) else i1
  }

  /** One more attempt without an answer. */
  function TimedOut(it: Item): Item {
    it.(errors := it.errors + 1, queuePos := -1, lastAttempt := 0)
  }

  /** Back to waiting after a timed-out attempt, or parked when that was one too many. */
  function Rested(it: Item, now: nat): Item {
    (if it.errors >= MAX_CONNECT_ERRORS then GivenUp(it, now) else it).(state := WAITING)
  }

  datatype Phase = Connect | Handshake | Get | Send | Snd | Idle | Running

  /** A broken download connection: its state, and what the error was. */
  datatype Failure = Failure(phase: Phase, protocolError: bool, tlsError: bool)

  /** The retry policy. A peer that closes after the handshake has answered: either it has no slot
      for us, or it just served us. */
  function Applied(it: Item, f: Failure, env: Env): Item {
    var tlsMismatch := f.protocolError && f.tlsError;
    var postClose := !f.protocolError && f.phase in {Snd, Idle, Get, Send};
    var softReconnect := it.grantedSlot && !f.protocolError && f.phase in {Idle, Snd};
    var slotWait := postClose && !it.grantedSlot;
    var i0 := it.(grantedSlot := false, state := WAITING, queuePos := if slotWait then it.queuePos else -1);
    if slotWait then
      var i1 := i0.(slotWaits := it.slotWaits + 1, lastAttempt := env.now, tries := 0);
      if i1.slotWaits >= MAX_SLOT_WAITS then GivenUp(i1, env.now) else i1
    else if softReconnect then i0.(lastAttempt := 0, tries := 0)
    else if f.protocolError && !tlsMismatch then GivenUp(i0, env.now)
    else
      var i1 := i0.(errors := it.errors + 1, lastAttempt := env.now);
      if i1.errors >= MAX_CONNECT_ERRORS && env.reached(it.user.user) then GivenUp(i1, env.now) else i1
  }

  /** Port mapping came up: an idle item that is past its gap may start at once. */
  function Nudged(it: Item, now: nat): Item {
    if InUse(it) || BackoffActive(it, now) then it else it.(lastAttempt := 0)
  }

  /** The peer told who it is: it has answered. */
  function Answered(it: Item): Item {
    it.(errors := 0, tries := 0)
  }

  // ----- the timer's round for one item -----

  /** What becomes of an item, whether it is to be removed, and whether an attempt was started. */
  datatype Visited = Visited(item: Item, drop: bool, started: bool)

  /** What a visit needs to know of the other items: whether one of the same peer is connecting, and whether none holds
      the identity that would be switched to. */
  datatype Others = Others(busy: bool, free: bool)

  predicate Switches(it: Item, env: Env, others: Others) {
    env.select(it.user).Some? && others.free
  }

  /** Another hub or identity to go through, if there is a better one. */
  function Switched(it: Item, env: Env, others: Others): Item {
    if Switches(it, env, others) then it.(user := env.select(it.user).value) else it
  }

  function Hinted(it: Item, hub: string): Item {
    if hub == "" then it else it.(user := it.user.(hint := hub))
  }

  /** An attempt: not made while the hub pauses, timed even if the request is refused, counted if it went out. */
  function Attempted(it: Item, tick: nat, env: Env): Item {
    match env.connect(it.user)
    case HubWait => it
    case Refused(hub) => Hinted(it, hub).(lastAttempt := tick)
    case Sent(hub, usedHub) =>
      Hinted(Hinted(it, hub), usedHub).(
        lastAttempt := tick, connectAttempts := it.connectAttempts + 1, state := CONNECTING,
        tries := it.tries + 1, since := tick, hurried := false)
  }

  function AfterTimeout(it: Item, env: Env, others: Others): Visited {
    var t := TimedOut(it);
    if Switches(t, env, others) then Visited(Rested(Switched(t, env, others), env.now), false, false)
    else if Droppable(t, env) then Visited(t, true, false)
    else Visited(Rested(t.(user := t.user.(hint := "")), env.now), false, false)
  }

  function AfterRunning(it: Item, tick: nat, env: Env, others: Others): Visited {
    if it.lastAttempt == 0 then Visited(it.(lastAttempt := tick), false, false)
    else if it.lastAttempt + CONNECT_TIMEOUT_MS < tick then AfterTimeout(it, env, others)
    else Visited(it, false, false)
  }

  function AfterStart(it: Item, tick: nat, env: Env, others: Others, attemptDone: bool): Visited {
    if it.errors >= MAX_CONNECT_ERRORS then
      if Droppable(it, env) then Visited(it, true, false) else Visited(GivenUp(it, env.now), false, false)
    else if (it.lastAttempt != 0 && attemptDone) || !env.upnpReady || !env.ready(it.user) || others.busy then
      Visited(it, false, false)
    else if !env.startDownload(it.user) then
      Visited(it.(state := NO_DOWNLOAD_SLOTS, lastAttempt := 0, queuePos := -1), false, false)
    else
      var s := Switched(it, env, others);
      Visited(Attempted(s, tick, env), false, env.connect(s.user).Sent?)
  }

  /** An item that stays: parked, running, waiting, or free to start. */
  function AfterKept(it: Item, tick: nat, env: Env, others: Others, attemptDone: bool): Visited {
    if it.errors == -1 then Visited(it, false, false)
    else if it.state == CONNECTING then AfterRunning(it, tick, env, others)
    else if it.state == NO_DOWNLOAD_SLOTS && !env.startDownload(it.user) then Visited(it, false, false)
    else if BackoffActive(it.(state := WAITING), env.now) then Visited(it.(state := WAITING), false, false)
    else AfterStart(it.(state := WAITING), tick, env, others, attemptDone)
  }

  /** A visit, unless the peer is served by another item. */
  function AfterVisit(it: Item, tick: nat, env: Env, others: Others, attemptDone: bool): Visited {
    if it.state == ACTIVE then Visited(it, false, false)
    else if !Wanted(it, env) || (it.state == WAITING && Droppable(it, env)) then Visited(it, true, false)
    else AfterKept(Revived(it, false, env.now), tick, env, others, attemptDone)
  }

  /** No longer waiting for a slot of ours, and past its gap: may start. */
  predicate Ripe(it: Item, env: Env) {
    && (it.state == WAITING || (it.state == NO_DOWNLOAD_SLOTS && env.startDownload(it.user)))
    && it.errors != -1 && !BackoffActive(it.(state := WAITING), env.now)
  }

  // ----- what a visit means for the user -----

  /** Whatever is queued for a peer that is unknown, offline, out of reach for two passive clients, or without anything
      to download, goes; whatever is queued for any other peer that has answered stays. */
  lemma WhoGoes(it: Item, tick: nat, env: Env, others: Others, attemptDone: bool)
    requires it.state != ACTIVE
    ensures var drop, u := AfterVisit(it, tick, env, others, attemptDone).drop, it.user.user;
            var useless := env.noShareInfo(it.user) || !env.online(u) || env.passive(u) || env.paused(it.user);
            && (useless ==> drop)
            && (!useless && env.reached(u) ==> !drop)
            && (!useless && !env.allHubsTimedOut(u) && it.errors < 5 ==> !drop)
            && (!env.reached(u) && (env.allHubsTimedOut(u) || it.errors >= 6) && it.state == WAITING ==> drop)
  {
  }

  /** An attempt only starts for a peer that is online and wanted, after six errors at most five, when fifty seconds or
      the slot wait have passed since the last one, or an hour if the item was parked. */
  lemma StartsInTime(it: Item, tick: nat, env: Env, others: Others, attemptDone: bool)
    requires AfterVisit(it, tick, env, others, attemptDone).started && it.errors >= -1
    ensures it.errors < 6 && env.online(it.user.user) && !env.paused(it.user) && !env.noShareInfo(it.user)
    ensures env.upnpReady && env.ready(it.user) && !others.busy && env.startDownload(it.user)
    ensures it.lastAttempt != 0 ==>
              env.now >= it.lastAttempt + if it.errors == -1 then 3_600_000
                                          else if it.slotWaits > 0 && it.slotWaits < 6 then it.slotWaits * 300_000
                                          else if it.slotWaits > 0 then 1_800_000 else 50_000
  {
  }

  /** A waiting item that may start at once does if nothing is in the way, and waits if all our slots are taken. */
  lemma StartsAtOnce(it: Item, tick: nat, env: Env, others: Others, attemptDone: bool)
    requires it.state == WAITING && it.lastAttempt == 0 && 0 <= it.errors < 6 && !others.busy && env.upnpReady
    requires !env.noShareInfo(it.user) && env.online(it.user.user) && !env.passive(it.user.user) && !env.paused(it.user)
    requires env.ready(it.user) && (env.reached(it.user.user) || !env.allHubsTimedOut(it.user.user))
    ensures var v := AfterVisit(it, tick, env, others, attemptDone);
            if env.startDownload(it.user) then v.started == env.connect(Switched(it, env, others).user).Sent?
            else !v.drop && v.item == it.(state := NO_DOWNLOAD_SLOTS, queuePos := -1)
  {
  }

  /** A parked item that stays is left alone for an hour, whatever its state. */
  lemma ParkedStays(it: Item, tick: nat, env: Env, others: Others, attemptDone: bool)
    requires it.errors == -1 && it.lastAttempt != 0 && env.now < it.lastAttempt + 3_600_000
    ensures var v := AfterVisit(it, tick, env, others, attemptDone); v.item == it && !v.started
  {
  }

  /** One that is wanted, while all our slots are taken, then begins anew. */
  lemma ParkedForAnHour(it: Item, tick: nat, env: Env, others: Others, attemptDone: bool)
    requires it.state == NO_DOWNLOAD_SLOTS && it.errors == -1 && it.lastAttempt != 0 && !env.startDownload(it.user)
    requires !env.noShareInfo(it.user) && env.online(it.user.user) && !env.passive(it.user.user) && !env.paused(it.user)
    ensures var v := AfterVisit(it, tick, env, others, attemptDone);
            && !v.drop
            && (env.now < it.lastAttempt + 3_600_000 ==> v.item == it)
            && (env.now >= it.lastAttempt + 3_600_000 ==>
                  v.item.errors == v.item.slotWaits == 0 && v.item.lastAttempt == v.item.connectAttempts == 0
                  && v.item.queuePos == -1)
  {
  }

  /** Force: whatever its history, the item waits for nothing any more. */
  lemma ForcedAtOnce(it: Item, now: nat, later: nat)
    requires it.errors >= -1
    ensures var f := Revived(it, true, now).(lastAttempt := 0); f.errors >= 0 && !BackoffActive(f, later)
    ensures it.errors != -1 ==> Revived(it, true, now) == it
  {
  }

  /** Once ports are mapped an idle item that is past its gap may start at once; nothing else changes. */
  lemma NudgedAtOnce(it: Item, now: nat, later: nat)
    ensures Nudged(it, now).user == it.user && Nudged(it, now).state == it.state && Nudged(it, now).errors == it.errors
    ensures it.state == ACTIVE || it.state == CONNECTING || BackoffActive(it, now) ==> Nudged(it, now) == it
    ensures it.state != ACTIVE && it.state != CONNECTING && it.errors != -1 && it.lastAttempt + 1_800_000 < now ==>
              Nudged(it, now).lastAttempt == 0 && !BackoffActive(Nudged(it, now), later)
  {
  }

  /** After a timeout the hub that failed is not favoured, and the place in the peer's queue is forgotten; there was no
      other to go on with if the hint is empty. */
  lemma TimeoutForgets(it: Item, env: Env, others: Others)
    requires it.errors >= 0
    ensures var v := AfterTimeout(it, env, others);
            && v.item.queuePos == -1
            && (env.select(it.user).Some? && others.free ==> !v.drop && v.item.user == env.select(it.user).value)
            && (!(env.select(it.user).Some? && others.free) && !v.drop ==> v.item.user == HintedUser(it.user.user, ""))
  {
  }

  /** A merged item has all the errors, waits and attempts of both, and the later last attempt. */
  lemma MergedHasBoth(keep: Item, other: Item)
    ensures var m := Merged(keep, other);
            && m.errors >= keep.errors && m.errors >= other.errors && m.errors in {keep.errors, other.errors}
            && m.lastAttempt >= keep.lastAttempt && m.lastAttempt >= other.lastAttempt
            && m.lastAttempt in {keep.lastAttempt, other.lastAttempt}
            && m.slotWaits >= keep.slotWaits && m.slotWaits >= other.slotWaits
            && m.slotWaits in {keep.slotWaits, other.slotWaits}
            && m.connectAttempts >= keep.connectAttempts && m.connectAttempts >= other.connectAttempts
            && m.connectAttempts in {keep.connectAttempts, other.connectAttempts}
            && m.user == keep.user && m.state == keep.state && m.queuePos == keep.queuePos
            && m.grantedSlot == keep.grantedSlot
  {
  }

  /** A request for a waiting item names the hub to go through; for any other it only fills in a hub that is missing. An
      item that waited for one of our slots waits no more, and a parked one comes back after an hour. */
  lemma JoinedMeans(it: Item, user: HintedUser, now: nat)
    requires it.errors >= -1
    ensures var j := Joined(it, user, now);
            && (it.state == WAITING ==> j.user == user)
            && (it.state != WAITING && it.user.hint != "" ==> j.user == it.user)
            && (it.state != WAITING && it.user.hint == "" ==> j.user == HintedUser(it.user.user, user.hint))
            && (it.state == ACTIVE || it.state == CONNECTING ==> j == it.(user := j.user))
            && (it.state == NO_DOWNLOAD_SLOTS ==> j.state == WAITING)
            && (it.errors != -1 && it.state == WAITING ==> j == it.(user := user))
            && (it.errors == -1 && it.state == WAITING && it.lastAttempt != 0 ==>
                  (j.errors == -1 <==> now < it.lastAttempt + 3_600_000))
  {
  }

  // ----- what holds of every item at all times -----

  /** The attempt budget: every started attempt but a running one has been paid for with an error. */
  predicate Budget(it: Item) {
    && it.errors >= -1 && it.tries <= MAX_CONNECT_ERRORS
    && (it.errors == -1 ==> it.tries == 0)
    && (it.errors >= 0 ==> it.tries <= it.errors + if it.state == CONNECTING then 1 else 0)
    && (it.state == CONNECTING ==> it.errors >= 0)
  }

  /** A running attempt is timed from its start or later, or not at all, unless a merge hurried it. */
  predicate Timed(it: Item) {
    it.state == CONNECTING ==> it.hurried || it.lastAttempt == 0 || it.since <= it.lastAttempt
  }

  predicate Paced(it: Item, clock: nat) {
    Timed(it) && (it.state == CONNECTING ==> it.since <= clock)
  }

  /** Timed from its start or later: true of every attempt that was not forced while it ran. */
  predicate Punctual(it: Item) {
    !it.hurried && (it.state == CONNECTING ==> it.since <= it.lastAttempt)
  }

  predicate ItemOk(it: Item, clock: nat) {
    Budget(it) && Paced(it, clock)
  }

  /** Merging keeps the budget and the pacing, and hurries an attempt only by an older time for a forced one. */
  lemma MergeKeepsOk(keep: Item, other: Item, clock: nat)
    requires ItemOk(keep, clock) && ItemOk(other, clock)
    ensures ItemOk(Merged(keep, other), clock)
    ensures Merged(keep, other).hurried ==> keep.hurried || Hurries(keep, other)
    ensures Punctual(keep) ==> Punctual(Merged(keep, other))
  {
  }

  /** A merge makes the timer call a running attempt timed out, with the full wait not over, if and only if the attempt
      has no time of its own and the other item's last attempt is that long ago. */
  lemma MergedTimesOut(keep: Item, other: Item, tick: nat)
    requires keep.state == CONNECTING && Paced(keep, tick) && !keep.hurried
    requires !WaitedOut(keep, tick) && tick <= keep.since + CONNECT_TIMEOUT_MS
    ensures WaitedOut(Merged(keep, other), tick)
       <==> keep.lastAttempt == 0 && 0 < other.lastAttempt && other.lastAttempt + CONNECT_TIMEOUT_MS < tick
  {
  }

  lemma JoinedOk(it: Item, user: HintedUser, now: nat, clock: nat)
    requires ItemOk(it, clock)
    ensures ItemOk(Joined(it, user, now), clock)
    ensures Joined(it, user, now).user.user == (if it.state == WAITING then user.user else it.user.user)
    ensures it.state == WAITING ==> Joined(it, user, now).user == user
    ensures InUse(it) <==> InUse(Joined(it, user, now))
    ensures Joined(it, user, now).state == CONNECTING <==> it.state == CONNECTING
    ensures Punctual(it) ==> Punctual(Joined(it, user, now))
  {
  }

  lemma RestedOk(it: Item, now: nat, clock: nat)
    requires ItemOk(it.(errors := it.errors - 1), clock) && it.state == CONNECTING
    ensures ItemOk(it, clock) && ItemOk(Rested(it, now), clock)
  {
  }

  lemma AppliedKeepsOk(it: Item, f: Failure, env: Env, clock: nat)
    requires ItemOk(it, clock)
    ensures ItemOk(Applied(it, f, env), clock) && Applied(it, f, env).user == it.user
    ensures Applied(it, f, env).state == WAITING && Applied(it, f, env).hurried == it.hurried
  {
  }

  // ----- what a failure means for the next attempt -----

  /** Past the handshake and not in a transfer: the peer answered. */
  predicate PastHandshake(phase: Phase) {
    phase != Connect && phase != Handshake && phase != Running
  }

  /** It answered, but has no slot for us. */
  predicate NoSlot(it: Item, f: Failure) {
    !f.protocolError && PastHandshake(f.phase) && !it.grantedSlot
  }

  /** It served us a file, and the connection broke before the next. */
  predicate Served(it: Item, f: Failure) {
    !f.protocolError && (f.phase == Idle || f.phase == Snd) && it.grantedSlot
  }

  /** The item may start again at once if and only if the peer had served us; after everything else it waits. */
  lemma AgainAtOnce(it: Item, f: Failure, env: Env)
    requires Budget(it) && it.slotWaits >= 0 && env.now > 0 && it.errors >= 0
    ensures (forall t: nat :: t >= env.now ==> !BackoffActive(Applied(it, f, env), t)) <==> Served(it, f)
  {
    var a := Applied(it, f, env);
    SlotWaitGrows(a.slotWaits);
    assert BackoffActive(a, env.now) <==> !Served(it, f);
  }

  /** How long the n-th slot wait lasts: five minutes more each time, half an hour at most. */
  function WaitMinutes(n: nat): nat {
    if n < 6 then 5 * n else 30
  }

  lemma SlotWaitGrows(slotWaits: int)
    ensures SlotWaitBackoffMs(slotWaits) == if slotWaits <= 0 then 0 else WaitMinutes(slotWaits) * 60_000
    ensures QueueBackoffMs(slotWaits) == if slotWaits <= 0 then 50_000 else WaitMinutes(slotWaits) * 60_000
  {
  }

  /** What each kind of failure costs: a slot wait, nothing, all attempts at once, or one error. The twelfth slot wait
      parks the item, and so does the sixth error of a peer that has answered before. */
  lemma FailureCosts(it: Item, f: Failure, env: Env)
    requires Budget(it) && it.errors >= 0
    ensures var a := Applied(it, f, env);
            && (NoSlot(it, f) ==> a.slotWaits == it.slotWaits + 1 && a.queuePos == it.queuePos
                                  && a.errors == if it.slotWaits >= 11 then -1 else it.errors)
            && (!NoSlot(it, f) ==> a.slotWaits == it.slotWaits && a.queuePos == -1)
            && (Served(it, f) ==> a.errors == it.errors)
            && (f.protocolError && !f.tlsError ==> a.errors == -1)
            && (!NoSlot(it, f) && !Served(it, f) && !(f.protocolError && !f.tlsError) ==>
                  a.errors == if it.errors >= 5 && env.reached(it.user.user) then -1 else it.errors + 1)
            && !a.grantedSlot && a.connectAttempts == it.connectAttempts
  {
  }

  /** A peer that answers and has no slot, over and over. */
  function Refusals(it: Item, failures: seq<(Failure, Env)>): Item {
    if failures == [] then it
    else
      var n := |failures| - 1;
      Applied(Refusals(it, failures[..n]), failures[n].0, failures[n].1)
  }

  /** Without anything in between, an item with no slot waits yet is kept waiting for 5, 10, ... and then 30 minutes,
      and is parked at exactly the twelfth refusal; no error is counted. */
  lemma {:induction false} RefusalsPaced(it: Item, failures: seq<(Failure, Env)>)
    requires it.slotWaits == 0 && it.errors >= 0 && !it.grantedSlot && 0 < |failures| <= MAX_SLOT_WAITS
    requires forall k :: 0 <= k < |failures| ==>
               !failures[k].0.protocolError && PastHandshake(failures[k].0.phase) && failures[k].1.now > 0
    ensures var n, now, last := |failures|, failures[|failures| - 1].1.now, Refusals(it, failures);
            && last.slotWaits == n && !last.grantedSlot && last.queuePos == it.queuePos
            && (last.errors == -1 <==> n == 12) && (n < 12 ==> last.errors == it.errors)
            && (n < 12 ==> forall t: nat :: BackoffActive(last, t) <==> t < now + WaitMinutes(n) * 60_000)
    decreases |failures|
  {
    var n: nat := |failures| - 1;
    var front := failures[..n];
    assert forall k :: 0 <= k < n ==> front[k] == failures[k];
    if n > 0 {
      RefusalsPaced(it, front);
    }
    SlotWaitGrows(n + 1);
  }

  /** While it waits for a slot the item is not among those tried first; it is again once the peer has served us. */
  lemma WhoIsTriedFirst(it: Item, f: Failure, env: Env, later: Env)
    requires it.slotWaits >= 0
    ensures NoSlot(it, f) ==> !MayGrantSlot(Applied(it, f, env), later)
    ensures Served(it, f) && it.slotWaits == 0 ==>
              (MayGrantSlot(Applied(it, f, env), later) <==> later.freeSlot(it.user))
    ensures MayGrantSlot(NewItem(it.user), later) <==> later.freeSlot(it.user)
  {
  }

  /** At most one slot wait, and none while connected. */
  predicate FewWaits(it: Item) {
    it.slotWaits <= if it.state == ACTIVE then 0 else 1
  }

  lemma VisitWaits(it: Item, tick: nat, env: Env, others: Others, attemptDone: bool)
    requires FewWaits(it)
    ensures FewWaits(AfterVisit(it, tick, env, others, attemptDone).item)
  {
    var r := Revived(it, false, env.now);
    if it.state != ACTIVE && r.errors != -1 {
      KeptWaits(r, tick, env, others, attemptDone);
    }
  }

  lemma KeptWaits(it: Item, tick: nat, env: Env, others: Others, attemptDone: bool)
    requires it.state != ACTIVE
    ensures var a := AfterKept(it, tick, env, others, attemptDone).item;
            a.slotWaits == it.slotWaits && a.state != ACTIVE
  {
    if it.state != CONNECTING {
      StartWaits(it.(state := WAITING), tick, env, others, attemptDone);
    }
  }

  lemma StartWaits(it: Item, tick: nat, env: Env, others: Others, attemptDone: bool)
    requires it.state == WAITING
    ensures var a := AfterStart(it, tick, env, others, attemptDone).item;
            a.slotWaits == it.slotWaits && a.state != ACTIVE
  {
  }

  // ----- what a visit does -----

  /** Exactly when an attempt is started: the item is wanted, past its gap and has errors to spare, nothing of the peer
      is connecting, the round has an attempt to spend on it, and the request goes out. */
  lemma VisitStarts(it: Item, tick: nat, env: Env, others: Others, attemptDone: bool)
    requires Budget(it)
    ensures var v, r := AfterVisit(it, tick, env, others, attemptDone), Revived(it, false, env.now);
            && (v.started <==>
                  && Wanted(it, env) && !(it.state == WAITING && Droppable(it, env)) && Ripe(r, env)
                  && r.errors < MAX_CONNECT_ERRORS && !(r.lastAttempt != 0 && attemptDone)
                  && env.upnpReady && env.ready(it.user) && !others.busy && env.startDownload(it.user)
                  && env.connect(Switched(r, env, others).user).Sent?)
            && (v.started ==> v.item.state == CONNECTING && v.item.since == v.item.lastAttempt == tick
                              && v.item.tries == it.tries + 1 && !v.item.hurried)
            && (v.item.state == CONNECTING ==> v.started || it.state == CONNECTING)
  {
  }

  /** Exactly when an item leaves the queue: nobody wants it; or it waits, has waited out an attempt or has no errors to
      spare, has no other identity to try, and its peer never answered and is out of hubs or of errors. */
  lemma VisitDrops(it: Item, tick: nat, env: Env, others: Others, attemptDone: bool)
    requires Budget(it)
    ensures AfterVisit(it, tick, env, others, attemptDone).drop <==>
              && it.state != ACTIVE
              && (|| !Wanted(it, env)
                  || (it.state == WAITING && Droppable(it, env))
                  || (WaitedOut(it, tick) && !Switches(it, env, others) && Droppable(TimedOut(it), env))
                  || (it.state == NO_DOWNLOAD_SLOTS && it.errors >= MAX_CONNECT_ERRORS && Ripe(it, env)
                      && Droppable(it, env)))
  {
  }

  /** Exactly when a running attempt of a wanted item is given up: its wait is over. Without a time it only gets one. */
  lemma VisitTimesOut(it: Item, tick: nat, env: Env, others: Others, attemptDone: bool)
    requires Budget(it) && it.state == CONNECTING && Wanted(it, env)
    ensures var v := AfterVisit(it, tick, env, others, attemptDone);
            && (WaitedOut(it, tick) <==> v.drop || v.item.state != CONNECTING)
            && (WaitedOut(it, tick) ==> v.item.errors == -1 || v.item.errors == it.errors + 1)
            && (!WaitedOut(it, tick) ==>
                  v.item == it.(lastAttempt := if it.lastAttempt == 0 then tick else it.lastAttempt))
  {
  }

  /** After a timeout the item waits, free to go on at once, and is parked exactly if it has no errors to spare. */
  lemma TimeoutRests(it: Item, env: Env, others: Others)
    requires Budget(it) && it.state == CONNECTING
    ensures var v := AfterTimeout(it, env, others);
            && (v.drop <==> !Switches(it, env, others) && Droppable(TimedOut(it), env))
            && (!v.drop ==> v.item.state == WAITING
                            && (v.item.errors == -1 <==> it.errors + 1 >= MAX_CONNECT_ERRORS)
                            && (v.item.errors != -1 ==> v.item.errors == it.errors + 1 && v.item.lastAttempt == 0))
  {
  }

  /** The identity stays, or is the one selected. */
  predicate SameOrSelected(it: Item, after: Item, env: Env) {
    after.user.user == it.user.user || (env.select(it.user).Some? && after.user.user == env.select(it.user).value.user)
  }

  /** What an attempt counts and times. */
  lemma AttemptCounts(it: Item, tick: nat, env: Env)
    ensures var a, r := Attempted(it, tick, env), env.connect(it.user);
            && a.user.user == it.user.user && a.errors == it.errors
            && (r.Sent? ==> a.state == CONNECTING && a.since == tick)
            && (!r.Sent? ==> a.state == it.state && a.tries == it.tries && a.connectAttempts == it.connectAttempts)
            && (r.Sent? ==> a.tries == it.tries + 1 && a.connectAttempts == it.connectAttempts + 1)
            && a.lastAttempt == if r.HubWait? then it.lastAttempt else tick
  {
  }

  lemma StartUser(it: Item, tick: nat, env: Env, others: Others, attemptDone: bool)
    ensures SameOrSelected(it, AfterStart(it, tick, env, others, attemptDone).item, env)
  {
    AttemptCounts(Switched(it, env, others), tick, env);
  }

  lemma VisitUser(it: Item, tick: nat, env: Env, others: Others, attemptDone: bool)
    ensures SameOrSelected(it, AfterVisit(it, tick, env, others, attemptDone).item, env)
  {
    var r := Revived(it, false, env.now);
    if r.errors != -1 && r.state != CONNECTING {
      StartUser(r.(state := WAITING), tick, env, others, attemptDone);
    }
  }

  lemma TimeoutKeepsOk(it: Item, tick: nat, env: Env, others: Others)
    requires ItemOk(it, tick) && it.state == CONNECTING
    ensures var v := AfterRunning(it, tick, env, others);
            ItemOk(v.item, tick) && (Punctual(it) && !v.drop ==> Punctual(v.item))
  {
  }

  lemma AttemptKeepsOk(it: Item, tick: nat, env: Env)
    requires ItemOk(it, tick) && it.state == WAITING && 0 <= it.errors < MAX_CONNECT_ERRORS
    ensures ItemOk(Attempted(it, tick, env), tick) && (Punctual(it) ==> Punctual(Attempted(it, tick, env)))
  {
  }

  lemma StartKeepsOk(it: Item, tick: nat, env: Env, others: Others, attemptDone: bool)
    requires ItemOk(it, tick) && it.state == WAITING && it.errors >= 0
    ensures var v := AfterStart(it, tick, env, others, attemptDone);
            ItemOk(v.item, tick) && (Punctual(it) ==> Punctual(v.item))
  {
    if it.errors < MAX_CONNECT_ERRORS {
      AttemptKeepsOk(Switched(it, env, others), tick, env);
    }
  }

  /** A visit keeps the budget and the pacing, and hurries nothing. */
  lemma VisitKeepsOk(it: Item, tick: nat, env: Env, others: Others, attemptDone: bool)
    requires ItemOk(it, tick)
    ensures var v := AfterVisit(it, tick, env, others, attemptDone);
            ItemOk(v.item, tick) && (Punctual(it) && !v.drop ==> Punctual(v.item))
  {
    var r := Revived(it, false, env.now);
    if r.errors != -1 {
      if r.state == CONNECTING {
        TimeoutKeepsOk(r, tick, env, others);
      } else {
        StartKeepsOk(r.(state := WAITING), tick, env, others, attemptDone);
      }
    }
  }

  lemma VisitHurriesNothing(it: Item, tick: nat, env: Env, others: Others, attemptDone: bool)
    ensures AfterVisit(it, tick, env, others, attemptDone).item.hurried ==> it.hurried
  {
  }
}
