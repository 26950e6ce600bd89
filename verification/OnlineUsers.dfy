/** The index of the users that are online: one entry for every user a hub lists, and what the rest of the program is
    told of users who come and go. */
module OnlineUsers {
  import opened Collections

  /** A user, wherever it is; one listing of a user by a hub. */
  type Cid = nat
  type Id = nat

  /** How hubs know their users: by nick, or by session number. */
  datatype Key = Nick(nick: string) | Sid(sid: nat)

  /** A key in the list of one hub. */
  datatype Place = Place(hub: nat, key: Key)

  const HUB_SID := 0xffffffff

  /** The hub's own session is listed but is nobody's. */
  predicate IsUser(p: Place) {
    p.key != Sid(HUB_SID)
  }

  /** Everybody on a hub is a user but the hub itself, which has the last session number there. */
  lemma WhoIsUser(hub: nat, nick: string, sid: nat)
    ensures IsUser(Place(hub, Nick(nick))) && (IsUser(Place(hub, Sid(sid))) <==> sid != 4294967295)
  {
  }

  datatype Event = Connected(cid: Cid) | Disconnected(cid: Cid) | Updated(cid: Cid)

  // ----- what the index should hold -----

  /** The listings of a user in all hubs. */
  function Listings(users: map<Place, Id>, who: map<Id, Cid>, cid: Cid): set<Id> {
    set p | p in users && IsUser(p) && users[p] in who && who[users[p]] == cid :: users[p]
  }

  function Range(index: map<Cid, multiset<Id>>, cid: Cid): multiset<Id> {
    if cid in index then index[cid] else multiset{}
  }

  /** Every place has its own listing, and that exists. */
  ghost predicate Apart(users: map<Place, Id>, who: map<Id, Cid>) {
    && (forall p :: p in users ==> users[p] in who)
    && (forall p, q :: p in users && q in users && users[p] == users[q] ==> p == q)
  }

  ghost function Owned(users: map<Place, Id>, who: map<Id, Cid>): Claim {
    Claim(who.Keys <= users.Values)
  }

  /** The index holds each listing of each user once, and nothing else. */
  ghost predicate Indexed(users: map<Place, Id>, who: map<Id, Cid>, index: map<Cid, multiset<Id>>) {
    forall cid :: Range(index, cid) == multiset(Listings(users, who, cid))
  }

  /** The index is that of the lists. */
  ghost function Right(users: map<Place, Id>, who: map<Id, Cid>, index: map<Cid, multiset<Id>>): Claim {
    Claim(Apart(users, who) && Indexed(users, who, index))
  }

  // ----- what has been told -----

  /** Whether the last that was told of the user is that it connected. */
  predicate ToldOnline(events: seq<Event>, cid: Cid) {
    if events == [] then false
    else
      match events[|events| - 1]
      case Connected(c) => c == cid || ToldOnline(events[..|events| - 1], cid)
      case Disconnected(c) => c != cid && ToldOnline(events[..|events| - 1], cid)
      case Updated(_) => ToldOnline(events[..|events| - 1], cid)
  }

  /** Nobody connects twice in a row, or disconnects without having connected. */
  predicate Alternating(events: seq<Event>) {
    forall i :: 0 <= i < |events| ==>
      (events[i].Connected? ==> !ToldOnline(events[..i], events[i].cid)) &&
      (!events[i].Connected? ==> ToldOnline(events[..i], events[i].cid))
  }

  lemma TellOne(events: seq<Event>, e: Event)
    requires Alternating(events)
    requires e.Connected? <==> !ToldOnline(events, e.cid)
    ensures Alternating(events + [e])
    ensures forall cid :: ToldOnline(events + [e], cid) <==>
              if cid == e.cid then !e.Disconnected? else ToldOnline(events, cid)
  {
    var more := events + [e];
    assert more[..|events|] == events;
    forall i | 0 <= i < |more| ensures (more[i].Connected? ==> !ToldOnline(more[..i], more[i].cid)) &&
                                       (!more[i].Connected? ==> ToldOnline(more[..i], more[i].cid)) {
      if i < |events| {
        assert more[..i] == events[..i];
      }
    }
  }

  // ----- adding and taking away one listing -----

  lemma ListingsMore(users: map<Place, Id>, who: map<Id, Cid>, p: Place, id: Id, user: Cid, cid: Cid)
    requires Apart(users, who) && p !in users && id !in who
    ensures Apart(users[p := id], who[id := user])
    ensures Listings(users[p := id], who[id := user], cid) ==
            Listings(users, who, cid) + if IsUser(p) && user == cid then {id} else {}
    ensures id !in Listings(users, who, cid)
  {
    var u, w := users[p := id], who[id := user];
    forall q | q in users ensures u[q] == users[q] && w[u[q]] == who[users[q]] {}
    forall x | x in Listings(users, who, cid) ensures x in Listings(u, w, cid) {
      var q :| q in users && IsUser(q) && users[q] in who && who[users[q]] == cid && users[q] == x;
      assert u[q] == x;
    }
    if IsUser(p) && user == cid {
      assert u[p] == id && id in Listings(u, w, cid);
    }
  }

  lemma ListingsLess(users: map<Place, Id>, who: map<Id, Cid>, p: Place, cid: Cid)
    requires Apart(users, who) && p in users
    ensures Apart(users - {p}, who)
    ensures Listings(users - {p}, who, cid) ==
            Listings(users, who, cid) - if IsUser(p) && who[users[p]] == cid then {users[p]} else {}
    ensures IsUser(p) && who[users[p]] == cid ==> users[p] in Listings(users, who, cid)
  {
    var u := users - {p};
    forall x | x in Listings(users, who, cid) && x != users[p] ensures x in Listings(u, who, cid) {
      var q :| q in users && IsUser(q) && users[q] in who && who[users[q]] == cid && users[q] == x;
      assert q in u && u[q] == x;
    }
  }

  /** A listing that no place has any more makes no difference. */
  lemma ListingsGone(users: map<Place, Id>, who: map<Id, Cid>, id: Id)
    requires Apart(users, who) && forall p :: p in users ==> users[p] != id
    ensures Apart(users, who - {id})
    ensures forall cid :: Listings(users, who - {id}, cid) == Listings(users, who, cid)
  {
    forall cid ensures Listings(users, who - {id}, cid) == Listings(users, who, cid) {
      forall x | x in Listings(users, who, cid) ensures x in Listings(users, who - {id}, cid) {
        var p :| p in users && IsUser(p) && users[p] in who && who[users[p]] == cid && users[p] == x;
      }
    }
  }

  lemma RangeSet(index: map<Cid, multiset<Id>>, cid: Cid, m: multiset<Id>)
    ensures forall c :: Range(index[cid := m], c) == if c == cid then m else Range(index, c)
  {
  }

  /** Whoever has a listing is flagged, and was told to be online last. */
  ghost function ToldRight(events: seq<Event>, online: set<Cid>, index: map<Cid, multiset<Id>>): Claim {
    Claim(
      && Alternating(events)
      && forall cid ::
           (cid in online <==> Range(index, cid) != multiset{}) && (ToldOnline(events, cid) <==> cid in online))
  }

  lemma OneMoreTold(events: seq<Event>, online: set<Cid>, index: map<Cid, multiset<Id>>, cid: Cid,
                    listings: multiset<Id>)
    requires ToldRight(events, online, index).holds && listings != multiset{}
    ensures if cid in online then ToldRight(events, online, index[cid := listings]).holds
            else ToldRight(events + [Connected(cid)], online + {cid}, index[cid := listings]).holds
  {
    RangeSet(index, cid, listings);
    if cid !in online {
      TellOne(events, Connected(cid));
    }
  }

  lemma OneLessTold(events: seq<Event>, online: set<Cid>, index: map<Cid, multiset<Id>>, cid: Cid, rest: multiset<Id>)
    requires ToldRight(events, online, index).holds && cid in online
    ensures if rest == multiset{}
            then ToldRight(events + [Disconnected(cid)], online - {cid}, index[cid := rest]).holds
            else ToldRight(events + [Updated(cid)], online, index[cid := rest]).holds
  {
    RangeSet(index, cid, rest);
    TellOne(events, if rest == multiset{} then Disconnected(cid) else Updated(cid));
  }

  // ----- the manager and its hubs -----

  class ClientManager {
    /** The hubs' lists, and whose listing is whose. */
    var users: map<Place, Id>
    var who: map<Id, Cid>
    var nextId: Id
    var onlineUsers: map<Cid, multiset<Id>>
    /** The users with the ONLINE flag. */
    var online: set<Cid>
    var events: seq<Event>

    /** The flag and the events go with the index. */
    ghost predicate Told()
      reads this`onlineUsers, this`online, this`events
    {
      ToldRight(events, online, onlineUsers).holds
    }

    /** The index is right for these lists. */
    ghost predicate RightFor(lists: map<Place, Id>)
      reads this`who, this`nextId, this`onlineUsers, this`online, this`events
    {
      Right(lists, who, onlineUsers).holds && Told() && forall id :: id in who ==> id < nextId
    }

    /** And every listing there is belongs to a hub. */
    ghost predicate Valid()
      reads this
    {
      RightFor(users) && Owned(users, who).holds
    }

    constructor ()
      ensures Valid() && users == map[] && events == []
    {
      users, who, nextId, onlineUsers, online, events := map[], map[], 0, map[], {}, [];
    }

    method PutOnline(ou: Id)
      requires ou in who && Told()
      modifies this`onlineUsers, this`online, this`events
      ensures Told()
      ensures forall cid :: Range(onlineUsers, cid) ==
                old(Range(onlineUsers, cid)) + if cid == who[ou] then multiset{ou} else multiset{}
      ensures events == old(events) + if who[ou] in old(online) then [] else [Connected(who[ou])]
    {
      var cid := who[ou];
      ghost var more := Range(onlineUsers, cid) + multiset{ou};
      assert ou in more;
      RangeSet(onlineUsers, cid, more);
      OneMoreTold(events, online, onlineUsers, cid, more);
      onlineUsers := onlineUsers[cid := Range(onlineUsers, cid) + multiset{ou}];
      if cid !in online {
        online := online + {cid};
        events := events + [Connected(cid)];
      }
    }

    method PutOffline(ou: Id)
      requires ou in who && ou in Range(onlineUsers, who[ou]) && Told()
      modifies this`onlineUsers, this`online, this`events
      ensures Told()
      ensures forall cid :: Range(onlineUsers, cid) ==
                old(Range(onlineUsers, cid)) - if cid == who[ou] then multiset{ou} else multiset{}
      ensures events == old(events) +
                if Range(onlineUsers, who[ou]) == multiset{} then [Disconnected(who[ou])] else [Updated(who[ou])]
    {
      var cid := who[ou];
      var diff := |Range(onlineUsers, cid)|;
      assert cid in online;
      ghost var rest := Range(onlineUsers, cid) - multiset{ou};
      assert |rest| == diff - 1;
      assert diff == 1 <==> rest == multiset{};
      RangeSet(onlineUsers, cid, rest);
      OneLessTold(events, online, onlineUsers, cid, rest);
      onlineUsers := onlineUsers[cid := Range(onlineUsers, cid) - multiset{ou}];
      if diff == 1 {
        online := online - {cid};
        events := events + [Disconnected(cid)];
      } else {
        events := events + [Updated(cid)];
      }
    }

    /** The listing of a user in a hub, made if there is none yet. */
    method GetUser(p: Place, user: Cid) returns (ou: Id)
      requires Valid()
      modifies this
      ensures Valid() && users == (if p in old(users) then old(users) else old(users)[p := ou])
      ensures p in users && users[p] == ou
      ensures if p in old(users) then who == old(who) && events == old(events)
              else who == old(who)[ou := user] && ou !in old(who)
      ensures p !in old(users) && IsUser(p) ==>
                events == old(events) + if ToldOnline(old(events), user) then [] else [Connected(user)]
    {
      if p in users {
        return users[p];
      }
      ou := nextId;
      nextId := nextId + 1;
      ghost var lists, owners := users, who;
      users := users[p := ou];
      who := who[ou := user];
      Enlist(p, ou);
      AddedRight(lists, owners, old(onlineUsers), p, ou, user, onlineUsers);
      OwnedMore(lists, owners, p, ou, user);
    }

    /** Takes a listing that is in no hub's list any more out of the index, and deletes it. */
    method Release(ghost lists: map<Place, Id>, p: Place, ou: Id)
      requires RightFor(lists) && Owned(lists, who).holds && p in lists && lists[p] == ou
      modifies this`who, this`onlineUsers, this`online, this`events
      ensures RightFor(lists - {p}) && Owned(lists - {p}, who).holds && who == old(who) - {ou}
      ensures events == old(events) + if !IsUser(p) then [] else
                if Range(onlineUsers, old(who)[ou]) == multiset{} then [Disconnected(old(who)[ou])]
                else [Updated(old(who)[ou])]
    {
      ghost var before, owners := onlineUsers, who;
      ListedIsIndexed(lists, who, onlineUsers, p);
      Unlist(p, ou);
      RemovedRight(lists, owners, before, p, onlineUsers);
      OwnedLess(lists, owners, p);
      who := who - {ou};
    }

    method Enlist(p: Place, ou: Id)
      requires ou in who && Told()
      modifies this`onlineUsers, this`online, this`events
      ensures Told()
      ensures forall cid :: Range(onlineUsers, cid) ==
                old(Range(onlineUsers, cid)) + if IsUser(p) && cid == who[ou] then multiset{ou} else multiset{}
      ensures events == old(events) + if !IsUser(p) || ToldOnline(old(events), who[ou]) then []
              else [Connected(who[ou])]
    {
      if IsUser(p) {
        PutOnline(ou);
      }
    }

    method Unlist(p: Place, ou: Id)
      requires ou in who && Told() && (IsUser(p) ==> ou in Range(onlineUsers, who[ou]))
      modifies this`onlineUsers, this`online, this`events
      ensures Told()
      ensures forall cid :: Range(onlineUsers, cid) ==
                old(Range(onlineUsers, cid)) - if IsUser(p) && cid == who[ou] then multiset{ou} else multiset{}
      ensures events == old(events) + if !IsUser(p) then [] else
                if Range(onlineUsers, who[ou]) == multiset{} then [Disconnected(who[ou])] else [Updated(who[ou])]
    {
      if IsUser(p) {
        PutOffline(ou);
      }
    }

    /** A user leaves a hub. */
    method PutUser(p: Place)
      requires Valid()
      modifies this
      ensures Valid() && users == old(users) - {p}
      ensures who == if p in old(users) then old(who) - {old(users[p])} else old(who)
      ensures p !in old(users) ==> events == old(events)
      ensures p in old(users) && IsUser(p) ==>
                events == old(events) + [if ToldOnline(events, old(who[users[p]])) then Updated(old(who[users[p]]))
                                         else Disconnected(old(who[users[p]]))]
    {
      if p !in users {
        assert users - {p} == users;
        return;
      }
      var ou := users[p];
      ghost var lists := users;
      users := users - {p};
      Release(lists, p, ou);
    }

    /** All users of a hub go at once: their list is emptied first, and the index after it. */
    method ClearUsers(hub: nat)
      requires Valid()
      modifies this
      ensures Valid() && users == OtherHubs(old(users), hub)
      ensures forall p :: p in users <==> p in old(users) && p.hub != hub
    {
      var tmp := users - OtherHubs(users, hub).Keys;
      users := OtherHubs(users, hub);
      SplitHub(old(users), hub);
      ReleaseAll(tmp, old(users));
    }

    method ReleaseAll(all: map<Place, Id>, ghost before: map<Place, Id>)
      requires RightFor(before) && Owned(before, who).holds && Together(users, all, before)
      modifies this`who, this`onlineUsers, this`online, this`events
      ensures Valid()
    {
      var tmp := all;
      ghost var lists := before;
      while tmp != map[]
        invariant RightFor(lists) && Owned(lists, who).holds && Together(users, tmp, lists)
        decreases |tmp|
      {
        var p :| p in tmp;
        OneLess(users, tmp, p, lists);
        Release(lists, p, tmp[p]);
        lists := lists - {p};
        tmp := tmp - {p};
      }
      NoneLeft(users, tmp, lists);
    }
  }

  /** The lists without a hub's users, and those users. */
  ghost predicate Together(users: map<Place, Id>, tmp: map<Place, Id>, lists: map<Place, Id>) {
    && (forall p :: p in lists <==> p in users || p in tmp)
    && (forall p :: p in users ==> p !in tmp && p in lists && lists[p] == users[p])
    && (forall p :: p in tmp ==> p in lists && lists[p] == tmp[p])
  }

  lemma OneLess(users: map<Place, Id>, tmp: map<Place, Id>, p: Place, lists: map<Place, Id>)
    requires p in tmp && Together(users, tmp, lists)
    ensures |tmp - {p}| < |tmp| && Together(users, tmp - {p}, lists - {p}) && p in lists && lists[p] == tmp[p]
  {
    SmallerMap(tmp, p);
  }

  lemma SmallerMap(m: map<Place, Id>, p: Place)
    requires p in m
    ensures |m - {p}| < |m|
  {
    assert (m - {p}).Keys == m.Keys - {p};
    assert |m.Keys - {p}| == |m.Keys| - 1;
    assert |m| == |m.Keys| && |m - {p}| == |(m - {p}).Keys|;
  }

  lemma NoneLeft(users: map<Place, Id>, tmp: map<Place, Id>, lists: map<Place, Id>)
    requires tmp == map[] && Together(users, tmp, lists)
    ensures lists == users
  {
  }

  lemma SplitHub(users: map<Place, Id>, hub: nat)
    ensures var others := OtherHubs(users, hub); Together(others, users - others.Keys, users)
  {
  }

  lemma ListedIsIndexed(lists: map<Place, Id>, who: map<Id, Cid>, index: map<Cid, multiset<Id>>, p: Place)
    requires Right(lists, who, index).holds && p in lists
    ensures IsUser(p) ==> lists[p] in Range(index, who[lists[p]])
  {
    assert IsUser(p) ==> lists[p] in Listings(lists, who, who[lists[p]]);
  }

  function OtherHubs(users: map<Place, Id>, hub: nat): map<Place, Id> {
    map p | p in users && p.hub != hub :: users[p]
  }

  lemma AddedRight(lists: map<Place, Id>, who: map<Id, Cid>, index: map<Cid, multiset<Id>>, p: Place, ou: Id, user: Cid,
                   after: map<Cid, multiset<Id>>)
    requires Right(lists, who, index).holds && p !in lists && ou !in who
    requires forall cid :: Range(after, cid) ==
               Range(index, cid) + if IsUser(p) && cid == user then multiset{ou} else multiset{}
    ensures Right(lists[p := ou], who[ou := user], after).holds
  {
    forall cid ensures Apart(lists[p := ou], who[ou := user])
               ensures Range(after, cid) == multiset(Listings(lists[p := ou], who[ou := user], cid)) {
      ListingsMore(lists, who, p, ou, user, cid);
    }
    ListingsMore(lists, who, p, ou, user, user);
  }

  lemma RemovedRight(lists: map<Place, Id>, who: map<Id, Cid>, index: map<Cid, multiset<Id>>, p: Place,
                     after: map<Cid, multiset<Id>>)
    requires Right(lists, who, index).holds && p in lists
    requires forall cid :: Range(after, cid) ==
               Range(index, cid) - if IsUser(p) && cid == who[lists[p]] then multiset{lists[p]} else multiset{}
    ensures Right(lists - {p}, who - {lists[p]}, after).holds
  {
    var ou, left := lists[p], lists - {p};
    forall q | q in left ensures left[q] != ou {
      assert q in lists && lists[q] == left[q];
    }
    ListingsLess(lists, who, p, who[ou]);
    ListingsGone(left, who, ou);
    forall cid ensures Range(after, cid) == multiset(Listings(left, who - {ou}, cid)) {
      ListingsLess(lists, who, p, cid);
    }
  }

  lemma OwnedMore(lists: map<Place, Id>, who: map<Id, Cid>, p: Place, ou: Id, user: Cid)
    requires Owned(lists, who).holds && p !in lists
    ensures Owned(lists[p := ou], who[ou := user]).holds
  {
    var l := lists[p := ou];
    assert l[p] == ou;
    forall id | id in who ensures id in l.Values {
      assert id in lists.Values;
      var q :| q in lists && lists[q] == id;
      assert l[q] == id;
    }
  }

  lemma OwnedLess(lists: map<Place, Id>, who: map<Id, Cid>, p: Place)
    requires Owned(lists, who).holds && p in lists
    ensures Owned(lists - {p}, who - {lists[p]}).holds
  {
    var l := lists - {p};
    forall id | id in who && id != lists[p] ensures id in l.Values {
      assert id in lists.Values;
      var q :| q in lists && lists[q] == id;
      assert q in l && l[q] == id;
    }
  }

  // ----- whole runs -----

  datatype Step = Join(place: Place, user: Cid) | Quit(place: Place) | Clear(hub: nat)

  /** Whatever joins and leaves: in the end the index is the disjoint union of the hubs' lists, a user has the flag
      exactly if some hub lists it, and everybody has been told of just that, in turns. */
  method Run(m: ClientManager, steps: seq<Step>)
    requires m.Valid()
    modifies m
    ensures m.Valid() && Alternating(m.events)
    ensures forall cid :: Range(m.onlineUsers, cid) == multiset(Listings(m.users, m.who, cid))
    ensures forall cid :: (cid in m.online <==> Listings(m.users, m.who, cid) != {})
                          && (ToldOnline(m.events, cid) <==> Listings(m.users, m.who, cid) != {})
  {
    for i := 0 to |steps|
      invariant m.Valid()
    {
      match steps[i]
      case Join(place, user) => var ou := m.GetUser(place, user);
      case Quit(place) => m.PutUser(place);
      case Clear(hub) => m.ClearUsers(hub);
    }
    forall cid ensures Range(m.onlineUsers, cid) != multiset{} <==> Listings(m.users, m.who, cid) != {} {
      EmptyEither(Listings(m.users, m.who, cid));
    }
  }

  lemma EmptyEither(s: set<Id>)
    ensures multiset(s) == multiset{} <==> s == {}
  {
    if s != {} {
      var x :| x in s;
      assert x in multiset(s);
    }
  }
}
