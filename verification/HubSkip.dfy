/** Which hub a connect request goes through: the best-scored online identity of the peer on a hub
    that has not timed out; the hubs that have are kept per peer until the peer answers or is
    given up. */
module HubSkip {
  import opened Collections

  type Cid = nat
  datatype HubOutcome = UNKNOWN | SUCCESS | FAILURE

  /** One online identity of a peer. viable: its hub entry is not a ghost. */
  datatype OnlineUser = OnlineUser(hub: string, viable: bool, allowHubConnect: bool, outcome: HubOutcome,
                                   application: string, passive: bool, prefersRevConnect: bool, activeOnHub: bool)

  function Score(u: OnlineUser, hint: string): int {
    (if u.allowHubConnect then 0 else -1000)
    + (if hint != "" && u.hub == hint then 10 else 0)
    + (match u.outcome case SUCCESS => 20 case FAILURE => -10 case UNKNOWN => 0)
    + (if u.application != "" && u.application != "?" then 5 else 0)
    + (if !u.activeOnHub && u.passive then (if u.prefersRevConnect then 5 else 2)
       else if u.activeOnHub then 1 else 0)
  }

  /** May be picked while these hubs are skipped. A nameless hub is never skipped. */
  predicate Candidate(u: OnlineUser, skip: set<string>) {
    u.viable && !Listed(u, skip)
  }

  predicate Listed(u: OnlineUser, skip: set<string>) {
    u.hub != "" && u.hub in skip
  }

  predicate AllViableListed(users: seq<OnlineUser>, skip: set<string>) {
    forall i :: 0 <= i < |users| && users[i].viable ==> Listed(users[i], skip)
  }

  predicate AnyViable(users: seq<OnlineUser>) {
    exists i :: 0 <= i < |users| && users[i].viable
  }

  /** The first candidate among those with the highest score. */
  predicate IsBest(users: seq<OnlineUser>, hint: string, skip: set<string>, b: nat) {
    && b < |users| && Candidate(users[b], skip)
    && (forall i :: 0 <= i < |users| && Candidate(users[i], skip) ==> Score(users[i], hint) <= Score(users[b], hint))
    && (forall i :: 0 <= i < b && Candidate(users[i], skip) ==> Score(users[i], hint) < Score(users[b], hint))
  }

  lemma BestIsUnique(users: seq<OnlineUser>, hint: string, skip: set<string>, a: nat, b: nat)
    requires IsBest(users, hint, skip, a) && IsBest(users, hint, skip, b)
    ensures a == b
  {
    assert Score(users[a], hint) == Score(users[b], hint);
  }

  // ----- who is preferred -----

  /** A hub that lets us connect now comes before everything else. */
  lemma AllowedFirst(users: seq<OnlineUser>, hint: string, skip: set<string>, b: nat, i: nat)
    requires IsBest(users, hint, skip, b) && i < |users| && Candidate(users[i], skip) && users[i].allowHubConnect
    ensures users[b].allowHubConnect
  {
    assert Score(users[i], hint) <= Score(users[b], hint);
  }

  /** Then no hub where connecting failed is chosen while there is one where it succeeded, whatever hint, tag or
      mode. */
  lemma FailedLast(users: seq<OnlineUser>, hint: string, skip: set<string>, b: nat, i: nat)
    requires IsBest(users, hint, skip, b) && i < |users| && Candidate(users[i], skip) && users[i].outcome == SUCCESS
    requires users[i].allowHubConnect == users[b].allowHubConnect
    ensures users[b].outcome != FAILURE
  {
    assert Score(users[i], hint) <= Score(users[b], hint);
  }

  function Rank(outcome: HubOutcome): nat {
    match outcome case SUCCESS => 2 case UNKNOWN => 1 case FAILURE => 0
  }

  predicate Tagged(u: OnlineUser) {
    u.application != "" && u.application != "?"
  }

  /** Two passive peers need a client that turns the connection around; failing that an active mode is of use. */
  function ModeRank(u: OnlineUser): nat {
    if u.activeOnHub then 1 else if !u.passive then 0 else if u.prefersRevConnect then 3 else 2
  }

  /** Better in one respect and no worse in any other. */
  predicate Better(u: OnlineUser, v: OnlineUser, hint: string) {
    && (v.allowHubConnect ==> u.allowHubConnect) && Rank(u.outcome) >= Rank(v.outcome)
    && (hint != "" && v.hub == hint ==> u.hub == hint) && (Tagged(v) ==> Tagged(u)) && ModeRank(u) >= ModeRank(v)
    && (|| (u.allowHubConnect && !v.allowHubConnect) || Rank(u.outcome) > Rank(v.outcome)
        || (hint != "" && u.hub == hint && v.hub != hint) || (Tagged(u) && !Tagged(v)) || ModeRank(u) > ModeRank(v))
  }

  /** Nobody is chosen while there is a better candidate: one on a hub that lets us connect, with a better outcome the
      last time, on the hinted hub, with a client tag, or in a better mode, and no worse in any of these. */
  lemma NoneBetter(users: seq<OnlineUser>, hint: string, skip: set<string>, b: nat, i: nat)
    requires IsBest(users, hint, skip, b) && i < |users| && Candidate(users[i], skip)
    ensures !Better(users[i], users[b], hint)
  {
    assert Score(users[i], hint) <= Score(users[b], hint);
  }

  /** What outweighs what, in a hub or a client that is otherwise the same: a hint makes up for a failure, as do a tag
      and a client that turns connections around together, of which either is worth as much as the other; and all of
      these together make up for a success. */
  lemma Tradeoffs(u: OnlineUser, hint: string, other: string, tag: string)
    requires hint != "" && other != hint && tag != "" && tag != "?"
    requires u.application == "" && !u.activeOnHub && !u.passive && u.outcome == UNKNOWN && u.hub == other
    ensures Score(u.(outcome := FAILURE, hub := hint), hint) == Score(u, hint)
    ensures Score(u.(application := tag), hint) == Score(u.(passive := true, prefersRevConnect := true), hint)
    ensures var v := u.(application := tag, passive := true, prefersRevConnect := true);
            && Score(v, hint) == Score(u.(hub := hint), hint)
            && Score(v.(hub := hint), hint) == Score(u.(outcome := SUCCESS), hint)
    ensures Score(u.(application := tag), hint) > Score(u.(passive := true, prefersRevConnect := false), hint)
  {
  }

  /** The inner loop of the search. */
  method Pick(users: seq<OnlineUser>, hint: string, skip: set<string>) returns (best: Option<nat>)
    ensures best.None? ==> forall i :: 0 <= i < |users| ==> !Candidate(users[i], skip)
    ensures best.Some? ==> IsBest(users, hint, skip, best.value)
  {
    best := None;
    var bestScore := 0;
    for k := 0 to |users|
      invariant best.None? ==> forall i :: 0 <= i < k ==> !Candidate(users[i], skip)
      invariant best.Some? ==>
                  && best.value < k && Candidate(users[best.value], skip) && bestScore == Score(users[best.value], hint)
                  && (forall i :: 0 <= i < k && Candidate(users[i], skip) ==> Score(users[i], hint) <= bestScore)
                  && (forall i :: 0 <= i < best.value && Candidate(users[i], skip) ==>
                     Score(users[i], hint) < bestScore)
    {
      var u := users[k];
      if Candidate(u, skip) {
        var score := Score(u, hint);
        if best.None? || score > bestScore {
          best, bestScore := Some(k), score;
        }
      }
    }
  }

  const MAX_SKIP_USERS := 2048

  /** The skip lists shared by all peers. */
  class PeerConnectHub {
    var timeoutHubs: map<Cid, set<string>>
    var reachedPeers: set<Cid>
    var unreachablePeers: set<Cid>

    function Skip(cid: Cid): set<string>
      reads this
    {
      if cid in timeoutHubs then timeoutHubs[cid] else {}
    }

    constructor ()
      ensures timeoutHubs == map[] && reachedPeers == {} && unreachablePeers == {}
    {
      timeoutHubs, reachedPeers, unreachablePeers := map[], {}, {};
    }

    /** A full map first loses an arbitrary other peer. */
    method NoteConnectTimeout(cid: Cid, hub: string)
      modifies this`timeoutHubs
      ensures Skip(cid) == if hub == "" then old(Skip(cid)) else old(Skip(cid)) + {hub}
      ensures forall c :: c != cid ==>
                Skip(c) == old(Skip(c)) || (|old(timeoutHubs)| >= MAX_SKIP_USERS && cid !in old(timeoutHubs)
                    && Skip(c) == {})
      ensures timeoutHubs.Keys <= old(timeoutHubs.Keys) + {cid}
      ensures |old(timeoutHubs)| <= MAX_SKIP_USERS ==> |timeoutHubs| <= MAX_SKIP_USERS
    {
      if hub == "" {
        return;
      }
      if |timeoutHubs| >= MAX_SKIP_USERS && cid !in timeoutHubs {
        assert timeoutHubs.Keys != {} by { assert |timeoutHubs.Keys| == |timeoutHubs|; }
        var victim :| victim in timeoutHubs;
        timeoutHubs := timeoutHubs - {victim};
      }
      timeoutHubs := timeoutHubs[cid := Skip(cid) + {hub}];
    }

    method ClearConnectTimeouts(cid: Cid)
      modifies this`timeoutHubs
      ensures Skip(cid) == {} && forall c :: c != cid ==> Skip(c) == old(Skip(c))
      ensures timeoutHubs.Keys <= old(timeoutHubs.Keys)
    {
      timeoutHubs := timeoutHubs - {cid};
    }

    method NotePeerReached(cid: Cid)
      modifies this`reachedPeers, this`unreachablePeers
      ensures cid in reachedPeers && unreachablePeers == old(unreachablePeers) - {cid}
      ensures reachedPeers <= old(reachedPeers) + {cid}
      ensures |old(reachedPeers)| < MAX_SKIP_USERS ==> reachedPeers == old(reachedPeers) + {cid}
    {
      if |reachedPeers| >= MAX_SKIP_USERS && cid !in reachedPeers {
        var victim :| victim in reachedPeers;
        reachedPeers := reachedPeers - {victim};
      }
      reachedPeers := reachedPeers + {cid};
      unreachablePeers := unreachablePeers - {cid};
    }

    /** The peer is given up: it starts from nothing if it ever comes back. */
    method NoteUnreachablePeer(cid: Cid)
      modifies this
      ensures cid in unreachablePeers && cid !in reachedPeers && Skip(cid) == {}
              && timeoutHubs.Keys <= old(timeoutHubs.Keys)
      ensures forall c :: c != cid ==> Skip(c) == old(Skip(c)) && (c in reachedPeers <==> c in old(reachedPeers))
    {
      if |unreachablePeers| >= MAX_SKIP_USERS && cid !in unreachablePeers {
        var victim :| victim in unreachablePeers;
        unreachablePeers := unreachablePeers - {victim};
      }
      unreachablePeers := unreachablePeers + {cid};
      reachedPeers := reachedPeers - {cid};
      timeoutHubs := timeoutHubs - {cid};
    }

    method ClearPeerSession(cid: Cid)
      modifies this`timeoutHubs, this`reachedPeers
      ensures Skip(cid) == {} && cid !in reachedPeers && timeoutHubs.Keys <= old(timeoutHubs.Keys)
      ensures forall c :: c != cid ==> Skip(c) == old(Skip(c)) && (c in reachedPeers <==> c in old(reachedPeers))
    {
      timeoutHubs := timeoutHubs - {cid};
      reachedPeers := reachedPeers - {cid};
    }

    /** The identity to connect through. When every viable one sits on a hub that timed out, a
        peer that answered before gets a fresh round, and any other peer gets nothing. */
    method FindBestOnlineUser(cid: Cid, users: seq<OnlineUser>, hint: string, priv: bool) returns (best: Option<nat>)
      modifies this`timeoutHubs
      ensures best == Choice(users, hint, old(Skip(cid)), cid in reachedPeers).0
      ensures Skip(cid) == Choice(users, hint, old(Skip(cid)), cid in reachedPeers).1
      ensures (forall c :: c != cid ==> Skip(c) == old(Skip(c))) && timeoutHubs.Keys <= old(timeoutHubs.Keys)
    {
      ghost var skip0 := Skip(cid);
      best := Pick(users, hint, Skip(cid));
      BestChosen(users, hint, skip0, best);
      if best.Some? {
        return;
      }
      var anyViable := FirstViable(users);
      if anyViable.Some? {
        assert Listed(users[anyViable.value], skip0);
        if cid !in reachedPeers {
          return None;
        }
        ClearConnectTimeouts(cid);
        best := Pick(users, hint, {});
        assert Candidate(users[anyViable.value], {});
        BestChosen(users, hint, {}, best);
        return;
      }
      // The source now returns what it saw first unless the hub is private: there was nothing.
      return if priv then None else anyViable;
    }

    method AllHubsConnectTimedOut(cid: Cid, users: seq<OnlineUser>) returns (all: bool)
      ensures all <==> AnyViable(users) && AllViableListed(users, Skip(cid))
    {
      var anyViable := false;
      for k := 0 to |users|
        invariant forall i :: 0 <= i < k && users[i].viable ==> Listed(users[i], Skip(cid))
        invariant anyViable <==> exists i :: 0 <= i < k && users[i].viable
      {
        if users[k].viable {
          anyViable := true;
          if !Listed(users[k], Skip(cid)) {
            return false;
          }
        }
      }
      return anyViable;
    }
  }

  method FirstViable(users: seq<OnlineUser>) returns (first: Option<nat>)
    ensures first.None? <==> !AnyViable(users)
    ensures first.Some? ==> first.value < |users| && users[first.value].viable
  {
    for k := 0 to |users|
      invariant forall i :: 0 <= i < k ==> !users[i].viable
    {
      if users[k].viable {
        return Some(k);
      }
    }
    return None;
  }

  // ----- the search as a function, and runs of attempts -----

  ghost function Best(users: seq<OnlineUser>, hint: string, skip: set<string>): Option<nat> {
    if exists b: nat :: IsBest(users, hint, skip, b) then
      var b: nat :| IsBest(users, hint, skip, b);
      Some(b)
    else None
  }

  lemma BestChosen(users: seq<OnlineUser>, hint: string, skip: set<string>, found: Option<nat>)
    requires found.None? ==> forall i :: 0 <= i < |users| ==> !Candidate(users[i], skip)
    requires found.Some? ==> IsBest(users, hint, skip, found.value)
    ensures Best(users, hint, skip) == found
  {
    if found.Some? {
      BestIsUnique(users, hint, skip, found.value, Best(users, hint, skip).value);
    }
  }

  /** What is chosen and the skip list afterwards. */
  ghost function Choice(users: seq<OnlineUser>, hint: string, skip: set<string>, reached: bool)
    : (Option<nat>, set<string>)
  {
    var best := Best(users, hint, skip);
    if best.Some? then (best, skip)
    else if AnyViable(users) && reached then (Best(users, hint, {}), {})
    else (None, skip)
  }

  /** Only viable identities are chosen, the best-scored one outside the list; a listed hub is
      chosen only for a peer that answered before, when all its hubs are listed, and the list is
      empty then. Nothing is chosen exactly when nothing is viable or a peer that never answered
      has no hub left. */
  lemma ChoiceRules(users: seq<OnlineUser>, hint: string, skip: set<string>, reached: bool)
    ensures var (best, skip') := Choice(users, hint, skip, reached);
            && (best.None? <==> !AnyViable(users) || (!reached && AllViableListed(users, skip)))
            && (best.Some? ==> IsBest(users, hint, skip', best.value))
            && (best.Some? && Listed(users[best.value], skip) ==>
                  reached && AllViableListed(users, skip) && skip' == {})
            && (skip' == skip || (skip' == {} && AllViableListed(users, skip)))
  {
    PickExists(users, hint, skip, |users|);
    PickExists(users, hint, {}, |users|);
  }

  /** Of the candidates that are left the chosen one is on a hub that lets us connect if any is, then not on one where
      connecting failed if any candidate is on one where it succeeded, and none is better in all respects. */
  lemma ChoicePrefers(users: seq<OnlineUser>, hint: string, skip: set<string>, reached: bool, i: nat)
    requires i < |users| && Choice(users, hint, skip, reached).0.Some?
    requires Candidate(users[i], Choice(users, hint, skip, reached).1)
    ensures var b := Choice(users, hint, skip, reached).0.value;
            && b < |users| && (users[i].allowHubConnect ==> users[b].allowHubConnect)
            && (users[i].allowHubConnect == users[b].allowHubConnect && users[i].outcome == SUCCESS ==>
                  users[b].outcome != FAILURE)
            && !Better(users[i], users[b], hint)
  {
    ChoiceRules(users, hint, skip, reached);
    var (best, skip') := Choice(users, hint, skip, reached);
    var b := best.value;
    if users[i].allowHubConnect {
      AllowedFirst(users, hint, skip', b, i);
    }
    if users[i].allowHubConnect == users[b].allowHubConnect && users[i].outcome == SUCCESS {
      FailedLast(users, hint, skip', b, i);
    }
    NoneBetter(users, hint, skip', b, i);
  }

  /** A highest score among candidates exists as soon as there is one. */
  lemma {:induction false} PickExists(users: seq<OnlineUser>, hint: string, skip: set<string>, n: nat)
    requires n <= |users|
    ensures (exists i :: 0 <= i < n && Candidate(users[i], skip))
            ==> exists b: nat :: b < n && IsBest(users[..n], hint, skip, b)
    ensures n == |users| && (exists i :: 0 <= i < n && Candidate(users[i], skip)) ==> Best(users, hint, skip).Some?
    decreases n
  {
    if n > 0 {
      PickExists(users, hint, skip, n - 1);
      var front, all := users[..n - 1], users[..n];
      if exists b: nat :: b < n - 1 && IsBest(front, hint, skip, b) {
        var b: nat :| b < n - 1 && IsBest(front, hint, skip, b);
        var better := Candidate(users[n - 1], skip) && Score(users[n - 1], hint) > Score(users[b], hint);
        var c := if better then n - 1 else b;
        assert forall i :: 0 <= i < n - 1 ==> front[i] == all[i];
        assert IsBest(all, hint, skip, c);
      } else if Candidate(users[n - 1], skip) {
        assert forall i :: 0 <= i < n - 1 ==> !Candidate(users[i], skip);
        assert IsBest(all, hint, skip, n - 1);
      }
      if n == |users| {
        assert all == users;
      }
    }
  }

  function ViableHubs(users: seq<OnlineUser>): set<string> {
    set i | 0 <= i < |users| && users[i].viable :: users[i].hub
  }

  // ----- a peer that never answers -----

  /** What is online at an attempt, and the queue item's hint. */
  datatype Round = Round(users: seq<OnlineUser>, hint: string)

  /** The list after an attempt through the chosen hub, which times out. */
  ghost function TimedOutRound(skip: set<string>, r: Round): set<string> {
    var best := Choice(r.users, r.hint, skip, false).0;
    if best.None? || r.users[best.value].hub == "" then skip else skip + {r.users[best.value].hub}
  }

  ghost function Rounds(rounds: seq<Round>): set<string> {
    if rounds == [] then {} else TimedOutRound(Rounds(rounds[..|rounds| - 1]), rounds[|rounds| - 1])
  }

  /** The rounds in which something was chosen, and timed out. */
  ghost function Timeouts(rounds: seq<Round>): nat {
    if rounds == [] then 0
    else
      var n := |rounds| - 1;
      var best := Choice(rounds[n].users, rounds[n].hint, Rounds(rounds[..n]), false).0;
      Timeouts(rounds[..n]) + if best.Some? then 1 else 0
  }

  lemma RoundAdds(skip: set<string>, r: Round, hubs: set<string>)
    requires skip <= hubs && ViableHubs(r.users) <= hubs && "" !in ViableHubs(r.users)
    ensures var t, best := TimedOutRound(skip, r), Choice(r.users, r.hint, skip, false).0;
            t <= hubs && |t| == |skip| + if best.Some? then 1 else 0
  {
    ChoiceRules(r.users, r.hint, skip, false);
    var best := Choice(r.users, r.hint, skip, false).0;
    if best.Some? {
      assert r.users[best.value].hub in ViableHubs(r.users);
    }
  }

  lemma {:induction false} TimeoutsAreListed(rounds: seq<Round>, hubs: set<string>)
    requires forall r :: r in rounds ==> ViableHubs(r.users) <= hubs && "" !in ViableHubs(r.users)
    ensures Rounds(rounds) <= hubs && |Rounds(rounds)| == Timeouts(rounds)
  {
    if rounds != [] {
      var n := |rounds| - 1;
      assert rounds[n] in rounds;
      assert forall r :: r in rounds[..n] ==> r in rounds;
      TimeoutsAreListed(rounds[..n], hubs);
      RoundAdds(Rounds(rounds[..n]), rounds[n], hubs);
    }
  }

  /** However users, hints and remembered outcomes change from round to round: a peer that never answers has at most as
      many timeouts as there are hubs on which it is ever seen. */
  lemma TimeoutsBounded(rounds: seq<Round>, hubs: set<string>)
    requires forall r :: r in rounds ==> ViableHubs(r.users) <= hubs && "" !in ViableHubs(r.users)
    ensures Timeouts(rounds) <= |hubs|
  {
    TimeoutsAreListed(rounds, hubs);
    Included(Rounds(rounds), hubs);
  }

  ghost function HubsLeft(skip: set<string>, hubs: set<string>): nat {
    |hubs - skip|
  }

  lemma OneHubFewer(skip: set<string>, r: Round, hubs: set<string>)
    requires ViableHubs(r.users) == hubs && "" !in hubs
    ensures HubsLeft(TimedOutRound(skip, r), hubs) <= if HubsLeft(skip, hubs) == 0 then 0 else HubsLeft(skip, hubs) - 1
  {
    var left := hubs - skip;
    ChoiceRules(r.users, r.hint, skip, false);
    var best := Choice(r.users, r.hint, skip, false).0;
    if best.Some? {
      var hub := r.users[best.value].hub;
      assert hub in left;
      assert hubs - TimedOutRound(skip, r) == left - {hub};
    } else {
      forall h | h in hubs ensures h in skip {
        var i :| 0 <= i < |r.users| && r.users[i].viable && r.users[i].hub == h;
        assert AnyViable(r.users) && Listed(r.users[i], skip);
      }
      assert left == {};
    }
  }

  lemma {:induction false} HubsShrink(rounds: seq<Round>, hubs: set<string>, skip: set<string>)
    requires "" !in hubs && (forall r :: r in rounds ==> ViableHubs(r.users) == hubs) && skip == Rounds(rounds)
    ensures HubsLeft(skip, hubs) <= if |rounds| <= |hubs| then |hubs| - |rounds| else 0
    decreases |rounds|
  {
    if rounds == [] {
      assert hubs - {} == hubs;
    } else {
      var n: nat := |rounds| - 1;
      var front, last := rounds[..n], rounds[n];
      var before := Rounds(front);
      assert last in rounds && skip == TimedOutRound(before, last);
      assert forall r :: r in front ==> r in rounds;
      HubsShrink(front, hubs, before);
      OneHubFewer(before, last, hubs);
    }
  }

  lemma NoneLeft(users: seq<OnlineUser>, hint: string, hubs: set<string>, skip: set<string>)
    requires "" !in hubs && ViableHubs(users) == hubs && hubs <= skip
    ensures AllViableListed(users, skip) && Choice(users, hint, skip, false).0.None?
  {
    assert forall i :: 0 <= i < |users| && users[i].viable ==> users[i].hub in ViableHubs(users);
    ChoiceRules(users, hint, skip, false);
  }

  /** A peer that never answers and is seen on the same hubs all the time runs out of them after as many rounds, however
      users, hints and remembered outcomes change: from then on nothing is chosen for it. */
  lemma HubsRunOut(rounds: seq<Round>, hubs: set<string>, r: Round, skip: set<string>)
    requires "" !in hubs && (forall q :: q in rounds ==> ViableHubs(q.users) == hubs) && |rounds| >= |hubs|
    requires ViableHubs(r.users) == hubs && skip == Rounds(rounds)
    ensures AllViableListed(r.users, skip) && Choice(r.users, r.hint, skip, false).0.None?
  {
    HubsShrink(rounds, hubs, skip);
    assert hubs - skip == {};
    assert forall h :: h in hubs ==> h in skip || h in hubs - skip;
    NoneLeft(r.users, r.hint, hubs, skip);
  }

  /** The one chosen stays the best when its hub becomes the hint. */
  lemma HintKeepsBest(users: seq<OnlineUser>, hint: string, skip: set<string>, b: nat)
    requires IsBest(users, hint, skip, b)
    ensures IsBest(users, users[b].hub, skip, b)
  {
  }

  // ----- runs of the shared lists, with all peers, in any order of events -----

  /** An attempt goes out through the chosen hub, and may time out some time later; in between the peer may answer, and
      anything may happen to this and to all other peers. */
  datatype PeerEvent =
    | Attempted(cid: Cid, users: seq<OnlineUser>, hint: string, priv: bool)
    | TimedOut(cid: Cid)
    | Answered(cid: Cid)
    | Associated(cid: Cid)
    | GivenUp(cid: Cid)
    | SessionEnded(cid: Cid)

  /** The lists, the peers that answered, and the hubs of the latest attempts that have not timed out. */
  datatype Lists = Lists(timeouts: map<Cid, set<string>>, reached: set<Cid>, running: map<Cid, string>)

  function SkipIn(s: Lists, cid: Cid): set<string> {
    if cid in s.timeouts then s.timeouts[cid] else {}
  }

  ghost predicate OtherListsKept(cid: Cid, s: Lists, t: Lists) {
    forall c :: c != cid ==> SkipIn(t, c) == SkipIn(s, c)
  }

  ghost predicate AttemptEffect(e: PeerEvent, s: Lists, t: Lists)
    requires e.Attempted?
  {
    var (best, skip) := Choice(e.users, e.hint, SkipIn(s, e.cid), e.cid in s.reached);
    && SkipIn(t, e.cid) == skip && OtherListsKept(e.cid, s, t) && t.reached == s.reached
    && t.running == if best.None? then s.running else s.running[e.cid := e.users[best.value].hub]
  }

  /** The hub of the attempt is listed. A full table may lose another peer's list. */
  ghost predicate TimeoutEffect(cid: Cid, s: Lists, t: Lists) {
    if cid !in s.running then t == s
    else
      && SkipIn(t, cid) == (if s.running[cid] == "" then SkipIn(s, cid) else SkipIn(s, cid) + {s.running[cid]})
      && (OtherListsKept(cid, s, t)
          || (|s.timeouts| >= MAX_SKIP_USERS
              && forall c :: c != cid ==> SkipIn(t, c) == SkipIn(s, c) || SkipIn(t, c) == {}))
      && t.reached == s.reached && t.running == s.running - {cid}
  }

  ghost predicate Effect(e: PeerEvent, s: Lists, t: Lists) {
    match e
    case Attempted(_, _, _, _) => AttemptEffect(e, s, t)
    case TimedOut(cid) => TimeoutEffect(cid, s, t)
    case Answered(cid) =>
      t.timeouts == s.timeouts && cid in t.reached && t.reached <= s.reached + {cid} && t.running == s.running
    case Associated(cid) =>
      SkipIn(t, cid) == {} && OtherListsKept(cid, s, t) && t.reached == s.reached && t.running == s.running
    case _ =>
      && SkipIn(t, e.cid) == {} && OtherListsKept(e.cid, s, t) && e.cid !in t.reached
      && (forall c :: c != e.cid ==> (c in t.reached <==> c in s.reached)) && t.running == s.running
  }

  /** The lists before the first event and after each. */
  ghost predicate Trace(events: seq<PeerEvent>, trace: seq<Lists>) {
    && |trace| == |events| + 1 && trace[0] == Lists(map[], {}, map[])
    && forall k :: 0 <= k < |events| ==> Effect(events[k], trace[k], trace[k + 1])
  }

  method Attempt(hubs: PeerConnectHub, e: PeerEvent, running: map<Cid, string>) returns (running': map<Cid, string>)
    requires e.Attempted?
    modifies hubs
    ensures AttemptEffect(e, Lists(old(hubs.timeoutHubs), old(hubs.reachedPeers), running),
                          Lists(hubs.timeoutHubs, hubs.reachedPeers, running'))
  {
    ghost var s := Lists(hubs.timeoutHubs, hubs.reachedPeers, running);
    var best := hubs.FindBestOnlineUser(e.cid, e.users, e.hint, e.priv);
    running' := if best.None? then running else running[e.cid := e.users[best.value].hub];
    ghost var t := Lists(hubs.timeoutHubs, hubs.reachedPeers, running');
    assert forall c :: SkipIn(t, c) == hubs.Skip(c);
  }

  method TimeOut(hubs: PeerConnectHub, cid: Cid, running: map<Cid, string>) returns (running': map<Cid, string>)
    modifies hubs
    ensures TimeoutEffect(cid, Lists(old(hubs.timeoutHubs), old(hubs.reachedPeers), running),
                          Lists(hubs.timeoutHubs, hubs.reachedPeers, running'))
  {
    running' := running - {cid};
    if cid in running {
      hubs.NoteConnectTimeout(cid, running[cid]);
    }
    ghost var t := Lists(hubs.timeoutHubs, hubs.reachedPeers, running');
    assert forall c :: SkipIn(t, c) == hubs.Skip(c);
  }

  /** Any other event: it empties the peer's list or leaves it alone. */
  method Other(hubs: PeerConnectHub, e: PeerEvent, ghost running: map<Cid, string>)
    requires !e.Attempted? && !e.TimedOut?
    modifies hubs
    ensures Effect(e, Lists(old(hubs.timeoutHubs), old(hubs.reachedPeers), running),
            Lists(hubs.timeoutHubs, hubs.reachedPeers, running))
  {
    ghost var s := Lists(hubs.timeoutHubs, hubs.reachedPeers, running);
    assert forall c :: SkipIn(s, c) == hubs.Skip(c);
    match e {
      case Answered(cid) => hubs.NotePeerReached(cid);
      case Associated(cid) => hubs.ClearConnectTimeouts(cid);
      case GivenUp(cid) => hubs.NoteUnreachablePeer(cid);
      case SessionEnded(cid) => hubs.ClearPeerSession(cid);
    }
    ghost var t := Lists(hubs.timeoutHubs, hubs.reachedPeers, running);
    assert forall c :: SkipIn(t, c) == hubs.Skip(c);
  }

  /** Any run over any peers: the trace says what every event did to the lists. */
  method RunPeers(events: seq<PeerEvent>) returns (trace: seq<Lists>)
    ensures Trace(events, trace)
  {
    var hubs := new PeerConnectHub();
    var running: map<Cid, string> := map[];
    trace := [Lists(map[], {}, map[])];
    for k := 0 to |events|
      invariant fresh(hubs) && |trace| == k + 1 && trace[0] == Lists(map[], {}, map[])
      invariant trace[k] == Lists(hubs.timeoutHubs, hubs.reachedPeers, running)
      invariant forall i :: 0 <= i < k ==> Effect(events[i], trace[i], trace[i + 1])
    {
      match events[k] {
        case Attempted(_, _, _, _) => running := Attempt(hubs, events[k], running);
        case TimedOut(cid) => running := TimeOut(hubs, cid, running);
        case _ => Other(hubs, events[k], running);
      }
      trace := trace + [Lists(hubs.timeoutHubs, hubs.reachedPeers, running)];
    }
  }

  /** The hub of an attempt that has not timed out is never on the list, whatever happened since it was chosen. */
  lemma {:induction false} RunningUnlisted(events: seq<PeerEvent>, trace: seq<Lists>, k: nat, cid: Cid)
    requires Trace(events, trace) && k < |trace| && cid in trace[k].running && trace[k].running[cid] != ""
    ensures trace[k].running[cid] !in SkipIn(trace[k], cid)
  {
    if k > 0 {
      var e, s := events[k - 1], trace[k - 1];
      assert Effect(e, s, trace[k]);
      if cid in s.running && s.running[cid] != "" {
        RunningUnlisted(events, trace, k - 1, cid);
      }
      if e.Attempted? {
        ChoiceRules(e.users, e.hint, SkipIn(s, e.cid), e.cid in s.reached);
      }
    }
  }

  predicate EmptyAt(trace: seq<Lists>, cid: Cid, m: nat) {
    m < |trace| && SkipIn(trace[m], cid) == {}
  }

  /** In event i an attempt for the peer through the hub times out, and its list has not been empty since, up to event
      k. */
  ghost predicate ListedAt(events: seq<PeerEvent>, trace: seq<Lists>, cid: Cid, hub: string, i: nat, k: nat) {
    && i < k < |trace| == |events| + 1
    && events[i] == TimedOut(cid) && cid in trace[i].running && trace[i].running[cid] == hub
    && forall m: nat :: i < m <= k ==> !EmptyAt(trace, cid, m)
  }

  lemma ListStep(e: PeerEvent, s: Lists, t: Lists, cid: Cid, hub: string)
    requires Effect(e, s, t) && hub != ""
    ensures SkipIn(t, cid) == {} || (hub in SkipIn(t, cid) <==>
                                       || hub in SkipIn(s, cid)
                                       || (e == TimedOut(cid) && cid in s.running && s.running[cid] == hub))
  {
    if e.Attempted? && e.cid == cid {
      ChoiceRules(e.users, e.hint, SkipIn(s, cid), cid in s.reached);
    }
  }

  /** A list holds exactly the hubs whose attempts timed out for the peer since it was last empty. */
  lemma {:induction false} ListIsTimeouts(events: seq<PeerEvent>, trace: seq<Lists>, k: nat, cid: Cid, hub: string)
    requires Trace(events, trace) && k < |trace| && hub != ""
    ensures hub in SkipIn(trace[k], cid) <==> exists i: nat :: ListedAt(events, trace, cid, hub, i, k)
  {
    if k > 0 {
      var n: nat := k - 1;
      ListIsTimeouts(events, trace, n, cid, hub);
      ListStep(events[n], trace[n], trace[k], cid, hub);
      ListedMore(events, trace, cid, hub, n, k);
    }
  }

  lemma ListedMore(events: seq<PeerEvent>, trace: seq<Lists>, cid: Cid, hub: string, n: nat, k: nat)
    requires k == n + 1 < |trace| == |events| + 1
    ensures (exists i: nat :: ListedAt(events, trace, cid, hub, i, k)) <==>
              && SkipIn(trace[k], cid) != {}
              && ((events[n] == TimedOut(cid) && cid in trace[n].running && trace[n].running[cid] == hub)
                  || exists i: nat :: ListedAt(events, trace, cid, hub, i, n))
  {
    if i: nat :| ListedAt(events, trace, cid, hub, i, k) {
      assert !EmptyAt(trace, cid, k);
      assert i < n ==> ListedAt(events, trace, cid, hub, i, n);
    }
    if SkipIn(trace[k], cid) != {} {
      if i: nat :| ListedAt(events, trace, cid, hub, i, n) {
        assert ListedAt(events, trace, cid, hub, i, k);
      }
      if events[n] == TimedOut(cid) && cid in trace[n].running && trace[n].running[cid] == hub {
        assert ListedAt(events, trace, cid, hub, n, k);
      }
    }
  }

  /** However hubs come and go and events interleave: between two timeouts of one peer on one hub its list was empty. */
  lemma NoTimedOutHubTwice(events: seq<PeerEvent>, trace: seq<Lists>, i: nat, j: nat, cid: Cid)
    requires Trace(events, trace) && i < j < |events| && events[i] == events[j] == TimedOut(cid)
    requires cid in trace[i].running && cid in trace[j].running && trace[i].running[cid] == trace[j].running[cid] != ""
    ensures exists m: nat :: i < m <= j && EmptyAt(trace, cid, m)
  {
    var hub := trace[j].running[cid];
    RunningUnlisted(events, trace, j, cid);
    ListIsTimeouts(events, trace, j, cid, hub);
    assert !ListedAt(events, trace, cid, hub, i, j);
  }
}
