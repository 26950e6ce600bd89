/** What a receiver makes of a search with extension groups: it puts the lists of the groups and the single extensions
    one behind the other and takes the removals out with an algorithm for sorted lists. */
module SearchReceiver {
  import opened Collections
  import opened SearchLists
  import opened SearchGroups
  import opened SearchRepeats

  /** The lists of the flagged groups below n, later groups first. */
  function Listed(groups: seq<seq<string>>, chosen: set<nat>, n: nat): (r: seq<string>)
    requires n <= |groups|
    ensures forall x :: x in r <==> exists i :: 0 <= i < n && i in chosen && x in groups[i]
  {
    if n == 0 then [] else (if n - 1 in chosen then groups[n - 1] else []) + Listed(groups, chosen, n - 1)
  }

  method ParseSearchExts(groups: seq<seq<string>>, flag: bv8, ghost chosen: set<nat>) returns (ret: seq<string>)
    requires |groups| <= 8 && Flags(flag, chosen)
    ensures ret == Listed(groups, chosen, |groups|)
    ensures forall x :: x in ret <==> InChosen(groups, chosen, x)
  {
    ret := [];
    for i := 0 to |groups|
      invariant ret == Listed(groups, chosen, i)
    {
      if flag & Flag(i) != 0 {
        ret := groups[i] + ret;
      }
    }
  }

  /** What the standard algorithm for the set difference leaves of two lists, sorted or not. */
  function SetDifference(a: seq<string>, b: seq<string>): seq<string> {
    if a == [] || b == [] then a
    else if Below(a[0], b[0]) then [a[0]] + SetDifference(a[1..], b)
    else if Below(b[0], a[0]) then SetDifference(a, b[1..])
    else SetDifference(a[1..], b[1..])
  }

  /** The extensions a receiver goes by. */
  function Received(groups: seq<seq<string>>, g: Grouping): seq<string> {
    SetDifference(Listed(groups, g.chosen, |groups|) + g.exts, g.rx)
  }

  lemma {:induction false} SetDifferenceMembers(a: seq<string>, b: seq<string>, x: string)
    ensures x in a && x !in b ==> x in SetDifference(a, b)
    ensures x in SetDifference(a, b) ==> x in a
    decreases |a| + |b|
  {
    if a == [] || b == [] {
    } else if Below(a[0], b[0]) {
      SetDifferenceMembers(a[1..], b, x);
    } else if Below(b[0], a[0]) {
      SetDifferenceMembers(a, b[1..], x);
    } else {
      BelowTotal(a[0], b[0]);
      SetDifferenceMembers(a[1..], b[1..], x);
    }
  }

  /** A receiver never misses what is asked for, and goes by nothing but that and what should have been removed. */
  lemma ReceiverCovers(groups: seq<seq<string>>, g: Grouping, x: string)
    requires forall y :: y in g.exts ==> y !in g.rx
    ensures Asks(groups, g, x) ==> x in Received(groups, g)
    ensures x in Received(groups, g) ==> Asks(groups, g, x) || x in g.rx
  {
    SetDifferenceMembers(Listed(groups, g.chosen, |groups|) + g.exts, g.rx, x);
  }

  /** So it never misses what is requested and not lost, and goes by nothing but the request and the groups that are
      used. */
  lemma ReceiverWithin(groups: seq<seq<string>>, request: seq<string>)
    requires Regular(groups)
    ensures var received := Received(groups, Grouped(groups, request));
            && (forall x :: x in request && !Lost(groups, request, x) ==> x in received)
            && (forall x :: x in received ==> x in request || InUsed(groups, request, x))
  {
    var g := Grouped(groups, request);
    RepeatsExact(groups, request);
    ChooseSound(groups, request, 0, Grouping({}, Sort(request), []));
    forall x ensures Asks(groups, g, x) ==> x in Received(groups, g)
             ensures x in Received(groups, g) ==> x in request || InUsed(groups, request, x) {
      ReceiverCovers(groups, g, x);
      ChosenIsUsed(groups, request, g.chosen, x);
    }
  }

  /** The removals cut the list into runs, each wholly before the removal that ends it. */
  predicate Cuts(a: seq<string>, b: seq<string>) {
    b == [] || exists n :: 0 <= n < |a| && RunTo(a, n, b[0]) && Cuts(a[n + 1..], b[1..])
  }

  predicate RunTo(a: seq<string>, n: nat, x: string)
    requires n < |a|
  {
    a[n] == x && forall q :: 0 <= q < n ==> Below(a[q], x)
  }

  lemma CutsKeep(a: seq<string>, b: seq<string>)
    requires a != [] && b != [] && Below(a[0], b[0])
    ensures Cuts(a, b) <==> Cuts(a[1..], b)
  {
    BelowIrreflexive(a[0]);
    var t := a[1..];
    if Cuts(a, b) {
      var n :| 0 <= n < |a| && RunTo(a, n, b[0]) && Cuts(a[n + 1..], b[1..]);
      assert a[n + 1..] == t[n..];
      assert forall q :: 0 <= q < n - 1 ==> t[q] == a[q + 1];
      assert RunTo(t, n - 1, b[0]);
    }
    if Cuts(t, b) {
      var n :| 0 <= n < |t| && RunTo(t, n, b[0]) && Cuts(t[n + 1..], b[1..]);
      assert a[n + 2..] == t[n + 1..];
      assert forall q :: 0 < q < n + 1 ==> a[q] == t[q - 1];
      assert RunTo(a, n + 1, b[0]);
    }
  }

  lemma CutsTake(a: seq<string>, b: seq<string>)
    requires a != [] && b != [] && a[0] == b[0] && NoDup(a)
    ensures Cuts(a, b) <==> Cuts(a[1..], b[1..])
  {
    assert RunTo(a, 0, b[0]);
  }

  lemma CutsNot(a: seq<string>, b: seq<string>)
    requires a != [] && b != [] && Below(b[0], a[0])
    ensures !Cuts(a, b)
  {
    forall n | 0 <= n < |a| ensures !RunTo(a, n, b[0]) {
      BelowIrreflexive(b[0]);
      if n > 0 && Below(a[0], b[0]) {
        BelowTransitive(b[0], a[0], b[0]);
      }
    }
  }

  lemma {:induction false} CutsInside(a: seq<string>, b: seq<string>)
    requires Cuts(a, b)
    ensures forall x :: x in b ==> x in a
    decreases |b|
  {
    if b != [] {
      var n :| 0 <= n < |a| && RunTo(a, n, b[0]) && Cuts(a[n + 1..], b[1..]);
      CutsInside(a[n + 1..], b[1..]);
      forall x | x in b ensures x in a {
        assert x == b[0] || x in b[1..];
      }
    }
  }

  lemma TailTwice(a: seq<string>)
    requires NoDup(a) && a != []
    ensures NoDup(a[1..]) && a[0] !in a[1..]
  {
  }

  /** All removals take effect exactly if they cut the list into such runs. */
  lemma {:induction false} RemovedIsCut(a: seq<string>, b: seq<string>)
    requires NoDup(a) && NoDup(b) && forall x :: x in b ==> x in a
    ensures (forall x :: x in b ==> x !in SetDifference(a, b)) <==> Cuts(a, b)
    decreases |a| + |b|
  {
    if b != [] {
      assert b[0] in b;
      TailTwice(a);
      TailTwice(b);
      if Below(a[0], b[0]) {
        CutsKeep(a, b);
        assert SetDifference(a, b) == [a[0]] + SetDifference(a[1..], b);
        if a[0] in b {
          assert a[0] in SetDifference(a, b);
          if Cuts(a[1..], b) {
            CutsInside(a[1..], b);
          }
        } else {
          RemovedIsCut(a[1..], b);
        }
      } else if Below(b[0], a[0]) {
        CutsNot(a, b);
        SetDifferenceMembers(a, b[1..], b[0]);
      } else {
        BelowTotal(a[0], b[0]);
        CutsTake(a, b);
        SetDifferenceMembers(a[1..], b[1..], a[0]);
        forall x | x in b[1..] ensures x in a[1..] {
          assert x in b && x != b[0];
        }
        RemovedIsCut(a[1..], b[1..]);
      }
    }
  }

  // ----- nothing twice -----

  lemma {:induction false} ListedOnce(groups: seq<seq<string>>, chosen: set<nat>, n: nat)
    requires n <= |groups| && AllAscending(groups) && Disjoint(groups)
    ensures NoDup(Listed(groups, chosen, n))
  {
    if n > 0 {
      ListedOnce(groups, chosen, n - 1);
      if n - 1 in chosen {
        AscendingOnce(groups[n - 1]);
        JoinedOnce(groups[n - 1], Listed(groups, chosen, n - 1));
      }
    }
  }

  lemma {:induction false} RemovedOnce(groups: seq<seq<string>>, request: seq<string>, n: nat)
    requires n <= |groups| && Regular(groups) && NoDup(request)
    ensures NoDup(Reference(groups, request, n).rx)
  {
    if n > 0 {
      var def := groups[n - 1];
      RemovedOnce(groups, request, n - 1);
      ReferenceSorted(groups, request, n - 1, Reference(groups, request, n - 1));
      WithoutAscends(def, request);
      AscendingOnce(Without(def, request));
      JoinedOnce(Without(def, request), Reference(groups, request, n - 1).rx);
    }
  }

  /** The list a receiver starts from and the removals: nothing twice, and nothing requested among the removals. */
  lemma GroupedOnce(groups: seq<seq<string>>, request: seq<string>)
    requires Regular(groups) && NoDup(request)
    ensures var g := Grouped(groups, request);
            && NoDup(Listed(groups, g.chosen, |groups|) + g.exts) && NoDup(g.rx)
            && (forall x :: x in g.rx ==> x in Listed(groups, g.chosen, |groups|) && x !in request)
            && (forall x :: x in g.exts ==> x in request)
  {
    var g := Grouped(groups, request);
    GroupedExactly(groups, request);
    RemovedOnce(groups, request, |groups|);
    QueryPreserved(groups, request);
    QueryIsRequest(groups, request);
    ListedOnce(groups, g.chosen, |groups|);
    AscendingOnce(g.exts);
    ReferenceSorted(groups, request, |groups|, Reference(groups, request, |groups|));
    JoinedOnce(Listed(groups, g.chosen, |groups|), g.exts);
    forall x | x in g.rx ensures x !in request {
      assert Asks(groups, g, x) <==> x in request;
    }
  }

  lemma SameMembers(received: seq<string>, request: seq<string>, rx: seq<string>)
    requires forall x :: x in rx ==> x !in request
    requires forall x :: x in request ==> x in received
    requires forall x :: x in received ==> x in request || x in rx
    ensures (forall x :: x in received <==> x in request) <==> forall x :: x in rx ==> x !in received
  {
  }

  lemma ReceivedBounds(groups: seq<seq<string>>, request: seq<string>)
    requires Regular(groups) && NoDup(request)
    ensures var g := Grouped(groups, request);
            && (forall x :: x in request ==> x in Received(groups, g))
            && (forall x :: x in Received(groups, g) ==> x in request || x in g.rx)
  {
    var g := Grouped(groups, request);
    GroupedOnce(groups, request);
    QueryPreserved(groups, request);
    forall x ensures (x in request ==> x in Received(groups, g))
        && (x in Received(groups, g) ==> x in request || x in g.rx) {
      ReceiverCovers(groups, g, x);
      assert Asks(groups, g, x) <==> x in request;
    }
  }

  // ----- when every removal takes effect -----

  predicate AllBelow(s: seq<string>, x: string) {
    forall y :: y in s ==> Below(y, x)
  }

  /** The first removal is in front of rest; the list up to it must be below it. */
  lemma CutsAt(front: seq<string>, x: string, rest: seq<string>, b: seq<string>)
    requires x !in front
    ensures Cuts(front + ([x] + rest), [x] + b) <==> AllBelow(front, x) && Cuts(rest, b)
  {
    var a, n := front + ([x] + rest), |front|;
    assert a[n] == x && a[n + 1..] == rest && ([x] + b)[1..] == b;
    assert forall q :: 0 <= q < n ==> a[q] in front;
    if AllBelow(front, x) {
      assert RunTo(a, n, x);
    }
    if Cuts(a, [x] + b) {
      var m :| 0 <= m < |a| && RunTo(a, m, x) && Cuts(a[m + 1..], b);
      BelowIrreflexive(x);
      forall y | y in front ensures Below(y, x) {
        var q :| 0 <= q < n && front[q] == y;
        assert a[q] == y;
      }
    }
  }

  /** What stays in the list up to the next removal has been requested. */
  predicate AllRequested(s: seq<string>, request: seq<string>) {
    forall y :: y in s ==> y in request
  }

  /** What is left of a group behind its last extension that is missing from the request. */
  function Rest(def: seq<string>, request: seq<string>): seq<string> {
    if def == [] || Without(def, request) == [] then def else Rest(def[1..], request)
  }

  /** It is the end of the group. */
  lemma {:induction false} RestIsEnd(def: seq<string>, request: seq<string>) returns (k: nat)
    ensures k <= |def| && Rest(def, request) == def[k..]
  {
    if def == [] || Without(def, request) == [] {
      k := 0;
    } else {
      var m := RestIsEnd(def[1..], request);
      assert def[1..][m..] == def[m + 1..];
      k := m + 1;
    }
  }

  /** Nothing is left exactly if the last extension is missing. */
  lemma {:induction false} RestWithLast(def: seq<string>, request: seq<string>, rest: seq<string>, last: string)
    requires def != [] && rest == Rest(def, request) && last == def[|def| - 1]
    ensures last in request <==> rest != []
  {
    if Without(def, request) == [] {
      LastRequested(def, request);
    } else if |def| == 1 {
      OneMissing(def, request, last);
    } else {
      LastOfTail(def);
      RestWithLast(def[1..], request, rest, last);
    }
  }

  lemma LastOfTail(def: seq<string>)
    requires |def| > 1
    ensures def[1..] != [] && def[1..][|def[1..]| - 1] == def[|def| - 1]
  {
  }

  lemma OneMissing(def: seq<string>, request: seq<string>, last: string)
    requires def == [last] && Without(def, request) != []
    ensures last !in request && Rest(def, request) == []
  {
    assert Without(def, request)[0] in Without(def, request);
    assert Rest(def, request) == Rest(def[1..], request) == [];
  }

  lemma AllBelowMore(front: seq<string>, x: string, y: string)
    requires Below(x, y)
    ensures AllBelow(front + [x], y) <==> AllBelow(front, y)
  {
  }

  lemma MissingBehindFirst(def: seq<string>, request: seq<string>)
    requires Ascending(def) && Without(def, request) != [] && def[0] in request
    ensures Without(def[1..], request) == Without(def, request) && Rest(def, request) == Rest(def[1..], request)
    ensures Below(def[0], Without(def, request)[0])
  {
    var missing := Without(def, request);
    assert missing == [] + Without(def[1..], request);
    assert missing[0] in missing;
    assert missing[0] in def[1..];
    FirstBelowLater(def, missing[0]);
  }

  lemma FirstToFront(front: seq<string>, def: seq<string>, rest: seq<string>)
    requires def != []
    ensures front + (def + rest) == (front + [def[0]]) + (def[1..] + rest)
  {
  }

  lemma CutsFirst(front: seq<string>, def: seq<string>, rest: seq<string>, request: seq<string>, b: seq<string>)
    requires AllRequested(front, request) && def != [] && def[0] !in request
    ensures Without(def, request) == [def[0]] + Without(def[1..], request)
    ensures Cuts(front + (def + rest), Without(def, request) + b)
       <==> AllBelow(front, def[0]) && Cuts(def[1..] + rest, Without(def[1..], request) + b)
  {
    var x, more, behind := def[0], def[1..], Without(def[1..], request);
    assert def + rest == [x] + (more + rest);
    assert Without(def, request) + b == [x] + (behind + b);
    CutsAt(front, x, more + rest, behind + b);
  }

  /** A group with missing extensions in front of the list: what was there before must be below the first of them, and
      what is left of the group is in front from then on. */
  lemma {:induction false} CutsGroup(front: seq<string>, def: seq<string>, rest: seq<string>, request: seq<string>,
                                     b: seq<string>)
    requires AllRequested(front, request) && Ascending(def) && Without(def, request) != []
    ensures Cuts(front + (def + rest), Without(def, request) + b)
       <==> AllBelow(front, Without(def, request)[0]) && Cuts(Rest(def, request) + rest, b)
    decreases |def|
  {
    HeadOnce(def);
    if def[0] in request {
      MissingBehindFirst(def, request);
      FirstToFront(front, def, rest);
      AllBelowMore(front, def[0], Without(def, request)[0]);
      CutsGroup(front + [def[0]], def[1..], rest, request, b);
    } else {
      CutsFirst(front, def, rest, request, b);
      if Without(def[1..], request) == [] {
        assert [] + b == b;
      } else {
        assert [] + (def[1..] + rest) == def[1..] + rest;
        CutsGroup([], def[1..], rest, request, b);
      }
    }
  }

  lemma FirstBelowLater(def: seq<string>, y: string)
    requires Ascending(def) && def != [] && y in def[1..]
    ensures Below(def[0], y)
  {
    var k :| 0 <= k < |def[1..]| && def[1..][k] == y;
    assert def[k + 1] == y;
  }

  /** The first group below n, in the order of the receiver's list, that something is taken out of. */
  predicate FirstRemoved(groups: seq<seq<string>>, request: seq<string>, i: nat, n: nat)
    requires i < n <= |groups|
  {
    && Nearly(groups[i], request) && Without(groups[i], request) != []
    && forall k :: i < k < n && Nearly(groups[k], request) ==> Without(groups[k], request) == []
  }

  /** Group j is used, and its last extension stays in the receiver's list in front of the next removal without being
      below it: the removal, which is from group i, is passed over. */
  predicate PassedOver(groups: seq<seq<string>>, request: seq<string>, i: nat, j: nat)
    requires i < j < |groups|
  {
    && groups[j] != [] && Nearly(groups[j], request) && FirstRemoved(groups, request, i, j)
    && var last := groups[j][|groups[j]| - 1];
       last in request && !Below(last, Without(groups[i], request)[0])
  }

  /** Nothing of group j makes a removal be passed over. */
  ghost predicate Harmless(groups: seq<seq<string>>, request: seq<string>, j: nat)
    requires j < |groups|
  {
    forall i :: 0 <= i < j ==> !PassedOver(groups, request, i, j)
  }

  ghost predicate NonePassedOver(groups: seq<seq<string>>, request: seq<string>, n: nat)
    requires n <= |groups|
  {
    forall j :: 0 <= j < n ==> Harmless(groups, request, j)
  }

  /** What is in front of the lists of the groups below n is below the first removal from them. */
  ghost predicate FrontBelow(groups: seq<seq<string>>, request: seq<string>, n: nat, front: seq<string>)
    requires n <= |groups|
  {
    forall i :: 0 <= i < n && FirstRemoved(groups, request, i, n) ==> AllBelow(front, Without(groups[i], request)[0])
  }

  lemma AllBelowLast(s: seq<string>, x: string)
    requires Ascending(s) && s != []
    ensures AllBelow(s, x) <==> Below(s[|s| - 1], x)
  {
    var last := s[|s| - 1];
    assert last in s;
    if Below(last, x) {
      forall y | y in s ensures Below(y, x) {
        var k :| 0 <= k < |s| && s[k] == y;
        if k < |s| - 1 {
          BelowTransitive(s[k], last, x);
        }
      }
    }
  }

  lemma AllBelowBoth(a: seq<string>, b: seq<string>, x: string)
    ensures AllBelow(a + b, x) <==> AllBelow(a, x) && AllBelow(b, x)
  {
  }

  lemma EndAscends(def: seq<string>, k: nat)
    requires Ascending(def) && k < |def|
    ensures Ascending(def[k..]) && def[k..] != [] && def[k..][|def[k..]| - 1] == def[|def| - 1]
  {
  }

  lemma RestBelow(def: seq<string>, request: seq<string>, x: string, rest: seq<string>, last: string)
    requires Ascending(def) && def != [] && rest == Rest(def, request) && last == def[|def| - 1]
    ensures AllBelow(rest, x) <==> last !in request || Below(last, x)
  {
    RestWithLast(def, request, rest, last);
    var k := RestIsEnd(def, request);
    EndBelow(def, k, rest, x, last);
  }

  lemma EndBelow(def: seq<string>, k: nat, rest: seq<string>, x: string, last: string)
    requires Ascending(def) && k <= |def| && def != [] && rest == def[k..] && last == def[|def| - 1]
    ensures AllBelow(rest, x) <==> rest == [] || Below(last, x)
  {
    if k < |def| {
      EndAscends(def, k);
      AllBelowLast(rest, x);
    }
  }

  lemma NonePassedOverStep(groups: seq<seq<string>>, request: seq<string>, n: nat)
    requires n < |groups|
    ensures NonePassedOver(groups, request, n + 1)
       <==> NonePassedOver(groups, request, n) && Harmless(groups, request, n)
  {
  }

  lemma FrontBelowStep(groups: seq<seq<string>>, request: seq<string>, n: nat, front: seq<string>)
    requires n < |groups| && (Nearly(groups[n], request) ==> Without(groups[n], request) == [])
    ensures FrontBelow(groups, request, n + 1, front) <==> FrontBelow(groups, request, n, front)
  {
    assert !FirstRemoved(groups, request, n, n + 1);
    assert forall i :: 0 <= i < n ==> (FirstRemoved(groups, request, i, n + 1)
           <==> FirstRemoved(groups, request, i, n));
  }

  /** A group that is not used changes nothing. */
  lemma NotUsed(groups: seq<seq<string>>, request: seq<string>, n: nat, front: seq<string>)
    requires n < |groups| && !Nearly(groups[n], request)
    ensures FrontBelow(groups, request, n + 1, front) <==> FrontBelow(groups, request, n, front)
    ensures NonePassedOver(groups, request, n + 1) <==> NonePassedOver(groups, request, n)
  {
    FrontBelowStep(groups, request, n, front);
    NonePassedOverStep(groups, request, n);
    assert Harmless(groups, request, n);
  }

  lemma LastRequested(def: seq<string>, request: seq<string>)
    requires def != [] && Without(def, request) == []
    ensures def[|def| - 1] in request
  {
    assert def[|def| - 1] in def && def[|def| - 1] !in Without(def, request);
  }

  lemma UsedWholeAt(groups: seq<seq<string>>, request: seq<string>, n: nat, front: seq<string>, i: nat)
    requires i < n < |groups| && groups[n] != [] && Ascending(groups[n])
    requires Nearly(groups[n], request) && Without(groups[n], request) == [] && FirstRemoved(groups, request, i, n)
    ensures AllBelow(front + groups[n], Without(groups[i], request)[0])
       <==> AllBelow(front, Without(groups[i], request)[0]) && !PassedOver(groups, request, i, n)
  {
    LastRequested(groups[n], request);
    AllBelowBoth(front, groups[n], Without(groups[i], request)[0]);
    AllBelowLast(groups[n], Without(groups[i], request)[0]);
  }

  lemma JoinsFront(groups: seq<seq<string>>, request: seq<string>, n: nat, front: seq<string>)
    requires n < |groups| && groups[n] != [] && Ascending(groups[n])
    requires Nearly(groups[n], request) && Without(groups[n], request) == []
    ensures FrontBelow(groups, request, n, front + groups[n])
       <==> FrontBelow(groups, request, n, front) && Harmless(groups, request, n)
  {
    forall i | 0 <= i < n && FirstRemoved(groups, request, i, n)
      ensures AllBelow(front + groups[n], Without(groups[i], request)[0])
         <==> AllBelow(front, Without(groups[i], request)[0]) && !PassedOver(groups, request, i, n) {
      UsedWholeAt(groups, request, n, front, i);
    }
  }

  /** A group that is used as a whole joins the front. */
  lemma UsedWhole(groups: seq<seq<string>>, request: seq<string>, n: nat, front: seq<string>)
    requires n < |groups| && groups[n] != [] && Ascending(groups[n])
    requires Nearly(groups[n], request) && Without(groups[n], request) == []
    ensures FrontBelow(groups, request, n + 1, front) && NonePassedOver(groups, request, n + 1)
       <==> FrontBelow(groups, request, n, front + groups[n]) && NonePassedOver(groups, request, n)
  {
    FrontBelowStep(groups, request, n, front);
    NonePassedOverStep(groups, request, n);
    JoinsFront(groups, request, n, front);
  }

  lemma IsFront(groups: seq<seq<string>>, request: seq<string>, n: nat)
    requires n < |groups| && groups[n] != [] && Ascending(groups[n]) && Nearly(groups[n], request)
    ensures FrontBelow(groups, request, n, Rest(groups[n], request)) <==> Harmless(groups, request, n)
  {
    forall i | 0 <= i < n && FirstRemoved(groups, request, i, n)
      ensures AllBelow(Rest(groups[n], request), Without(groups[i], request)[0])
              <==> !PassedOver(groups, request, i, n) {
      var def := groups[n];
      RestBelow(def, request, Without(groups[i], request)[0], Rest(def, request), def[|def| - 1]);
    }
  }

  lemma NewFirst(groups: seq<seq<string>>, request: seq<string>, n: nat, front: seq<string>)
    requires n < |groups| && Nearly(groups[n], request) && Without(groups[n], request) != []
    ensures FrontBelow(groups, request, n + 1, front) <==> AllBelow(front, Without(groups[n], request)[0])
  {
    var m := n + 1;
    assert FirstRemoved(groups, request, n, m);
    assert forall i :: 0 <= i < n ==> !FirstRemoved(groups, request, i, m);
  }

  /** A group that is used up to some extensions: what is left of it is the front from then on. */
  lemma UsedInPart(groups: seq<seq<string>>, request: seq<string>, n: nat, front: seq<string>)
    requires n < |groups| && groups[n] != [] && Ascending(groups[n])
    requires Nearly(groups[n], request) && Without(groups[n], request) != []
    ensures FrontBelow(groups, request, n + 1, front) && NonePassedOver(groups, request, n + 1)
       <==> && AllBelow(front, Without(groups[n], request)[0])
            && FrontBelow(groups, request, n, Rest(groups[n], request)) && NonePassedOver(groups, request, n)
  {
    NewFirst(groups, request, n, front);
    NonePassedOverStep(groups, request, n);
    IsFront(groups, request, n);
  }

  ghost predicate UsesNearly(groups: seq<seq<string>>, request: seq<string>, chosen: set<nat>) {
    forall k :: 0 <= k < |groups| ==> (k in chosen <==> Nearly(groups[k], request))
  }

  lemma JoinedAssoc(a: seq<string>, b: seq<string>, c: seq<string>, d: seq<string>)
    ensures a + ((b + c) + d) == a + (b + (c + d)) == (a + b) + (c + d)
  {
  }

  lemma {:induction false} RestRequested(def: seq<string>, request: seq<string>)
    ensures AllRequested(Rest(def, request), request)
  {
    if def == [] {
    } else if Without(def, request) == [] {
      forall y | y in def ensures y in request {
        assert y !in Without(def, request);
      }
    } else {
      RestRequested(def[1..], request);
    }
  }

  lemma CutsInPart(front: seq<string>, def: seq<string>, before: seq<string>, exts: seq<string>, request: seq<string>,
                   b: seq<string>)
    requires AllRequested(front, request) && Ascending(def) && Without(def, request) != []
    ensures Cuts(front + ((def + before) + exts), Without(def, request) + b)
       <==> AllBelow(front, Without(def, request)[0]) && Cuts(Rest(def, request) + (before + exts), b)
  {
    JoinedAssoc(front, def, before, exts);
    CutsGroup(front, def, before + exts, request, b);
  }

  lemma ListedStep(groups: seq<seq<string>>, chosen: set<nat>, n: nat)
    requires 0 < n <= |groups|
    ensures Listed(groups, chosen, n) ==
            if n - 1 in chosen then groups[n - 1] + Listed(groups, chosen, n - 1) else Listed(groups, chosen, n - 1)
  {
    assert [] + Listed(groups, chosen, n - 1) == Listed(groups, chosen, n - 1);
  }

  lemma RemovedStep(groups: seq<seq<string>>, request: seq<string>, n: nat)
    requires 0 < n <= |groups|
    ensures var rx, before, missing := Reference(groups, request, n).rx, Reference(groups, request, n - 1).rx,
            Without(groups[n - 1], request);
            rx == if Nearly(groups[n - 1], request) && missing != [] then missing + before else before
  {
    assert [] + Reference(groups, request, n - 1).rx == Reference(groups, request, n - 1).rx;
  }

  ghost predicate Sortable(groups: seq<seq<string>>) {
    forall k :: 0 <= k < |groups| ==> groups[k] != [] && Ascending(groups[k])
  }

  lemma {:induction false} CutsSkip(groups: seq<seq<string>>, request: seq<string>, chosen: set<nat>, n: nat,
                                    cuts: bool, front: seq<string>, exts: seq<string>, list: seq<string>,
                                        rx: seq<string>)
    requires n < |groups| && Sortable(groups) && UsesNearly(groups, request, chosen) && AllRequested(front, request)
    requires !Nearly(groups[n], request)
    requires list == Listed(groups, chosen, n + 1) && rx == Reference(groups, request, n + 1).rx
    requires cuts == Cuts(front + (list + exts), rx)
    ensures cuts <==> FrontBelow(groups, request, n + 1, front) && NonePassedOver(groups, request, n + 1)
    decreases n, 1
  {
    ListedStep(groups, chosen, n + 1);
    RemovedStep(groups, request, n + 1);
    var before, removed := Listed(groups, chosen, n), Reference(groups, request, n).rx;
    NotUsed(groups, request, n, front);
    CutsTable(groups, request, chosen, n, Cuts(front + (before + exts), removed), front, exts, before, removed);
  }

  lemma {:induction false} CutsWhole(groups: seq<seq<string>>, request: seq<string>, chosen: set<nat>, n: nat,
                                     cuts: bool, front: seq<string>, exts: seq<string>, list: seq<string>,
                                         rx: seq<string>)
    requires n < |groups| && Sortable(groups) && UsesNearly(groups, request, chosen) && AllRequested(front, request)
    requires Nearly(groups[n], request) && Without(groups[n], request) == []
    requires list == Listed(groups, chosen, n + 1) && rx == Reference(groups, request, n + 1).rx
    requires cuts == Cuts(front + (list + exts), rx)
    ensures cuts <==> FrontBelow(groups, request, n + 1, front) && NonePassedOver(groups, request, n + 1)
    decreases n, 1
  {
    ListedStep(groups, chosen, n + 1);
    RemovedStep(groups, request, n + 1);
    var before, removed := Listed(groups, chosen, n), Reference(groups, request, n).rx;
    JoinedAssoc(front, groups[n], before, exts);
    UsedWhole(groups, request, n, front);
    RestRequested(groups[n], request);
    CutsTable(groups, request, chosen, n, Cuts((front + groups[n]) + (before + exts), removed), front + groups[n],
        exts, before, removed);
  }

  lemma {:induction false} CutsPart(groups: seq<seq<string>>, request: seq<string>, chosen: set<nat>, n: nat,
                                    cuts: bool, front: seq<string>, exts: seq<string>, list: seq<string>,
                                        rx: seq<string>)
    requires n < |groups| && Sortable(groups) && UsesNearly(groups, request, chosen) && AllRequested(front, request)
    requires Nearly(groups[n], request) && Without(groups[n], request) != []
    requires list == Listed(groups, chosen, n + 1) && rx == Reference(groups, request, n + 1).rx
    requires cuts == Cuts(front + (list + exts), rx)
    ensures cuts <==> FrontBelow(groups, request, n + 1, front) && NonePassedOver(groups, request, n + 1)
    decreases n, 1
  {
    ListedStep(groups, chosen, n + 1);
    RemovedStep(groups, request, n + 1);
    var before, removed := Listed(groups, chosen, n), Reference(groups, request, n).rx;
    CutsInPart(front, groups[n], before, exts, request, removed);
    UsedInPart(groups, request, n, front);
    RestRequested(groups[n], request);
    CutsTable(groups, request, chosen, n, Cuts(Rest(groups[n], request) + (before + exts), removed),
        Rest(groups[n], request), exts, before, removed);
  }

  /** The list behind a front, group by group from the last one on. */
  lemma {:induction false} CutsTable(groups: seq<seq<string>>, request: seq<string>, chosen: set<nat>, n: nat,
                                     cuts: bool, front: seq<string>, exts: seq<string>, list: seq<string>,
                                         rx: seq<string>)
    requires n <= |groups| && Sortable(groups) && UsesNearly(groups, request, chosen) && AllRequested(front, request)
    requires list == Listed(groups, chosen, n) && rx == Reference(groups, request, n).rx
             && cuts == Cuts(front + (list + exts), rx)
    ensures cuts <==> FrontBelow(groups, request, n, front) && NonePassedOver(groups, request, n)
    decreases n, 0
  {
    if n == 0 {
      CutsNothing(groups, request, front + (list + exts), rx, front);
    } else {
      CutsLast(groups, request, chosen, n - 1, n, cuts, front, exts, list, rx);
    }
  }

  lemma CutsNothing(groups: seq<seq<string>>, request: seq<string>, all: seq<string>, rx: seq<string>,
                    front: seq<string>)
    requires rx == Reference(groups, request, 0).rx
    ensures Cuts(all, rx) && FrontBelow(groups, request, 0, front) && NonePassedOver(groups, request, 0)
  {
    assert rx == [];
  }

  lemma {:induction false} CutsLast(groups: seq<seq<string>>, request: seq<string>, chosen: set<nat>, n: nat, m: nat,
                                    cuts: bool, front: seq<string>, exts: seq<string>, list: seq<string>,
                                        rx: seq<string>)
    requires m == n + 1 <= |groups| && Sortable(groups) && UsesNearly(groups, request, chosen)
             && AllRequested(front, request)
    requires list == Listed(groups, chosen, m) && rx == Reference(groups, request, m).rx
             && cuts == Cuts(front + (list + exts), rx)
    ensures cuts <==> FrontBelow(groups, request, m, front) && NonePassedOver(groups, request, m)
    decreases n, 2
  {
    if !Nearly(groups[n], request) {
      CutsSkip(groups, request, chosen, n, cuts, front, exts, list, rx);
    } else if Without(groups[n], request) == [] {
      CutsWhole(groups, request, chosen, n, cuts, front, exts, list, rx);
    } else {
      CutsPart(groups, request, chosen, n, cuts, front, exts, list, rx);
    }
  }

  lemma GroupedCuts(groups: seq<seq<string>>, request: seq<string>)
    requires Regular(groups) && NoDup(request)
    ensures var g := Grouped(groups, request);
            Cuts(Listed(groups, g.chosen, |groups|) + g.exts, g.rx) <==> NonePassedOver(groups, request, |groups|)
  {
    var g := Grouped(groups, request);
    var list := Listed(groups, g.chosen, |groups|) + g.exts;
    GroupedExactly(groups, request);
    assert [] + list == list;
    CutsTable(groups, request, g.chosen, |groups|, Cuts(list, g.rx), [], g.exts, Listed(groups, g.chosen, |groups|),
        g.rx);
  }

  lemma RemovalsTakeEffect(groups: seq<seq<string>>, request: seq<string>)
    requires Regular(groups) && NoDup(request)
    ensures var g := Grouped(groups, request);
            (forall x :: x in g.rx ==> x !in Received(groups, g)) <==> NonePassedOver(groups, request, |groups|)
  {
    var g := Grouped(groups, request);
    GroupedOnce(groups, request);
    RemovedIsCut(Listed(groups, g.chosen, |groups|) + g.exts, g.rx);
    GroupedCuts(groups, request);
  }

  /** A receiver goes by at least the request, and by exactly the request if and only if no removal is passed over,
      which the table and the request alone decide. */
  lemma ReceiverExact(groups: seq<seq<string>>, request: seq<string>)
    requires Regular(groups) && NoDup(request)
    ensures var received := Received(groups, Grouped(groups, request));
            && (forall x :: x in request ==> x in received)
            && ((forall x :: x in received <==> x in request) <==> NonePassedOver(groups, request, |groups|))
  {
    var g := Grouped(groups, request);
    GroupedOnce(groups, request);
    ReceivedBounds(groups, request);
    RemovalsTakeEffect(groups, request);
    SameMembers(Received(groups, g), request, g.rx);
  }

  // ----- a removal that is passed over -----

  lemma {:induction false} NoneMissing(def: seq<string>, request: seq<string>)
    requires forall x :: x in def ==> x in request
    ensures Without(def, request) == []
  {
    NothingWithout(def, request);
  }

  lemma {:induction false} AllMissing(def: seq<string>, request: seq<string>)
    requires forall x :: x in def ==> x !in request
    ensures Without(def, request) == def
  {
    if def != [] {
      AllMissing(def[1..], request);
    }
  }

  /** All of group i but its first extension, and the whole of group j. */
  function AllButFirst(groups: seq<seq<string>>, i: nat, j: nat): seq<string>
    requires i < |groups| && j < |groups| && groups[i] != []
  {
    groups[i][1..] + groups[j]
  }

  lemma AllButFirstOnce(groups: seq<seq<string>>, i: nat, j: nat)
    requires i < j < |groups| && Regular(groups)
    ensures NoDup(AllButFirst(groups, i, j)) && groups[i][0] !in AllButFirst(groups, i, j)
  {
    HeadOnce(groups[i]);
    AscendingOnce(groups[i][1..]);
    AscendingOnce(groups[j]);
    assert forall x :: x in groups[i] ==> x !in groups[j];
    assert forall x :: x in groups[i][1..] ==> x in groups[i];
    JoinedOnce(groups[i][1..], groups[j]);
  }

  lemma AllButFirstMissing(groups: seq<seq<string>>, i: nat, j: nat, k: nat)
    requires i < j < |groups| && k < |groups| && Regular(groups)
    ensures var request := AllButFirst(groups, i, j);
            Without(groups[k], request) == if k == i then [groups[i][0]] else if k == j then [] else groups[k]
  {
    var request := AllButFirst(groups, i, j);
    AllButFirstOnce(groups, i, j);
    if k == i {
      NoneMissing(groups[i][1..], request);
    } else if k == j {
      NoneMissing(groups[j], request);
    } else {
      assert forall x :: x in groups[i][1..] ==> x in groups[i];
      AllMissing(groups[k], request);
    }
  }

  /** What is removed is the first extension of group i and nothing else. */
  lemma OnlyFirstRemoved(groups: seq<seq<string>>, i: nat, j: nat, x: string)
    requires i < j < |groups| && Regular(groups)
    requires x in Grouped(groups, AllButFirst(groups, i, j)).rx
    ensures x == groups[i][0]
  {
    var request := AllButFirst(groups, i, j);
    var g := Grouped(groups, request);
    AllButFirstOnce(groups, i, j);
    GroupedOnce(groups, request);
    GroupedExactly(groups, request);
    assert InChosen(groups, g.chosen, x);
    var k: nat :| k < |groups| && k in g.chosen && x in groups[k];
    AllButFirstMissing(groups, i, j, k);
    assert x !in request;
  }

  lemma FirstIsPassedOver(groups: seq<seq<string>>, i: nat, j: nat)
    requires i < j < |groups| && Regular(groups) && !Below(groups[j][|groups[j]| - 1], groups[i][0])
    ensures PassedOver(groups, AllButFirst(groups, i, j), i, j)
  {
    var request := AllButFirst(groups, i, j);
    forall k | 0 <= k < |groups|
      ensures Without(groups[k], request) == if k == i then [groups[i][0]] else if k == j then [] else groups[k] {
      AllButFirstMissing(groups, i, j, k);
    }
    assert groups[j][|groups[j]| - 1] in groups[j];
  }

  /** Whenever the last extension of a later group is not below it, the receiver goes by the removed extension too. */
  lemma RemovalPassedOver(groups: seq<seq<string>>, i: nat, j: nat)
    requires i < j < |groups| && Regular(groups) && !Below(groups[j][|groups[j]| - 1], groups[i][0])
    ensures var request := AllButFirst(groups, i, j);
            NoDup(request) && groups[i][0] !in request && groups[i][0] in Received(groups, Grouped(groups, request))
  {
    var request := AllButFirst(groups, i, j);
    AllButFirstOnce(groups, i, j);
    FirstIsPassedOver(groups, i, j);
    assert !Harmless(groups, request, j);
    RemovalsTakeEffect(groups, request);
    var x :| x in Grouped(groups, request).rx && x in Received(groups, Grouped(groups, request));
    OnlyFirstRemoved(groups, i, j, x);
  }

  // ----- a group that is never used -----

  lemma {:induction false} ListedWithout(groups: seq<seq<string>>, last: seq<string>, chosen: set<nat>, n: nat)
    requires n <= |groups|
    ensures Listed(groups + [last], chosen, n) == Listed(groups, chosen, n)
  {
    if n > 0 {
      ListedWithout(groups, last, chosen, n - 1);
    }
  }

  /** Leaving such a group out of the table changes nothing for the receiver either. */
  lemma ReceivedWithout(groups: seq<seq<string>>, last: seq<string>, g: Grouping)
    requires forall k :: k in g.chosen ==> k < |groups|
    ensures Received(groups + [last], g) == Received(groups, g)
  {
    ListedStep(groups + [last], g.chosen, |groups| + 1);
    ListedWithout(groups, last, g.chosen, |groups|);
  }
}
