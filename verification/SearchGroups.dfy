/** File-name extensions of a search, sent as whole groups where that is shorter, and the split of a search by the
    features of the users it is for. The parameters that all commands of a search share are left out. */
module SearchGroups {
  import opened Collections
  import opened SearchLists

  // ----- choosing groups -----

  /** The groups chosen so far, the extensions still to be added, and those to be taken out of the groups again. */
  datatype Grouping = Grouping(chosen: set<nat>, exts: seq<string>, rx: seq<string>)

  /** What has to be taken out again if a group is used for the extensions. */
  function Removals(def: seq<string>, exts: seq<string>): seq<string> {
    Only(SymmetricDifference(def, exts), def)
  }

  function Use(def: seq<string>, i: nat, g: Grouping): Grouping {
    Grouping(g.chosen + {i}, Without(g.exts, def), Removals(def, g.exts) + g.rx)
  }

  /** The grouping after group i, which is not used if it needs more than two removals. */
  function Tried(def: seq<string>, i: nat, g: Grouping): Grouping {
    if |Removals(def, g.exts)| > 2 then g else Use(def, i, g)
  }

  /** The groups from i on; two extensions or fewer are not worth another group. */
  function Choose(groups: seq<seq<string>>, i: nat, g: Grouping): Grouping
    requires i <= |groups|
    decreases |groups| - i
  {
    if i == |groups| then g
    else
      var n := Tried(groups[i], i, g);
      if |Removals(groups[i], g.exts)| <= 2 && |n.exts| <= 2 then n else Choose(groups, i + 1, n)
  }

  function Grouped(groups: seq<seq<string>>, request: seq<string>): Grouping {
    Choose(groups, 0, Grouping({}, Sort(request), []))
  }

  /** An extension of one of the chosen groups. */
  predicate InChosen(groups: seq<seq<string>>, chosen: set<nat>, x: string) {
    exists i :: 0 <= i < |groups| && i in chosen && x in groups[i]
  }

  predicate InTwoChosen(groups: seq<seq<string>>, chosen: set<nat>, x: string) {
    exists i, j :: 0 <= i < j < |groups| && i in chosen && j in chosen && x in groups[i] && x in groups[j]
  }

  /** What the query asks for (the SEGA section of ADC-EXT): the groups without the removals, and the rest. */
  predicate Asks(groups: seq<seq<string>>, g: Grouping, x: string) {
    (InChosen(groups, g.chosen, x) && x !in g.rx) || x in g.exts
  }

  /** What holds of every grouping on the way, whatever the groups. */
  ghost predicate Sound(groups: seq<seq<string>>, request: seq<string>, i: nat, g: Grouping) {
    && (forall k :: k in g.chosen ==> k < i && k < |groups|)
    && (forall x :: x in g.exts <==> x in request && !InChosen(groups, g.chosen, x))
    && (forall x :: x in g.rx ==> InChosen(groups, g.chosen, x))
    && (forall x :: InChosen(groups, g.chosen, x) && x !in request ==> x in g.rx)
    && |g.rx| <= 2 * |g.chosen|
  }

  lemma InChosenMore(groups: seq<seq<string>>, chosen: set<nat>, i: nat, x: string)
    requires i < |groups|
    ensures InChosen(groups, chosen + {i}, x) <==> InChosen(groups, chosen, x) || x in groups[i]
  {
  }

  lemma UseSound(groups: seq<seq<string>>, request: seq<string>, i: nat, g: Grouping)
    requires i < |groups| && Sound(groups, request, i, g) && |Removals(groups[i], g.exts)| <= 2
    ensures Sound(groups, request, i + 1, Use(groups[i], i, g))
  {
    var def, n := groups[i], Use(groups[i], i, g);
    forall x ensures InChosen(groups, n.chosen, x) <==> InChosen(groups, g.chosen, x) || x in def {
      InChosenMore(groups, g.chosen, i, x);
    }
    forall x | x in def && x !in request ensures x in n.rx {
      DifferenceMembers(def, g.exts, x);
    }
    assert i !in g.chosen;
  }

  lemma TrySound(groups: seq<seq<string>>, request: seq<string>, i: nat, g: Grouping)
    requires i < |groups| && Sound(groups, request, i, g)
    ensures Sound(groups, request, i + 1, Tried(groups[i], i, g))
  {
    if |Removals(groups[i], g.exts)| <= 2 {
      UseSound(groups, request, i, g);
    }
  }

  lemma {:induction false} ChooseSound(groups: seq<seq<string>>, request: seq<string>, i: nat, g: Grouping)
    requires i <= |groups| && Sound(groups, request, i, g)
    ensures Sound(groups, request, |groups|, Choose(groups, i, g))
    decreases |groups| - i
  {
    if i < |groups| {
      var n := Tried(groups[i], i, g);
      TrySound(groups, request, i, g);
      if |Removals(groups[i], g.exts)| > 2 || |n.exts| > 2 {
        ChooseSound(groups, request, i + 1, n);
      }
    }
  }

  /** For any groups and any request the query asks for nothing that was not requested, and for all of it exactly if
      nothing requested is among the removals. */
  lemma QueryIsRequest(groups: seq<seq<string>>, request: seq<string>)
    ensures var g := Grouped(groups, request);
            && (forall x :: Asks(groups, g, x) <==> x in request && x !in g.rx)
            && |g.rx| <= 2 * |g.chosen|
  {
    var start := Grouping({}, Sort(request), []);
    ChooseSound(groups, request, 0, start);
  }

  ghost predicate AllAscending(groups: seq<seq<string>>) {
    forall i :: 0 <= i < |groups| ==> Ascending(groups[i])
  }

  /** Of the extensions that are still to be added each is there as often as it was requested. */
  ghost predicate Counted(groups: seq<seq<string>>, request: seq<string>, g: Grouping) {
    && Rising(g.exts)
    && forall x :: Count(g.exts, x) == if InChosen(groups, g.chosen, x) then 0 else Count(request, x)
  }

  /** Taken out by mistake: in two of the chosen groups, or requested twice and in one of them. */
  predicate Doubled(groups: seq<seq<string>>, request: seq<string>, chosen: set<nat>, x: string) {
    InTwoChosen(groups, chosen, x) || (InChosen(groups, chosen, x) && Repeated(request, x))
  }

  ghost predicate Exact(groups: seq<seq<string>>, request: seq<string>, i: nat, g: Grouping) {
    && Sound(groups, request, i, g) && Counted(groups, request, g)
    && forall x :: x in request ==> (x in g.rx <==> Doubled(groups, request, g.chosen, x))
  }

  lemma InTwoMore(groups: seq<seq<string>>, chosen: set<nat>, i: nat, x: string)
    requires i < |groups| && forall k :: k in chosen ==> k < i
    ensures InTwoChosen(groups, chosen + {i}, x) <==>
            InTwoChosen(groups, chosen, x) || (InChosen(groups, chosen, x) && x in groups[i])
  {
    if InChosen(groups, chosen, x) && x in groups[i] {
      var k :| 0 <= k < |groups| && k in chosen && x in groups[k];
      assert k < i && i in chosen + {i} && k in chosen + {i};
    }
  }

  lemma UseCounted(groups: seq<seq<string>>, request: seq<string>, i: nat, g: Grouping)
    requires i < |groups| && Counted(groups, request, g)
    ensures Counted(groups, request, Use(groups[i], i, g))
  {
    WithoutRises(g.exts, groups[i]);
    forall x ensures Count(Without(g.exts, groups[i]), x) ==
                     if InChosen(groups, g.chosen + {i}, x) then 0 else Count(request, x) {
      WithoutCount(g.exts, groups[i], x);
      InChosenMore(groups, g.chosen, i, x);
    }
  }

  /** A member of the group is taken out unless it is still to be added exactly once. */
  lemma RemovedUnlessOnce(def: seq<string>, exts: seq<string>, x: string)
    requires Ascending(def) && Rising(exts)
    ensures x in Removals(def, exts) <==> x in def && Count(exts, x) != 1
  {
    AscendingOnce(def);
    CountOnce(def, x);
    AscendingRises(def);
    DifferenceCount(def, exts, x);
  }

  lemma UseDoubled(groups: seq<seq<string>>, request: seq<string>, i: nat, g: Grouping, x: string)
    requires i < |groups| && Ascending(groups[i]) && Exact(groups, request, i, g) && x in request
    ensures x in Use(groups[i], i, g).rx <==> Doubled(groups, request, g.chosen + {i}, x)
  {
    RemovedUnlessOnce(groups[i], g.exts, x);
    InTwoMore(groups, g.chosen, i, x);
    InChosenMore(groups, g.chosen, i, x);
    assert x in g.rx <==> Doubled(groups, request, g.chosen, x);
  }

  lemma UseExact(groups: seq<seq<string>>, request: seq<string>, i: nat, g: Grouping)
    requires i < |groups| && Ascending(groups[i]) && Exact(groups, request, i, g) && |Removals(groups[i], g.exts)| <= 2
    ensures Exact(groups, request, i + 1, Use(groups[i], i, g))
  {
    var n := Use(groups[i], i, g);
    UseSound(groups, request, i, g);
    UseCounted(groups, request, i, g);
    forall x | x in request ensures x in n.rx <==> Doubled(groups, request, n.chosen, x) {
      UseDoubled(groups, request, i, g, x);
    }
  }

  lemma TryExact(groups: seq<seq<string>>, request: seq<string>, i: nat, g: Grouping)
    requires i < |groups| && Ascending(groups[i]) && Exact(groups, request, i, g)
    ensures Exact(groups, request, i + 1, Tried(groups[i], i, g))
  {
    if |Removals(groups[i], g.exts)| <= 2 {
      UseExact(groups, request, i, g);
    }
  }

  lemma {:induction false} ChooseExact(groups: seq<seq<string>>, request: seq<string>, i: nat, g: Grouping)
    requires i <= |groups| && AllAscending(groups) && Exact(groups, request, i, g)
    ensures Exact(groups, request, |groups|, Choose(groups, i, g))
    decreases |groups| - i
  {
    if i < |groups| {
      var n := Tried(groups[i], i, g);
      TryExact(groups, request, i, g);
      if |Removals(groups[i], g.exts)| > 2 || |n.exts| > 2 {
        ChooseExact(groups, request, i + 1, n);
      }
    }
  }

  lemma StartExact(groups: seq<seq<string>>, request: seq<string>)
    ensures Exact(groups, request, 0, Grouping({}, Sort(request), []))
  {
    SortRises(request);
    forall x ensures Count(Sort(request), x) == Count(request, x) {
      SortCount(request, x);
    }
  }

  /** With ascending groups the query asks for exactly the request if and only if no requested extension is in two of
      the chosen groups, or is requested twice and in one of them. */
  lemma QueryExact(groups: seq<seq<string>>, request: seq<string>)
    requires AllAscending(groups)
    ensures var g := Grouped(groups, request);
            && (forall x :: Asks(groups, g, x) <==> x in request && !Doubled(groups, request, g.chosen, x))
            && ((forall x :: Asks(groups, g, x) <==> x in request)
                <==> forall x :: x in request ==> !Doubled(groups, request, g.chosen, x))
  {
    StartExact(groups, request);
    ChooseExact(groups, request, 0, Grouping({}, Sort(request), []));
    QueryIsRequest(groups, request);
  }

  ghost predicate Disjoint(groups: seq<seq<string>>) {
    forall i, j, x :: 0 <= i < j < |groups| && x in groups[i] ==> x !in groups[j]
  }

  /** So with ascending groups that have nothing in common the query asks for exactly any request without
      repetitions. */
  lemma QueryPreserved(groups: seq<seq<string>>, request: seq<string>)
    requires AllAscending(groups) && Disjoint(groups) && NoDup(request)
    ensures forall x :: Asks(groups, Grouped(groups, request), x) <==> x in request
  {
    QueryExact(groups, request);
    var g := Grouped(groups, request);
    forall x | x in request ensures !Doubled(groups, request, g.chosen, x) {
      CountOnce(request, x);
    }
  }

  // ----- which groups are used -----

  lemma BelowEach(x: string, s: seq<string>)
    requires Ascending(s) && (s == [] || Below(x, s[0]))
    ensures forall y :: y in s ==> Below(x, y)
  {
    forall y | y in s ensures Below(x, y) {
      var k :| 0 <= k < |s| && s[k] == y;
      if k > 0 {
        BelowTransitive(x, s[0], s[k]);
      }
    }
  }

  lemma {:induction false} DifferenceAscends(a: seq<string>, b: seq<string>)
    requires Ascending(a) && Ascending(b)
    ensures Ascending(SymmetricDifference(a, b))
    decreases |a| + |b|
  {
    if a == [] || b == [] {
    } else if Below(a[0], b[0]) {
      HeadOnce(a);
      DifferenceAscends(a[1..], b);
      BelowEach(a[0], a[1..]);
      BelowEach(a[0], b);
      ConsDifference(a[0], a[1..], b);
    } else if Below(b[0], a[0]) {
      HeadOnce(b);
      DifferenceAscends(a, b[1..]);
      BelowEach(b[0], b[1..]);
      BelowEach(b[0], a);
      ConsDifference(b[0], a, b[1..]);
    } else {
      HeadOnce(a);
      HeadOnce(b);
      DifferenceAscends(a[1..], b[1..]);
    }
  }

  lemma ConsDifference(x: string, a: seq<string>, b: seq<string>)
    requires Ascending(SymmetricDifference(a, b))
    requires (forall y :: y in a ==> Below(x, y)) && (forall y :: y in b ==> Below(x, y))
    ensures Ascending([x] + SymmetricDifference(a, b))
  {
    forall y | y in SymmetricDifference(a, b) ensures Below(x, y) {
      DifferenceMembers(a, b, y);
    }
    ConsAscends(x, SymmetricDifference(a, b));
  }

  lemma {:induction false} OnlyAscends(s: seq<string>, def: seq<string>)
    requires Ascending(s)
    ensures Ascending(Only(s, def))
  {
    if s != [] {
      HeadOnce(s);
      OnlyAscends(s[1..], def);
      if s[0] in def {
        BelowEach(s[0], s[1..]);
        ConsAscends(s[0], Only(s[1..], def));
      }
    }
  }

  lemma {:induction false} Pigeonhole(a: seq<string>, b: seq<string>)
    requires NoDup(a) && forall x :: x in a ==> x in b
    ensures |a| <= |b|
  {
    if a != [] {
      assert a[0] in b;
      var k :| 0 <= k < |b| && b[k] == a[0];
      var rest := b[..k] + b[k + 1..];
      forall x | x in a[1..] ensures x in rest {
        assert x in a && x in b;
        var j :| 0 <= j < |b| && b[j] == x;
        assert x != a[0];
        assert rest[if j < k then j else j - 1] == x;
      }
      Pigeonhole(a[1..], rest);
    }
  }

  lemma {:induction false} OnlyAndWithout(s: seq<string>, def: seq<string>)
    ensures |Only(s, def)| + |Without(s, def)| == |s|
  {
    if s != [] {
      OnlyAndWithout(s[1..], def);
    }
  }

  lemma SameHead(a: seq<string>, b: seq<string>)
    requires Ascending(a) && Ascending(b) && a != [] && b != [] && a[0] in b && b[0] in a
    ensures a[0] == b[0]
  {
    BelowTotal(a[0], b[0]);
    if Below(a[0], b[0]) {
      BelowAll(a[0], b);
    }
    if Below(b[0], a[0]) {
      BelowAll(b[0], a);
    }
  }

  lemma NoMembers(a: seq<string>, b: seq<string>)
    requires (a == [] || b == []) && forall x :: x in a <==> x in b
    ensures a == b
  {
    HasMember(a);
    HasMember(b);
  }

  lemma {:induction false} AscendingSame(a: seq<string>, b: seq<string>)
    requires Ascending(a) && Ascending(b) && forall x :: x in a <==> x in b
    ensures a == b
  {
    if a == [] || b == [] {
      NoMembers(a, b);
    } else {
      assert a[0] in a && a[0] in b && b[0] in a;
      SameHead(a, b);
      HeadOnce(a);
      HeadOnce(b);
      forall x ensures x in a[1..] <==> x in b[1..] {
        assert x in a <==> x == a[0] || x in a[1..];
        assert x in b <==> x == b[0] || x in b[1..];
      }
      AscendingSame(a[1..], b[1..]);
      assert a == [a[0]] + a[1..] && b == [b[0]] + b[1..];
    }
  }

  /** At most two extensions of the group are missing from the request. */
  predicate Nearly(def: seq<string>, request: seq<string>) {
    |Without(def, request)| <= 2
  }

  /** Uses a group exactly if it is nearly requested, and removes what is missing. */
  function Extended(def: seq<string>, request: seq<string>, i: nat, g: Grouping): Grouping {
    if Nearly(def, request) then Grouping(g.chosen + {i}, Without(g.exts, def), Without(def, request) + g.rx) else g
  }

  /** Reference: every group that is nearly requested is used, whatever the others. */
  function Reference(groups: seq<seq<string>>, request: seq<string>, n: nat): Grouping
    requires n <= |groups|
  {
    if n == 0 then Grouping({}, Sort(request), [])
    else Extended(groups[n - 1], request, n - 1, Reference(groups, request, n - 1))
  }

  /** Sorted groups without a common extension, all of them with more than four. */
  ghost predicate Regular(groups: seq<seq<string>>) {
    AllAscending(groups) && Disjoint(groups) && forall i :: 0 <= i < |groups| ==> |groups[i]| > 4
  }

  ghost predicate Sorted(groups: seq<seq<string>>, request: seq<string>, i: nat, g: Grouping) {
    Sound(groups, request, i, g) && Ascending(g.exts)
  }

  /** What has to be taken out of a group is what is missing from the request. */
  lemma RemovalsAreMissing(groups: seq<seq<string>>, request: seq<string>, i: nat, g: Grouping)
    requires i < |groups| && Regular(groups) && Sorted(groups, request, i, g)
    ensures Removals(groups[i], g.exts) == Without(groups[i], request)
  {
    var def := groups[i];
    DifferenceAscends(def, g.exts);
    OnlyAscends(SymmetricDifference(def, g.exts), def);
    WithoutAscends(def, request);
    forall x ensures x in Removals(def, g.exts) <==> x in Without(def, request) {
      DifferenceExact(def, g.exts, x);
      assert x in def ==> !InChosen(groups, g.chosen, x);
    }
    AscendingSame(Removals(def, g.exts), Without(def, request));
  }

  lemma ExtendedSorted(groups: seq<seq<string>>, request: seq<string>, i: nat, g: Grouping)
    requires i < |groups| && Regular(groups) && Sorted(groups, request, i, g)
    ensures Sorted(groups, request, i + 1, Extended(groups[i], request, i, g))
  {
    RemovalsAreMissing(groups, request, i, g);
    if Nearly(groups[i], request) {
      UseSound(groups, request, i, g);
      WithoutAscends(g.exts, groups[i]);
    }
  }

  lemma StartSorted(groups: seq<seq<string>>, request: seq<string>, g: Grouping)
    requires NoDup(request) && g == Grouping({}, Sort(request), [])
    ensures Sorted(groups, request, 0, g)
  {
    SortAscends(request);
  }

  lemma {:induction false} ReferenceSorted(groups: seq<seq<string>>, request: seq<string>, n: nat, g: Grouping)
    requires n <= |groups| && Regular(groups) && NoDup(request) && g == Reference(groups, request, n)
    ensures Sorted(groups, request, n, g)
  {
    if n == 0 {
      StartSorted(groups, request, g);
    } else {
      var m: nat := n - 1;
      var before := Reference(groups, request, m);
      assert g == Extended(groups[m], request, m, before);
      ReferenceSorted(groups, request, m, before);
      ExtendedSorted(groups, request, m, before);
    }
  }

  lemma {:induction false} ReferenceChosen(groups: seq<seq<string>>, request: seq<string>, n: nat, k: nat)
    requires n <= |groups|
    ensures k in Reference(groups, request, n).chosen <==> k < n && Nearly(groups[k], request)
  {
    if n > 0 {
      ReferenceChosen(groups, request, n - 1, k);
    }
  }

  lemma ReferenceStep(groups: seq<seq<string>>, request: seq<string>, i: nat)
    requires i < |groups| && Regular(groups) && NoDup(request)
    ensures var g, next := Reference(groups, request, i), Reference(groups, request, i + 1);
            Choose(groups, i, g) == if Nearly(groups[i], request) && |next.exts| <= 2 then next
                else Choose(groups, i + 1, next)
  {
    ReferenceSorted(groups, request, i, Reference(groups, request, i));
    RemovalsAreMissing(groups, request, i, Reference(groups, request, i));
  }

  /** Two extensions or fewer never make up another group. */
  lemma FewAreNotNearly(groups: seq<seq<string>>, request: seq<string>, i: nat, g: Grouping)
    requires i < |groups| && Regular(groups) && Sorted(groups, request, i, g) && |g.exts| <= 2
    ensures !Nearly(groups[i], request)
  {
    var def := groups[i];
    OnlyAndWithout(def, request);
    OnlyAscends(def, request);
    AscendingOnce(Only(def, request));
    forall x | x in Only(def, request) ensures x in g.exts {
      assert !InChosen(groups, g.chosen, x);
    }
    Pigeonhole(Only(def, request), g.exts);
  }

  lemma {:induction false} FewLeft(groups: seq<seq<string>>, request: seq<string>, i: nat)
    requires i <= |groups| && Regular(groups) && NoDup(request) && |Reference(groups, request, i).exts| <= 2
    ensures Reference(groups, request, |groups|) == Reference(groups, request, i)
    decreases |groups| - i
  {
    if i < |groups| {
      NotNearlySame(groups, request, i);
      FewLeft(groups, request, i + 1);
    }
  }

  lemma NotNearlySame(groups: seq<seq<string>>, request: seq<string>, i: nat)
    requires i < |groups| && Regular(groups) && NoDup(request) && |Reference(groups, request, i).exts| <= 2
    ensures Reference(groups, request, i + 1) == Reference(groups, request, i)
  {
    ReferenceSorted(groups, request, i, Reference(groups, request, i));
    FewAreNotNearly(groups, request, i, Reference(groups, request, i));
  }

  /** Choosing ends here as the reference does, or goes on. */
  ghost predicate EndsOrGoesOn(groups: seq<seq<string>>, request: seq<string>, i: nat)
    requires i < |groups|
  {
    var c := Choose(groups, i, Reference(groups, request, i));
    c == Reference(groups, request, |groups|) || c == Choose(groups, i + 1, Reference(groups, request, i + 1))
  }

  lemma StepEndsOrGoesOn(groups: seq<seq<string>>, request: seq<string>, i: nat)
    requires i < |groups| && Regular(groups) && NoDup(request)
    ensures EndsOrGoesOn(groups, request, i)
  {
    ReferenceStep(groups, request, i);
    if |Reference(groups, request, i + 1).exts| <= 2 {
      FewLeft(groups, request, i + 1);
    }
  }

  lemma {:induction false} ChooseIsReference(groups: seq<seq<string>>, request: seq<string>, i: nat, last: Grouping)
    requires i <= |groups| && forall k :: i <= k < |groups| ==> EndsOrGoesOn(groups, request, k)
    requires last == Choose(groups, i, Reference(groups, request, i))
    ensures last == Reference(groups, request, |groups|)
    decreases |groups| - i
  {
    if i < |groups| {
      var j, end := i + 1, Reference(groups, request, |groups|);
      var c := Choose(groups, j, Reference(groups, request, j));
      assert last == end || last == c by {
        assert EndsOrGoesOn(groups, request, i);
      }
      if last != end {
        ChooseIsReference(groups, request, j, c);
      }
    }
  }

  /** A group is used exactly if at most two of its extensions are missing from the request, and exactly these are
      removed: the order of the groups and stopping early make no difference. */
  lemma GroupedExactly(groups: seq<seq<string>>, request: seq<string>)
    requires Regular(groups) && NoDup(request)
    ensures Grouped(groups, request) == Reference(groups, request, |groups|)
    ensures var g := Grouped(groups, request);
            && (forall k: nat :: k in g.chosen <==> k < |groups| && Nearly(groups[k], request))
            && (forall x :: x in g.exts <==> x in request && !InChosen(groups, g.chosen, x))
            && Ascending(g.exts)
  {
    forall i | 0 <= i < |groups| ensures EndsOrGoesOn(groups, request, i) {
      StepEndsOrGoesOn(groups, request, i);
    }
    ChooseIsReference(groups, request, 0, Grouped(groups, request));
    ReferenceSorted(groups, request, |groups|, Reference(groups, request, |groups|));
    forall k: nat ensures k in Reference(groups, request, |groups|).chosen
        <==> k < |groups| && Nearly(groups[k], request) {
      ReferenceChosen(groups, request, |groups|, k);
    }
  }

  // ----- a group that is never used -----

  ghost predicate NeverUsed(def: seq<string>) {
    forall exts :: Rising(exts) ==> |Removals(def, exts)| > 2
  }

  lemma {:induction false} ChooseWithout(groups: seq<seq<string>>, last: seq<string>, i: nat, g: Grouping)
    requires i <= |groups| && NeverUsed(last) && Rising(g.exts)
    ensures Choose(groups + [last], i, g) == Choose(groups, i, g)
    decreases |groups| - i
  {
    var more := groups + [last];
    if i == |groups| {
      assert more[i] == last;
      assert Choose(more, i + 1, g) == g;
    } else {
      assert more[i] == groups[i];
      WithoutRises(g.exts, groups[i]);
      ChooseWithout(groups, last, i + 1, Tried(groups[i], i, g));
    }
  }

  /** Leaving such a group out of the table changes nothing. */
  lemma GroupedWithout(groups: seq<seq<string>>, last: seq<string>, request: seq<string>)
    requires NeverUsed(last)
    ensures Grouped(groups + [last], request) == Grouped(groups, request)
    ensures forall x ::
              Asks(groups + [last], Grouped(groups, request), x) <==> Asks(groups, Grouped(groups, request), x)
  {
    var more, g := groups + [last], Grouped(groups, request);
    SortRises(request);
    ChooseWithout(groups, last, 0, Grouping({}, Sort(request), []));
    ChooseSound(groups, request, 0, Grouping({}, Sort(request), []));
    forall x ensures InChosen(more, g.chosen, x) <==> InChosen(groups, g.chosen, x) {
      assert forall i :: 0 <= i < |groups| ==> more[i] == groups[i];
    }
  }

  /** Before the first entry of the other list: still there after the merge. */
  lemma {:induction false} EarlyStays(a: seq<string>, b: seq<string>, x: string)
    requires Rising(b) && x in a && Below(x, a[0])
    ensures x in SymmetricDifference(a, b)
  {
    if x !in b {
      DifferenceMembers(a, b, x);
    } else {
      var k :| 0 <= k < |b| && b[k] == x;
      EarlyFirst(b, k, x, a[0]);
      if k > 0 {
        assert b[1..][k - 1] == x;
        EarlyStays(a, b[1..], x);
      }
    }
  }

  lemma EarlyFirst(b: seq<string>, k: nat, x: string, y: string)
    requires Rising(b) && k < |b| && b[k] == x && Below(x, y)
    ensures Below(b[0], y) && !Below(y, b[0])
  {
    if k > 0 {
      BelowTotal(b[0], x);
      if Below(b[0], x) { BelowTransitive(b[0], x, y); }
    }
    NotBelowBoth(b[0], y);
  }

  /** A group with three extensions below its first one takes three removals, whatever is requested. */
  lemma ThreeEarly(def: seq<string>, x: string, y: string, z: string)
    requires x in def && y in def && z in def && x != y && x != z && y != z
    requires Below(x, def[0]) && Below(y, def[0]) && Below(z, def[0])
    ensures NeverUsed(def)
  {
    forall exts | Rising(exts) ensures |Removals(def, exts)| > 2 {
      EarlyStays(def, exts, x);
      EarlyStays(def, exts, y);
      EarlyStays(def, exts, z);
      Pigeonhole([x, y, z], Removals(def, exts));
    }
  }

  // ----- the group numbers on the wire -----

  /** 1 << i. */
  function Flag(i: nat): bv8
    requires i < 8
  {
    if i == 0 then 1 else if i == 1 then 2 else if i == 2 then 4 else if i == 3 then 8
    else if i == 4 then 16 else if i == 5 then 32 else if i == 6 then 64 else 128
  }

  function Power2(i: nat): nat {
    if i == 0 then 1 else 2 * Power2(i - 1)
  }

  /** Group i has the value 2^i in the number on the wire. */
  lemma FlagIsPower(i: nat)
    requires i < 8
    ensures Flag(i) as nat == Power2(i)
  {
    if i == 0 {} else if i == 1 {} else if i == 2 {} else if i == 3 {}
    else if i == 4 {} else if i == 5 {} else if i == 6 {} else {}
  }

  predicate Flagged(gr: bv8, i: nat)
    requires i < 8
  {
    gr & Flag(i) != 0
  }

  /** The flags are set for the chosen groups and no others. */
  predicate Flags(gr: bv8, chosen: set<nat>) {
    forall i :: 0 <= i < 8 ==> (Flagged(gr, i) <==> i in chosen)
  }

  lemma AddFlag(gr: bv8, i: nat, j: nat)
    requires i < 8 && j < 8 && !Flagged(gr, i)
    ensures Flagged(gr + Flag(i), j) <==> i == j || Flagged(gr, j)
  {
    if i == 0 {} else if i == 1 {} else if i == 2 {} else if i == 3 {}
    else if i == 4 {} else if i == 5 {} else if i == 6 {} else {}
  }

  lemma Pieces(temp: seq<string>, passed: seq<string>, rest: seq<string>)
    requires temp == passed + rest && rest != []
    ensures temp[|passed|] == rest[0] && temp == (passed + [rest[0]]) + rest[1..]
    ensures temp[..|passed|] + temp[|passed| + 1..] == passed + rest[1..]
  {
  }

  lemma SplitStep(passed: seq<string>, rx: seq<string>, rest: seq<string>, def: seq<string>)
    requires rest != []
    ensures rest[0] !in def ==>
              && passed + Without(rest, def) == (passed + [rest[0]]) + Without(rest[1..], def)
              && Only(rest, def) == Only(rest[1..], def)
    ensures rest[0] in def ==>
              && rx + Only(rest, def) == (rx + [rest[0]]) + Only(rest[1..], def)
              && Without(rest, def) == Without(rest[1..], def)
  {
    if rest[0] in def {
      Assoc(rx, rest[0], Only(rest[1..], def));
      assert [] + Without(rest[1..], def) == Without(rest[1..], def);
    } else {
      Assoc(passed, rest[0], Without(rest[1..], def));
      assert [] + Only(rest[1..], def) == Only(rest[1..], def);
    }
  }

  lemma Assoc<T>(a: seq<T>, x: T, b: seq<T>)
    ensures a + ([x] + b) == (a + [x]) + b
  {
  }

  /** The flags of the chosen groups below n, added up. */
  function FlagByte(chosen: set<nat>, n: nat): bv8
    requires n <= 8
  {
    if n == 0 then 0 else FlagByte(chosen, n - 1) + FlagIn(chosen, n - 1)
  }

  function FlagIn(chosen: set<nat>, i: nat): bv8
    requires i < 8
  {
    if i in chosen then Flag(i) else 0
  }

  lemma {:induction false} FlagByteSame(a: set<nat>, b: set<nat>, n: nat)
    requires n <= 8 && forall k :: 0 <= k < n ==> (k in a <==> k in b)
    ensures FlagByte(a, n) == FlagByte(b, n)
  {
    if n > 0 {
      FlagByteSame(a, b, n - 1);
    }
  }

  lemma {:induction false} FlagByteFlags(chosen: set<nat>, n: nat)
    requires n <= 8
    ensures forall i :: 0 <= i < 8 ==> (Flagged(FlagByte(chosen, n), i) <==> i < n && i in chosen)
  {
    if n == 0 {
      assert forall i :: 0 <= i < 8 ==> !Flagged(0, i);
    } else {
      FlagByteFlags(chosen, n - 1);
      if n - 1 in chosen {
        forall i | 0 <= i < 8 ensures Flagged(FlagByte(chosen, n), i) <==> i < n && i in chosen {
          AddFlag(FlagByte(chosen, n - 1), n - 1, i);
        }
      }
    }
  }

  lemma {:induction false} FlagByteUp(chosen: set<nat>, m: nat, n: nat)
    requires m <= n <= 8 && forall k :: k in chosen ==> k < m
    ensures FlagByte(chosen, n) == FlagByte(chosen, m)
  {
    if m < n {
      FlagByteUp(chosen, m, n - 1);
    }
  }

  /** Splits the differences in place into those that stay to be added and those to be removed; gives up at the third
      to be removed. */
  method SplitDifferences(def: seq<string>, diffs: seq<string>) returns (ok: bool, temp: seq<string>, rx: seq<string>)
    ensures ok <==> |Only(diffs, def)| <= 2
    ensures ok ==> temp == Without(diffs, def) && rx == Only(diffs, def)
  {
    temp, rx := diffs, [];
    var diff := 0;
    ghost var passed, rest := [], diffs;
    while diff < |temp|
      invariant diff == |passed| && temp == passed + rest && |rx| <= 2
      invariant passed + Without(rest, def) == Without(diffs, def)
      invariant rx + Only(rest, def) == Only(diffs, def)
      decreases |rest|
    {
      Pieces(temp, passed, rest);
      SplitStep(passed, rx, rest, def);
      if temp[diff] !in def {
        diff := diff + 1;
        passed := passed + [rest[0]];
      } else {
        if |rx| == 2 {
          return false, temp, rx;
        }
        rx := rx + [temp[diff]];
        temp := temp[..diff] + temp[diff + 1..];
      }
      rest := rest[1..];
    }
    return true, temp, rx;
  }

  /** The variables of the loop stand for the grouping among the groups below i. */
  ghost predicate StandsFor(gr: bv8, exts: seq<string>, rx: seq<string>, g: Grouping, i: nat) {
    gr == FlagByte(g.chosen, 8) && exts == g.exts && rx == g.rx && forall k :: k in g.chosen ==> k < i
  }

  /** One round over the groups: uses the group unless that takes too many removals. */
  method TryGroup(def: seq<string>, i: nat, ghost g: Grouping, gr: bv8, exts: seq<string>, rx: seq<string>)
    returns (used: bool, gr': bv8, exts': seq<string>, rx': seq<string>)
    requires i < 8 && StandsFor(gr, exts, rx, g, i)
    ensures used <==> |Removals(def, exts)| <= 2
    ensures StandsFor(gr', exts', rx', Tried(def, i, g), i + 1)
  {
    var temp := SymmetricDifference(def, exts);
    var ok, left, out := SplitDifferences(def, temp);
    if !ok {
      return false, gr, exts, rx;
    }
    DifferenceKeeps(def, exts, def);
    FlagByteStep(g.chosen, i);
    return true, gr + Flag(i), left, out + rx;
  }

  method GroupExtensions(groups: seq<seq<string>>, extList: seq<string>)
    returns (gr: bv8, exts: seq<string>, rx: seq<string>)
    requires |groups| <= 8
    ensures var g := Grouped(groups, extList); gr == FlagByte(g.chosen, 8) && exts == g.exts && rx == g.rx
  {
    gr, exts, rx := 0, Sort(extList), [];
    ghost var g, last := Grouping({}, exts, rx), Grouped(groups, extList);
    var i := 0;
    while i < |groups|
      invariant i <= |groups| && Choose(groups, i, g) == last && StandsFor(gr, exts, rx, g, i)
    {
      var used;
      used, gr, exts, rx := TryGroup(groups[i], i, g, gr, exts, rx);
      g := Tried(groups[i], i, g);
      if used && |exts| <= 2 {
        return;
      }
      i := i + 1;
    }
  }

  lemma FlagByteStep(chosen: set<nat>, i: nat)
    requires i < 8 && forall k :: k in chosen ==> k < i
    ensures FlagByte(chosen + {i}, 8) == FlagByte(chosen, 8) + Flag(i)
  {
    FlagByteUp(chosen, i, 8);
    FlagByteSame(chosen, chosen + {i}, i);
    FlagByteUp(chosen + {i}, i + 1, 8);
  }

  // ----- who gets which search -----

  datatype Feature = SEGA | TCP4 | NAT0

  datatype Need = Has(feature: Feature) | Lacks(feature: Feature)

  /** The extension part of a search command: group flags, extensions and removals. */
  datatype Query = Query(gr: bv8, ex: seq<string>, rx: seq<string>)

  /** A search for everybody on the hub, or for those with and without certain features. */
  datatype Command = Broadcast(query: Query) | ForFeatures(needs: seq<Need>, query: Query)

  predicate Meets(features: set<Feature>, need: Need) {
    match need
    case Has(f) => f in features
    case Lacks(f) => f !in features
  }

  /** Whether the hub hands the command on to a user with these features. */
  predicate HandedTo(c: Command, features: set<Feature>) {
    c.ForFeatures? ==> forall i :: 0 <= i < |c.needs| ==> Meets(features, c.needs[i])
  }

  /** The queries that reach a user, in order. */
  function Reaching(sent: seq<Command>, features: set<Feature>): seq<Query> {
    if sent == [] then []
    else (if HandedTo(sent[0], features) then [sent[0].query] else []) + Reaching(sent[1..], features)
  }

  /** Users that can connect to this client or be connected to. */
  predicate Addressed(active: bool, natt: bool, features: set<Feature>) {
    active || TCP4 in features || (natt && NAT0 in features)
  }

  function Needs(c: Command): seq<Need> {
    if c.ForFeatures? then c.needs else []
  }

  lemma MoreNeeds(c: Command, more: seq<Need>, features: set<Feature>)
    ensures HandedTo(ForFeatures(Needs(c) + more, c.query), features) <==>
            HandedTo(c, features) && forall i :: 0 <= i < |more| ==> Meets(features, more[i])
  {
    var all := Needs(c) + more;
    if HandedTo(ForFeatures(all, c.query), features) {
      forall i | 0 <= i < |Needs(c)| ensures Meets(features, Needs(c)[i]) {
        assert Meets(features, all[i]);
      }
      forall i | 0 <= i < |more| ensures Meets(features, more[i]) {
        assert Meets(features, all[|Needs(c)| + i]);
      }
    }
  }

  lemma AddFirst<T>(x: T, a: seq<T>, b: seq<T>)
    ensures [x] + (a + b) == ([x] + a) + b
  {
  }

  lemma {:induction false} ReachingBoth(a: seq<Command>, b: seq<Command>, features: set<Feature>)
    ensures Reaching(a + b, features) == Reaching(a, features) + Reaching(b, features)
  {
    if a == [] {
      assert a + b == b;
    } else {
      assert (a + b)[0] == a[0] && (a + b)[1..] == a[1..] + b;
      ReachingBoth(a[1..], b, features);
      if HandedTo(a[0], features) {
        AddFirst(a[0].query, Reaching(a[1..], features), Reaching(b, features));
      }
    }
  }

  lemma ReachingOne(c: Command, features: set<Feature>)
    ensures Reaching([c], features) == if HandedTo(c, features) then [c.query] else []
  {
  }

  method SendSearch(c: Command, active: bool, natt: bool) returns (sent: seq<Command>)
    ensures |sent| <= 2
    ensures forall u :: Reaching(sent, u) ==
              if HandedTo(c, u) && Addressed(active, natt, u) then [c.query] else []
  {
    if active {
      sent := [c];
      forall u ensures Reaching(sent, u) == if HandedTo(c, u) then [c.query] else [] {
        ReachingOne(c, u);
      }
    } else {
      var features := Needs(c);
      sent := [];
      if natt {
        sent := [ForFeatures(features + [Has(TCP4), Lacks(NAT0)], c.query)];
        features := features + [Has(NAT0)];
      } else {
        features := features + [Has(TCP4)];
      }
      sent := sent + [ForFeatures(features, c.query)];
      forall u ensures Reaching(sent, u) == if HandedTo(c, u) && Addressed(active, natt, u) then [c.query] else [] {
        PassiveSplit(c, natt, u);
      }
    }
  }

  lemma PassiveSplit(c: Command, natt: bool, u: set<Feature>)
    ensures var direct := ForFeatures(Needs(c) + [Has(TCP4), Lacks(NAT0)], c.query);
            var through := ForFeatures(Needs(c) + [Has(NAT0)], c.query);
            var only := ForFeatures(Needs(c) + [Has(TCP4)], c.query);
            Reaching((if natt then [direct] else []) + [if natt then through else only], u) ==
            if HandedTo(c, u) && Addressed(false, natt, u) then [c.query] else []
  {
    if natt {
      ThroughNat(c, u);
    } else {
      DirectOnly(c, u);
    }
  }

  lemma ThroughNat(c: Command, u: set<Feature>)
    ensures var direct := ForFeatures(Needs(c) + [Has(TCP4), Lacks(NAT0)], c.query);
            var through := ForFeatures(Needs(c) + [Has(NAT0)], c.query);
            Reaching([direct] + [through], u) == if HandedTo(c, u) && (TCP4 in u || NAT0 in u) then [c.query] else []
  {
    var direct := ForFeatures(Needs(c) + [Has(TCP4), Lacks(NAT0)], c.query);
    var through := ForFeatures(Needs(c) + [Has(NAT0)], c.query);
    TwoNeeds(c, Has(TCP4), Lacks(NAT0), u);
    OneNeed(c, Has(NAT0), u);
    ReachingBoth([direct], [through], u);
    ReachingOne(direct, u);
    ReachingOne(through, u);
  }

  lemma DirectOnly(c: Command, u: set<Feature>)
    ensures var only := ForFeatures(Needs(c) + [Has(TCP4)], c.query);
            Reaching([] + [only], u) == if HandedTo(c, u) && TCP4 in u then [c.query] else []
  {
    var only := ForFeatures(Needs(c) + [Has(TCP4)], c.query);
    OneNeed(c, Has(TCP4), u);
    ReachingOne(only, u);
    assert [] + [only] == [only];
  }

  lemma OneNeed(c: Command, need: Need, u: set<Feature>)
    ensures HandedTo(ForFeatures(Needs(c) + [need], c.query), u) <==> HandedTo(c, u) && Meets(u, need)
  {
    MoreNeeds(c, [need], u);
    assert [need][0] == need;
  }

  lemma HandedByNeed(need: Need, u: set<Feature>)
    ensures forall q :: HandedTo(ForFeatures([need], q), u) <==> Meets(u, need)
  {
    assert [need][0] == need;
  }

  lemma TwoNeeds(c: Command, a: Need, b: Need, u: set<Feature>)
    ensures HandedTo(ForFeatures(Needs(c) + [a, b], c.query), u) <==> HandedTo(c, u) && Meets(u, a) && Meets(u, b)
  {
    MoreNeeds(c, [a, b], u);
    assert [a, b][0] == a && [a, b][1] == b;
  }

  /** What a user gets of a search: nothing, or one query; grouped for those who understand groups. */
  function Due(groups: seq<seq<string>>, extList: seq<string>, tth: bool, features: set<Feature>): Query {
    var g := Grouped(groups, extList);
    var gr := FlagByte(g.chosen, 8);
    if tth then Query(0, [], [])
    else if |extList| > 2 && gr != 0 && SEGA in features then Query(gr, g.exts, g.rx)
    else Query(0, extList, [])
  }

  /** What a query on the wire asks for. */
  predicate QueryAsks(groups: seq<seq<string>>, q: Query, x: string)
    requires |groups| <= 8
  {
    x in q.ex || (x !in q.rx && exists i :: 0 <= i < |groups| && Flagged(q.gr, i) && x in groups[i])
  }

  /** Whether a user gets the search with groups. */
  predicate InGroups(groups: seq<seq<string>>, extList: seq<string>, features: set<Feature>) {
    |extList| > 2 && FlagByte(Grouped(groups, extList).chosen, 8) != 0 && SEGA in features
  }

  /** The query on the wire asks for what the grouping asks for, or without groups for exactly the request. */
  lemma DueAsksAlike(groups: seq<seq<string>>, extList: seq<string>, features: set<Feature>, x: string)
    requires |groups| <= 8
    ensures QueryAsks(groups, Due(groups, extList, false, features), x) <==>
            if InGroups(groups, extList, features) then Asks(groups, Grouped(groups, extList), x) else x in extList
  {
    var g := Grouped(groups, extList);
    FlagByteFlags(g.chosen, 8);
    if InGroups(groups, extList, features) {
      assert forall i :: 0 <= i < |groups| ==> (Flagged(FlagByte(g.chosen, 8), i) <==> i in g.chosen);
    } else {
      assert forall i :: 0 <= i < |groups| ==> !Flagged(0, i);
    }
  }

  /** A search by hash asks for no extension. */
  lemma HashAsksForNone(groups: seq<seq<string>>, extList: seq<string>, features: set<Feature>, x: string)
    requires |groups| <= 8
    ensures !QueryAsks(groups, Due(groups, extList, true, features), x)
  {
    assert forall i :: 0 <= i < |groups| ==> !Flagged(0, i);
  }

  /** Every user the search is for gets it exactly once, and nobody else does. */
  method Search(groups: seq<seq<string>>, extList: seq<string>, tth: bool, active: bool, natt: bool)
    returns (sent: seq<Command>)
    requires |groups| <= 8
    ensures forall u :: Reaching(sent, u) == if Addressed(active, natt, u) then [Due(groups, extList, tth, u)] else []
  {
    sent := [];
    var c := Broadcast(Query(0, [], []));
    if !tth {
      if |extList| > 2 {
        var gr, exts, rx := GroupExtensions(groups, extList);
        if gr != 0 {
          sent := SendSearch(ForFeatures([Has(SEGA)], Query(gr, exts, rx)), active, natt);
          c := ForFeatures([Lacks(SEGA)], Query(0, [], []));
        }
      }
      c := c.(query := Query(0, extList, []));
    }
    ghost var first := sent;
    var rest := SendSearch(c, active, natt);
    sent := sent + rest;
    forall u ensures Reaching(sent, u) == if Addressed(active, natt, u) then [Due(groups, extList, tth, u)] else [] {
      ReachingBoth(first, rest, u);
      HandedByNeed(Has(SEGA), u);
      HandedByNeed(Lacks(SEGA), u);
    }
  }
}
