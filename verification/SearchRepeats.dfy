/** Which groups a search uses when the request may name an extension more than once. */
module SearchRepeats {
  import opened Collections
  import opened SearchLists
  import opened SearchGroups

  /** What it takes to use a group: a removal for every extension that was not requested, and one for every time more
      than once that one was. */
  function Cost(def: seq<string>, request: seq<string>): nat {
    if def == [] then 0
    else (if def[0] in request then Count(request, def[0]) - 1 else 1) + Cost(def[1..], request)
  }

  predicate Worth(def: seq<string>, request: seq<string>) {
    Cost(def, request) <= 2
  }

  // ----- the number of removals -----

  /** How often the extensions of a group occur in a list. */
  function Occurrences(def: seq<string>, s: seq<string>): nat {
    if def == [] then 0 else Count(s, def[0]) + Occurrences(def[1..], s)
  }

  lemma {:induction false} NoOccurrences(def: seq<string>)
    ensures Occurrences(def, []) == 0
  {
    if def != [] {
      NoOccurrences(def[1..]);
    }
  }

  lemma {:induction false} OccurrencesMore(def: seq<string>, s: seq<string>)
    requires NoDup(def) && s != []
    ensures Occurrences(def, s) == Occurrences(def, s[1..]) + if s[0] in def then 1 else 0
  {
    if def != [] {
      OccurrencesMore(def[1..], s);
      assert def[0] !in def[1..];
    }
  }

  lemma {:induction false} OnlyLength(s: seq<string>, def: seq<string>)
    requires NoDup(def)
    ensures |Only(s, def)| == Occurrences(def, s)
  {
    if s == [] {
      NoOccurrences(def);
    } else {
      OnlyLength(s[1..], def);
      OccurrencesMore(def, s);
    }
  }

  lemma {:induction false} CostIsOccurrences(def: seq<string>, exts: seq<string>, diff: seq<string>)
    requires forall x :: x in def ==> Count(diff, x) == if x in exts then Count(exts, x) - 1 else 1
    ensures Occurrences(def, diff) == Cost(def, exts)
  {
    if def != [] {
      assert forall x :: x in def[1..] ==> x in def;
      CostIsOccurrences(def[1..], exts, diff);
    }
  }

  lemma RemovalsCost(def: seq<string>, exts: seq<string>)
    requires Ascending(def) && Rising(exts)
    ensures |Removals(def, exts)| == Cost(def, exts)
  {
    var diff := SymmetricDifference(def, exts);
    AscendingOnce(def);
    AscendingRises(def);
    forall x | x in def ensures Count(diff, x) == if x in exts then Count(exts, x) - 1 else 1 {
      CountOnce(def, x);
      DifferenceCount(def, exts, x);
    }
    OnlyLength(diff, def);
    CostIsOccurrences(def, exts, diff);
  }

  lemma {:induction false} SameCost(def: seq<string>, s: seq<string>, t: seq<string>)
    requires forall x :: x in def ==> Count(s, x) == Count(t, x)
    ensures Cost(def, s) == Cost(def, t)
  {
    if def != [] {
      assert forall x :: x in def[1..] ==> x in def;
      SameCost(def[1..], s, t);
      assert Count(s, def[0]) == Count(t, def[0]);
    }
  }

  lemma {:induction false} CostAtLeast(def: seq<string>, s: seq<string>)
    ensures Cost(def, s) >= |Without(def, s)|
  {
    if def != [] {
      CostAtLeast(def[1..], s);
    }
  }

  /** Without repetitions only missing extensions count. */
  lemma {:induction false} CostOnce(def: seq<string>, request: seq<string>)
    requires NoDup(request)
    ensures Cost(def, request) == |Without(def, request)|
  {
    if def != [] {
      CostOnce(def[1..], request);
      CountOnce(request, def[0]);
    }
  }

  // ----- which groups are used -----

  /** What the choice knows on its way through disjoint groups. */
  ghost predicate OnTheWay(groups: seq<seq<string>>, request: seq<string>, i: nat, g: Grouping) {
    && Exact(groups, request, i, g)
    && forall k: nat :: k in g.chosen <==> k < i && k < |groups| && Worth(groups[k], request)
  }

  lemma CostLeft(groups: seq<seq<string>>, request: seq<string>, i: nat, k: nat, g: Grouping)
    requires i <= k < |groups| && Disjoint(groups) && Exact(groups, request, i, g)
    ensures Cost(groups[k], g.exts) == Cost(groups[k], request)
  {
    forall x | x in groups[k] ensures Count(g.exts, x) == Count(request, x) {
      assert !InChosen(groups, g.chosen, x);
    }
    SameCost(groups[k], g.exts, request);
  }

  lemma TryOnTheWay(groups: seq<seq<string>>, request: seq<string>, i: nat, g: Grouping)
    requires i < |groups| && AllAscending(groups) && Disjoint(groups) && OnTheWay(groups, request, i, g)
    ensures OnTheWay(groups, request, i + 1, Tried(groups[i], i, g))
    ensures |Removals(groups[i], g.exts)| <= 2 <==> Worth(groups[i], request)
  {
    CostLeft(groups, request, i, i, g);
    RemovalsCost(groups[i], g.exts);
    TryExact(groups, request, i, g);
  }

  /** Two extensions or fewer never make up another group. */
  lemma FewNotWorth(groups: seq<seq<string>>, request: seq<string>, i: nat, k: nat, g: Grouping)
    requires i <= k < |groups| && Regular(groups) && Exact(groups, request, i, g) && |g.exts| <= 2
    ensures !Worth(groups[k], request)
  {
    var def := groups[k];
    CostLeft(groups, request, i, k, g);
    CostAtLeast(def, g.exts);
    OnlyAndWithout(def, g.exts);
    OnlyAscends(def, g.exts);
    AscendingOnce(Only(def, g.exts));
    Pigeonhole(Only(def, g.exts), g.exts);
  }

  /** Exactly the groups that are worth it are chosen. */
  ghost predicate ChosenWorth(groups: seq<seq<string>>, request: seq<string>, chosen: set<nat>) {
    forall k: nat :: k in chosen <==> k < |groups| && Worth(groups[k], request)
  }

  lemma EndsWorth(groups: seq<seq<string>>, request: seq<string>, i: nat, g: Grouping)
    requires i <= |groups| && Regular(groups) && OnTheWay(groups, request, i, g) && (i < |groups| ==> |g.exts| <= 2)
    ensures ChosenWorth(groups, request, g.chosen)
  {
    forall k: nat | i <= k < |groups| ensures !Worth(groups[k], request) {
      FewNotWorth(groups, request, i, k, g);
    }
  }

  lemma {:induction false} ChooseWorth(groups: seq<seq<string>>, request: seq<string>, i: nat, g: Grouping, c: Grouping)
    requires i <= |groups| && Regular(groups) && OnTheWay(groups, request, i, g) && c == Choose(groups, i, g)
    ensures ChosenWorth(groups, request, c.chosen)
    decreases |groups| - i
  {
    if i == |groups| {
      EndsWorth(groups, request, i, g);
    } else {
      var n := Tried(groups[i], i, g);
      TryOnTheWay(groups, request, i, g);
      if c == n && |n.exts| <= 2 {
        EndsWorth(groups, request, i + 1, n);
      } else {
        ChooseOn(groups, i, g, n, c);
        ChooseWorth(groups, request, i + 1, n, c);
      }
    }
  }

  /** The choice ends with few extensions left, or goes on. */
  lemma ChooseOn(groups: seq<seq<string>>, i: nat, g: Grouping, n: Grouping, c: Grouping)
    requires i < |groups| && n == Tried(groups[i], i, g) && c == Choose(groups, i, g)
    ensures (c == n && |n.exts| <= 2) || c == Choose(groups, i + 1, n)
  {
  }

  /** In a group that is used. */
  predicate InUsed(groups: seq<seq<string>>, request: seq<string>, x: string) {
    exists k :: 0 <= k < |groups| && x in groups[k] && Worth(groups[k], request)
  }

  /** The extension is requested more than once, and in a group that is used. */
  predicate Lost(groups: seq<seq<string>>, request: seq<string>, x: string) {
    Repeated(request, x) && InUsed(groups, request, x)
  }

  /** For any request: a group is used exactly if that takes two removals at most, and the query asks for everything
      that was requested except what is requested more than once and in a group that is used. */
  lemma RepeatsExact(groups: seq<seq<string>>, request: seq<string>)
    requires Regular(groups)
    ensures var g := Grouped(groups, request);
            && (forall k: nat :: k in g.chosen <==> k < |groups| && Worth(groups[k], request))
            && (forall x :: Asks(groups, g, x) <==> x in request && !Lost(groups, request, x))
  {
    var g := Grouped(groups, request);
    StartExact(groups, request);
    ChooseWorth(groups, request, 0, Grouping({}, Sort(request), []), g);
    QueryExact(groups, request);
    forall x ensures Doubled(groups, request, g.chosen, x) <==> Lost(groups, request, x) {
      DoubledIsLost(groups, request, g.chosen, x);
    }
  }

  lemma DoubledIsLost(groups: seq<seq<string>>, request: seq<string>, chosen: set<nat>, x: string)
    requires Disjoint(groups) && ChosenWorth(groups, request, chosen)
    ensures Doubled(groups, request, chosen, x) <==> Lost(groups, request, x)
  {
    assert !InTwoChosen(groups, chosen, x);
    ChosenIsUsed(groups, request, chosen, x);
  }

  lemma ChosenIsUsed(groups: seq<seq<string>>, request: seq<string>, chosen: set<nat>, x: string)
    requires ChosenWorth(groups, request, chosen)
    ensures InChosen(groups, chosen, x) <==> InUsed(groups, request, x)
  {
    if InUsed(groups, request, x) {
      var k: nat :| k < |groups| && x in groups[k] && Worth(groups[k], request);
      assert k in chosen;
    }
  }

  // ----- a request that loses an extension -----

  lemma {:induction false} CostOfTwice(def: seq<string>, request: seq<string>, x: string)
    requires NoDup(def) && forall y :: y in def ==> Count(request, y) == if y == x then 2 else 1
    ensures Cost(def, request) == if x in def then 1 else 0
  {
    if def != [] {
      assert def[0] !in def[1..] && Count(request, def[0]) > 0;
      assert forall y :: y in def[1..] ==> y in def;
      CostOfTwice(def[1..], request, x);
    }
  }

  /** A whole group with one of its extensions named twice: that one is not asked for. */
  lemma TwiceIsLost(groups: seq<seq<string>>, k: nat, x: string)
    requires Regular(groups) && k < |groups| && x in groups[k]
    ensures Lost(groups, groups[k] + [x], x) && !Asks(groups, Grouped(groups, groups[k] + [x]), x)
  {
    var def, request := groups[k], groups[k] + [x];
    AscendingOnce(def);
    forall y | y in def ensures Count(request, y) == if y == x then 2 else 1 {
      CountOnce(def, y);
      CountMore(def, x, y);
    }
    CostOfTwice(def, request, x);
    RepeatsExact(groups, request);
  }
}
