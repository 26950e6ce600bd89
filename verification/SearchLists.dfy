/** Lists of file-name extensions: their order, merging two of them, sorting, and how often an extension occurs. */
module SearchLists {
  import opened Collections

  // ----- the order of extensions -----

  /** Alphabetical order, strictly. */
  predicate Below(a: string, b: string) {
    b != "" && (a == "" || a[0] < b[0] || (a[0] == b[0] && Below(a[1..], b[1..])))
  }

  lemma {:induction false} BelowIrreflexive(a: string)
    ensures !Below(a, a)
  {
    if a != "" {
      BelowIrreflexive(a[1..]);
    }
  }

  lemma {:induction false} BelowTransitive(a: string, b: string, c: string)
    requires Below(a, b) && Below(b, c)
    ensures Below(a, c)
  {
    if a != "" && a[0] == b[0] == c[0] {
      BelowTransitive(a[1..], b[1..], c[1..]);
    }
  }

  lemma {:induction false} BelowTotal(a: string, b: string)
    ensures a == b || Below(a, b) || Below(b, a)
  {
    if a != "" && b != "" && a[0] == b[0] {
      BelowTotal(a[1..], b[1..]);
      if a[1..] == b[1..] {
        assert a == [a[0]] + a[1..] && b == [b[0]] + b[1..];
      }
    }
  }

  predicate Ascending(s: seq<string>) {
    forall j, k :: 0 <= j < k < |s| ==> Below(s[j], s[k])
  }

  lemma BelowAll(x: string, s: seq<string>)
    requires Ascending(s) && s != [] && Below(x, s[0])
    ensures x !in s
  {
    forall k | 0 <= k < |s| ensures x != s[k] {
      BelowIrreflexive(x);
      if k > 0 {
        BelowTransitive(x, s[0], s[k]);
      }
    }
  }

  // ----- merging two lists -----

  /** What the standard algorithm for the symmetric difference leaves of two lists, sorted or not. */
  function SymmetricDifference(a: seq<string>, b: seq<string>): seq<string> {
    if a == [] then b else if b == [] then a
    else if Below(a[0], b[0]) then [a[0]] + SymmetricDifference(a[1..], b)
    else if Below(b[0], a[0]) then [b[0]] + SymmetricDifference(a, b[1..])
    else SymmetricDifference(a[1..], b[1..])
  }

  /** The members of s that are in def, in order. */
  function Only(s: seq<string>, def: seq<string>): (r: seq<string>)
    ensures forall x :: x in r <==> x in s && x in def
  {
    if s == [] then [] else (if s[0] in def then [s[0]] else []) + Only(s[1..], def)
  }

  /** The members of s that are not in def, in order. */
  function Without(s: seq<string>, def: seq<string>): (r: seq<string>)
    ensures forall x :: x in r <==> x in s && x !in def
  {
    if s == [] then [] else (if s[0] in def then [] else [s[0]]) + Without(s[1..], def)
  }

  lemma {:induction false} WithoutBoth(a: seq<string>, b: seq<string>, def: seq<string>)
    ensures Without(a + b, def) == Without(a, def) + Without(b, def)
  {
    if a == [] {
      assert a + b == b;
    } else {
      assert (a + b)[0] == a[0] && (a + b)[1..] == a[1..] + b;
      WithoutBoth(a[1..], b, def);
    }
  }

  /** Whatever the lists, what is not in the first group list stays of the second, in order. */
  lemma {:induction false} DifferenceKeeps(a: seq<string>, b: seq<string>, def: seq<string>)
    requires forall x :: x in a ==> x in def
    ensures Without(SymmetricDifference(a, b), def) == Without(b, def)
    decreases |a| + |b|
  {
    var d := SymmetricDifference(a, b);
    if a == [] {
    } else if b == [] {
      NothingWithout(a, def);
    } else if Below(a[0], b[0]) {
      DifferenceKeeps(a[1..], b, def);
      assert d[1..] == SymmetricDifference(a[1..], b);
    } else if Below(b[0], a[0]) {
      DifferenceKeeps(a, b[1..], def);
      assert d[1..] == SymmetricDifference(a, b[1..]);
    } else {
      BelowTotal(a[0], b[0]);
      DifferenceKeeps(a[1..], b[1..], def);
    }
  }

  lemma NothingWithout(a: seq<string>, def: seq<string>)
    requires forall x :: x in a ==> x in def
    ensures Without(a, def) == []
  {
    if Without(a, def) != [] {
      assert Without(a, def)[0] in Without(a, def);
    }
  }

  lemma {:induction false} DifferenceMembers(a: seq<string>, b: seq<string>, x: string)
    ensures x in a && x !in b ==> x in SymmetricDifference(a, b)
    ensures x in SymmetricDifference(a, b) ==> x in a || x in b
    decreases |a| + |b|
  {
    if a == [] || b == [] {
    } else if Below(a[0], b[0]) {
      DifferenceMembers(a[1..], b, x);
    } else if Below(b[0], a[0]) {
      DifferenceMembers(a, b[1..], x);
    } else {
      BelowTotal(a[0], b[0]);
      DifferenceMembers(a[1..], b[1..], x);
    }
  }

  /** On ascending lists it is the symmetric difference. */
  lemma {:induction false} DifferenceExact(a: seq<string>, b: seq<string>, x: string)
    requires Ascending(a) && Ascending(b)
    ensures x in SymmetricDifference(a, b) <==> ((x in a) != (x in b))
    decreases |a| + |b|
  {
    if a == [] || b == [] {
    } else if Below(a[0], b[0]) {
      BelowAll(a[0], b);
      HeadOnce(a);
      DifferenceExact(a[1..], b, x);
    } else if Below(b[0], a[0]) {
      BelowAll(b[0], a);
      HeadOnce(b);
      DifferenceExact(a, b[1..], x);
    } else {
      BelowTotal(a[0], b[0]);
      HeadOnce(a);
      HeadOnce(b);
      DifferenceExact(a[1..], b[1..], x);
    }
  }

  lemma HeadOnce(a: seq<string>)
    requires Ascending(a) && a != []
    ensures a[0] !in a[1..] && Ascending(a[1..])
  {
    if |a| > 1 {
      BelowAll(a[0], a[1..]);
    }
  }

  // ----- sorting the request -----

  function InsertSorted(x: string, s: seq<string>): (r: seq<string>)
    ensures forall y :: y in r <==> y == x || y in s
  {
    if s == [] || !Below(s[0], x) then [x] + s else [s[0]] + InsertSorted(x, s[1..])
  }

  function Sort(s: seq<string>): (r: seq<string>)
    ensures forall y :: y in r <==> y in s
    ensures |r| == |s|
  {
    if s == [] then [] else InsertedLength(s[0], Sort(s[1..])); InsertSorted(s[0], Sort(s[1..]))
  }

  lemma {:induction false} InsertedLength(x: string, s: seq<string>)
    ensures |InsertSorted(x, s)| == |s| + 1
  {
    if s != [] && Below(s[0], x) {
      InsertedLength(x, s[1..]);
    }
  }

  lemma {:induction false} InsertAscends(x: string, s: seq<string>)
    requires Ascending(s) && x !in s
    ensures Ascending(InsertSorted(x, s))
  {
    if s == [] {
    } else if Below(s[0], x) {
      HeadOnce(s);
      InsertAscends(x, s[1..]);
      ConsAscends(s[0], InsertSorted(x, s[1..]));
    } else {
      BelowTotal(s[0], x);
      forall y | y in s ensures Below(x, y) {
        var k :| 0 <= k < |s| && s[k] == y;
        if k > 0 {
          BelowTransitive(x, s[0], s[k]);
        }
      }
      ConsAscends(x, s);
    }
  }

  lemma ConsAscends(x: string, s: seq<string>)
    requires Ascending(s) && forall y :: y in s ==> Below(x, y)
    ensures Ascending([x] + s)
  {
  }

  lemma {:induction false} SortAscends(s: seq<string>)
    requires NoDup(s)
    ensures Ascending(Sort(s))
  {
    if s != [] {
      SortAscends(s[1..]);
      InsertAscends(s[0], Sort(s[1..]));
    }
  }

  lemma {:induction false} WithoutAscends(s: seq<string>, def: seq<string>)
    requires Ascending(s)
    ensures Ascending(Without(s, def))
  {
    if s != [] {
      WithoutAscends(s[1..], def);
      if s[0] !in def {
        forall y | y in s[1..] ensures Below(s[0], y) {
          var k :| 1 <= k < |s| && s[k] == y;
        }
        ConsAscends(s[0], Without(s[1..], def));
      }
    }
  }

  // ----- lists with repetitions -----

  lemma AscendingOnce(s: seq<string>)
    requires Ascending(s)
    ensures NoDup(s)
  {
    forall j, k | 0 <= j < k < |s| ensures s[j] != s[k] {
      BelowIrreflexive(s[j]);
    }
  }

  /** Sorted, perhaps with repetitions. */
  predicate Rising(s: seq<string>) {
    forall j, k :: 0 <= j < k < |s| ==> !Below(s[k], s[j])
  }

  function Count(s: seq<string>, x: string): (c: nat)
    ensures c > 0 <==> x in s
  {
    if s == [] then 0 else (if s[0] == x then 1 else 0) + Count(s[1..], x)
  }

  predicate Repeated(s: seq<string>, x: string) {
    Count(s, x) > 1
  }

  lemma {:induction false} CountOnce(s: seq<string>, x: string)
    requires NoDup(s)
    ensures Count(s, x) == if x in s then 1 else 0
  {
    if s != [] {
      CountOnce(s[1..], x);
      assert s[0] !in s[1..];
    }
  }

  lemma {:induction false} CountMore(s: seq<string>, y: string, x: string)
    ensures Count(s + [y], x) == Count(s, x) + if y == x then 1 else 0
  {
    if s != [] {
      assert (s + [y])[1..] == s[1..] + [y];
      CountMore(s[1..], y, x);
    } else {
      assert [y][1..] == [];
      assert s + [y] == [y];
    }
  }

  lemma {:induction false} InsertedCount(y: string, s: seq<string>, x: string)
    ensures Count(InsertSorted(y, s), x) == Count(s, x) + if y == x then 1 else 0
  {
    if s != [] && Below(s[0], y) {
      InsertedCount(y, s[1..], x);
    }
  }

  lemma {:induction false} SortCount(s: seq<string>, x: string)
    ensures Count(Sort(s), x) == Count(s, x)
  {
    if s != [] {
      SortCount(s[1..], x);
      InsertedCount(s[0], Sort(s[1..]), x);
    }
  }

  lemma {:induction false} WithoutCount(s: seq<string>, def: seq<string>, x: string)
    ensures Count(Without(s, def), x) == if x in def then 0 else Count(s, x)
  {
    if s != [] {
      var rest := Without(s[1..], def);
      WithoutCount(s[1..], def, x);
      assert [] + rest == rest && ([s[0]] + rest)[1..] == rest;
    }
  }

  lemma NotAbove(x: string, y: string, z: string)
    requires !Below(y, x) && !Below(z, y)
    ensures !Below(z, x)
  {
    BelowTotal(x, y);
    BelowTotal(y, z);
    if Below(z, x) {
      if Below(x, y) { BelowTransitive(z, x, y); }
    }
  }

  lemma ConsRises(x: string, s: seq<string>)
    requires Rising(s) && forall y :: y in s ==> !Below(y, x)
    ensures Rising([x] + s)
  {
  }

  lemma RisingFrom(s: seq<string>, x: string)
    requires Rising(s) && (s == [] || !Below(s[0], x))
    ensures forall y :: y in s ==> !Below(y, x)
  {
    forall y | y in s ensures !Below(y, x) {
      var k :| 0 <= k < |s| && s[k] == y;
      if k > 0 {
        NotAbove(x, s[0], y);
      }
    }
  }

  lemma {:induction false} InsertRises(x: string, s: seq<string>)
    requires Rising(s)
    ensures Rising(InsertSorted(x, s))
  {
    if s != [] && Below(s[0], x) {
      InsertRises(x, s[1..]);
      BelowIrreflexive(s[0]);
      RisingFrom(s, s[0]);
      NotBelowBoth(s[0], x);
      ConsRises(s[0], InsertSorted(x, s[1..]));
    } else {
      RisingFrom(s, x);
      ConsRises(x, s);
    }
  }

  lemma NotBelowBoth(x: string, y: string)
    requires Below(x, y)
    ensures !Below(y, x)
  {
    if Below(y, x) {
      BelowTransitive(x, y, x);
      BelowIrreflexive(x);
    }
  }

  lemma {:induction false} SortRises(s: seq<string>)
    ensures Rising(Sort(s))
  {
    if s != [] {
      SortRises(s[1..]);
      InsertRises(s[0], Sort(s[1..]));
    }
  }

  lemma {:induction false} WithoutRises(s: seq<string>, def: seq<string>)
    requires Rising(s)
    ensures Rising(Without(s, def))
  {
    if s != [] {
      WithoutRises(s[1..], def);
      if s[0] !in def {
        BelowIrreflexive(s[0]);
        RisingFrom(s, s[0]);
        ConsRises(s[0], Without(s[1..], def));
      }
    }
  }

  lemma AscendingRises(s: seq<string>)
    requires Ascending(s)
    ensures Rising(s)
  {
    forall j, k | 0 <= j < k < |s| ensures !Below(s[k], s[j]) {
      NotBelowBoth(s[j], s[k]);
    }
  }

  lemma NotThere(s: seq<string>, x: string)
    requires Rising(s) && (s == [] || Below(x, s[0]))
    ensures Count(s, x) == 0
  {
    if s != [] {
      BelowIrreflexive(s[0]);
      RisingFrom(s, s[0]);
    }
  }

  /** On sorted lists every extension is left as often as it is more often in one of the two. */
  lemma {:induction false} DifferenceCount(a: seq<string>, b: seq<string>, x: string)
    requires Rising(a) && Rising(b)
    ensures Count(SymmetricDifference(a, b), x) == if Count(a, x) > Count(b, x) then Count(a, x) - Count(b, x)
                                                   else Count(b, x) - Count(a, x)
    decreases |a| + |b|
  {
    if a == [] || b == [] {
    } else if Below(a[0], b[0]) {
      NotThere(b, a[0]);
      DifferenceCount(a[1..], b, x);
    } else if Below(b[0], a[0]) {
      NotThere(a, b[0]);
      DifferenceCount(a, b[1..], x);
    } else {
      BelowTotal(a[0], b[0]);
      DifferenceCount(a[1..], b[1..], x);
    }
  }
}
