/** The order that lists of names are shown in: numbers by value, times by duration, paths by depth, letters without
    regard to case. Strings are ASCII without NUL. */
module NaturalCompare {
  import opened Collections

  predicate Plain(s: string) {
    forall i :: 0 <= i < |s| ==> '\0' < s[i] < 128 as char
  }

  predicate IsDigit(c: char) {
    '0' <= c <= '9'
  }

  predicate IsLetter(c: char) {
    'a' <= c <= 'z' || 'A' <= c <= 'Z'
  }

  function Lower(c: char): char {
    if 'A' <= c <= 'Z' then (c as int + 32) as char else c
  }

  /** Capitals become the small letters, and nothing else changes. */
  lemma LowerCase(c: char)
    ensures 'A' <= c <= 'Z' ==> Lower(c) as int - 'a' as int == c as int - 'A' as int
    ensures !('A' <= c <= 'Z') ==> Lower(c) == c
  {
  }

  /** Whether there is a digit at p. */
  predicate Numeric(s: string, p: nat) {
    p < |s| && IsDigit(s[p])
  }

  /** Where the characters of a kind from p on end. */
  function End(s: string, p: nat, kind: char -> bool): (q: nat)
    requires p <= |s|
    ensures p <= q <= |s| && (forall i :: p <= i < q ==> kind(s[i])) && (q < |s| ==> !kind(s[q]))
    decreases |s| - p
  {
    if p == |s| || !kind(s[p]) then p else End(s, p + 1, kind)
  }

  lemma EndIs(s: string, p: nat, kind: char -> bool, q: nat)
    requires p <= q <= |s| && (forall i :: p <= i < q ==> kind(s[i])) && (q < |s| ==> !kind(s[q]))
    ensures End(s, p, kind) == q
  {
  }

  predicate IsZero(c: char) {
    c == '0'
  }

  predicate IsBlank(c: char) {
    c == ' ' || c == '\t'
  }

  // ----- directory depth -----

  predicate IsSeparator(c: char) {
    c == '/' || c == '\\'
  }

  /** Segment i begins at position i. */
  predicate Begins(s: string, i: nat)
    requires i < |s|
  {
    !IsSeparator(s[i]) && (i == 0 || IsSeparator(s[i - 1]))
  }

  function Beginnings(s: string): set<nat> {
    set i: nat | i < |s| && Begins(s, i)
  }

  /** The number of non-empty segments, or 0 without any separator. */
  function Depth(s: string): nat {
    if exists i :: 0 <= i < |s| && IsSeparator(s[i]) then |Beginnings(s)| else 0
  }

  lemma NoBeginnings()
    ensures Beginnings("") == {}
  {
  }

  /** A piece without separators is one segment. */
  lemma OneSegment(s: string)
    requires s != "" && '/' !in s && '\\' !in s
    ensures Beginnings(s) == {0}
  {
    forall i: nat | i < |s| ensures !IsSeparator(s[i]) {
      assert s[i] in s;
    }
  }

  /** What is behind a separator has its segments whatever is in front: counting them adds up. */
  lemma SegmentsAddUp(x: string, c: char, y: string)
    requires c == '/' || c == '\\'
    ensures |Beginnings(x + [c] + y)| == |Beginnings(x)| + |Beginnings(y)|
  {
    var s, n := x + [c] + y, |x| + 1;
    var front, back := Beginnings(x), Beginnings(y);
    var moved := set i | i in back :: i + n;
    MovedSize(back, n, moved);
    forall i: nat ensures i in Beginnings(s) <==> i in front || i in moved {
      if i < |x| {
        assert s[i] == x[i] && (i > 0 ==> s[i - 1] == x[i - 1]);
      } else if i >= n && i < |s| {
        assert s[i] == y[i - n] && s[i - 1] == if i == n then c else y[i - n - 1];
        assert i in moved <==> i - n in back;
      }
    }
    assert Beginnings(s) == front + moved && front !! moved;
  }

  lemma {:induction false} MovedSize(a: set<nat>, n: nat, moved: set<nat>)
    requires moved == set i | i in a :: i + n
    ensures |moved| == |a|
  {
    if a != {} {
      var x :| x in a;
      assert x + n in moved;
      var rest := set i | i in a - {x} :: i + n;
      forall y ensures y in rest <==> y in moved - {x + n} {
        if y in moved - {x + n} {
          var i :| i in a && i + n == y;
          assert i in a - {x};
        }
      }
      assert rest == moved - {x + n};
      MovedSize(a - {x}, n, rest);
    }
  }

  /** A text with a separator is as deep as it has segments, any other counts as flat. */
  lemma DepthIsSegments(s: string)
    ensures Depth(s) == if '/' in s || '\\' in s then |Beginnings(s)| else 0
  {
    if '/' in s || '\\' in s {
      var i :| 0 <= i < |s| && (s[i] == '/' || s[i] == '\\');
      assert IsSeparator(s[i]);
    }
  }

  method PathDepth(s: string) returns (depth: nat)
    ensures depth == Depth(s)
  {
    depth := 0;
    var inSeg, hasSep := false, false;
    assert Beginnings(s[..0]) == {};
    for i := 0 to |s|
      invariant depth == |Beginnings(s[..i])|
      invariant hasSep <==> exists j :: 0 <= j < i && IsSeparator(s[j])
      invariant inSeg <==> i > 0 && !IsSeparator(s[i - 1])
    {
      BeginningsMore(s, i);
      if IsSeparator(s[i]) {
        hasSep := true;
        inSeg := false;
      } else if !inSeg {
        inSeg := true;
        depth := depth + 1;
      }
    }
    assert s[..|s|] == s;
    if !hasSep {
      depth := 0;
    }
  }

  lemma BeginningsMore(s: string, i: nat)
    requires i < |s|
    ensures |Beginnings(s[..i + 1])| == |Beginnings(s[..i])| + if Begins(s, i) then 1 else 0
  {
    var before, after := Beginnings(s[..i]), Beginnings(s[..i + 1]);
    forall j: nat ensures j in after <==> j in before || (j == i && Begins(s, i)) {
      if j < i {
        assert s[..i][j] == s[..i + 1][j] == s[j];
      }
    }
    if Begins(s, i) {
      assert after == before + {i};
    } else {
      assert after == before;
    }
  }

  // ----- durations -----

  /** Milliseconds, and where the text that stands for them ends. */
  datatype Span = Span(ms: nat, end: nat)

  const UINT64 := 0x1_0000_0000_0000_0000

  /** The unit is at p in either case, and does not go on as a longer word. */
  predicate UnitHere(s: string, p: nat, unit: string)
    decreases |unit|
  {
    if unit == "" then p <= |s| && (p < |s| ==> !IsLetter(s[p]))
    else p < |s| && Lower(s[p]) == unit[0] && UnitHere(s, p + 1, unit[1..])
  }

  lemma {:induction false} UnitFits(s: string, p: nat, unit: string)
    requires UnitHere(s, p, unit)
    ensures p + |unit| <= |s|
    decreases |unit|
  {
    if unit != "" {
      UnitFits(s, p + 1, unit[1..]);
    }
  }

  /** The unit stands at p in capitals or small letters, and what follows is no letter. */
  lemma {:induction false} UnitMeans(s: string, p: nat, unit: string)
    ensures UnitHere(s, p, unit) <==>
              && p + |unit| <= |s| && (forall i :: 0 <= i < |unit| ==> Lower(s[p + i]) == unit[i])
              && (p + |unit| < |s| ==> !IsLetter(s[p + |unit|]))
    decreases |unit|
  {
    if unit != "" {
      UnitMeans(s, p + 1, unit[1..]);
      if UnitHere(s, p, unit) {
        forall i | 0 <= i < |unit| ensures Lower(s[p + i]) == unit[i] {
          if i > 0 { assert unit[i] == unit[1..][i - 1]; }
        }
      }
      if p < |s| && p + |unit| <= |s| && (forall i :: 0 <= i < |unit| ==> Lower(s[p + i]) == unit[i]) {
        forall i | 0 <= i < |unit| - 1 ensures Lower(s[p + 1 + i]) == unit[1..][i] {
          assert unit[1..][i] == unit[i + 1] && p + 1 + i == p + (i + 1);
        }
      }
    }
  }

  const UNITS := 6

  function UnitName(k: nat): (name: string)
    requires k < UNITS
    ensures name != ""
  {
    match k case 0 => "min" case 1 => "ms" case 2 => "mn" case 3 => "h" case 4 => "s" case _ => "d"
  }

  function UnitMs(k: nat): nat
    requires k < UNITS
  {
    match k case 0 => 60000 case 1 => 1 case 2 => 60000 case 3 => 3600000 case 4 => 1000 case _ => 86400000
  }

  /** The first unit from number k on that is at p. */
  function UnitFrom(s: string, p: nat, k: nat): (u: Option<Span>)
    requires k <= UNITS
    ensures u.Some? ==> p < u.value.end <= |s|
    decreases UNITS - k
  {
    if k == UNITS then None
    else if UnitHere(s, p, UnitName(k)) then UnitFits(s, p, UnitName(k)); Some(Span(UnitMs(k), p + |UnitName(k)|))
    else UnitFrom(s, p, k + 1)
  }

  function TimeUnit(s: string, p: nat): Option<Span> {
    UnitFrom(s, p, 0)
  }

  /** Addition and multiplication of 64 bits. */
  function Plus(a: nat, b: nat): nat {
    (a + b) % UINT64
  }

  function Times(a: nat, b: nat): nat {
    a * b % UINT64
  }

  function Digit(c: char): nat {
    if IsDigit(c) then c as int - '0' as int else 0
  }

  /** The value of the digits from p to q, as far as it fits. */
  function Value(s: string, p: nat, q: nat): nat
    requires p <= q <= |s|
    decreases q - p
  {
    if p == q then 0 else Plus(Value(s, p, q - 1) * 10, Digit(s[q - 1]))
  }

  /** The digits from number to behind with the unit at p. */
  function TokenOf(s: string, number: nat, behind: nat, p: nat): (t: Option<Span>)
    requires number <= behind <= p <= |s|
    ensures t.Some? ==> p < t.value.end <= |s|
  {
    var unit := TimeUnit(s, p);
    if number == behind || unit == None then None
    else Some(Span(Times(Value(s, number, behind), unit.value.ms), unit.value.end))
  }

  /** One number with its unit, after blanks. */
  function Token(s: string, p: nat): (t: Option<Span>)
    requires p <= |s|
    ensures t.Some? ==> p < t.value.end <= |s|
  {
    var number := End(s, p, IsBlank);
    var behind := End(s, number, IsDigit);
    TokenOf(s, number, behind, End(s, behind, IsBlank))
  }

  /** Blanks at the end are passed over, unless a number without a unit follows them. */
  function Trailing(s: string, p: nat): (q: nat)
    requires p <= |s|
    ensures p <= q <= |s|
  {
    var q := End(s, p, IsBlank);
    if q < |s| && IsDigit(s[q]) then p else q
  }

  /** All numbers with units that follow one another, added up. */
  function Tokens(s: string, p: nat, total: nat): (t: Span)
    requires p <= |s|
    ensures p <= t.end <= |s|
    decreases |s| - p
  {
    match Token(s, p)
    case None => Span(total, Trailing(s, p))
    case Some(first) => Tokens(s, first.end, Plus(total, first.ms))
  }

  function Duration(s: string, p: nat): (d: Option<Span>)
    requires p <= |s|
    ensures d.Some? ==> p < d.value.end <= |s|
  {
    if Token(s, p) == None then None else Some(Tokens(s, p, 0))
  }

  lemma TokensStep(s: string, p: nat, total: nat, first: Span, sum: nat)
    requires p <= |s| && Token(s, p) == Some(first) && sum == Plus(total, first.ms)
    ensures Tokens(s, p, total) == Tokens(s, first.end, sum)
  {
  }

  // ----- runs of digits -----

  function Sign(less: bool): int {
    if less then -1 else 1
  }

  /** Alphabetical order of two texts of one length. */
  function Compared(x: string, y: string): int
    requires |x| == |y|
  {
    if x == "" then 0 else if x[0] != y[0] then Sign(x[0] < y[0]) else Compared(x[1..], y[1..])
  }

  function RunEnd(s: string, p: nat): (q: nat)
    requires p <= |s|
    ensures p <= q <= |s| && (Numeric(s, p) ==> p < q)
  {
    End(s, p, IsDigit)
  }

  /** The run of digits at p without its leading zeros. */
  function Significant(s: string, p: nat): string
    requires p <= |s|
  {
    var zeros := End(s, p, IsZero);
    s[zeros..End(s, zeros, IsDigit)]
  }

  /** By value; of equal values the one with fewer zeros comes first. */
  function CompareRuns(a: string, i: nat, b: string, j: nat): int
    requires i <= |a| && j <= |b|
  {
    var x, y := Significant(a, i), Significant(b, j);
    var m, n := RunEnd(a, i) - i, RunEnd(b, j) - j;
    if |x| != |y| then Sign(|x| < |y|)
    else if Compared(x, y) != 0 then Compared(x, y)
    else if m != n then Sign(m < n)
    else 0
  }

  // ----- the order -----

  /** The character at p in lower case, and NUL at the end. */
  function Code(s: string, p: nat): int {
    if p < |s| then Lower(s[p]) as int else 0
  }

  /** Where both texts have a digit: the result, unless it is 0, and how far each is dealt with. */
  function CompareNumbers(a: string, i: nat, b: string, j: nat): (r: (int, nat, nat))
    requires Numeric(a, i) && Numeric(b, j)
    ensures i < r.1 <= |a| && j < r.2 <= |b|
  {
    if Duration(a, i).Some? && Duration(b, j).Some? then
      var x, y := Duration(a, i).value, Duration(b, j).value;
      (if x.ms != y.ms then Sign(x.ms < y.ms) else 0, x.end, y.end)
    else (CompareRuns(a, i, b, j), RunEnd(a, i), RunEnd(b, j))
  }

  /** The order of what is from i on and from j on. */
  function Compare(a: string, i: nat, b: string, j: nat): int
    requires Plain(a) && Plain(b) && i <= |a| && j <= |b|
    decreases |a| - i + |b| - j
  {
    if i == |a| && j == |b| then 0
    else if Numeric(a, i) && Numeric(b, j) then
      var (result, m, n) := CompareNumbers(a, i, b, j);
      if result != 0 then result else Compare(a, m, b, n)
    else if Code(a, i) != Code(b, j) then Code(a, i) - Code(b, j)
    else Compare(a, i + 1, b, j + 1)
  }

  /** Fewer segments come first. */
  function Natural(a: string, b: string): int
    requires Plain(a) && Plain(b)
  {
    if Depth(a) != Depth(b) then Sign(Depth(a) < Depth(b)) else Compare(a, 0, b, 0)
  }

  // ----- both directions -----

  lemma {:induction false} ComparedBack(x: string, y: string)
    requires |x| == |y|
    ensures Compared(y, x) == -Compared(x, y) && (Compared(x, y) == 0 <==> x == y)
  {
    if x != "" {
      if x[0] == y[0] {
        ComparedBack(x[1..], y[1..]);
        assert x == [x[0]] + x[1..] && y == [y[0]] + y[1..];
      }
    }
  }

  lemma RunsBack(a: string, i: nat, b: string, j: nat)
    requires i <= |a| && j <= |b|
    ensures CompareRuns(b, j, a, i) == -CompareRuns(a, i, b, j)
  {
    if |Significant(a, i)| == |Significant(b, j)| {
      ComparedBack(Significant(a, i), Significant(b, j));
    }
  }

  lemma NumbersBack(a: string, i: nat, b: string, j: nat)
    requires Numeric(a, i) && Numeric(b, j)
    ensures var (r, m, n) := CompareNumbers(a, i, b, j); CompareNumbers(b, j, a, i) == (-r, n, m)
  {
    RunsBack(a, i, b, j);
  }

  lemma {:induction false} CompareBack(a: string, i: nat, b: string, j: nat)
    requires Plain(a) && Plain(b) && i <= |a| && j <= |b|
    ensures Compare(b, j, a, i) == -Compare(a, i, b, j)
    decreases |a| - i + |b| - j
  {
    if Numeric(a, i) && Numeric(b, j) {
      NumbersBack(a, i, b, j);
      CompareNumbersFirst(a, i, b, j);
      CompareNumbersFirst(b, j, a, i);
      var (r, m, n) := CompareNumbers(a, i, b, j);
      if r == 0 {
        CompareBack(a, m, b, n);
      }
    } else if (i < |a| || j < |b|) && Code(a, i) == Code(b, j) {
      CompareBack(a, i + 1, b, j + 1);
    }
  }

  /** Turning the arguments around turns the result around. */
  lemma NaturalBack(a: string, b: string)
    requires Plain(a) && Plain(b)
    ensures Natural(b, a) == -Natural(a, b)
  {
    CompareBack(a, 0, b, 0);
  }

  // ----- a total order, where durations and other numbers do not mix -----

  /** Opens a number with a time unit. */
  predicate Timed(s: string, p: nat)
    requires p <= |s|
  {
    Duration(s, p).Some?
  }

  /** Where a number ends that is taken as a duration or as digits. */
  function NumberEnd(s: string, p: nat, timed: bool): (q: nat)
    requires Numeric(s, p) && (timed ==> Timed(s, p))
    ensures p < q <= |s|
  {
    if timed then Duration(s, p).value.end else RunEnd(s, p)
  }

  /** The numbers of the text from p on: for each, whether it is a duration. */
  function Kinds(s: string, p: nat): seq<bool>
    requires p <= |s|
    decreases |s| - p
  {
    if p == |s| then []
    else if Numeric(s, p) then [Timed(s, p)] + Kinds(s, NumberEnd(s, p, Timed(s, p)))
    else Kinds(s, p + 1)
  }

  /** As far as both lists go they are the same. */
  predicate Agree(x: seq<bool>, y: seq<bool>) {
    forall n :: 0 <= n < |x| && n < |y| ==> x[n] == y[n]
  }

  lemma AgreeRest(x: seq<bool>, y: seq<bool>)
    requires Agree(x, y) && x != [] && y != []
    ensures x[0] == y[0] && Agree(x[1..], y[1..])
  {
  }

  /** Every digit of the text opens a number with a time unit, or none does. */
  predicate Uniform(s: string, timed: bool) {
    forall i :: 0 <= i < |s| && IsDigit(s[i]) ==> Duration(s, i).Some? == timed
  }

  lemma {:induction false} ComparedChain(x: string, y: string, z: string)
    requires |x| == |y| == |z| && Compared(x, y) <= 0 && Compared(y, z) <= 0
    ensures Compared(x, z) <= 0 && (Compared(x, y) < 0 || Compared(y, z) < 0 ==> Compared(x, z) < 0)
  {
    if x != "" && x[0] == y[0] == z[0] {
      ComparedChain(x[1..], y[1..], z[1..]);
    }
  }

  lemma RunsChain(a: string, i: nat, b: string, j: nat, c: string, k: nat)
    requires i <= |a| && j <= |b| && k <= |c| && CompareRuns(a, i, b, j) <= 0 && CompareRuns(b, j, c, k) <= 0
    ensures CompareRuns(a, i, c, k) <= 0
    ensures CompareRuns(a, i, b, j) < 0 || CompareRuns(b, j, c, k) < 0 ==> CompareRuns(a, i, c, k) < 0
  {
    var x, y, z := Significant(a, i), Significant(b, j), Significant(c, k);
    if |x| == |y| == |z| {
      ComparedChain(x, y, z);
    }
  }

  lemma CodeTells(s: string, p: nat)
    requires Plain(s)
    ensures Numeric(s, p) <==> '0' as int <= Code(s, p) <= '9' as int
    ensures Code(s, p) == 0 <==> p >= |s|
  {
  }

  /** A place in between two others that are not all three numbers. */
  lemma CodesChain(a: string, i: nat, b: string, j: nat, c: string, k: nat)
    requires Plain(a) && Plain(b) && Plain(c) && !(Numeric(a, i) && Numeric(b, j) && Numeric(c, k))
    requires (Numeric(a, i) && Numeric(b, j)) || Code(a, i) <= Code(b, j)
    requires (Numeric(b, j) && Numeric(c, k)) || Code(b, j) <= Code(c, k)
    ensures !(Numeric(a, i) && Numeric(c, k)) && Code(a, i) <= Code(c, k)
    ensures Code(a, i) == Code(c, k) ==> Code(a, i) == Code(b, j) && !Numeric(b, j)
  {
    CodeTells(a, i);
    CodeTells(b, j);
    CodeTells(c, k);
  }

  lemma CompareCodes(a: string, i: nat, b: string, j: nat)
    requires Plain(a) && Plain(b) && i <= |a| && j <= |b| && !(Numeric(a, i) && Numeric(b, j))
    ensures Compare(a, i, b, j) <= 0 ==> Code(a, i) <= Code(b, j)
    ensures Code(a, i) < Code(b, j) ==> Compare(a, i, b, j) < 0
  {
    CodeTells(a, i);
    CodeTells(b, j);
  }

  /** Three numbers of one kind: the results go together, and how far a text is dealt with depends on it alone. */
  lemma NumbersChain(a: string, i: nat, b: string, j: nat, c: string, k: nat, timed: bool)
    requires Numeric(a, i) && Numeric(b, j) && Numeric(c, k) && Timed(a, i) == Timed(b, j) == Timed(c, k) == timed
    requires CompareNumbers(a, i, b, j).0 <= 0 && CompareNumbers(b, j, c, k).0 <= 0
    ensures var ab, bc, ac := CompareNumbers(a, i, b, j), CompareNumbers(b, j, c, k), CompareNumbers(a, i, c, k);
            && ac.0 <= 0 && (ac.0 == 0 ==> ab.0 == 0 && bc.0 == 0)
            && ac.1 == ab.1 == NumberEnd(a, i, timed) && ab.2 == bc.1 == NumberEnd(b, j, timed)
            && bc.2 == ac.2 == NumberEnd(c, k, timed)
  {
    if !timed {
      RunsChain(a, i, b, j, c, k);
    }
  }

  lemma CompareNumbersFirst(a: string, i: nat, b: string, j: nat)
    requires Plain(a) && Plain(b) && Numeric(a, i) && Numeric(b, j)
    ensures var (r, m, n) := CompareNumbers(a, i, b, j);
            Compare(a, i, b, j) == if r != 0 then r else Compare(a, m, b, n)
  {
  }

  lemma CodesStep(a: string, i: nat, b: string, j: nat, c: string, k: nat)
    requires Plain(a) && Plain(b) && Plain(c) && !(Numeric(a, i) && Numeric(b, j) && Numeric(c, k))
    requires i <= |a| && j <= |b| && k <= |c| && Compare(a, i, b, j) <= 0 && Compare(b, j, c, k) <= 0
    ensures Compare(a, i, c, k) > 0 ==>
              && i < |a| && j < |b| && k < |c| && !Numeric(a, i) && !Numeric(b, j) && !Numeric(c, k)
              && Compare(a, i, c, k) == Compare(a, i + 1, c, k + 1)
              && Compare(a, i + 1, b, j + 1) <= 0 && Compare(b, j + 1, c, k + 1) <= 0
  {
    if !(Numeric(a, i) && Numeric(b, j)) { CompareCodes(a, i, b, j); }
    if !(Numeric(b, j) && Numeric(c, k)) { CompareCodes(b, j, c, k); }
    CodesChain(a, i, b, j, c, k);
    CompareCodes(a, i, c, k);
    CodeTells(a, i);
    CodeTells(b, j);
    CodeTells(c, k);
  }

  lemma NumbersStep(a: string, i: nat, b: string, j: nat, c: string, k: nat, timed: bool)
    returns (m: nat, n: nat, o: nat)
    requires Plain(a) && Plain(b) && Plain(c) && Numeric(a, i) && Numeric(b, j) && Numeric(c, k)
    requires Timed(a, i) == Timed(b, j) == Timed(c, k) == timed && Compare(a, i, b, j) <= 0 && Compare(b, j, c, k) <= 0
    ensures m == NumberEnd(a, i, timed) && n == NumberEnd(b, j, timed) && o == NumberEnd(c, k, timed)
    ensures Compare(a, i, c, k) > 0 ==>
              && Compare(a, i, c, k) == Compare(a, m, c, o)
              && Compare(a, m, b, n) <= 0 && Compare(b, n, c, o) <= 0
  {
    CompareNumbersFirst(a, i, b, j);
    CompareNumbersFirst(b, j, c, k);
    CompareNumbersFirst(a, i, c, k);
    NumbersChain(a, i, b, j, c, k, timed);
    m, n, o := NumberEnd(a, i, timed), NumberEnd(b, j, timed), NumberEnd(c, k, timed);
  }

  lemma KindsNumber(s: string, p: nat, x: seq<bool>)
    requires Numeric(s, p) && x == Kinds(s, p)
    ensures x != [] && x[0] == Timed(s, p) && x[1..] == Kinds(s, NumberEnd(s, p, Timed(s, p)))
  {
  }

  lemma KindsOther(s: string, p: nat)
    requires p < |s| && !Numeric(s, p)
    ensures Kinds(s, p + 1) == Kinds(s, p)
  {
  }

  /** The kinds of the numbers ahead in three texts, from these places on. */
  predicate Ahead(a: string, i: nat, b: string, j: nat, c: string, k: nat, x: seq<bool>, y: seq<bool>, z: seq<bool>)
    requires i <= |a| && j <= |b| && k <= |c|
  {
    x == Kinds(a, i) && y == Kinds(b, j) && z == Kinds(c, k) && Agree(x, y) && Agree(y, z) && Agree(x, z)
  }

  lemma AheadNumbers(a: string, i: nat, b: string, j: nat, c: string, k: nat, x: seq<bool>, y: seq<bool>, z: seq<bool>)
    requires Numeric(a, i) && Numeric(b, j) && Numeric(c, k) && Ahead(a, i, b, j, c, k, x, y, z)
    ensures x != [] && y != [] && z != [] && Timed(a, i) == Timed(b, j) == Timed(c, k) == x[0]
    ensures Ahead(a, NumberEnd(a, i, x[0]), b, NumberEnd(b, j, x[0]), c, NumberEnd(c, k, x[0]), x[1..], y[1..], z[1..])
  {
    KindsNumber(a, i, x);
    KindsNumber(b, j, y);
    KindsNumber(c, k, z);
    AgreeRest(x, y);
    AgreeRest(y, z);
    AgreeRest(x, z);
  }

  lemma AheadCodes(a: string, i: nat, b: string, j: nat, c: string, k: nat, x: seq<bool>, y: seq<bool>, z: seq<bool>)
    requires i < |a| && j < |b| && k < |c| && !Numeric(a, i) && !Numeric(b, j) && !Numeric(c, k)
    requires Ahead(a, i, b, j, c, k, x, y, z)
    ensures Ahead(a, i + 1, b, j + 1, c, k + 1, x, y, z)
  {
    KindsOther(a, i);
    KindsOther(b, j);
    KindsOther(c, k);
  }

  lemma {:induction false} ChainNumbers(a: string, i: nat, b: string, j: nat, c: string, k: nat,
                                        x: seq<bool>, y: seq<bool>, z: seq<bool>)
    requires Plain(a) && Plain(b) && Plain(c) && i <= |a| && j <= |b| && k <= |c| && Ahead(a, i, b, j, c, k, x, y, z)
    requires Compare(a, i, b, j) <= 0 && Compare(b, j, c, k) <= 0
    requires Numeric(a, i) && Numeric(b, j) && Numeric(c, k)
    ensures Compare(a, i, c, k) <= 0
    decreases |a| - i + |b| - j + |c| - k, 0
  {
    AheadNumbers(a, i, b, j, c, k, x, y, z);
    var m, n, o := NumbersStep(a, i, b, j, c, k, x[0]);
    if Compare(a, i, c, k) > 0 {
      CompareChain(a, m, b, n, c, o, x[1..], y[1..], z[1..]);
    }
  }

  lemma {:induction false} ChainCodes(a: string, i: nat, b: string, j: nat, c: string, k: nat,
                                      x: seq<bool>, y: seq<bool>, z: seq<bool>)
    requires Plain(a) && Plain(b) && Plain(c) && i < |a| && j < |b| && k < |c| && Ahead(a, i, b, j, c, k, x, y, z)
    requires !Numeric(a, i) && !Numeric(b, j) && !Numeric(c, k)
    requires Compare(a, i + 1, b, j + 1) <= 0 && Compare(b, j + 1, c, k + 1) <= 0
    ensures Compare(a, i + 1, c, k + 1) <= 0
    decreases |a| - i + |b| - j + |c| - k, 0
  {
    AheadCodes(a, i, b, j, c, k, x, y, z);
    CompareChain(a, i + 1, b, j + 1, c, k + 1, x, y, z);
  }

  lemma {:induction false} CompareChain(a: string, i: nat, b: string, j: nat, c: string, k: nat,
                                        x: seq<bool>, y: seq<bool>, z: seq<bool>)
    requires Plain(a) && Plain(b) && Plain(c) && i <= |a| && j <= |b| && k <= |c| && Ahead(a, i, b, j, c, k, x, y, z)
    requires Compare(a, i, b, j) <= 0 && Compare(b, j, c, k) <= 0
    ensures Compare(a, i, c, k) <= 0
    decreases |a| - i + |b| - j + |c| - k, 1
  {
    if Numeric(a, i) && Numeric(b, j) && Numeric(c, k) {
      ChainNumbers(a, i, b, j, c, k, x, y, z);
    } else {
      CodesStep(a, i, b, j, c, k);
      if Compare(a, i, c, k) > 0 {
        ChainCodes(a, i, b, j, c, k, x, y, z);
      }
    }
  }

  /** The order is transitive on texts whose numbers are of the same kinds in the same order, as far as they go. */
  lemma NaturalChain(a: string, b: string, c: string)
    requires Plain(a) && Plain(b) && Plain(c)
    requires Agree(Kinds(a, 0), Kinds(b, 0)) && Agree(Kinds(b, 0), Kinds(c, 0)) && Agree(Kinds(a, 0), Kinds(c, 0))
    requires Natural(a, b) <= 0 && Natural(b, c) <= 0
    ensures Natural(a, c) <= 0
  {
    if Depth(a) == Depth(b) == Depth(c) {
      CompareChain(a, 0, b, 0, c, 0, Kinds(a, 0), Kinds(b, 0), Kinds(c, 0));
    }
  }

  lemma {:induction false} UniformKinds(s: string, p: nat, timed: bool)
    requires p <= |s| && Uniform(s, timed)
    ensures forall n :: 0 <= n < |Kinds(s, p)| ==> Kinds(s, p)[n] == timed
    decreases |s| - p
  {
    if p == |s| {
    } else if Numeric(s, p) {
      UniformKinds(s, NumberEnd(s, p, timed), timed);
    } else {
      UniformKinds(s, p + 1, timed);
    }
  }

  /** So it is a total preorder on the texts in which all numbers are durations, and on those in which none is. */
  lemma UniformChain(a: string, b: string, c: string, timed: bool)
    requires Plain(a) && Plain(b) && Plain(c) && Uniform(a, timed) && Uniform(b, timed) && Uniform(c, timed)
    requires Natural(a, b) <= 0 && Natural(b, c) <= 0
    ensures Natural(a, c) <= 0
  {
    UniformKinds(a, 0, timed);
    UniformKinds(b, 0, timed);
    UniformKinds(c, 0, timed);
    NaturalChain(a, b, c);
  }

  // ----- what counts as the same -----

  /** Nothing but letter case differs from place i on. */
  predicate SameFrom(a: string, b: string, i: nat) {
    |a| == |b| && forall k :: i <= k < |a| ==> Lower(a[k]) == Lower(b[k])
  }

  predicate SameBetween(a: string, b: string, i: nat, m: nat) {
    m <= |a| && m <= |b| && forall k :: i <= k < m ==> Lower(a[k]) == Lower(b[k])
  }

  /** Runs compare as equal exactly if they are. */
  lemma RunsEqual(a: string, b: string, i: nat)
    requires Numeric(a, i) && Numeric(b, i)
    ensures var m := RunEnd(a, i);
            CompareRuns(a, i, b, i) == 0 <==> RunEnd(b, i) == m && SameBetween(a, b, i, m)
  {
    RunParts(a, i);
    RunParts(b, i);
    if |Significant(a, i)| == |Significant(b, i)| {
      ComparedBack(Significant(a, i), Significant(b, i));
    }
    var m, z := RunEnd(a, i), End(a, i, IsZero);
    if CompareRuns(a, i, b, i) == 0 {
      forall k | i <= k < m ensures a[k] == b[k] {
        if k >= z {
          assert Significant(a, i)[k - z] == Significant(b, i)[k - z];
        }
      }
    }
    if RunEnd(b, i) == m && SameBetween(a, b, i, m) {
      forall k | i <= k < m ensures a[k] == b[k] {
        assert Lower(a[k]) == Lower(b[k]);
      }
      EndIs(b, i, IsZero, z);
      assert Significant(a, i) == Significant(b, i);
    }
  }

  /** Zeros and then the significant digits. */
  lemma RunParts(s: string, p: nat)
    requires p <= |s|
    ensures var z := End(s, p, IsZero); z <= RunEnd(s, p) && Significant(s, p) == s[z..RunEnd(s, p)]
  {
    var z, q := End(s, p, IsZero), RunEnd(s, p);
    assert q < |s| ==> !IsZero(s[q]);
    EndIs(s, z, IsDigit, q);
  }

  lemma SameRunEnd(a: string, b: string, i: nat)
    requires i <= |a| && SameFrom(a, b, i)
    ensures RunEnd(a, i) == RunEnd(b, i) && Numeric(a, i) == Numeric(b, i)
  {
    forall k | i <= k < |a| ensures IsDigit(a[k]) == IsDigit(b[k]) {
      assert Lower(a[k]) == Lower(b[k]);
    }
    EndIs(b, i, IsDigit, RunEnd(a, i));
  }

  lemma SameBoth(a: string, b: string, i: nat, m: nat)
    requires i <= m <= |a| && m <= |b|
    ensures SameFrom(a, b, i) <==> SameBetween(a, b, i, m) && SameFrom(a, b, m)
  {
  }

  lemma {:induction false} SameNumbers(a: string, b: string, i: nat)
    requires Plain(a) && Plain(b) && Uniform(a, false) && Numeric(a, i) && Numeric(b, i)
    ensures var m := RunEnd(a, i);
            && (SameFrom(a, b, i) ==> RunEnd(b, i) == m && SameBetween(a, b, i, m))
            && (Compare(a, i, b, i) == 0 <==> RunEnd(b, i) == m && SameBetween(a, b, i, m) && Compare(a, m, b, m) == 0)
  {
    CompareNumbersFirst(a, i, b, i);
    RunsEqual(a, b, i);
    if SameFrom(a, b, i) {
      SameRunEnd(a, b, i);
    }
  }

  lemma SameCodes(a: string, b: string, i: nat)
    requires Plain(a) && Plain(b) && i < |a| && i < |b| && !(Numeric(a, i) && Numeric(b, i))
    ensures Compare(a, i, b, i) == 0 <==> SameBetween(a, b, i, i + 1) && Compare(a, i + 1, b, i + 1) == 0
  {
    CodeTells(a, i);
    CodeTells(b, i);
  }

  /** Without durations two texts count as the same exactly if they differ in nothing but letter case. */
  lemma {:induction false} SameIsLowered(a: string, b: string, i: nat)
    requires Plain(a) && Plain(b) && Uniform(a, false) && Uniform(b, false) && i <= |a| && i <= |b|
    ensures Compare(a, i, b, i) == 0 <==> SameFrom(a, b, i)
    decreases |a| - i
  {
    CodeTells(a, i);
    CodeTells(b, i);
    if Numeric(a, i) && Numeric(b, i) {
      SameNumbers(a, b, i);
      var m := RunEnd(a, i);
      if RunEnd(b, i) == m {
        SameBoth(a, b, i, m);
        SameIsLowered(a, b, m);
      }
    } else if i < |a| && i < |b| {
      SameCodes(a, b, i);
      SameBoth(a, b, i, i + 1);
      SameIsLowered(a, b, i + 1);
    }
  }

  lemma NaturalSame(a: string, b: string)
    requires Plain(a) && Plain(b) && Uniform(a, false) && Uniform(b, false)
    ensures Natural(a, b) == 0 <==> SameFrom(a, b, 0)
  {
    SameIsLowered(a, b, 0);
    if SameFrom(a, b, 0) {
      SameDepth(a, b);
    }
  }

  lemma SameDepth(a: string, b: string)
    requires SameFrom(a, b, 0)
    ensures Depth(a) == Depth(b)
  {
    forall k | 0 <= k < |a| ensures IsSeparator(a[k]) == IsSeparator(b[k]) {
      assert Lower(a[k]) == Lower(b[k]);
    }
    assert Beginnings(a) == Beginnings(b);
  }

  // ----- the order is that of the numbers -----

  predicate Digits(s: string) {
    forall i :: 0 <= i < |s| ==> IsDigit(s[i])
  }

  function Pow10(n: nat): (p: nat)
    ensures p > 0
  {
    if n == 0 then 1 else 10 * Pow10(n - 1)
  }

  /** The number that digits stand for, of any length. */
  function Number(s: string): nat {
    if s == "" then 0 else Digit(s[0]) * Pow10(|s| - 1) + Number(s[1..])
  }

  /** The run of digits at p. */
  function DigitRun(s: string, p: nat): string
    requires p <= |s|
  {
    s[p..RunEnd(s, p)]
  }

  lemma TimesAtLeast(m: nat, n: nat, p: nat)
    requires m < n
    ensures m * p + p <= n * p
  {
    assert n * p == m * p + (n - m) * p;
    assert (n - m - 1) * p >= 0;
    assert (n - m) * p == (n - m - 1) * p + p;
  }

  lemma {:induction false} NumberBelow(s: string)
    requires Digits(s)
    ensures Number(s) < Pow10(|s|)
  {
    if s != "" {
      NumberBelow(s[1..]);
      if Digit(s[0]) < 9 {
        TimesAtLeast(Digit(s[0]), 9, Pow10(|s| - 1));
      }
    }
  }

  lemma NumberAtLeast(s: string)
    requires Digits(s) && s != "" && s[0] != '0'
    ensures Number(s) >= Pow10(|s| - 1)
  {
    TimesAtLeast(0, Digit(s[0]), Pow10(|s| - 1));
  }

  lemma {:induction false} Pow10Grows(m: nat, n: nat)
    requires m <= n
    ensures Pow10(m) <= Pow10(n)
  {
    if m < n {
      Pow10Grows(m, n - 1);
    }
  }

  /** Of two numbers without leading zeros the longer one is larger. */
  lemma LongerIsLarger(x: string, y: string)
    requires Digits(x) && Digits(y) && |x| < |y| && y[0] != '0'
    ensures Number(x) < Number(y)
  {
    NumberBelow(x);
    NumberAtLeast(y);
    Pow10Grows(|x|, |y| - 1);
  }

  /** Of two numbers of one length the one that comes first alphabetically is smaller. */
  lemma {:induction false} ComparedIsOrder(x: string, y: string)
    requires Digits(x) && Digits(y) && |x| == |y|
    ensures Compared(x, y) < 0 <==> Number(x) < Number(y)
    ensures Compared(x, y) == 0 <==> Number(x) == Number(y)
  {
    if x != "" {
      NumberBelow(x[1..]);
      NumberBelow(y[1..]);
      if x[0] == y[0] {
        ComparedIsOrder(x[1..], y[1..]);
      } else if x[0] < y[0] {
        TimesAtLeast(Digit(x[0]), Digit(y[0]), Pow10(|x| - 1));
      } else {
        TimesAtLeast(Digit(y[0]), Digit(x[0]), Pow10(|x| - 1));
      }
    }
  }

  /** Leading zeros add nothing. */
  lemma {:induction false} ZerosAddNothing(s: string, z: nat)
    requires z <= |s| && forall i :: 0 <= i < z ==> s[i] == '0'
    ensures Number(s) == Number(s[z..])
  {
    if z > 0 {
      ZerosAddNothing(s[1..], z - 1);
      assert s[1..][z - 1..] == s[z..];
    } else {
      assert s[0..] == s;
    }
  }

  lemma RunNumber(s: string, p: nat)
    requires p <= |s|
    ensures Digits(Significant(s, p)) && Digits(DigitRun(s, p)) && Number(Significant(s, p)) == Number(DigitRun(s, p))
    ensures Significant(s, p) != "" ==> Significant(s, p)[0] != '0'
    ensures |DigitRun(s, p)| == RunEnd(s, p) - p
  {
    var z := End(s, p, IsZero);
    RunParts(s, p);
    ZerosAddNothing(DigitRun(s, p), z - p);
    assert DigitRun(s, p)[z - p..] == Significant(s, p);
  }

  /** Runs of digits are ordered by the numbers they stand for, and those of one number by their length. */
  lemma RunsInOrder(a: string, i: nat, b: string, j: nat)
    requires i <= |a| && j <= |b|
    ensures var x, y := DigitRun(a, i), DigitRun(b, j);
            && (CompareRuns(a, i, b, j) < 0 <==> Number(x) < Number(y) || (Number(x) == Number(y) && |x| < |y|))
            && (CompareRuns(a, i, b, j) == 0 <==> Number(x) == Number(y) && |x| == |y|)
  {
    RunNumber(a, i);
    RunNumber(b, j);
    SignificantOrder(Significant(a, i), Significant(b, j));
  }

  lemma SignificantOrder(x: string, y: string)
    requires Digits(x) && Digits(y) && (x != "" ==> x[0] != '0') && (y != "" ==> y[0] != '0')
    ensures |x| < |y| ==> Number(x) < Number(y)
    ensures |x| > |y| ==> Number(x) > Number(y)
    ensures |x| == |y| ==> (Compared(x, y) < 0 <==> Number(x) < Number(y))
    ensures |x| == |y| ==> (Compared(x, y) == 0 <==> Number(x) == Number(y))
  {
    if |x| < |y| {
      LongerIsLarger(x, y);
    } else if |x| > |y| {
      LongerIsLarger(y, x);
    } else {
      ComparedIsOrder(x, y);
    }
  }

  /** The same up to letter case before i, where no run of digits is under way, and no digit in between opens a
      duration. */
  predicate SameFront(a: string, b: string, k: nat, i: nat) {
    && k <= i && SameBetween(a, b, k, i) && (i > 0 ==> !IsDigit(a[i - 1]))
    && forall p :: k <= p < i && IsDigit(a[p]) ==> !(Duration(a, p).Some? && Duration(b, p).Some?)
  }

  lemma SameDigits(a: string, b: string, k: nat, i: nat)
    requires SameBetween(a, b, k, i)
    ensures forall p :: k <= p < i ==> IsDigit(a[p]) == IsDigit(b[p]) && (IsDigit(a[p]) ==> a[p] == b[p])
  {
    forall p | k <= p < i ensures IsDigit(a[p]) == IsDigit(b[p]) && (IsDigit(a[p]) ==> a[p] == b[p]) {
      assert Lower(a[p]) == Lower(b[p]);
    }
  }

  lemma RunInFront(a: string, b: string, k: nat, i: nat)
    requires SameFront(a, b, k, i) && k < i && IsDigit(a[k])
    ensures Numeric(b, k) && RunEnd(a, k) == RunEnd(b, k) < i && SameBetween(a, b, k, RunEnd(a, k))
  {
    SameDigits(a, b, k, i);
    EndIs(b, k, IsDigit, RunEnd(a, k));
  }

  lemma FrontAfterRun(a: string, b: string, k: nat, i: nat)
    requires SameFront(a, b, k, i) && k < i && IsDigit(a[k])
    requires Plain(a) && Plain(b)
    ensures Compare(a, k, b, k) == Compare(a, RunEnd(a, k), b, RunEnd(a, k))
  {
    RunInFront(a, b, k, i);
    RunsEqual(a, b, k);
    CompareNumbersFirst(a, k, b, k);
  }

  lemma {:induction false} FrontPassed(a: string, b: string, k: nat, i: nat)
    requires Plain(a) && Plain(b) && SameFront(a, b, k, i)
    ensures Compare(a, k, b, k) == Compare(a, i, b, i)
    decreases i - k
  {
    if k < i {
      if IsDigit(a[k]) {
        RunInFront(a, b, k, i);
        FrontAfterRun(a, b, k, i);
        FrontPassed(a, b, RunEnd(a, k), i);
      } else {
        SameDigits(a, b, k, i);
        SameCodeStep(a, b, k);
        FrontPassed(a, b, k + 1, i);
      }
    }
  }

  lemma SameCodeStep(a: string, b: string, k: nat)
    requires Plain(a) && Plain(b) && k < |a| && k < |b| && Lower(a[k]) == Lower(b[k]) && !IsDigit(a[k])
    ensures Compare(a, k, b, k) == Compare(a, k + 1, b, k + 1)
  {
  }

  /** Fewer segments come first. */
  lemma ShallowFirst(a: string, b: string)
    requires Plain(a) && Plain(b) && Depth(a) != Depth(b)
    ensures Natural(a, b) < 0 <==> Depth(a) < Depth(b)
  {
  }

  /** Two texts of one depth that first differ in a number are ordered by it: as durations if both are, and otherwise as
      numbers, of one value the shorter first. */
  lemma NumbersDecide(a: string, b: string, i: nat)
    requires Plain(a) && Plain(b) && Depth(a) == Depth(b) && SameFront(a, b, 0, i) && Numeric(a, i) && Numeric(b, i)
    ensures var x, y, both := DigitRun(a, i), DigitRun(b, i), Timed(a, i) && Timed(b, i);
            && (!both && Number(x) != Number(y) ==> (Natural(a, b) < 0 <==> Number(x) < Number(y)))
            && (!both && Number(x) == Number(y) && |x| != |y| ==> (Natural(a, b) < 0 <==> |x| < |y|))
            && (both && Duration(a, i).value.ms != Duration(b, i).value.ms ==>
                  (Natural(a, b) < 0 <==> Duration(a, i).value.ms < Duration(b, i).value.ms))
  {
    FrontPassed(a, b, 0, i);
    RunsInOrder(a, i, b, i);
    CompareNumbersFirst(a, i, b, i);
  }

  /** Two texts of one depth that first differ elsewhere are ordered by the characters there, capitals as small letters,
      and the end of a text comes before everything. */
  lemma CharactersDecide(a: string, b: string, i: nat)
    requires Plain(a) && Plain(b) && Depth(a) == Depth(b) && SameFront(a, b, 0, i)
    requires !(Numeric(a, i) && Numeric(b, i)) && i <= |a| && i <= |b|
    ensures i < |a| && i < |b| && Lower(a[i]) != Lower(b[i]) ==> (Natural(a, b) < 0 <==> Lower(a[i]) < Lower(b[i]))
    ensures i == |a| && i < |b| ==> Natural(a, b) < 0
    ensures i == |b| && i < |a| ==> Natural(a, b) > 0
  {
    FrontPassed(a, b, 0, i);
    CodeTells(a, i);
    CodeTells(b, i);
  }

  lemma {:induction false} NumberMore(s: string, c: char)
    ensures Number(s + [c]) == 10 * Number(s) + Digit(c)
  {
    if s == "" {
      assert [c][1..] == "" && "" + [c] == [c];
    } else {
      NumberMore(s[1..], c);
      assert (s + [c])[1..] == s[1..] + [c];
      TimesTen(Digit(s[0]), Pow10(|s| - 1));
    }
  }

  lemma TimesTen(d: nat, p: nat)
    ensures d * (10 * p) == 10 * (d * p)
  {
  }

  /** The number in a duration is the one its digits stand for, in 64 bits. */
  lemma {:induction false} ValueIsNumber(s: string, p: nat, q: nat)
    requires p <= q <= |s|
    ensures Value(s, p, q) == Number(s[p..q]) % UINT64
    decreases q - p
  {
    if p < q {
      ValueIsNumber(s, p, q - 1);
      NumberMore(s[p..q - 1], s[q - 1]);
      assert s[p..q] == s[p..q - 1] + [s[q - 1]];
      ModTen(Number(s[p..q - 1]), Digit(s[q - 1]));
    }
  }

  lemma ModTen(n: nat, d: nat)
    ensures (n % UINT64 * 10 + d) % UINT64 == (10 * n + d) % UINT64
  {
    var q := n / UINT64;
    assert n == UINT64 * q + n % UINT64;
    assert 10 * n + d == n % UINT64 * 10 + d + UINT64 * (10 * q);
    ModPlus(n % UINT64 * 10 + d, 10 * q);
  }

  lemma {:induction false} ModPlus(n: nat, q: nat)
    ensures (n + UINT64 * q) % UINT64 == n % UINT64
  {
    if q > 0 {
      ModPlus(n, q - 1);
    }
  }

  // ----- durations add up -----

  lemma {:induction false} UnitsDiffer(s: string, p: nat, unit: string, other: string)
    requires UnitHere(s, p, unit) && UnitHere(s, p, other)
    requires forall i :: 0 <= i < |unit| ==> IsLetter(unit[i])
    requires forall i :: 0 <= i < |other| ==> IsLetter(other[i])
    ensures unit == other
    decreases |unit|
  {
    if unit == "" || other == "" {
      if p < |s| && unit + other != "" {
        LowerLetter(s[p]);
      }
    } else {
      UnitsDiffer(s, p + 1, unit[1..], other[1..]);
      assert unit == [unit[0]] + unit[1..] && other == [other[0]] + other[1..];
    }
  }

  lemma LowerLetter(c: char)
    ensures IsLetter(Lower(c)) <==> IsLetter(c)
  {
  }

  lemma UnitLetters(k: nat)
    requires k < UNITS
    ensures forall i :: 0 <= i < |UnitName(k)| ==> IsLetter(UnitName(k)[i])
  {
    if k == 0 {} else if k == 1 {} else if k == 2 {} else if k == 3 {} else if k == 4 {} else {}
  }

  lemma UnitNamesDiffer(j: nat, k: nat)
    requires j < k < UNITS
    ensures UnitName(j) != UnitName(k)
  {
    var names := ["min", "ms", "mn", "h", "s", "d"];
    assert UnitName(j) == names[j] && UnitName(k) == names[k];
    assert names[0][1] == 'i' && names[1][1] == 's' && names[2][1] == 'n';
  }

  lemma {:induction false} UnitFound(s: string, p: nat, j: nat, k: nat)
    requires j <= k < UNITS && UnitHere(s, p, UnitName(k))
    ensures UnitFrom(s, p, j) == Some(Span(UnitMs(k), p + |UnitName(k)|))
    decreases k - j
  {
    UnitFits(s, p, UnitName(k));
    if j < k {
      if UnitHere(s, p, UnitName(j)) {
        UnitLetters(j);
        UnitLetters(k);
        UnitsDiffer(s, p, UnitName(j), UnitName(k));
        UnitNamesDiffer(j, k);
      } else {
        UnitFound(s, p, j + 1, k);
      }
    }
  }

  /** A minute, second, hour or day is so many of the next smaller unit. */
  lemma UnitLengths()
    ensures UnitName(1) == "ms" && UnitMs(1) == 1 && UnitName(4) == "s" && UnitMs(4) == 1000 * UnitMs(1)
    ensures UnitName(0) == "min" && UnitName(2) == "mn" && UnitMs(0) == UnitMs(2) == 60 * UnitMs(4)
    ensures UnitName(3) == "h" && UnitMs(3) == 60 * UnitMs(0) && UnitName(5) == "d" && UnitMs(5) == 24 * UnitMs(3)
  {
  }

  /** One number with a unit, perhaps after blanks and with blanks between, stands for that many units. */
  lemma TokenMeans(s: string, p: nat, number: nat, behind: nat, at: nat, k: nat)
    requires p <= |s| && number == End(s, p, IsBlank) && behind == End(s, number, IsDigit)
             && at == End(s, behind, IsBlank)
    requires number < behind && k < UNITS && UnitHere(s, at, UnitName(k))
    ensures Token(s, p) == Some(Span(Number(s[number..behind]) * UnitMs(k) % UINT64, at + |UnitName(k)|))
  {
    UnitFound(s, at, 0, k);
    ValueIsNumber(s, number, behind);
    ModTimes(Number(s[number..behind]), UnitMs(k));
  }

  lemma ModTimes(n: nat, u: nat)
    ensures n % UINT64 * u % UINT64 == n * u % UINT64
  {
    var q, r := n / UINT64, n % UINT64;
    assert n == UINT64 * q + r;
    Distribute(q, r, u);
    ModPlus(r * u, q * u);
  }

  lemma Distribute(q: nat, r: nat, u: nat)
    ensures (UINT64 * q + r) * u == r * u + UINT64 * (q * u)
  {
  }

  /** The milliseconds of each number with a unit, as long as they follow one another. */
  function Parts(s: string, p: nat): seq<nat>
    requires p <= |s|
    decreases |s| - p
  {
    match Token(s, p)
    case None => []
    case Some(first) => [first.ms] + Parts(s, first.end)
  }

  function Sum(parts: seq<nat>): nat {
    if parts == [] then 0 else parts[0] + Sum(parts[1..])
  }

  ghost function AddsUp(total: nat, more: nat, ms: nat): Claim {
    Claim(ms == (total + more) % UINT64)
  }

  /** A duration is the sum of its parts, in 64 bits. */
  lemma {:induction false} PartsAddUp(s: string, p: nat, total: nat, all: nat, ms: nat)
    requires p <= |s| && total < UINT64 && all == Sum(Parts(s, p)) && ms == Tokens(s, p, total).ms
    ensures AddsUp(total, all, ms).holds
    decreases |s| - p
  {
    if Token(s, p).Some? {
      var first, sum, rest := PartsStep(s, p, total, all, ms);
      PartsAddUp(s, first.end, sum, rest, ms);
      AddedUp(total, first.ms, sum, rest, all, ms);
    } else {
      NoParts(s, p, total, all, ms);
    }
  }

  lemma AddedUp(total: nat, part: nat, sum: nat, rest: nat, all: nat, ms: nat)
    requires sum == Plus(total, part) && all == part + rest && AddsUp(sum, rest, ms).holds
    ensures AddsUp(total, all, ms).holds
  {
    ModSum(total + part, rest);
  }

  lemma PartsStep(s: string, p: nat, total: nat, all: nat, ms: nat) returns (first: Span, sum: nat, rest: nat)
    requires p <= |s| && Token(s, p).Some? && all == Sum(Parts(s, p)) && ms == Tokens(s, p, total).ms
    ensures p < first.end <= |s| && sum == Plus(total, first.ms) && sum < UINT64 && all == first.ms + rest
    ensures rest == Sum(Parts(s, first.end)) && ms == Tokens(s, first.end, sum).ms
  {
    first := Token(s, p).value;
    sum, rest := Plus(total, first.ms), Sum(Parts(s, first.end));
    TokensStep(s, p, total, first, sum);
    assert Parts(s, p)[1..] == Parts(s, first.end);
  }

  lemma NoParts(s: string, p: nat, total: nat, all: nat, ms: nat)
    requires p <= |s| && Token(s, p).None? && all == Sum(Parts(s, p)) && ms == Tokens(s, p, total).ms && total < UINT64
    ensures AddsUp(total, all, ms).holds
  {
  }

  lemma ModSum(n: nat, m: nat)
    ensures (n % UINT64 + m) % UINT64 == (n + m) % UINT64
  {
    var q := n / UINT64;
    assert n == UINT64 * q + n % UINT64;
    ModPlus(n % UINT64 + m, q);
  }

  /** Where the last of the parts ends. */
  function PartsEnd(s: string, p: nat): (e: nat)
    requires p <= |s|
    ensures p <= e <= |s|
    decreases |s| - p
  {
    match Token(s, p)
    case None => p
    case Some(first) => PartsEnd(s, first.end)
  }

  /** Blanks behind a duration belong to it, unless they lead to a number, which then has no unit. */
  lemma {:induction false} DurationEnds(s: string, p: nat, total: nat)
    requires p <= |s|
    ensures var e, end := PartsEnd(s, p), Tokens(s, p, total).end;
            && e <= end <= |s| && (forall i :: e <= i < end ==> IsBlank(s[i]))
            && (end < |s| && IsBlank(s[end]) ==> end == e && Numeric(s, End(s, e, IsBlank)))
            && (Numeric(s, end) ==> end == e)
    decreases |s| - p
  {
    if Token(s, p).Some? {
      var first := Token(s, p).value;
      DurationEnds(s, first.end, Plus(total, first.ms));
    }
  }

  lemma DurationIsSum(s: string, p: nat)
    requires p <= |s|
    ensures Duration(s, p).Some? <==> Parts(s, p) != []
    ensures Duration(s, p).Some? ==> Duration(s, p).value.ms == Sum(Parts(s, p)) % UINT64
  {
    PartsAddUp(s, p, 0, Sum(Parts(s, p)), Tokens(s, p, 0).ms);
  }

  // ----- exactly which numbers may differ in kind -----

  const HOUR := "1 h,"
  const MINUTES := "2 min,"
  const OTHER := "1 z,"

  predicate At(s: string, p: nat, word: string) {
    p + |word| <= |s| && s[p..p + |word|] == word
  }

  lemma AtBoth(s: string, p: nat, u: string, v: string)
    requires At(s, p, u + v)
    ensures At(s, p, u) && At(s, p + |u|, v)
  {
    assert s[p..p + |u|] == (u + v)[..|u|];
    assert s[p + |u|..p + |u| + |v|] == (u + v)[|u|..];
  }

  /** A digit, a blank and perhaps a unit. */
  lemma DigitBlank(s: string, p: nat)
    requires p + 2 < |s| && IsDigit(s[p]) && s[p] != '0' && IsBlank(s[p + 1]) && !IsBlank(s[p + 2])
             && !IsDigit(s[p + 2])
    ensures Token(s, p) == TokenOf(s, p, p + 1, p + 2) && RunEnd(s, p) == p + 1 && Significant(s, p) == [s[p]]
    ensures Value(s, p, p + 1) == Digit(s[p])
  {
    EndIs(s, p, IsBlank, p);
    EndIs(s, p, IsDigit, p + 1);
    EndIs(s, p + 1, IsBlank, p + 2);
    EndIs(s, p, IsZero, p);
    assert Value(s, p, p) == 0;
  }

  lemma NoUnit(s: string, p: nat, k: nat)
    requires k <= UNITS && p < |s| && s[p] == 'z'
    ensures UnitFrom(s, p, k) == None
    decreases UNITS - k
  {
    if k < UNITS {
      assert UnitName(k)[0] in "mhsd";
      NoUnit(s, p, k + 1);
    }
  }

  lemma HourHere(s: string, p: nat)
    requires p + 1 < |s| && s[p] == 'h' && s[p + 1] == ','
    ensures TimeUnit(s, p) == Some(Span(3600000, p + 1))
  {
    assert UnitHere(s, p + 1, "");
    assert UnitFrom(s, p, 3) == Some(Span(3600000, p + 1));
    assert UnitFrom(s, p, 2) == UnitFrom(s, p, 3);
    assert UnitFrom(s, p, 1) == UnitFrom(s, p, 2);
    assert UnitFrom(s, p, 0) == UnitFrom(s, p, 1);
  }

  lemma MinutesHere(s: string, p: nat)
    requires p + 3 < |s| && s[p] == 'm' && s[p + 1] == 'i' && s[p + 2] == 'n' && s[p + 3] == ','
    ensures TimeUnit(s, p) == Some(Span(60000, p + 3))
  {
    assert UnitHere(s, p + 3, "");
    assert UnitHere(s, p + 2, "n");
    assert UnitHere(s, p + 1, "in");
    assert UnitHere(s, p, "min");
  }

  /** A comma ends a duration. */
  lemma NothingMore(s: string, p: nat, total: nat)
    requires p < |s| && s[p] == ','
    ensures Tokens(s, p, total) == Span(total, p)
  {
    EndIs(s, p, IsBlank, p);
    EndIs(s, p, IsDigit, p);
  }

  lemma Hour(s: string, p: nat)
    requires At(s, p, HOUR)
    ensures Numeric(s, p) && Duration(s, p) == Some(Span(3600000, p + 3)) && Kinds(s, p) == [true] + Kinds(s, p + 4)
    ensures Significant(s, p) == "1" && RunEnd(s, p) == p + 1
  {
    assert s[p] == HOUR[0] && s[p + 1] == HOUR[1] && s[p + 2] == HOUR[2] && s[p + 3] == HOUR[3];
    DigitBlank(s, p);
    HourHere(s, p + 2);
    NothingMore(s, p + 3, 3600000);
    TokensStep(s, p, 0, Span(3600000, p + 3), 3600000);
    assert Kinds(s, p + 3) == Kinds(s, p + 4);
  }

  lemma Minutes(s: string, p: nat)
    requires At(s, p, MINUTES)
    ensures Numeric(s, p) && Duration(s, p) == Some(Span(120000, p + 5)) && Kinds(s, p) == [true] + Kinds(s, p + 6)
    ensures Significant(s, p) == "2" && RunEnd(s, p) == p + 1
  {
    assert s[p] == MINUTES[0] && s[p + 1] == MINUTES[1] && s[p + 2] == MINUTES[2] && s[p + 3] == MINUTES[3];
    assert s[p + 4] == MINUTES[4] && s[p + 5] == MINUTES[5];
    DigitBlank(s, p);
    MinutesHere(s, p + 2);
    NothingMore(s, p + 5, 120000);
    TokensStep(s, p, 0, Span(120000, p + 5), 120000);
    assert Kinds(s, p + 5) == Kinds(s, p + 6);
  }

  lemma Other(s: string, p: nat)
    requires At(s, p, OTHER)
    ensures Numeric(s, p) && Duration(s, p) == None && Kinds(s, p) == [false] + Kinds(s, p + 4)
    ensures Significant(s, p) == "1" && RunEnd(s, p) == p + 1
  {
    assert s[p] == OTHER[0] && s[p + 1] == OTHER[1] && s[p + 2] == OTHER[2] && s[p + 3] == OTHER[3];
    DigitBlank(s, p);
    NoUnit(s, p + 2, 0);
    assert Kinds(s, p + 1) == Kinds(s, p + 2) == Kinds(s, p + 3) == Kinds(s, p + 4);
  }

  function Cell(timed: bool): (c: string)
    ensures |c| == 4
  {
    if timed then HOUR else OTHER
  }

  lemma CellKind(s: string, p: nat, timed: bool, x: seq<bool>, y: seq<bool>)
    requires At(s, p, Cell(timed)) && x == Kinds(s, p) && y == Kinds(s, p + 4)
    ensures x == [timed] + y
  {
    if timed { Hour(s, p); } else { Other(s, p); }
  }

  /** A text whose numbers are of these kinds in this order. */
  function Sample(kinds: seq<bool>): string {
    if kinds == [] then "" else Cell(kinds[0]) + Sample(kinds[1..])
  }

  /** Ordinary text without separators. */
  predicate Simple(s: string) {
    forall i :: 0 <= i < |s| ==> '\0' < s[i] < 128 as char && !IsSeparator(s[i])
  }

  lemma {:induction false} SampleSimple(kinds: seq<bool>)
    ensures Simple(Sample(kinds))
  {
    if kinds != [] {
      SampleSimple(kinds[1..]);
    }
  }

  lemma SampleFirst(s: string, p: nat, kinds: seq<bool>)
    requires kinds != [] && At(s, p, Sample(kinds))
    ensures At(s, p, Cell(kinds[0])) && At(s, p + 4, Sample(kinds[1..])) && |Sample(kinds)| == 4 + |Sample(kinds[1..])|
  {
    AtBoth(s, p, Cell(kinds[0]), Sample(kinds[1..]));
  }

  /** Whatever counts one number per cell counts all numbers of a sample. */
  lemma {:induction false} SampleCount(s: string, count: int -> seq<bool>, p: nat, kinds: seq<bool>, q: nat)
    requires forall j: nat, timed :: At(s, j, Cell(timed)) ==> count(j) == [timed] + count(j + 4)
    requires At(s, p, Sample(kinds)) && q == p + |Sample(kinds)|
    ensures count(p) == kinds + count(q)
    decreases kinds
  {
    if kinds != [] {
      SampleFirst(s, p, kinds);
      var x, y, z := count(p), count(p + 4), count(q);
      SampleCount(s, count, p + 4, kinds[1..], q);
      OneKindMore(kinds, x, y, z);
    }
  }

  lemma OneKindMore(kinds: seq<bool>, x: seq<bool>, y: seq<bool>, z: seq<bool>)
    requires kinds != [] && x == [kinds[0]] + y && y == kinds[1..] + z
    ensures x == kinds + z
  {
  }

  lemma SampleKinds(s: string, p: nat, kinds: seq<bool>, q: nat, x: seq<bool>, y: seq<bool>)
    requires At(s, p, Sample(kinds)) && q == p + |Sample(kinds)| && x == Kinds(s, p) && y == Kinds(s, q)
    ensures x == kinds + y
  {
    var count := (j: int) => if 0 <= j <= |s| then Kinds(s, j) else [];
    forall j: nat, timed | At(s, j, Cell(timed)) ensures count(j) == [timed] + count(j + 4) {
      CellKind(s, j, timed, count(j), count(j + 4));
    }
    SampleCount(s, count, p, kinds, q);
  }

  lemma SameHours(a: string, b: string, p: nat)
    requires Plain(a) && Plain(b) && At(a, p, HOUR) && At(b, p, HOUR)
    ensures Compare(a, p, b, p) == Compare(a, p + 4, b, p + 4)
  {
    Hour(a, p);
    Hour(b, p);
    CompareNumbersFirst(a, p, b, p);
    assert a[p + 3] == HOUR[3] && b[p + 3] == HOUR[3];
  }

  lemma SameOthers(a: string, b: string, p: nat)
    requires Plain(a) && Plain(b) && At(a, p, OTHER) && At(b, p, OTHER)
    ensures Compare(a, p, b, p) == Compare(a, p + 4, b, p + 4)
  {
    Other(a, p);
    Other(b, p);
    ComparedBack("1", "1");
    CompareNumbersFirst(a, p, b, p);
    SameZ(a, b, p);
  }

  lemma SameZ(a: string, b: string, p: nat)
    requires Plain(a) && Plain(b) && At(a, p, OTHER) && At(b, p, OTHER)
    ensures Compare(a, p + 1, b, p + 1) == Compare(a, p + 4, b, p + 4)
  {
    assert a[p + 1] == b[p + 1] == OTHER[1] && a[p + 2] == b[p + 2] == OTHER[2] && a[p + 3] == b[p + 3] == OTHER[3];
    assert Compare(a, p + 1, b, p + 1) == Compare(a, p + 2, b, p + 2) == Compare(a, p + 3, b, p + 3);
  }

  lemma SameCells(a: string, b: string, p: nat, timed: bool)
    requires Plain(a) && Plain(b) && At(a, p, Cell(timed)) && At(b, p, Cell(timed))
    ensures p + 4 <= |a| && p + 4 <= |b| && Compare(a, p, b, p) == Compare(a, p + 4, b, p + 4)
  {
    if timed { SameHours(a, b, p); } else { SameOthers(a, b, p); }
  }

  /** A front in common is passed over. */
  lemma {:induction false} SameFronts(a: string, b: string, p: nat, kinds: seq<bool>, q: nat, x: int, y: int)
    requires Plain(a) && Plain(b) && At(a, p, Sample(kinds)) && At(b, p, Sample(kinds)) && q == p + |Sample(kinds)|
    requires x == Compare(a, p, b, p) && y == Compare(a, q, b, q)
    ensures x == y
    decreases kinds
  {
    if kinds != [] {
      SampleFirst(a, p, kinds);
      SampleFirst(b, p, kinds);
      SameCells(a, b, p, kinds[0]);
      SameFronts(a, b, p + 4, kinds[1..], q, Compare(a, p + 4, b, p + 4), y);
    }
  }

  lemma MinutesBeforeHour(minutes: string, hour: string, p: nat)
    requires Plain(minutes) && Plain(hour) && At(minutes, p, MINUTES) && At(hour, p, HOUR)
    ensures Compare(minutes, p, hour, p) < 0
  {
    Minutes(minutes, p);
    Hour(hour, p);
    CompareNumbersFirst(minutes, p, hour, p);
  }

  lemma HourBeforeOther(hour: string, other: string, p: nat)
    requires Plain(hour) && Plain(other) && At(hour, p, HOUR) && At(other, p, OTHER)
    ensures Compare(hour, p, other, p) < 0
  {
    Hour(hour, p);
    Other(other, p);
    ComparedBack("1", "1");
    CompareNumbersFirst(hour, p, other, p);
    HBeforeZ(hour, other, p);
  }

  lemma HBeforeZ(hour: string, other: string, p: nat)
    requires Plain(hour) && Plain(other) && At(hour, p, HOUR) && At(other, p, OTHER)
    ensures Compare(hour, p + 1, other, p + 1) < 0
  {
    assert hour[p + 1] == HOUR[1] && other[p + 1] == OTHER[1] && hour[p + 2] == HOUR[2] && other[p + 2] == OTHER[2];
    assert Compare(hour, p + 2, other, p + 2) < 0;
  }

  lemma OtherBeforeMinutes(other: string, minutes: string, p: nat)
    requires Plain(other) && Plain(minutes) && At(other, p, OTHER) && At(minutes, p, MINUTES)
    ensures Compare(other, p, minutes, p) < 0
  {
    Other(other, p);
    Minutes(minutes, p);
    CompareNumbersFirst(other, p, minutes, p);
    assert Compared("1", "2") == -1;
  }

  /** One number: minutes, or an hour or none by its kind. */
  predicate IsNumber(word: string, timed: bool) {
    word == Cell(timed) || (timed && word == MINUTES)
  }

  lemma NumberKind(s: string, p: nat, q: nat, word: string, timed: bool, x: seq<bool>, y: seq<bool>)
    requires IsNumber(word, timed) && At(s, p, word) && q == p + |word| && x == Kinds(s, p) && y == Kinds(s, q)
    ensures x == [timed] + y
  {
    if word == MINUTES { Minutes(s, p); } else { CellKind(s, p, timed, x, y); }
  }

  /** A front, one number and more. */
  function Example(front: seq<bool>, word: string, more: seq<bool>): (s: string)
    ensures At(s, 0, Sample(front)) && At(s, |Sample(front)|, word) && At(s, |Sample(front)| + |word|, Sample(more))
    ensures |s| == |Sample(front)| + |word| + |Sample(more)|
  {
    Sample(front) + word + Sample(more)
  }

  lemma ExampleSimple(front: seq<bool>, word: string, timed: bool, more: seq<bool>, s: string)
    requires IsNumber(word, timed) && s == Example(front, word, more)
    ensures Plain(s) && Depth(s) == 0
  {
    SampleSimple(front);
    SampleSimple(more);
    NumberSimple(word, timed);
    AllSimple(Sample(front), word, Sample(more), s);
    NoDepth(s);
  }

  lemma NumberSimple(word: string, timed: bool)
    requires IsNumber(word, timed)
    ensures Simple(word)
  {
  }

  lemma AllSimple(a: string, b: string, c: string, s: string)
    requires Simple(a) && Simple(b) && Simple(c) && s == a + b + c
    ensures Simple(s)
  {
  }

  lemma ExampleKinds(front: seq<bool>, word: string, timed: bool, more: seq<bool>, s: string, kinds: seq<bool>)
    requires IsNumber(word, timed) && s == Example(front, word, more) && kinds == Kinds(s, 0)
    ensures kinds == front + [timed] + more
  {
    PartKinds(s, |Sample(front)|, |Sample(front)| + |word|, front, word, timed, more, kinds);
  }

  lemma PartKinds(s: string, p: nat, q: nat, front: seq<bool>, word: string, timed: bool, more: seq<bool>,
                  kinds: seq<bool>)
    requires IsNumber(word, timed) && At(s, 0, Sample(front)) && At(s, p, word) && At(s, q, Sample(more))
    requires p == |Sample(front)| && q == p + |word| && |s| == q + |Sample(more)| && kinds == Kinds(s, 0)
    ensures kinds == front + [timed] + more
  {
    var x, y := Kinds(s, p), Kinds(s, q);
    SampleKinds(s, 0, front, p, kinds, x);
    NumberKind(s, p, q, word, timed, x, y);
    SampleKinds(s, q, more, |s|, y, []);
  }

  /** Examples with one front compare by what follows it. */
  lemma ExamplesCompare(a: string, b: string, front: seq<bool>, u: string, more: seq<bool>, timed: bool,
                        v: string, rest: seq<bool>, other: bool, p: nat, x: int)
    requires IsNumber(u, timed) && IsNumber(v, other) && a == Example(front, u, more) && b == Example(front, v, rest)
    requires Plain(a) && Plain(b) && p == |Sample(front)| && x == Compare(a, p, b, p)
    ensures Natural(a, b) == x
  {
    ExampleSimple(front, u, timed, more, a);
    ExampleSimple(front, v, other, rest, b);
    SameFronts(a, b, 0, front, p, Compare(a, 0, b, 0), x);
  }

  lemma CycleOrder(front: seq<bool>, timed: seq<bool>, untimed: seq<bool>, minutes: string, hour: string, other: string,
                   x: int, y: int, z: int)
    requires minutes == Example(front, MINUTES, timed) && hour == Example(front, HOUR, timed)
    requires other == Example(front, OTHER, untimed) && Plain(minutes) && Plain(hour) && Plain(other)
    requires x == Natural(minutes, hour) && y == Natural(hour, other) && z == Natural(other, minutes)
    ensures x < 0 && y < 0 && z < 0
  {
    var p := |Sample(front)|;
    MinutesBeforeHour(minutes, hour, p);
    HourBeforeOther(hour, other, p);
    OtherBeforeMinutes(other, minutes, p);
    ExamplesCompare(minutes, hour, front, MINUTES, timed, true, HOUR, timed, true, p, Compare(minutes, p, hour, p));
    ExamplesCompare(hour, other, front, HOUR, timed, true, OTHER, untimed, false, p, Compare(hour, p, other, p));
    ExamplesCompare(other, minutes, front, OTHER, untimed, false, MINUTES, timed, true, p,
        Compare(other, p, minutes, p));
  }

  /** Wherever the kinds of two lists part, there are texts with these kinds, two minutes, one hour and no duration at
      that place, of which each comes before the next and the last before the first. */
  lemma MixedCycle(front: seq<bool>, timed: seq<bool>, untimed: seq<bool>)
    returns (minutes: string, hour: string, other: string)
    ensures Plain(minutes) && Plain(hour) && Plain(other)
    ensures Kinds(minutes, 0) == Kinds(hour, 0) == front + [true] + timed
            && Kinds(other, 0) == front + [false] + untimed
    ensures Natural(minutes, hour) < 0 && Natural(hour, other) < 0 && Natural(other, minutes) < 0
  {
    minutes, hour, other := Example(front, MINUTES, timed), Example(front, HOUR, timed), Example(front, OTHER, untimed);
    ExampleSimple(front, MINUTES, true, timed, minutes);
    ExampleSimple(front, HOUR, true, timed, hour);
    ExampleSimple(front, OTHER, false, untimed, other);
    ExampleKinds(front, MINUTES, true, timed, minutes, Kinds(minutes, 0));
    ExampleKinds(front, HOUR, true, timed, hour, Kinds(hour, 0));
    ExampleKinds(front, OTHER, false, untimed, other, Kinds(other, 0));
    CycleOrder(front, timed, untimed, minutes, hour, other, Natural(minutes, hour), Natural(hour, other),
        Natural(other, minutes));
  }

  /** The order is transitive on all texts whose numbers are of some of these kinds in order. */
  ghost predicate TransitiveOn(kinds: iset<seq<bool>>) {
    forall a, b, c ::
      && Plain(a) && Plain(b) && Plain(c) && Kinds(a, 0) in kinds && Kinds(b, 0) in kinds && Kinds(c, 0) in kinds
      && Natural(a, b) <= 0 && Natural(b, c) <= 0
      ==> Natural(a, c) <= 0
  }

  /** Where two lists part that do not agree. */
  lemma Parting(x: seq<bool>, y: seq<bool>) returns (n: nat)
    requires !Agree(x, y)
    ensures n < |x| && n < |y| && x[..n] == y[..n] && x[n] != y[n]
  {
    n := 0;
    while x[n] == y[n]
      invariant n < |x| && n < |y| && x[..n] == y[..n] && exists m :: n <= m < |x| && m < |y| && x[m] != y[m]
      decreases |x| - n
    {
      n := n + 1;
    }
  }

  lemma DisagreeingCycle(x: seq<bool>, y: seq<bool>, kinds: iset<seq<bool>>)
    requires x in kinds && y in kinds && !Agree(x, y)
    ensures !TransitiveOn(kinds)
  {
    var n := Parting(x, y);
    var t, u := if x[n] then x else y, if x[n] then y else x;
    assert t == t[..n] + [true] + t[n + 1..] && u == t[..n] + [false] + u[n + 1..];
    var minutes, hour, other := MixedCycle(t[..n], t[n + 1..], u[n + 1..]);
    NaturalBack(other, minutes);
  }

  /** For any choice of kinds: the order is transitive on the texts with numbers of these kinds if and only if any two
      of the choice agree as far as both go. */
  lemma KindsExact(kinds: iset<seq<bool>>)
    ensures TransitiveOn(kinds) <==> forall x, y :: x in kinds && y in kinds ==> Agree(x, y)
  {
    if x, y :| x in kinds && y in kinds && !Agree(x, y) {
      DisagreeingCycle(x, y, kinds);
    } else {
      forall a, b, c |
        && Plain(a) && Plain(b) && Plain(c) && Kinds(a, 0) in kinds && Kinds(b, 0) in kinds && Kinds(c, 0) in kinds
        && Natural(a, b) <= 0 && Natural(b, c) <= 0
        ensures Natural(a, c) <= 0 {
        NaturalChain(a, b, c);
      }
    }
  }

  lemma NoDepth(s: string)
    requires forall i :: 0 <= i < |s| ==> !IsSeparator(s[i])
    ensures Depth(s) == 0
  {
  }

  // ----- the comparison itself -----

  /** Moves on over characters of a kind. */
  method Skip(s: string, p: nat, kind: char -> bool) returns (q: nat)
    requires p <= |s|
    ensures q == End(s, p, kind)
  {
    q := p;
    while q < |s| && kind(s[q])
      invariant p <= q <= |s| && End(s, q, kind) == End(s, p, kind)
    {
      q := q + 1;
    }
  }

  method ParseNumber(s: string, p: nat) returns (n: nat, q: nat)
    requires p <= |s|
    ensures q == End(s, p, IsDigit) && n == Value(s, p, q)
  {
    n, q := 0, p;
    while q < |s| && IsDigit(s[q])
      invariant p <= q <= |s| && End(s, q, IsDigit) == End(s, p, IsDigit) && n == Value(s, p, q)
    {
      n := Plus(n * 10, Digit(s[q]));
      q := q + 1;
    }
  }

  /** One number with its unit; without one, where the text goes on. */
  method ParseToken(s: string, p: nat) returns (t: Option<Span>, cur: nat)
    requires p <= |s|
    ensures t == Token(s, p) && cur == if t == None then Trailing(s, p) else t.value.end
  {
    var number := Skip(s, p, IsBlank);
    if !(number < |s| && IsDigit(s[number])) {
      return None, number;
    }
    var n, behind := ParseNumber(s, number);
    var at := Skip(s, behind, IsBlank);
    t := TokenOf(s, number, behind, at);
    var unit := TimeUnit(s, at);
    if unit == None {
      return None, p;
    }
    return Some(Span(Times(n, unit.value.ms), unit.value.end)), unit.value.end;
  }

  /** One more number with its unit, added up; without one, where the text goes on. */
  method ParseMore(s: string, p: nat, total: nat) returns (more: bool, next: nat, sum: nat)
    requires p <= |s|
    ensures more == Token(s, p).Some? && p <= next <= |s| && (more ==> p < next)
    ensures if more then Tokens(s, p, total) == Tokens(s, next, sum)
            else Tokens(s, p, total) == Span(total, next) && sum == total
  {
    var t;
    t, next := ParseToken(s, p);
    if t == None {
      return false, next, total;
    }
    sum := Plus(total, t.value.ms);
    TokensStep(s, p, total, t.value, sum);
    return true, next, sum;
  }

  method ParseDurationMs(s: string, p: nat) returns (ok: bool, q: nat, out: nat)
    requires p <= |s|
    ensures ok == Duration(s, p).Some?
    ensures if ok then Duration(s, p) == Some(Span(out, q)) else q == p
  {
    var cur: nat, total: nat, parts: nat, more := p, 0, 0, true;
    while more
      invariant cur <= |s| && (parts == 0 && more ==> cur == p)
      invariant parts > 0 || !more ==> (Token(s, p).Some? <==> parts > 0)
      invariant if more then Tokens(s, cur, total) == Tokens(s, p, 0) else Tokens(s, p, 0) == Span(total, cur)
      decreases more, |s| - cur
    {
      more, cur, total := ParseMore(s, cur, total);
      parts := if more then parts + 1 else parts;
    }
    if parts == 0 {
      return false, p, 0;
    }
    return true, cur, total;
  }

  /** Alphabetical order of n characters from i and from j on. */
  method CompareText(a: string, i: nat, b: string, j: nat, n: nat) returns (cmp: int)
    requires i + n <= |a| && j + n <= |b|
    ensures cmp == Compared(a[i..i + n], b[j..j + n])
  {
    var k := 0;
    while k < n
      invariant k <= n && Compared(a[i + k..i + n], b[j + k..j + n]) == Compared(a[i..i + n], b[j..j + n])
    {
      assert a[i + k..i + n][1..] == a[i + k + 1..i + n] && b[j + k..j + n][1..] == b[j + k + 1..j + n];
      if a[i + k] != b[j + k] {
        return Sign(a[i + k] < b[j + k]);
      }
      k := k + 1;
    }
    return 0;
  }

  method CompareDigitRuns(a: string, i: nat, b: string, j: nat) returns (cmp: int, m: nat, n: nat)
    requires i <= |a| && j <= |b|
    ensures cmp == CompareRuns(a, i, b, j) && (cmp == 0 ==> m == RunEnd(a, i) && n == RunEnd(b, j))
  {
    var za := Skip(a, i, IsZero);
    var zb := Skip(b, j, IsZero);
    m := Skip(a, za, IsDigit);
    n := Skip(b, zb, IsDigit);
    RunParts(a, i);
    RunParts(b, j);
    EndAfter(a, i);
    EndAfter(b, j);
    if m - za != n - zb {
      return Sign(m - za < n - zb), m, n;
    }
    cmp := CompareText(a, za, b, zb, m - za);
    if cmp != 0 {
      return cmp, m, n;
    }
    if m - i != n - j {
      return Sign(m - i < n - j), m, n;
    }
    return 0, m, n;
  }

  lemma EndAfter(s: string, p: nat)
    requires p <= |s|
    ensures End(s, End(s, p, IsZero), IsDigit) == RunEnd(s, p)
  {
    var z, q := End(s, p, IsZero), RunEnd(s, p);
    assert q < |s| ==> !IsZero(s[q]);
    EndIs(s, z, IsDigit, q);
  }

  method CompareNatural(a: string, b: string) returns (cmp: int)
    requires Plain(a) && Plain(b)
    ensures cmp == Natural(a, b)
  {
    var depthA := PathDepth(a);
    var depthB := PathDepth(b);
    if depthA != depthB {
      return Sign(depthA < depthB);
    }
    var pa: nat, pb: nat := 0, 0;
    while pa < |a| || pb < |b|
      invariant pa <= |a| && pb <= |b| && Compare(a, pa, b, pb) == Compare(a, 0, b, 0)
      decreases |a| - pa + |b| - pb
    {
      if Numeric(a, pa) && Numeric(b, pb) {
        var okA, da, ma := ParseDurationMs(a, pa);
        var okB, db, mb := ParseDurationMs(b, pb);
        if okA && okB {
          if ma != mb {
            return Sign(ma < mb);
          }
          pa, pb := da, db;
        } else {
          var digitCmp, m, n := CompareDigitRuns(a, pa, b, pb);
          if digitCmp != 0 {
            return digitCmp;
          }
          pa, pb := m, n;
        }
      } else {
        CodeTells(a, pa);
        CodeTells(b, pb);
        if Code(a, pa) != Code(b, pb) {
          return Code(a, pa) - Code(b, pb);
        }
        pa, pb := pa + 1, pb + 1;
      }
    }
    return 0;
  }
}
