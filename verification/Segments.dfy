/** The downloaded part of a file: a set of byte segments, kept apart by merging what touches. */
module Segments {
  /** Bytes from start on. */
  datatype Segment = Segment(start: nat, size: nat) {
    function End(): nat { start + size }
    predicate Holds(p: int) { start <= p < End() }
  }

  // ----- the set of segments, in its order: by start, then by size -----

  predicate Less(a: Segment, b: Segment) {
    a.start < b.start || (a.start == b.start && a.size < b.size)
  }

  predicate Sorted(ds: seq<Segment>) {
    forall j, k :: 0 <= j < k < |ds| ==> Less(ds[j], ds[k])
  }

  /** The first place whose segment is not before x. */
  function Lower(ds: seq<Segment>, x: Segment): (k: nat)
    ensures k <= |ds| && (forall j :: 0 <= j < k ==> Less(ds[j], x)) && (k < |ds| ==> !Less(ds[k], x))
  {
    if ds == [] || !Less(ds[0], x) then 0 else 1 + Lower(ds[1..], x)
  }

  function Insert(ds: seq<Segment>, x: Segment): seq<Segment> {
    var k := Lower(ds, x);
    if k < |ds| && ds[k] == x then ds else ds[..k] + [x] + ds[k..]
  }

  lemma InsertAt(ds: seq<Segment>, x: Segment, k: nat)
    requires k <= |ds|
    requires forall j :: 0 <= j < k ==> Less(ds[j], x)
    requires forall j :: k <= j < |ds| ==> Less(x, ds[j])
    ensures Lower(ds, x) == k && Insert(ds, x) == ds[..k] + [x] + ds[k..]
  {
    var at := Lower(ds, x);
    assert at < |ds| ==> (Less(ds[at], x) <==> at < k);
    assert k < |ds| ==> Less(x, ds[k]);
  }

  // ----- what is covered -----

  predicate Covers(ds: seq<Segment>, p: int) {
    exists k :: 0 <= k < |ds| && ds[k].Holds(p)
  }

  /** In order, with a gap between any two: no two segments overlap or touch. */
  predicate Apart(ds: seq<Segment>) {
    forall j, k :: 0 <= j < k < |ds| ==> ds[j].End() < ds[k].start
  }

  predicate NonEmpty(ds: seq<Segment>) {
    forall k :: 0 <= k < |ds| ==> ds[k].size > 0
  }

  /** The new segment lies strictly inside an old one, or an old one strictly inside it. */
  predicate Nested(ds: seq<Segment>, s: Segment) {
    exists k :: 0 <= k < |ds| && (Inside(s, ds[k]) || Inside(ds[k], s))
  }

  predicate Inside(a: Segment, b: Segment) {
    b.start < a.start && a.End() < b.End()
  }

  /** Byte p is behind s in a segment that starts before s. */
  predicate Behind(ds: seq<Segment>, s: Segment, p: int) {
    exists k :: 0 <= k < |ds| && ds[k].start < s.start && s.End() <= p < ds[k].End()
  }

  /** Byte p is past the end of a segment that starts inside s. */
  predicate Past(ds: seq<Segment>, s: Segment, p: int) {
    exists k :: 0 <= k < |ds| && s.start < ds[k].start && ds[k].End() <= p
  }

  /** Whether byte p is covered after s is added: of the bytes that should be, those behind s in an old segment
      that starts before s are lost, and those of s past the end of an old segment that starts inside s. */
  predicate Kept(ds: seq<Segment>, s: Segment, p: int) {
    if Covers(ds, p) then !Behind(ds, s, p) else s.Holds(p) && !Past(ds, s, p)
  }

  // ----- merging -----

  /** Two segments as one: it ends where the second does. */
  function Merged(a: Segment, b: Segment): (m: Segment)
    requires a.start <= b.start
  {
    Segment(a.start, b.End() - a.start)
  }

  function Left(ds: seq<Segment>, s: Segment): seq<Segment> {
    ds[..Lower(ds, s)]
  }

  function Right(ds: seq<Segment>, s: Segment): seq<Segment> {
    ds[Lower(ds, s)..]
  }

  /** The segments before s and s, with the last of them merged into s if it reaches s. */
  function JoinLeft(l: seq<Segment>, s: Segment): (r: seq<Segment>)
    requires forall k :: 0 <= k < |l| ==> Less(l[k], s)
    ensures |r| > 0 && r[|r| - 1].start <= s.start
  {
    assert l != [] ==> Less(l[|l| - 1], s);
    if l != [] && l[|l| - 1].End() >= s.start then l[..|l| - 1] + [Merged(l[|l| - 1], s)] else l + [s]
  }

  /** The same for the segments behind it. */
  function JoinRight(l: seq<Segment>, r: seq<Segment>): seq<Segment>
    requires l != []
    requires r != [] ==> l[|l| - 1].start <= r[0].start
  {
    if r != [] && l[|l| - 1].End() >= r[0].start then l[..|l| - 1] + [Merged(l[|l| - 1], r[0])] + r[1..] else l + r
  }

  function Added(ds: seq<Segment>, s: Segment): seq<Segment>
    requires Apart(ds)
  {
    if s in ds then ds else
      SortedSides(ds, s);
      JoinRight(JoinLeft(Left(ds, s), s), Right(ds, s))
  }

  lemma ApartIsSorted(ds: seq<Segment>)
    requires Apart(ds)
    ensures Sorted(ds)
  {
  }

  lemma SortedSides(ds: seq<Segment>, s: Segment)
    requires Apart(ds) && s !in ds
    ensures forall k :: 0 <= k < |Left(ds, s)| ==> Less(Left(ds, s)[k], s)
    ensures forall k :: 0 <= k < |Right(ds, s)| ==> Less(s, Right(ds, s)[k])
    ensures Apart(Left(ds, s)) && Apart(Right(ds, s)) && ds == Left(ds, s) + Right(ds, s)
    ensures forall j, k :: 0 <= j < |Left(ds, s)| && 0 <= k < |Right(ds, s)| ==>
            Left(ds, s)[j].End() < Right(ds, s)[k].start
  {
    CutApart(ds, Lower(ds, s), Left(ds, s), Right(ds, s));
    RightIsBehind(ds, s, Lower(ds, s));
  }

  lemma RightIsBehind(ds: seq<Segment>, s: Segment, at: nat)
    requires Apart(ds) && s !in ds && at == Lower(ds, s)
    ensures forall k :: at <= k < |ds| ==> Less(s, ds[k])
  {
    ApartIsSorted(ds);
    forall k | at <= k < |ds| ensures Less(s, ds[k]) {
      assert s != ds[at];
      if k > at {
        assert Less(ds[at], ds[k]);
      }
    }
  }

  lemma CutApart(ds: seq<Segment>, at: nat, l: seq<Segment>, r: seq<Segment>)
    requires Apart(ds) && at <= |ds| && l == ds[..at] && r == ds[at..]
    ensures Apart(l) && Apart(r) && ds == l + r
    ensures forall j, k :: 0 <= j < |l| && 0 <= k < |r| ==> l[j].End() < r[k].start
  {
  }

  // ----- what merging keeps -----

  lemma CoversBoth(a: seq<Segment>, b: seq<Segment>, p: int)
    ensures Covers(a + b, p) <==> Covers(a, p) || Covers(b, p)
  {
    var ab := a + b;
    forall k | 0 <= k < |a| ensures ab[k] == a[k] {}
    forall k | 0 <= k < |b| ensures ab[|a| + k] == b[k] {}
    if Covers(b, p) {
      var k :| 0 <= k < |b| && b[k].Holds(p);
      assert ab[|a| + k].Holds(p);
    }
    if Covers(a, p) {
      var k :| 0 <= k < |a| && a[k].Holds(p);
      assert ab[k].Holds(p);
    }
  }

  lemma CoversOne(s: Segment, p: int)
    ensures Covers([s], p) <==> s.Holds(p)
  {
    assert [s][0] == s;
  }

  lemma LastOf(l: seq<Segment>, p: int)
    requires l != []
    ensures Covers(l, p) <==> Covers(l[..|l| - 1], p) || l[|l| - 1].Holds(p)
  {
    assert l == l[..|l| - 1] + [l[|l| - 1]];
    CoversBoth(l[..|l| - 1], [l[|l| - 1]], p);
    CoversOne(l[|l| - 1], p);
  }

  lemma FirstOf(r: seq<Segment>, p: int)
    requires r != []
    ensures Covers(r, p) <==> r[0].Holds(p) || Covers(r[1..], p)
  {
    assert r == [r[0]] + r[1..];
    CoversBoth([r[0]], r[1..], p);
    CoversOne(r[0], p);
  }

  lemma LeftCovers(l: seq<Segment>, s: Segment, p: int)
    requires Apart(l) && forall k :: 0 <= k < |l| ==> Less(l[k], s)
    ensures Covers(JoinLeft(l, s), p) <==> (Covers(l, p) && !Behind(l, s, p)) || s.Holds(p)
  {
    LastOf(JoinLeft(l, s), p);
    if l != [] {
      var last := l[|l| - 1];
      assert Less(last, s);
      LastOf(l, p);
      if last.End() >= s.start {
        assert JoinLeft(l, s)[..|l| - 1] == l[..|l| - 1];
        if Covers(l[..|l| - 1], p) {
          assert p < last.start;
        }
      } else {
        assert JoinLeft(l, s)[..|l|] == l;
      }
    }
  }

  lemma LeftApart(l: seq<Segment>, s: Segment)
    requires Apart(l) && forall k :: 0 <= k < |l| ==> Less(l[k], s)
    ensures var j := JoinLeft(l, s); Apart(j) && j[|j| - 1].End() == s.End() && j[|j| - 1].start <= s.start
  {
    assert l != [] ==> Less(l[|l| - 1], s);
  }

  lemma RightCovers(l: seq<Segment>, r: seq<Segment>, p: int)
    requires l != [] && Apart(l) && Apart(r) && (r != [] ==> l[|l| - 1].start <= r[0].start)
    ensures Covers(JoinRight(l, r), p) <==>
            (Covers(l, p) && !(r != [] && l[|l| - 1].End() >= r[0].start && r[0].End() <= p)) || Covers(r, p)
  {
    var c := l[|l| - 1];
    if r != [] && c.End() >= r[0].start {
      var front := l[..|l| - 1];
      LastOf(l, p);
      FirstOf(r, p);
      CoversBoth(front + [Merged(c, r[0])], r[1..], p);
      CoversBoth(front, [Merged(c, r[0])], p);
      CoversOne(Merged(c, r[0]), p);
      if Covers(front, p) {
        assert p < c.start;
      }
    } else {
      CoversBoth(l, r, p);
    }
  }

  lemma RightApart(l: seq<Segment>, r: seq<Segment>)
    requires l != [] && Apart(l) && Apart(r) && (r != [] ==> l[|l| - 1].start <= r[0].start)
    requires forall j, k :: 0 <= j < |l| - 1 && 0 <= k < |r| ==> l[j].End() < r[k].start
    ensures Apart(JoinRight(l, r))
  {
    var c := l[|l| - 1];
    var front := l[..|l| - 1];
    if r == [] {
      assert JoinRight(l, r) == l;
    } else if c.End() >= r[0].start {
      var m := Merged(c, r[0]);
      assert Apart(front + [m]);
    }
  }

  lemma AddedApart(ds: seq<Segment>, s: Segment)
    requires Apart(ds)
    ensures Apart(Added(ds, s))
  {
    if s !in ds {
      SortedSides(ds, s);
      LeftApart(Left(ds, s), s);
      RightApart(JoinLeft(Left(ds, s), s), Right(ds, s));
    }
  }

  lemma BehindSides(l: seq<Segment>, r: seq<Segment>, s: Segment, p: int)
    requires forall k :: 0 <= k < |r| ==> Less(s, r[k])
    ensures Behind(l + r, s, p) <==> Behind(l, s, p)
  {
    if Behind(l, s, p) {
      var k :| 0 <= k < |l| && l[k].start < s.start && s.End() <= p < l[k].End();
      assert (l + r)[k] == l[k];
    }
  }

  lemma PastSides(l: seq<Segment>, r: seq<Segment>, s: Segment, p: int)
    requires forall k :: 0 <= k < |l| ==> Less(l[k], s)
    requires forall k :: 0 <= k < |r| ==> Less(s, r[k])
    requires Apart(r) && s.Holds(p)
    ensures Past(l + r, s, p) <==> r != [] && r[0].End() <= p
  {
    if r != [] && r[0].End() <= p {
      assert Less(s, r[0]);
      assert (l + r)[|l|] == r[0];
    }
    if Past(l + r, s, p) {
      var k :| 0 <= k < |l + r| && s.start < (l + r)[k].start && (l + r)[k].End() <= p;
      assert k >= |l| && (l + r)[k] == r[k - |l|];
    }
  }

  /** Exactly what is covered after a segment is added, whatever the segment. */
  lemma AddedCovers(ds: seq<Segment>, s: Segment, p: int)
    requires Apart(ds)
    ensures Covers(Added(ds, s), p) <==> Kept(ds, s, p)
  {
    if s in ds {
      var k :| 0 <= k < |ds| && ds[k] == s;
      assert s.Holds(p) ==> Covers(ds, p);
    } else {
      SortedSides(ds, s);
      var l, r := Left(ds, s), Right(ds, s);
      LeftCovers(l, s, p);
      LeftApart(l, s);
      RightCovers(JoinLeft(l, s), r, p);
      CoversBoth(l, r, p);
      AddedCoversSides(l, r, s, p);
    }
  }

  lemma AddedCoversSides(l: seq<Segment>, r: seq<Segment>, s: Segment, p: int)
    requires Apart(l) && Apart(r)
    requires forall k :: 0 <= k < |l| ==> Less(l[k], s)
    requires forall k :: 0 <= k < |r| ==> Less(s, r[k])
    requires forall j, k :: 0 <= j < |l| && 0 <= k < |r| ==> l[j].End() < r[k].start
    ensures Kept(l + r, s, p) <==>
            Covers(r, p) ||
            (((Covers(l, p) && !Behind(l, s, p)) || s.Holds(p))
                && !(r != [] && s.End() >= r[0].start && r[0].End() <= p))
  {
    BehindSides(l, r, s, p);
    CoversBoth(l, r, p);
    if s.Holds(p) {
      PastSides(l, r, s, p);
    }
    if Covers(l, p) {
      var k :| 0 <= k < |l| && l[k].Holds(p);
      assert Less(l[k], s);
    }
  }

  lemma LossWitness(ds: seq<Segment>, s: Segment) returns (p: int)
    requires Apart(ds) && Nested(ds, s)
    ensures (Covers(ds, p) || s.Holds(p)) && !Covers(Added(ds, s), p)
  {
    var k :| 0 <= k < |ds| && (Inside(s, ds[k]) || Inside(ds[k], s));
    if Inside(s, ds[k]) {
      p := s.End();
      assert Covers(ds, p) && Behind(ds, s, p);
    } else {
      p := ds[k].End();
      assert !Covers(ds, p) && s.Holds(p) && Past(ds, s, p);
    }
    AddedCovers(ds, s, p);
  }

  /** Nothing is lost and nothing is gained exactly if no old segment and the new one lie strictly inside one
      another. */
  lemma CoverageKept(ds: seq<Segment>, s: Segment)
    requires Apart(ds)
    ensures (forall p: int :: Covers(Added(ds, s), p) <==> Covers(ds, p) || s.Holds(p)) <==> !Nested(ds, s)
  {
    if Nested(ds, s) {
      var p := LossWitness(ds, s);
    } else {
      forall p: int ensures Covers(Added(ds, s), p) <==> Covers(ds, p) || s.Holds(p) {
        AddedCovers(ds, s, p);
      }
    }
  }

  // ----- the queue item -----

  lemma MergeAt(ds: seq<Segment>, i: nat)
    requires 0 < i < |ds| && ds[i - 1].start <= ds[i].start
    requires forall k :: 0 <= k < i - 1 ==> ds[k].End() < ds[i - 1].start
    requires forall k :: i < k < |ds| ==> Less(Merged(ds[i - 1], ds[i]), ds[k])
    ensures var rest, m := ds[..i - 1] + ds[i + 1..], Merged(ds[i - 1], ds[i]);
            Lower(rest, m) == i - 1 && Insert(rest, m) == ds[..i - 1] + [m] + ds[i + 1..]
  {
    InsertAt(ds[..i - 1] + ds[i + 1..], Merged(ds[i - 1], ds[i]), i - 1);
  }

  class QueueItem {
    const size: nat
    var done: seq<Segment>

    constructor (size: nat)
      ensures this.size == size && done == []
    {
      this.size := size;
      done := [];
    }

    /** Replaces the segment at i and the one before it by one, and returns where the segment after them is now. */
    method Merge(i: nat) returns (next: nat)
      requires 0 < i < |done| && done[i - 1].start <= done[i].start
      requires forall k :: 0 <= k < i - 1 ==> done[k].End() < done[i - 1].start
      requires forall k :: i < k < |done| ==> Less(Merged(done[i - 1], done[i]), done[k])
      modifies this`done
      ensures done == old(done[..i - 1]) + [Merged(old(done[i - 1]), old(done[i]))] + old(done[i + 1..]) && next == i
    {
      var big := Segment(done[i - 1].start, done[i].End() - done[i - 1].start);
      MergeAt(done, i);
      done := done[..i - 1] + done[i + 1..];
      next := i - 1;
      if Lower(done, big) <= next {
        next := next + 1;
      }
      done := Insert(done, big);
    }

    /** The loop of AddSegment. */
    method Consolidate(ghost l: seq<Segment>, ghost s: Segment, ghost r: seq<Segment>, ghost final: seq<Segment>)
      requires Sides(l, s, r) && Apart(final) && Stage(l, s, r, final, done, 1)
      modifies this`done
      ensures done == final
    {
      var i := 1;
      while i < |done|
        invariant i >= 1 && Stage(l, s, r, final, done, i)
        decreases |done| - i
      {
        StageStep(l, s, r, final, done, i);
        if done[i - 1].End() >= done[i].start {
          i := Merge(i);
        } else {
          i := i + 1;
        }
      }
      StageEnd(l, s, r, final, done, i);
    }

    method AddSegment(segment: Segment)
      requires Apart(done)
      modifies this`done
      ensures Apart(done)
      ensures forall p :: Covers(done, p) <==> Kept(old(done), segment, p)
      ensures done == Added(old(done), segment)
    {
      ghost var before := done;
      AddedApart(before, segment);
      InsertSides(before, segment);
      done := Insert(done, segment);
      if |done| != 1 {
        ghost var l, r := Begin(before, segment);
        Consolidate(l, segment, r, Added(before, segment));
      }
      forall p ensures Covers(done, p) <==> Kept(before, segment, p) {
        AddedCovers(before, segment, p);
      }
    }

    /** The number of bytes covered, each counted once. */
    method GetDownloadedBytes() returns (total: nat)
      requires Apart(done)
      ensures total == |CoveredBytes(done)|
    {
      total := 0;
      var i := 0;
      assert done[..0] == [];
      while i < |done|
        invariant i <= |done| && total == |CoveredBytes(done[..i])|
      {
        CountNext(done, i);
        total := total + done[i].size;
        i := i + 1;
      }
      assert done[..i] == done;
    }

    /** The part of [startPos, startPos + len) that is covered without a break from startPos on. */
    method IsChunkDownloaded(startPos: int, len: int) returns (found: bool, run: int)
      requires Apart(done)
      ensures found <==> len > 0 && Covers(done, startPos)
      ensures found ==> 0 < run <= len && (forall p :: startPos <= p < startPos + run ==> Covers(done, p))
      ensures found ==> run == len || !Covers(done, startPos + run)
      ensures !found ==> run == len
    {
      run := len;
      if len <= 0 {
        return false, run;
      }
      var i := 0;
      while i < |done|
        invariant i <= |done| && forall k :: 0 <= k < i ==> !done[k].Holds(startPos)
      {
        var first, second := done[i].start, done[i].End();
        if first <= startPos && startPos < second {
          run := if len < second - startPos then len else second - startPos;
          RunEnds(done, i, startPos, run);
          return true, run;
        }
        i := i + 1;
      }
      return false, run;
    }

    /** For a file and segments that are not empty: exactly when the file's bytes and no others are covered. */
    method IsFinished() returns (finished: bool)
      ensures finished <==> done == [Segment(0, size)]
      ensures Apart(done) && NonEmpty(done) && size > 0 ==>
                (finished <==> forall p :: Covers(done, p) <==> 0 <= p < size)
    {
      if Apart(done) && NonEmpty(done) && size > 0 {
        FinishedIsCovered(done, size);
      }
      finished := |done| == 1 && done[0] == Segment(0, size);
    }

    /** Whether some of the ranges of blocks, given as pairs of a first block and one behind the last, is not wholly
        covered. A wanted part is never missed; in a list that is not ascending a part may be found in vain. */
    method IsNeededPart(parts: seq<nat>, blockSize: nat) returns (needed: bool)
      requires |parts| % 2 == 0 && Apart(done)
      ensures !needed ==> forall k :: 0 <= k < |parts| / 2 ==> PartCovered(done, parts, blockSize, k)
      ensures needed && Ascending(parts) && blockSize > 0 ==>
                exists k :: 0 <= k < |parts| / 2 && !PartCovered(done, parts, blockSize, k)
    {
      var i, j := 0, 0;
      ghost var m := 0;
      while j < |parts|
        invariant 0 <= j <= |parts| && j == 2 * m && i <= |done|
        invariant forall k :: 0 <= k < m ==> PartCovered(done, parts, blockSize, k)
        invariant Ascending(parts) ==> Passed(done, i, parts, blockSize, m)
      {
        var from, to := parts[j] * blockSize, parts[j + 1] * blockSize;
        while i < |done| && done[i].End() <= from
          invariant i <= |done|
          invariant Ascending(parts) ==> Passed(done, i, parts, blockSize, m)
        {
          if Ascending(parts) {
            PassOne(done, i, parts, blockSize, m);
          }
          i := i + 1;
        }
        if i == |done| || !(done[i].start <= from && done[i].End() >= to) {
          if Ascending(parts) && blockSize > 0 {
            PartMissing(done, i, parts, blockSize, m);
          }
          return true;
        }
        PartWithin(done, i, parts, blockSize, m);
        j := j + 2;
        m := m + 1;
      }
      return false;
    }
  }

  /** The new segment s between the old ones before it and behind it. */
  predicate Sides(l: seq<Segment>, s: Segment, r: seq<Segment>) {
    && Apart(l) && Apart(r)
    && (forall k :: 0 <= k < |l| ==> Less(l[k], s))
    && (forall k :: 0 <= k < |r| ==> Less(s, r[k]))
  }

  /** How far the loop of AddSegment has come: past all merging, not yet past the new segment, or just past it. */
  predicate Stage(l: seq<Segment>, s: Segment, r: seq<Segment>, final: seq<Segment>, now: seq<Segment>, i: nat)
    requires Sides(l, s, r)
  {
    || now == final
    || (final == JoinRight(JoinLeft(l, s), r) &&
        ((i <= |l| && now == l + [s] + r) || (i == |JoinLeft(l, s)| && now == JoinLeft(l, s) + r)))
  }

  /** What one round of the loop needs and what it makes of the list. */
  predicate Mergeable(now: seq<Segment>, i: nat)
    requires 0 < i < |now|
  {
    && now[i - 1].start <= now[i].start
    && (forall k :: 0 <= k < i - 1 ==> now[k].End() < now[i - 1].start)
    && (now[i - 1].End() >= now[i].start ==>
          forall k :: i < k < |now| ==> Less(Merged(now[i - 1], now[i]), now[k]))
  }

  function Round(now: seq<Segment>, i: nat): seq<Segment>
    requires 0 < i < |now| && now[i - 1].start <= now[i].start
  {
    if now[i - 1].End() >= now[i].start then now[..i - 1] + [Merged(now[i - 1], now[i])] + now[i + 1..] else now
  }

  /** The segments before the new one are apart. */
  lemma RoundInLeft(l: seq<Segment>, rest: seq<Segment>, i: nat)
    requires Apart(l) && 0 < i < |l|
    ensures Mergeable(l + rest, i) && Round(l + rest, i) == l + rest
  {
  }

  lemma RoundAtNew(l: seq<Segment>, s: Segment, r: seq<Segment>)
    requires l != [] && Apart(l) && Apart(r)
    requires forall k :: 0 <= k < |l| ==> Less(l[k], s)
    requires forall k :: 0 <= k < |r| ==> Less(s, r[k])
    ensures Mergeable(l + [s] + r, |l|) && Round(l + [s] + r, |l|) == JoinLeft(l, s) + r
  {
    var now, last := l + [s] + r, l[|l| - 1];
    assert Less(last, s) && now[|l| - 1] == last && now[|l|] == s;
    if last.End() >= s.start {
      forall k | |l| < k < |now| ensures Less(Merged(last, s), now[k]) {
        assert now[k] == r[k - |l| - 1];
      }
      assert now[..|l| - 1] == l[..|l| - 1] && now[|l| + 1..] == r;
    }
  }

  lemma RoundAtRight(j: seq<Segment>, r: seq<Segment>)
    requires j != [] && r != [] && Apart(j) && Apart(r) && j[|j| - 1].start <= r[0].start
    ensures Mergeable(j + r, |j|) && Round(j + r, |j|) == JoinRight(j, r)
  {
    var now, c := j + r, j[|j| - 1];
    assert now[|j| - 1] == c && now[|j|] == r[0];
    if c.End() >= r[0].start {
      forall k | |j| < k < |now| ensures Less(Merged(c, r[0]), now[k]) {
        assert now[k] == r[k - |j|];
      }
      assert now[..|j| - 1] == j[..|j| - 1] && now[|j| + 1..] == r[1..];
    }
  }

  lemma StageStep(l: seq<Segment>, s: Segment, r: seq<Segment>, final: seq<Segment>, now: seq<Segment>, i: nat)
    requires Sides(l, s, r) && Apart(final) && 0 < i < |now| && Stage(l, s, r, final, now, i)
    ensures Mergeable(now, i)
    ensures Stage(l, s, r, final, Round(now, i), if now[i - 1].End() >= now[i].start then i else i + 1)
  {
    var j := JoinLeft(l, s);
    if now == final {
      RoundInLeft(now, [], i);
      assert now + [] == now;
    } else if now == j + r && i == |j| {
      LeftApart(l, s);
      RoundAtRight(j, r);
    } else if i < |l| {
      RoundInLeft(l, [s] + r, i);
      assert l + ([s] + r) == now;
    } else {
      RoundAtNew(l, s, r);
    }
  }

  lemma StageEnd(l: seq<Segment>, s: Segment, r: seq<Segment>, final: seq<Segment>, now: seq<Segment>, i: nat)
    requires Sides(l, s, r) && Stage(l, s, r, final, now, i) && i >= |now|
    ensures now == final
  {
    if r == [] {
      assert JoinLeft(l, s) + r == JoinLeft(l, s);
    }
  }

  lemma InsertSides(ds: seq<Segment>, s: Segment)
    requires Apart(ds)
    ensures Insert(ds, s) == if s in ds then ds else Left(ds, s) + [s] + Right(ds, s)
    ensures |Insert(ds, s)| == 1 ==> Insert(ds, s) == Added(ds, s)
  {
    if s in ds {
      var k :| 0 <= k < |ds| && ds[k] == s;
      ApartIsSorted(ds);
      var at := Lower(ds, s);
      assert Less(ds[at], ds[k]) || at >= k;
    }
  }

  lemma Begin(ds: seq<Segment>, s: Segment) returns (l: seq<Segment>, r: seq<Segment>)
    requires Apart(ds)
    ensures Sides(l, s, r) && Stage(l, s, r, Added(ds, s), Insert(ds, s), 1)
  {
    InsertSides(ds, s);
    if s in ds {
      l, r := [], [];
    } else {
      SortedSides(ds, s);
      l, r := Left(ds, s), Right(ds, s);
    }
  }

  // ----- counting -----

  function Bytes(s: Segment): (bytes: set<int>)
    ensures forall p :: p in bytes <==> s.Holds(p)
    decreases s.size
  {
    if s.size == 0 then {} else Bytes(Segment(s.start, s.size - 1)) + {s.End() - 1}
  }

  function CoveredBytes(ds: seq<Segment>): (bytes: set<int>)
    ensures forall p :: p in bytes <==> Covers(ds, p)
  {
    if ds == [] then {} else
      (forall p ensures Covers(ds, p) <==> Covers(ds[..|ds| - 1], p) || ds[|ds| - 1].Holds(p) { LastOf(ds, p); }
       CoveredBytes(ds[..|ds| - 1]) + Bytes(ds[|ds| - 1]))
  }

  lemma {:induction false} BytesCount(s: Segment)
    ensures |Bytes(s)| == s.size
    decreases s.size
  {
    if s.size > 0 {
      BytesCount(Segment(s.start, s.size - 1));
    }
  }

  lemma CountNext(ds: seq<Segment>, i: nat)
    requires Apart(ds) && i < |ds|
    ensures |CoveredBytes(ds[..i + 1])| == |CoveredBytes(ds[..i])| + ds[i].size
  {
    forall p ensures Covers(ds[..i + 1], p) <==> Covers(ds[..i], p) || ds[i].Holds(p) {
      LastOf(ds[..i + 1], p);
      assert ds[..i + 1][..i] == ds[..i];
    }
    forall p | Covers(ds[..i], p) ensures !ds[i].Holds(p) {
      var k :| 0 <= k < i && ds[..i][k].Holds(p);
      assert ds[k].End() < ds[i].start;
    }
    CountMore(ds[..i], ds[i], ds[..i + 1]);
  }

  lemma CountMore(ds: seq<Segment>, s: Segment, all: seq<Segment>)
    requires forall p :: Covers(all, p) <==> Covers(ds, p) || s.Holds(p)
    requires forall p :: Covers(ds, p) ==> !s.Holds(p)
    ensures |CoveredBytes(all)| == |CoveredBytes(ds)| + s.size
  {
    var before, added, both := CoveredBytes(ds), Bytes(s), CoveredBytes(all);
    forall p: int ensures p in both <==> p in before + added {
      assert p in both <==> Covers(all, p);
    }
    forall p: int ensures !(p in before && p in added) {
      assert p in before <==> Covers(ds, p);
    }
    assert both == before + added && before !! added;
    BytesCount(s);
  }

  lemma RunEnds(ds: seq<Segment>, i: nat, from: int, run: int)
    requires Apart(ds) && i < |ds| && ds[i].start <= from && 0 < run <= ds[i].End() - from
    ensures Covers(ds, from) && (forall p :: from <= p < from + run ==> Covers(ds, p))
    ensures from + run == ds[i].End() ==> !Covers(ds, from + run)
  {
    forall p | from <= p < from + run ensures Covers(ds, p) {
      assert ds[i].Holds(p);
    }
  }

  // ----- parts -----

  /** The first byte of range k, and the one behind its last. */
  function From(parts: seq<nat>, blockSize: nat, k: nat): nat
    requires 2 * k < |parts|
  {
    parts[2 * k] * blockSize
  }

  function To(parts: seq<nat>, blockSize: nat, k: nat): nat
    requires 2 * k + 1 < |parts|
  {
    parts[2 * k + 1] * blockSize
  }

  ghost predicate PartCovered(ds: seq<Segment>, parts: seq<nat>, blockSize: nat, k: nat)
    requires 2 * k + 1 < |parts|
  {
    forall p :: From(parts, blockSize, k) <= p < To(parts, blockSize, k) ==> Covers(ds, p)
  }

  /** No range is empty, and none starts before the one in front of it. */
  predicate Ascending(parts: seq<nat>) {
    && (forall k :: 0 <= k < |parts| / 2 ==> parts[2 * k] < parts[2 * k + 1])
    && (forall j, k :: 0 <= j < k < |parts| / 2 ==> parts[2 * j] <= parts[2 * k])
  }

  /** The first i segments end before range m and all that follow. */
  ghost predicate Passed(ds: seq<Segment>, i: nat, parts: seq<nat>, blockSize: nat, m: nat)
    requires i <= |ds|
  {
    forall k, n :: 0 <= k < i && m <= n < |parts| / 2 ==> ds[k].End() <= From(parts, blockSize, n)
  }

  lemma PassOne(ds: seq<Segment>, i: nat, parts: seq<nat>, blockSize: nat, m: nat)
    requires i < |ds| && 2 * m + 1 < |parts| && Ascending(parts) && Passed(ds, i, parts, blockSize, m)
    requires ds[i].End() <= From(parts, blockSize, m)
    ensures Passed(ds, i + 1, parts, blockSize, m)
  {
    forall n | m <= n < |parts| / 2 ensures ds[i].End() <= From(parts, blockSize, n) {
      Scaled(parts[2 * m], parts[2 * n], blockSize);
    }
  }

  lemma Scaled(a: nat, b: nat, size: nat)
    requires a <= b
    ensures a * size <= b * size
    ensures a < b && size > 0 ==> a * size < b * size
  {
    assert b * size == a * size + (b - a) * size;
  }

  lemma PartMissing(ds: seq<Segment>, i: nat, parts: seq<nat>, blockSize: nat, m: nat)
    requires Apart(ds) && i <= |ds| && 2 * m + 1 < |parts| && Ascending(parts) && blockSize > 0
    requires Passed(ds, i, parts, blockSize, m)
    requires i < |ds| ==> ds[i].End() > From(parts, blockSize, m)
    requires i < |ds| ==> !(ds[i].start <= From(parts, blockSize, m) && ds[i].End() >= To(parts, blockSize, m))
    ensures !PartCovered(ds, parts, blockSize, m)
  {
    var from, to := From(parts, blockSize, m), To(parts, blockSize, m);
    Scaled(parts[2 * m], parts[2 * m + 1], blockSize);
    var p := if i < |ds| && ds[i].start <= from then ds[i].End() else from;
    forall k | 0 <= k < |ds| ensures !ds[k].Holds(p) {
      if k < i {
        assert ds[k].End() <= from;
      }
    }
    assert from <= p < to && !Covers(ds, p);
  }

  lemma PartWithin(ds: seq<Segment>, i: nat, parts: seq<nat>, blockSize: nat, m: nat)
    requires i < |ds| && 2 * m + 1 < |parts|
    requires ds[i].start <= From(parts, blockSize, m) && ds[i].End() >= To(parts, blockSize, m)
    ensures PartCovered(ds, parts, blockSize, m)
  {
    forall p | From(parts, blockSize, m) <= p < To(parts, blockSize, m) ensures Covers(ds, p) {
      assert ds[i].Holds(p);
    }
  }

  // ----- whole runs -----

  /** The segments of a run added one after the other. */
  function AddAll(ss: seq<Segment>): seq<Segment> {
    if ss == [] then [] else
      var before := AddAll(ss[..|ss| - 1]);
      if Apart(before) then Added(before, ss[|ss| - 1]) else before
  }

  ghost predicate Disjoint(ss: seq<Segment>) {
    forall j, k, p :: 0 <= j < k < |ss| ==> !(ss[j].Holds(p) && ss[k].Holds(p))
  }

  function Total(ss: seq<Segment>): nat {
    if ss == [] then 0 else Total(ss[..|ss| - 1]) + ss[|ss| - 1].size
  }

  lemma NewBytesKept(ds: seq<Segment>, s: Segment)
    requires Apart(ds) && NonEmpty(ds) && s.size > 0
    requires forall p :: Covers(ds, p) ==> !s.Holds(p)
    ensures Apart(Added(ds, s)) && NonEmpty(Added(ds, s))
    ensures forall p :: Covers(Added(ds, s), p) <==> Covers(ds, p) || s.Holds(p)
    ensures |CoveredBytes(Added(ds, s))| == |CoveredBytes(ds)| + s.size
  {
    AddedApart(ds, s);
    forall k | 0 <= k < |ds| ensures !Inside(s, ds[k]) && !Inside(ds[k], s) {
      assert ds[k].Holds(ds[k].start) && Covers(ds, ds[k].start);
      assert ds[k].Holds(s.start) ==> Covers(ds, s.start);
    }
    CoverageKept(ds, s);
    CountMore(ds, s, Added(ds, s));
    AddedNonEmpty(ds, s);
  }

  lemma AddedNonEmpty(ds: seq<Segment>, s: Segment)
    requires Apart(ds) && NonEmpty(ds) && s.size > 0
    ensures NonEmpty(Added(ds, s))
  {
    if s !in ds {
      SortedSides(ds, s);
      LeftNonEmpty(Left(ds, s), s);
      RightNonEmpty(JoinLeft(Left(ds, s), s), Right(ds, s));
    }
  }

  lemma LeftNonEmpty(l: seq<Segment>, s: Segment)
    requires NonEmpty(l) && s.size > 0 && forall k :: 0 <= k < |l| ==> Less(l[k], s)
    ensures NonEmpty(JoinLeft(l, s))
  {
    assert l != [] ==> Less(l[|l| - 1], s);
  }

  lemma RightNonEmpty(l: seq<Segment>, r: seq<Segment>)
    requires l != [] && NonEmpty(l) && NonEmpty(r) && (r != [] ==> l[|l| - 1].start <= r[0].start)
    ensures NonEmpty(JoinRight(l, r))
  {
  }

  /** However many downloads that do not overlap arrive, and in whatever order: exactly their bytes are covered, and
      each is counted once. */
  lemma {:induction false} DownloadsAddUp(ss: seq<Segment>)
    requires Disjoint(ss) && NonEmpty(ss)
    ensures Apart(AddAll(ss)) && NonEmpty(AddAll(ss))
    ensures forall p :: Covers(AddAll(ss), p) <==> Covers(ss, p)
    ensures |CoveredBytes(AddAll(ss))| == Total(ss)
  {
    if ss != [] {
      var n := |ss| - 1;
      DownloadsAddUp(ss[..n]);
      forall p ensures Covers(ss, p) <==> Covers(ss[..n], p) || ss[n].Holds(p) {
        LastOf(ss, p);
      }
      NewBytesKept(AddAll(ss[..n]), ss[n]);
    }
  }

  /** A file counts as finished exactly if its bytes and no others are covered. */
  lemma FinishedIsCovered(ds: seq<Segment>, size: nat)
    requires Apart(ds) && NonEmpty(ds) && size > 0
    ensures ds == [Segment(0, size)] <==> forall p :: Covers(ds, p) <==> 0 <= p < size
  {
    if forall p :: Covers(ds, p) <==> 0 <= p < size {
      CoveredIsFinished(ds, size);
    }
    if ds == [Segment(0, size)] {
      forall p ensures Covers(ds, p) <==> 0 <= p < size {
        CoversOne(ds[0], p);
      }
    }
  }

  lemma CoveredIsFinished(ds: seq<Segment>, size: nat)
    requires Apart(ds) && NonEmpty(ds) && size > 0
    requires forall p :: Covers(ds, p) <==> 0 <= p < size
    ensures ds == [Segment(0, size)]
  {
    assert Covers(ds, 0);
    var first := ds[0];
    assert first.Holds(first.start) && Covers(ds, first.start);
    assert first.Holds(first.End() - 1) && Covers(ds, first.End() - 1);
    assert !Covers(ds, first.End());
    if |ds| > 1 {
      assert ds[1].Holds(ds[1].start) && Covers(ds, ds[1].start);
    }
  }
}
