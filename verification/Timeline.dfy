/** Linear selection, the reference against which the binary searches are measured. */
module Selection {

  function Select<T>(s: seq<T>, p: T -> bool): seq<T> {
    if s == [] then []
    else if p(s[|s| - 1]) then Select(s[..|s| - 1], p) + [s[|s| - 1]]
    else Select(s[..|s| - 1], p)
  }

  /** A Python slice s[lo:hi] with non-negative bounds. */
  function Slice<T>(s: seq<T>, lo: nat, hi: nat): seq<T> {
    var h := if hi <= |s| then hi else |s|;
    if lo <= h then s[lo..h] else []
  }

  lemma {:induction false} SelectIsSlice<T>(s: seq<T>, p: T -> bool, lo: nat, hi: nat)
    requires forall k :: 0 <= k < |s| ==> (p(s[k]) <==> lo <= k < hi)
    ensures Select(s, p) == Slice(s, lo, hi)
  {
    if s != [] {
      var k := |s| - 1;
      assert p(s[k]) <==> lo <= k < hi;
      SelectIsSlice(s[..k], p, lo, hi);
      SliceLast(s, lo, hi);
    }
  }

  lemma SliceLast<T>(s: seq<T>, lo: nat, hi: nat)
    requires s != []
    ensures
      var k := |s| - 1;
      Slice(s, lo, hi) == if lo <= k < hi then Slice(s[..k], lo, hi) + [s[k]] else Slice(s[..k], lo, hi)
  {
    var k := |s| - 1;
    if lo <= k < hi {
      assert s[lo..] == s[..k][lo..] + [s[k]];
    } else if lo <= hi <= k {
      assert s[lo..hi] == s[..k][lo..hi];
    }
  }

  lemma {:induction false} SelectSame<T>(s: seq<T>, p: T -> bool, q: T -> bool)
    requires forall k :: 0 <= k < |s| ==> (p(s[k]) <==> q(s[k]))
    ensures Select(s, p) == Select(s, q)
  {
    if s != [] {
      SelectSame(s[..|s| - 1], p, q);
    }
  }

  lemma {:induction false} InSelect<T>(s: seq<T>, p: T -> bool, x: T)
    ensures x in Select(s, p) <==> x in s && p(x)
  {
    if s != [] {
      InSelect(s[..|s| - 1], p, x);
      assert s == s[..|s| - 1] + [s[|s| - 1]];
    }
  }

  lemma InSlice<T>(s: seq<T>, lo: nat, hi: nat, k: nat)
    requires lo <= k < hi && k < |s|
    ensures s[k] in Slice(s, lo, hi)
  {
    var h := if hi <= |s| then hi else |s|;
    assert s[lo..h][k - lo] == s[k];
  }

  /** Two slices of a list, one within the other, are equal only if their ends agree. */
  lemma SliceWithin<T>(s: seq<T>, lo: nat, hi: nat, lo': nat, hi': nat)
    requires lo <= lo' <= hi' <= hi <= |s|
    ensures Slice(s, lo', hi') == Slice(s, lo, hi) <==> hi' - lo' == hi - lo
  {
    assert |Slice(s, lo, hi)| == hi - lo && |Slice(s, lo', hi')| == hi' - lo';
    if hi' - lo' == hi - lo {
      assert lo == lo' && hi == hi';
    }
  }

  /** A slice is a selection of neighbours exactly if it holds every selected position and no other. */
  lemma {:induction false} SliceIsSelectIff<T>(s: seq<T>, p: T -> bool, lo: nat, hi: nat, x: nat, y: nat)
    requires hi <= |s| && x <= y <= |s| && forall k :: 0 <= k < |s| ==> (p(s[k]) <==> x <= k < y)
    ensures Slice(s, lo, hi) == Select(s, p) <==>
      && (forall k :: 0 <= k < |s| && p(s[k]) ==> lo <= k < hi)
      && (forall k :: lo <= k < hi ==> p(s[k]))
  {
    SelectIsSlice(s, p, x, y);
    if k :| lo <= k < hi && !p(s[k]) {
      InSlice(s, lo, hi, k);
      InSelect(s, p, s[k]);
    } else if lo < hi {
      assert p(s[lo]) && p(s[hi - 1]);
      SliceWithin(s, x, y, lo, hi);
      assert x < y && p(s[x]) && p(s[y - 1]);
    } else if x < y {
      assert p(s[x]);
    }
  }

  /** Where a bisection of the positions `l` to `u` first hits the positions `p` to `q`. */
  function Landing(l: nat, u: nat, p: nat, q: nat): (i: nat)
    requires l <= p <= q <= u
    ensures p <= i <= q
    decreases u - l
  {
    var i := (l + u) / 2;
    if i < p then Landing(i + 1, u, p, q) else if q < i then Landing(l, i - 1, p, q) else i
  }
}

/** The ranges of one timeline and the queries on them. */
module Ranges {
  import opened Selection

  datatype DataRange = DataRange(start: int, end: int, value: string)

  predicate Contains(r: DataRange, key: int) {
    r.start <= key <= r.end
  }

  predicate Overlaps(r: DataRange, start: int, end: int) {
    r.start <= end && start <= r.end
  }

  /** Sorted by start, each range ending before the next begins. */
  predicate Ordered(rs: seq<DataRange>) {
    && (forall i :: 0 <= i < |rs| ==> rs[i].start <= rs[i].end)
    && (forall i, j :: 0 <= i < j < |rs| ==> rs[i].end < rs[j].start)
  }

  /** The same for ranges that may share an end point with their neighbours. */
  predicate InSequence(rs: seq<DataRange>) {
    && (forall i :: 0 <= i < |rs| ==> rs[i].start <= rs[i].end)
    && (forall i, j :: 0 <= i < j < |rs| ==> rs[i].end <= rs[j].start)
  }

  predicate Covered(rs: seq<DataRange>, key: int) {
    exists i :: 0 <= i < |rs| && Contains(rs[i], key)
  }

  /** What a window query returns, by linear selection: the overlapping ranges if both ends of the
      window lie in ranges, everything on the known side if only one does, nothing if none does. */
  function Answer(rs: seq<DataRange>, start: int, end: int): seq<DataRange> {
    if Covered(rs, start) && Covered(rs, end) then Select(rs, (r: DataRange) => Overlaps(r, start, end))
    else if Covered(rs, end) then Select(rs, (r: DataRange) => r.start <= end)
    else if Covered(rs, start) then Select(rs, (r: DataRange) => start <= r.end)
    else []
  }

  // ----- The search and the queries built on it

  /** Binary search for a range that contains `key`, between positions `l` and `u`. */
  function Bisect(rs: seq<DataRange>, key: int, l: nat, u: int): (index: int)
    requires l <= u + 1 <= |rs|
    ensures -1 <= index < |rs|
    decreases u + 1 - l
  {
    if l > u then -1
    else
      var i := (l + u) / 2;
      if Contains(rs[i], key) then i
      else if key < rs[i].start then Bisect(rs, key, l, i - 1)
      else Bisect(rs, key, i + 1, u)
  }

  function Find(rs: seq<DataRange>, key: int): (index: int)
    ensures -1 <= index < |rs|
  {
    Bisect(rs, key, 0, |rs| - 1)
  }

  lemma {:induction false} BisectSound(rs: seq<DataRange>, key: int, l: nat, u: int)
    requires l <= u + 1 <= |rs|
    ensures var i := Bisect(rs, key, l, u); i == -1 || Contains(rs[i], key)
    decreases u + 1 - l
  {
    if l <= u {
      var i := (l + u) / 2;
      if Contains(rs[i], key) {
      } else if key < rs[i].start {
        BisectSound(rs, key, l, i - 1);
      } else {
        BisectSound(rs, key, i + 1, u);
      }
    }
  }

  /** The half that the search drops does not hold the range `k`. */
  lemma {:induction false} BisectFinds(rs: seq<DataRange>, key: int, l: nat, u: int, k: nat)
    requires InSequence(rs) && l <= k <= u < |rs| && Contains(rs[k], key)
    ensures Bisect(rs, key, l, u) >= 0
    decreases u + 1 - l
  {
    var i := (l + u) / 2;
    assert i < k ==> rs[i].end <= rs[k].start;
    assert k < i ==> rs[k].end <= rs[i].start;
    if Contains(rs[i], key) {
    } else if key < rs[i].start {
      BisectFinds(rs, key, l, i - 1, k);
    } else {
      BisectFinds(rs, key, i + 1, u, k);
    }
  }

  lemma FindSpec(rs: seq<DataRange>, key: int)
    requires InSequence(rs)
    ensures var i := Find(rs, key); if Covered(rs, key) then i >= 0 && Contains(rs[i], key) else i == -1
  {
    BisectSound(rs, key, 0, |rs| - 1);
    if Covered(rs, key) {
      var k :| 0 <= k < |rs| && Contains(rs[k], key);
      BisectFinds(rs, key, 0, |rs| - 1, k);
    }
  }

  /** What finding means, as far as the list is in sequence. */
  predicate Locates(rs: seq<DataRange>, key: int, index: int) {
    InSequence(rs) ==> if Covered(rs, key) then 0 <= index < |rs| && Contains(rs[index], key) else index == -1
  }

  lemma FindLocates(rs: seq<DataRange>, key: int)
    ensures Locates(rs, key, Find(rs, key))
  {
    if InSequence(rs) {
      FindSpec(rs, key);
    }
  }

  /** The positions between which a window query answers. */
  function Window(rs: seq<DataRange>, start: int, end: int): (nat, nat) {
    var s, e := Find(rs, start), Find(rs, end);
    if s == -1 && e == -1 then (0, 0)
    else if s == -1 then (0, e + 1)
    else if e == -1 then (s, |rs|)
    else (s, e + 1)
  }

  function Query(rs: seq<DataRange>, start: int, end: int): seq<DataRange> {
    Slice(rs, Window(rs, start, end).0, Window(rs, start, end).1)
  }

  class TimelineDataRange {
    var ranges: seq<DataRange>

    constructor (ranges: seq<DataRange>)
      ensures this.ranges == ranges
    {
      this.ranges := ranges;
    }

    method Search(key: int) returns (index: int)
      ensures index == Find(ranges, key)
      ensures Locates(ranges, key, index)
    {
      ghost var found := Find(ranges, key);
      FindLocates(ranges, key);
      var l, u := 0, |ranges| - 1;
      while l <= u
        invariant 0 <= l <= u + 1 <= |ranges|
        invariant Bisect(ranges, key, l, u) == found
        decreases u - l
      {
        var i := (l + u) / 2;
        if ranges[i].start <= key <= ranges[i].end {
          return i;
        } else if key < ranges[i].start {
          u := i - 1;
        } else {
          l := i + 1;
        }
      }
      return -1;
    }

    /** The window as a pair of list positions. */
    method GetRangesBounds(start: int, end: int) returns (lo: nat, hi: nat)
      ensures (lo, hi) == Window(ranges, start, end)
      ensures Ordered(ranges) ==> Slice(ranges, lo, hi) == Answer(ranges, start, end)
    {
      var s := Search(start);
      var e := Search(end);
      if s == -1 && e == -1 {
        lo, hi := 0, 0;
      } else if s == -1 {
        lo, hi := 0, e + 1;
      } else if e == -1 {
        lo, hi := s, |ranges|;
      } else {
        lo, hi := s, e + 1;
      }
      QueryIfOrdered(ranges, start, end);
    }

    method GetRanges(start: int, end: int) returns (selected: seq<DataRange>)
      ensures selected == Query(ranges, start, end)
      ensures Ordered(ranges) ==> selected == Answer(ranges, start, end)
    {
      var s := Search(start);
      var e := Search(end);
      if s == -1 && e == -1 {
        selected := [];
      } else if s == -1 {
        selected := Slice(ranges, 0, e + 1);
      } else if e == -1 {
        selected := Slice(ranges, s, |ranges|);
      } else {
        selected := Slice(ranges, s, e + 1);
      }
      QueryIfOrdered(ranges, start, end);
    }
  }

  /** For disjoint ranges the query is the linear selection. */
  lemma {:induction false} QueryIsAnswer(rs: seq<DataRange>, start: int, end: int)
    requires Ordered(rs)
    ensures Query(rs, start, end) == Answer(rs, start, end)
  {
    FindSpec(rs, start);
    FindSpec(rs, end);
    var s, e := Find(rs, start), Find(rs, end);
    if s == -1 && e == -1 {
    } else if s == -1 {
      SelectUpTo(rs, end, e);
    } else if e == -1 {
      SelectFrom(rs, start, s);
    } else {
      SelectBetween(rs, start, end, s, e);
    }
  }

  lemma SelectUpTo(rs: seq<DataRange>, end: int, e: nat)
    requires Ordered(rs) && e < |rs| && Contains(rs[e], end)
    ensures Select(rs, (r: DataRange) => r.start <= end) == Slice(rs, 0, e + 1)
  {
    SelectIsSlice(rs, (r: DataRange) => r.start <= end, 0, e + 1);
  }

  lemma SelectFrom(rs: seq<DataRange>, start: int, s: nat)
    requires Ordered(rs) && s < |rs| && Contains(rs[s], start)
    ensures Select(rs, (r: DataRange) => start <= r.end) == Slice(rs, s, |rs|)
  {
    SelectIsSlice(rs, (r: DataRange) => start <= r.end, s, |rs|);
  }

  lemma SelectBetween(rs: seq<DataRange>, start: int, end: int, s: nat, e: nat)
    requires Ordered(rs) && s < |rs| && e < |rs| && Contains(rs[s], start) && Contains(rs[e], end)
    ensures Select(rs, (r: DataRange) => Overlaps(r, start, end)) == Slice(rs, s, e + 1)
  {
    SelectIsSlice(rs, (r: DataRange) => Overlaps(r, start, end), s, e + 1);
  }

  lemma QueryIfOrdered(rs: seq<DataRange>, start: int, end: int)
    ensures Ordered(rs) ==> Query(rs, start, end) == Answer(rs, start, end)
  {
    if Ordered(rs) {
      QueryIsAnswer(rs, start, end);
    }
  }

  // ----- What a query returns

  /** If an end of the window lies in a range, every range that overlaps the window is returned, except
      that of ranges that share the start of the window an earlier one may be left out, and of ranges
      that share its end a later one. */
  lemma NothingMissed(rs: seq<DataRange>, start: int, end: int, k: nat)
    requires InSequence(rs) && k < |rs| && Overlaps(rs[k], start, end)
    requires Covered(rs, start) || Covered(rs, end)
    ensures
      || rs[k] in Query(rs, start, end)
      || (rs[k].end == start && exists j :: k < j < |rs| && rs[j].start == start)
      || (rs[k].start == end && exists j :: 0 <= j < k && rs[j].end == end)
    ensures Ordered(rs) ==> rs[k] in Query(rs, start, end)
  {
    FindSpec(rs, start);
    FindSpec(rs, end);
    var w := Window(rs, start, end);
    if w.0 <= k < w.1 {
      InSlice(rs, w.0, w.1, k);
    } else if k < w.0 {
      assert rs[w.0].start == start;
    } else {
      assert rs[w.1 - 1].end == end;
    }
  }

  /** If both ends of the window lie in ranges, nothing is returned that does not overlap it. */
  lemma {:induction false} NothingExtra(rs: seq<DataRange>, start: int, end: int, r: DataRange)
    requires InSequence(rs) && Covered(rs, start) && Covered(rs, end) && r in Query(rs, start, end)
    ensures Overlaps(r, start, end)
  {
    FindSpec(rs, start);
    FindSpec(rs, end);
    var s, e := Find(rs, start), Find(rs, end);
    var j :| 0 <= j < |Query(rs, start, end)| && Query(rs, start, end)[j] == r;
    assert r == rs[s + j];
  }

  /** The exception is real: of two ranges that share the point 2, the window 2..2 returns one. */
  lemma TouchingRangeMissed()
    ensures
      var rs := [DataRange(1, 2, "a"), DataRange(2, 3, "b")];
      InSequence(rs) && Overlaps(rs[1], 2, 2) && Query(rs, 2, 2) == [DataRange(1, 2, "a")]
  {
    var rs := [DataRange(1, 2, "a"), DataRange(2, 3, "b")];
    assert Contains(rs[0], 2);
    assert Bisect(rs, 2, 0, 1) == 0;
  }

  /** A window with both ends in gaps returns nothing, although a range lies inside it. */
  lemma RangeInsideMissed()
    ensures
      var rs := [DataRange(2, 3, "")];
      Ordered(rs) && Overlaps(rs[0], 1, 4) && Query(rs, 1, 4) == []
  {
    var rs := [DataRange(2, 3, "")];
    FindSpec(rs, 1);
    FindSpec(rs, 4);
  }

  /** When the answer is exactly the overlapping ranges, in terms of where the window ends lie. */
  predicate Exact(rs: seq<DataRange>, start: int, end: int) {
    if Covered(rs, start) && Covered(rs, end) then true
    else if Covered(rs, end) then forall i :: 0 <= i < |rs| ==> start <= rs[i].end
    else if Covered(rs, start) then forall i :: 0 <= i < |rs| ==> rs[i].start <= end
    else forall i :: 0 <= i < |rs| ==> rs[i].end < start || end < rs[i].start
  }

  /** A window query returns exactly the overlapping ranges just when no range lies before a start in
      a gap, none after an end in a gap, and none strictly inside a window with both ends in gaps. */
  lemma AnswerIsExactIff(rs: seq<DataRange>, start: int, end: int)
    requires Ordered(rs) && start <= end
    ensures Query(rs, start, end) == Answer(rs, start, end)
    ensures Answer(rs, start, end) == Select(rs, (r: DataRange) => Overlaps(r, start, end)) <==> Exact(rs, start, end)
  {
    QueryIsAnswer(rs, start, end);
    var overlaps := (r: DataRange) => Overlaps(r, start, end);
    if Exact(rs, start, end) {
      if Covered(rs, start) && Covered(rs, end) {
      } else if Covered(rs, end) {
        SelectSame(rs, overlaps, (r: DataRange) => r.start <= end);
      } else if Covered(rs, start) {
        SelectSame(rs, overlaps, (r: DataRange) => start <= r.end);
      } else {
        SelectSame(rs, overlaps, (r: DataRange) => false);
        SelectNone(rs);
      }
    } else {
      var i := NotExact(rs, start, end);
      InSelect(rs, overlaps, rs[i]);
      InSelect(rs, (r: DataRange) => r.start <= end, rs[i]);
      InSelect(rs, (r: DataRange) => start <= r.end, rs[i]);
      assert rs[i] in Answer(rs, start, end) <==> !Overlaps(rs[i], start, end);
    }
  }

  lemma NotExact(rs: seq<DataRange>, start: int, end: int) returns (i: nat)
    requires Ordered(rs) && start <= end && !Exact(rs, start, end)
    ensures i < |rs|
    ensures if Covered(rs, end) then !Covered(rs, start) && rs[i].end < start
            else if Covered(rs, start) then end < rs[i].start
            else Overlaps(rs[i], start, end)
  {
    if Covered(rs, end) {
      i :| 0 <= i < |rs| && rs[i].end < start;
    } else if Covered(rs, start) {
      i :| 0 <= i < |rs| && end < rs[i].start;
    } else {
      i :| 0 <= i < |rs| && !(rs[i].end < start || end < rs[i].start);
    }
  }

  lemma {:induction false} SelectNone(rs: seq<DataRange>)
    ensures Select(rs, (r: DataRange) => false) == []
  {
    if rs != [] {
      SelectNone(rs[..|rs| - 1]);
    }
  }

  // ----- The exact answer for ranges that touch

  /** The positions of the ranges that contain `key` are `p` to `q`. */
  predicate Span(rs: seq<DataRange>, key: int, p: nat, q: nat) {
    p <= q < |rs| && forall k :: 0 <= k < |rs| ==> (Contains(rs[k], key) <==> p <= k <= q)
  }

  /** In a sequence of ranges those that contain a key are neighbours. */
  lemma SpanExists(rs: seq<DataRange>, key: int) returns (p: nat, q: nat)
    requires InSequence(rs) && Covered(rs, key)
    ensures Span(rs, key, p, q)
  {
    p :| 0 <= p < |rs| && Contains(rs[p], key);
    q := p;
    while p > 0 && Contains(rs[p - 1], key)
      invariant p <= q < |rs| && forall k :: p <= k <= q ==> Contains(rs[k], key)
    {
      p := p - 1;
    }
    while q + 1 < |rs| && Contains(rs[q + 1], key)
      invariant p <= q < |rs| && forall k :: p <= k <= q ==> Contains(rs[k], key)
    {
      q := q + 1;
    }
    forall k | 0 <= k < |rs| && !(p <= k <= q)
      ensures !Contains(rs[k], key)
    {
      if k < p {
        BeforeGap(rs, key, k, p);
      } else {
        AfterGap(rs, key, q, k);
      }
    }
  }

  lemma BeforeGap(rs: seq<DataRange>, key: int, k: nat, p: nat)
    requires InSequence(rs) && k < p < |rs| && Contains(rs[p], key) && !Contains(rs[p - 1], key)
    ensures !Contains(rs[k], key)
  {
    assert rs[p - 1].end <= rs[p].start <= key;
    assert k < p - 1 ==> rs[k].end <= rs[p - 1].start;
  }

  lemma AfterGap(rs: seq<DataRange>, key: int, q: nat, k: nat)
    requires InSequence(rs) && q < k < |rs| && Contains(rs[q], key) && !Contains(rs[q + 1], key)
    ensures !Contains(rs[k], key)
  {
    assert key <= rs[q].end <= rs[q + 1].start;
    assert q + 1 < k ==> rs[q + 1].end <= rs[k].start;
  }

  /** The ranges before those that contain `key` end before it, those after them start after it. */
  predicate Around(rs: seq<DataRange>, key: int, p: nat, q: nat) {
    && p <= q < |rs|
    && (forall k :: 0 <= k < p ==> rs[k].end < key)
    && (forall k :: p <= k <= q ==> Contains(rs[k], key))
    && (forall k :: q < k < |rs| ==> key < rs[k].start)
  }

  lemma SpanIsAround(rs: seq<DataRange>, key: int, p: nat, q: nat)
    requires InSequence(rs) && Span(rs, key, p, q)
    ensures Around(rs, key, p, q)
  {
    assert Contains(rs[p], key) && Contains(rs[q], key);
    forall k | 0 <= k < |rs|
      ensures k < p ==> rs[k].end < key
      ensures q < k ==> key < rs[k].start
    {
      assert Contains(rs[k], key) <==> p <= k <= q;
    }
  }

  /** The search stops at the first midpoint that hits the ranges containing the key. */
  lemma {:induction false} BisectLands(rs: seq<DataRange>, key: int, l: nat, u: nat, p: nat, q: nat)
    requires Around(rs, key, p, q) && l <= p && q <= u < |rs|
    requires forall k :: 0 <= k < |rs| ==> rs[k].start <= rs[k].end
    ensures Bisect(rs, key, l, u) == Landing(l, u, p, q)
    decreases u - l
  {
    var i := (l + u) / 2;
    if i < p {
      BisectLands(rs, key, i + 1, u, p, q);
    } else if q < i {
      BisectLands(rs, key, l, i - 1, p, q);
    }
  }

  /** Whether the search for `key` stops at the first of the ranges that contain it. */
  ghost predicate LandsFirst(rs: seq<DataRange>, key: int) {
    exists p, q :: Span(rs, key, p, q) && Landing(0, |rs| - 1, p, q) == p
  }

  ghost predicate LandsLast(rs: seq<DataRange>, key: int) {
    exists p, q :: Span(rs, key, p, q) && Landing(0, |rs| - 1, p, q) == q
  }

  lemma SpanUnique(rs: seq<DataRange>, key: int, p: nat, q: nat, p': nat, q': nat)
    requires Span(rs, key, p, q) && Span(rs, key, p', q')
    ensures p == p' && q == q'
  {
    assert Contains(rs[p], key) && Contains(rs[q], key) && Contains(rs[p'], key) && Contains(rs[q'], key);
  }

  lemma {:induction false} FindLands(rs: seq<DataRange>, key: int) returns (p: nat, q: nat)
    requires InSequence(rs) && Covered(rs, key)
    ensures Span(rs, key, p, q) && p <= Find(rs, key) <= q
    ensures LandsFirst(rs, key) <==> Find(rs, key) == p
    ensures LandsLast(rs, key) <==> Find(rs, key) == q
  {
    p, q := SpanExists(rs, key);
    SpanIsAround(rs, key, p, q);
    BisectLands(rs, key, 0, |rs| - 1, p, q);
    if LandsFirst(rs, key) {
      var p', q' :| Span(rs, key, p', q') && Landing(0, |rs| - 1, p', q') == p';
      SpanUnique(rs, key, p, q, p', q');
    }
    if LandsLast(rs, key) {
      var p', q' :| Span(rs, key, p', q') && Landing(0, |rs| - 1, p', q') == q';
      SpanUnique(rs, key, p, q, p', q');
    }
  }

  /** Every range that overlaps the window lies between the positions of the query. */
  predicate NoneMissed(rs: seq<DataRange>, start: int, end: int) {
    forall k :: 0 <= k < |rs| && Overlaps(rs[k], start, end) ==>
      Window(rs, start, end).0 <= k < Window(rs, start, end).1
  }

  /** The search for the start of the window, where it lies in ranges, stops at the first of them, the
      search for its end at the last of them, and no range overlaps a window with both ends in gaps.
      Where a search stops depends on the positions of those ranges and the length of the list only. */
  ghost predicate LandsOutermost(rs: seq<DataRange>, start: int, end: int) {
    && (Covered(rs, start) ==> LandsFirst(rs, start))
    && (Covered(rs, end) ==> LandsLast(rs, end))
    && (Covered(rs, start) || Covered(rs, end) || forall k :: 0 <= k < |rs| ==> !Overlaps(rs[k], start, end))
  }

  /** A query on ranges that may touch misses nothing exactly if its searches land outermost. */
  lemma {:induction false} NoneMissedIff(rs: seq<DataRange>, start: int, end: int)
    requires InSequence(rs) && start <= end
    ensures NoneMissed(rs, start, end) <==> LandsOutermost(rs, start, end)
  {
    FindSpec(rs, start);
    FindSpec(rs, end);
    if Covered(rs, start) {
      var p, q := FindLands(rs, start);
      assert Overlaps(rs[p], start, end);
      OverlapsFrom(rs, start, end, p, q);
    }
    if Covered(rs, end) {
      var p, q := FindLands(rs, end);
      assert Overlaps(rs[q], start, end);
      OverlapsUpTo(rs, start, end, p, q);
    }
  }

  lemma OverlapsFrom(rs: seq<DataRange>, start: int, end: int, p: nat, q: nat)
    requires InSequence(rs) && start <= end && Span(rs, start, p, q)
    ensures forall k :: 0 <= k < |rs| ==> (Overlaps(rs[k], start, end) <==> p <= k && rs[k].start <= end)
  {
    forall k | 0 <= k < |rs|
      ensures Overlaps(rs[k], start, end) <==> p <= k && rs[k].start <= end
    {
      assert Contains(rs[p], start);
      assert Contains(rs[k], start) <==> p <= k <= q;
    }
  }

  lemma OverlapsUpTo(rs: seq<DataRange>, start: int, end: int, p: nat, q: nat)
    requires InSequence(rs) && start <= end && Span(rs, end, p, q)
    ensures forall k :: 0 <= k < |rs| ==> (Overlaps(rs[k], start, end) <==> k <= q && start <= rs[k].end)
  {
    forall k | 0 <= k < |rs|
      ensures Overlaps(rs[k], start, end) <==> k <= q && start <= rs[k].end
    {
      assert Contains(rs[q], end);
      assert Contains(rs[k], end) <==> p <= k <= q;
    }
  }

  /** Every position of the query overlaps the window. */
  predicate NoneExtra(rs: seq<DataRange>, start: int, end: int) {
    forall k :: Window(rs, start, end).0 <= k < Window(rs, start, end).1 ==> Overlaps(rs[k], start, end)
  }

  /** When one end of the window lies in a gap, no range lies beyond it. */
  predicate NoneBeyondGap(rs: seq<DataRange>, start: int, end: int) {
    && (Covered(rs, end) && !Covered(rs, start) ==> forall i :: 0 <= i < |rs| ==> start <= rs[i].end)
    && (Covered(rs, start) && !Covered(rs, end) ==> forall i :: 0 <= i < |rs| ==> rs[i].start <= end)
  }

  /** Nothing is returned but overlapping ranges exactly if no range lies beyond a lone gap. */
  lemma NoneExtraIff(rs: seq<DataRange>, start: int, end: int)
    requires InSequence(rs) && start <= end
    ensures NoneExtra(rs, start, end) <==> NoneBeyondGap(rs, start, end)
  {
    FindSpec(rs, start);
    FindSpec(rs, end);
    if Covered(rs, start) {
      var p, q := FindLands(rs, start);
      OverlapsFrom(rs, start, end, p, q);
    }
    if Covered(rs, end) {
      var p, q := FindLands(rs, end);
      OverlapsUpTo(rs, start, end, p, q);
    }
  }

  /** In a sequence of ranges those that overlap a window are neighbours. */
  lemma OverlapSlice(rs: seq<DataRange>, start: int, end: int) returns (x: nat, y: nat)
    requires InSequence(rs) && start <= end
    ensures x <= y <= |rs| && forall k :: 0 <= k < |rs| ==> (Overlaps(rs[k], start, end) <==> x <= k < y)
  {
    x := 0;
    while x < |rs| && rs[x].end < start
      invariant x <= |rs| && forall k :: 0 <= k < x ==> rs[k].end < start
    {
      x := x + 1;
    }
    y := x;
    while y < |rs| && rs[y].start <= end
      invariant x <= y <= |rs| && forall k :: x <= k < y ==> rs[k].start <= end
    {
      y := y + 1;
    }
    forall k | 0 <= k < |rs|
      ensures Overlaps(rs[k], start, end) <==> x <= k < y
    {
      if x <= k {
        assert x < k ==> rs[x].end <= rs[k].start;
      }
      if y <= k {
        assert y < k ==> rs[y].end <= rs[k].start;
      }
    }
  }

  /** So the query is the selection of the overlapping ranges exactly under both conditions. */
  lemma {:induction false} TouchingExactIff(rs: seq<DataRange>, start: int, end: int)
    requires InSequence(rs) && start <= end
    ensures Query(rs, start, end) == Select(rs, (r: DataRange) => Overlaps(r, start, end)) <==>
      LandsOutermost(rs, start, end) && NoneBeyondGap(rs, start, end)
  {
    NoneMissedIff(rs, start, end);
    NoneExtraIff(rs, start, end);
    ExactlyOverlapping(rs, start, end);
  }

  lemma {:induction false} ExactlyOverlapping(rs: seq<DataRange>, start: int, end: int)
    requires InSequence(rs) && start <= end
    ensures Query(rs, start, end) == Select(rs, (r: DataRange) => Overlaps(r, start, end)) <==>
      NoneMissed(rs, start, end) && NoneExtra(rs, start, end)
  {
    var x, y := OverlapSlice(rs, start, end);
    SliceIsSelectIff(rs, (r: DataRange) => Overlaps(r, start, end),
      Window(rs, start, end).0, Window(rs, start, end).1, x, y);
  }
}

/** The events of one timeline and the queries on them. */
module Events {
  import opened Selection

  datatype Event = Event(at: int, value: string)

  predicate Sorted(es: seq<Event>) {
    forall i, j :: 0 <= i < j < |es| ==> es[i].at <= es[j].at
  }

  predicate StrictlySorted(es: seq<Event>) {
    forall i, j :: 0 <= i < j < |es| ==> es[i].at < es[j].at
  }

  /** Position `i` is a place for `key`: an event at exactly that time, or, if there is none, the
      place where it would be inserted. */
  predicate Place(es: seq<Event>, key: int, i: nat) {
    && i <= |es|
    && (forall k :: 0 <= k < i ==> es[k].at <= key)
    && (forall k :: i <= k < |es| ==> key <= es[k].at)
    && ((i < |es| && es[i].at == key) || forall k :: 0 <= k < |es| ==> es[k].at != key)
  }

  // ----- The search and the queries built on it

  function Bisect(es: seq<Event>, key: int, l: nat, u: int): (index: nat)
    requires l <= u + 1 <= |es|
    ensures index <= |es|
    decreases u + 1 - l
  {
    if l > u then l
    else
      var i := (l + u) / 2;
      if key == es[i].at then i
      else if key < es[i].at then Bisect(es, key, l, i - 1)
      else Bisect(es, key, i + 1, u)
  }

  lemma {:induction false} BisectSpec(es: seq<Event>, key: int, l: nat, u: int)
    requires Sorted(es) && l <= u + 1 <= |es|
    requires forall k :: 0 <= k < l ==> es[k].at < key
    requires forall k :: u < k < |es| ==> key < es[k].at
    ensures Place(es, key, Bisect(es, key, l, u))
    decreases u + 1 - l
  {
    if l <= u {
      var i := (l + u) / 2;
      if key == es[i].at {
      } else if key < es[i].at {
        BisectSpec(es, key, l, i - 1);
      } else {
        BisectSpec(es, key, i + 1, u);
      }
    }
  }

  function Find(es: seq<Event>, key: int): (index: nat)
    ensures index <= |es|
  {
    Bisect(es, key, 0, |es| - 1)
  }

  lemma FindPlaces(es: seq<Event>, key: int)
    ensures Sorted(es) ==> Place(es, key, Find(es, key))
  {
    if Sorted(es) {
      BisectSpec(es, key, 0, |es| - 1);
    }
  }

  /** The slice that a window query returns. */
  function Query(es: seq<Event>, start: int, end: int): seq<Event> {
    Slice(es, Find(es, start), Find(es, end) + 1)
  }

  lemma FindIsWindow(es: seq<Event>, start: int, end: int)
    requires Sorted(es)
    ensures Window(es, start, end, Find(es, start), Find(es, end) + 1)
  {
    BisectSpec(es, start, 0, |es| - 1);
    BisectSpec(es, end, 0, |es| - 1);
  }

  class TimelineEvent {
    var events: seq<Event>

    constructor (events: seq<Event>)
      ensures this.events == events
    {
      this.events := events;
    }

    method Search(key: int) returns (index: nat)
      ensures index == Find(events, key)
      ensures Sorted(events) ==> Place(events, key, index)
    {
      ghost var found := Find(events, key);
      var l, u := 0, |events| - 1;
      while l <= u
        invariant 0 <= l <= u + 1 <= |events|
        invariant Bisect(events, key, l, u) == found
        decreases u - l
      {
        var i := (l + u) / 2;
        if key == events[i].at {
          FindPlaces(events, key);
          return i;
        } else if key < events[i].at {
          u := i - 1;
        } else {
          l := i + 1;
        }
      }
      FindPlaces(events, key);
      return l;
    }

    /** The window as a pair of list positions; they denote what `GetEvents` returns. */
    method GetEventsBounds(start: int, end: int) returns (lo: nat, hi: nat)
      ensures Slice(events, lo, hi) == Query(events, start, end)
      ensures Sorted(events) ==> Window(events, start, end, lo, hi)
    {
      var s := Search(start);
      var e := Search(end);
      lo, hi := s, e + 1;
    }

    /** The events of a window. */
    method GetEvents(start: int, end: int) returns (selected: seq<Event>)
      ensures selected == Query(events, start, end)
    {
      var s := Search(start);
      var e := Search(end);
      selected := Slice(events, s, e + 1);
    }
  }

  /** `lo` is a place for the start of the window and `hi` is one past a place for its end. */
  predicate Window(es: seq<Event>, start: int, end: int, lo: nat, hi: nat) {
    hi > 0 && Place(es, start, lo) && Place(es, end, hi - 1)
  }

  predicate Inside(e: Event, start: int, end: int) {
    start <= e.at <= end
  }

  /** Whether some event is at exactly `key`. */
  predicate Hit(es: seq<Event>, key: int) {
    exists k :: 0 <= k < |es| && es[k].at == key
  }

  /** The events inside the window are those from `lo` up to the place of its end. */
  lemma InsideIff(es: seq<Event>, start: int, end: int, lo: nat, hi: nat, k: nat)
    requires StrictlySorted(es) && start <= end && Window(es, start, end, lo, hi) && k < |es|
    ensures Inside(es[k], start, end) <==> lo <= k < if Hit(es, end) then hi else hi - 1
  {
    if Hit(es, end) {
      assert es[hi - 1].at == end;
    }
  }

  lemma InsideIsSlice(es: seq<Event>, start: int, end: int, lo: nat, hi: nat)
    requires StrictlySorted(es) && start <= end && Window(es, start, end, lo, hi)
    ensures Select(es, (e: Event) => Inside(e, start, end)) == Slice(es, lo, if Hit(es, end) then hi else hi - 1)
  {
    var h := if Hit(es, end) then hi else hi - 1;
    forall k | 0 <= k < |es|
      ensures Inside(es[k], start, end) <==> lo <= k < h
    {
      InsideIff(es, start, end, lo, hi, k);
    }
    SelectIsSlice(es, (e: Event) => Inside(e, start, end), lo, h);
  }

  lemma FirstAfter(es: seq<Event>, start: int, end: int, lo: nat, hi: nat)
    requires StrictlySorted(es) && start <= end && Window(es, start, end, lo, hi) && !Hit(es, end) && hi <= |es|
    ensures lo <= hi - 1 && es[hi - 1].at > end
    ensures forall k :: 0 <= k < |es| && es[k].at > end ==> es[hi - 1].at <= es[k].at
  {
    assert es[hi - 1].at != end;
  }

  lemma SliceOneMore<T>(s: seq<T>, lo: nat, hi: nat)
    requires lo < hi <= |s|
    ensures Slice(s, lo, hi) == Slice(s, lo, hi - 1) + [s[hi - 1]]
  {
  }

  lemma SliceBeyond<T>(s: seq<T>, lo: nat, hi: nat)
    requires hi > |s|
    ensures Slice(s, lo, hi) == Slice(s, lo, hi - 1)
  {
  }

  /** With distinct times a window query is the linear filter, plus the first event after the window
      when no event is at its very end. */
  lemma WindowIsFilter(es: seq<Event>, start: int, end: int, lo: nat, hi: nat)
    requires StrictlySorted(es) && start <= end && Window(es, start, end, lo, hi)
    ensures
      var inside := Select(es, (e: Event) => Inside(e, start, end));
      Slice(es, lo, hi) == if Hit(es, end) || hi > |es| then inside else inside + [es[hi - 1]]
    ensures !Hit(es, end) && hi <= |es| ==>
      es[hi - 1].at > end && forall k :: 0 <= k < |es| && es[k].at > end ==> es[hi - 1].at <= es[k].at
  {
    InsideIsSlice(es, start, end, lo, hi);
    if Hit(es, end) {
    } else if hi <= |es| {
      FirstAfter(es, start, end, lo, hi);
      SliceOneMore(es, lo, hi);
    } else {
      SliceBeyond(es, lo, hi);
    }
  }

  /** So the query equals the filter exactly when an event is at the end of the window or none is
      after it. */
  lemma WindowIsExactIff(es: seq<Event>, start: int, end: int, lo: nat, hi: nat)
    requires StrictlySorted(es) && start <= end && Window(es, start, end, lo, hi)
    ensures Slice(es, lo, hi) == Select(es, (e: Event) => Inside(e, start, end)) <==>
      Hit(es, end) || forall k :: 0 <= k < |es| ==> es[k].at <= end
  {
    WindowIsFilter(es, start, end, lo, hi);
  }

  /** With repeated times the window still holds every event strictly inside, and nothing outside but
      at most one event after its end. */
  lemma WindowWithRepeats(es: seq<Event>, start: int, end: int, lo: nat, hi: nat)
    requires Sorted(es) && start <= end && Window(es, start, end, lo, hi)
    ensures forall k :: 0 <= k < |es| && start < es[k].at < end ==> lo <= k < hi
    ensures forall k :: lo <= k < hi - 1 && k < |es| ==> Inside(es[k], start, end)
    ensures hi <= |es| && lo < hi && !Inside(es[hi - 1], start, end) ==> es[hi - 1].at > end && !Hit(es, end)
  {
  }

  /** The query of a sorted list with distinct times, against the linear filter. */
  lemma QueryIsExactIff(es: seq<Event>, start: int, end: int)
    requires StrictlySorted(es) && start <= end
    ensures Query(es, start, end) == Select(es, (e: Event) => Inside(e, start, end)) <==>
      Hit(es, end) || forall k :: 0 <= k < |es| ==> es[k].at <= end
  {
    FindIsWindow(es, start, end);
    WindowIsExactIff(es, start, end, Find(es, start), Find(es, end) + 1);
  }

  /** An input with one event too many: times 1 and 5, window 0..3. */
  lemma LaterEventReturned()
    ensures
      var es := [Event(1, "a"), Event(5, "b")];
      StrictlySorted(es) && Query(es, 0, 3) == es && !Inside(es[1], 0, 3)
  {
    var es := [Event(1, "a"), Event(5, "b")];
    assert Bisect(es, 0, 0, 1) == Bisect(es, 0, 0, -1) == 0;
    assert Bisect(es, 3, 0, 1) == Bisect(es, 3, 1, 1) == Bisect(es, 3, 1, 0) == 1;
  }

  // ----- The exact answer for repeated times

  /** The events before `key` are those up to `a`, the events at `key` those from `a` to `b`. */
  predicate Run(es: seq<Event>, key: int, a: nat, b: nat) {
    && a <= b <= |es|
    && (forall k :: 0 <= k < a ==> es[k].at < key)
    && (forall k :: a <= k < b ==> es[k].at == key)
    && (forall k :: b <= k < |es| ==> key < es[k].at)
  }

  lemma RunExists(es: seq<Event>, key: int) returns (a: nat, b: nat)
    requires Sorted(es)
    ensures Run(es, key, a, b)
  {
    a := 0;
    while a < |es| && es[a].at < key
      invariant a <= |es| && forall k :: 0 <= k < a ==> es[k].at < key
    {
      a := a + 1;
    }
    b := a;
    while b < |es| && es[b].at == key
      invariant a <= b <= |es| && forall k :: a <= k < b ==> es[k].at == key
    {
      b := b + 1;
    }
  }

  /** The search stops at the first midpoint that hits the events at the key, or at their place. */
  lemma {:induction false} BisectLands(es: seq<Event>, key: int, l: nat, u: int, a: nat, b: nat)
    requires Run(es, key, a, b) && l <= a && b <= u + 1 <= |es|
    ensures Bisect(es, key, l, u) == if a < b then Landing(l, u, a, b - 1) else a
    decreases u + 1 - l
  {
    if l <= u {
      var i := (l + u) / 2;
      if i < a {
        BisectLands(es, key, i + 1, u, a, b);
      } else if b <= i {
        BisectLands(es, key, l, i - 1, a, b);
      }
    }
  }

  /** The events inside the window are those from the first at its start to the last at its end. */
  lemma InsideBetweenRuns(es: seq<Event>, start: int, end: int, a: nat, b: nat, a': nat, b': nat)
    requires Sorted(es) && start <= end && Run(es, start, a, b) && Run(es, end, a', b')
    ensures a <= b' && Select(es, (e: Event) => Inside(e, start, end)) == Slice(es, a, b')
  {
    assert forall k :: 0 <= k < |es| ==> (Inside(es[k], start, end) <==> a <= k < b');
    RunsInOrder(es, start, end, a, b, a', b');
    SelectIsSlice(es, (e: Event) => Inside(e, start, end), a, b');
  }

  /** A slice that ends after position `e` against one that ends before `b'`. */
  lemma CompareSlices(es: seq<Event>, s: nat, e: nat, a: nat, a': nat, b': nat)
    requires a <= s <= b' <= |es| && s <= e + 1 && a' <= b'
    requires if a' < b' then a' <= e < b' else e == b'
    requires a' == b' < |es| ==> es[b'] !in Slice(es, a, b')
    ensures Slice(es, s, e + 1) == Slice(es, a, b') <==>
      s == a && ((a' < b' && e == b' - 1) || a' == b' == |es|)
  {
    if a' < b' {
      SliceWithin(es, a, b', s, e + 1);
    } else if a' == |es| {
      SliceBeyond(es, s, e + 1);
      SliceWithin(es, a, b', s, b');
    } else {
      InSlice(es, s, e + 1, e);
    }
  }

  /** Whatever times repeat: the query is the filter exactly if the search for the start of the window
      stops at the first event there, if there is one, and the search for its end at the last event
      there, or there is no event at or after it. */
  lemma {:induction false} RepeatsExactIff(es: seq<Event>, start: int, end: int, a: nat, b: nat, a': nat, b': nat)
    requires Sorted(es) && start <= end && Run(es, start, a, b) && Run(es, end, a', b')
    ensures Query(es, start, end) == Select(es, (e: Event) => Inside(e, start, end)) <==>
      && (a < b ==> Landing(0, |es| - 1, a, b - 1) == a)
      && ((a' < b' && Landing(0, |es| - 1, a', b' - 1) == b' - 1) || a' == b' == |es|)
  {
    FoundPositions(es, start, end, a, b, a', b');
    NextIsLater(es, end, a, a', b');
    InsideBetweenRuns(es, start, end, a, b, a', b');
    CompareSlices(es, Find(es, start), Find(es, end), a, a', b');
  }

  /** Where the searches for the ends of a window stop. */
  lemma {:induction false} FoundPositions(es: seq<Event>, start: int, end: int, a: nat, b: nat, a': nat, b': nat)
    requires Sorted(es) && start <= end && Run(es, start, a, b) && Run(es, end, a', b')
    ensures Find(es, start) == if a < b then Landing(0, |es| - 1, a, b - 1) else a
    ensures Find(es, end) == if a' < b' then Landing(0, |es| - 1, a', b' - 1) else a'
    ensures a <= Find(es, start) <= b' && Find(es, start) <= Find(es, end) + 1
  {
    BisectLands(es, start, 0, |es| - 1, a, b);
    BisectLands(es, end, 0, |es| - 1, a', b');
    RunsInOrder(es, start, end, a, b, a', b');
  }

  lemma NextIsLater(es: seq<Event>, end: int, a: nat, a': nat, b': nat)
    requires Sorted(es) && Run(es, end, a', b') && a <= b'
    ensures b' < |es| ==> es[b'] !in Slice(es, a, b')
  {
    RunEdges(es, end, a', b');
    if b' < |es| {
      assert es[b'].at > end;
      assert forall k :: a <= k < b' ==> es[k].at <= end;
    }
  }

  lemma RunsInOrder(es: seq<Event>, start: int, end: int, a: nat, b: nat, a': nat, b': nat)
    requires Sorted(es) && start <= end && Run(es, start, a, b) && Run(es, end, a', b')
    ensures a <= b' && (b <= a' || (a == a' && b == b'))
  {
    RunEdges(es, start, a, b);
    RunEdges(es, end, a', b');
  }

  lemma RunEdges(es: seq<Event>, key: int, a: nat, b: nat)
    requires Run(es, key, a, b)
    ensures a < |es| ==> key <= es[a].at
    ensures b < |es| ==> key < es[b].at
    ensures a > 0 ==> es[a - 1].at < key
    ensures b > 0 ==> es[b - 1].at <= key
  {
  }

  /** An input on which a repeated time is lost: times 2 and 2, window 2..2. */
  lemma RepeatedEventLost()
    ensures
      var es := [Event(2, "a"), Event(2, "b")];
      Sorted(es) && Query(es, 2, 2) == [es[0]] && Inside(es[1], 2, 2)
  {
    var es := [Event(2, "a"), Event(2, "b")];
    assert Bisect(es, 2, 0, 1) == 0;
  }
}
