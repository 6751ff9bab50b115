// Character classes of the regex engine: RuneClass in regex_engine.h.

module RuneClasses {
  import opened Utf8

  type Range = (Rune, Rune)

  const SURROGATE_LO: Rune := 0xD800
  const SURROGATE_HI: Rune := 0xDFFF
  const MAX_RUNE: Rune := 0x10FFFF
  const ASCII_SIZE: nat := 128

  /** The members a list of closed ranges denotes. A pair with `lo > hi` denotes nothing. */
  predicate InRanges(ranges: seq<Range>, r: Rune)
  {
    exists k :: 0 <= k < |ranges| && ranges[k].0 <= r <= ranges[k].1
  }

  predicate Precedes(a: Range, b: Range)
  {
    a.0 <= b.0 && a.1 < b.0
  }

  /** What the binary search relies on: starts ascend, and no range reaches a later start. */
  ghost predicate Ordered(ranges: seq<Range>)
  {
    forall a, b :: 0 <= a < b < |ranges| ==> Precedes(ranges[a], ranges[b])
  }

  /** The bitmap lists exactly the ASCII members of the ranges. */
  ghost predicate BitmapAgrees(ascii: seq<bool>, ranges: seq<Range>)
  {
    && |ascii| == ASCII_SIZE
    && forall r :: 0 <= r < ASCII_SIZE ==> (ascii[r] <==> InRanges(ranges, r))
  }

  /** Ranges together with the bitmap the engine consults for ASCII runes. */
  datatype RuneClass = RuneClass(ranges: seq<Range>, ascii: seq<bool>)
  {
    /** Ready for matching: `Finalize` and `Complement` establish this. */
    ghost predicate Ready()
    {
      Ordered(ranges) && BitmapAgrees(ascii, ranges)
    }

    /** Membership as the engine tests it: bitmap for ASCII, binary search otherwise. */
    predicate Contains(r: Rune)
      requires |ascii| == ASCII_SIZE
    {
      if r < ASCII_SIZE then
        ascii[r]
      else
        var k := UpperBound(ranges, r, 0, |ranges|);
        k > 0 && ranges[k - 1].0 <= r <= ranges[k - 1].1
    }
  }

  /** Bisection for the first range in [lo, hi) that starts after `r`. */
  function UpperBound(ranges: seq<Range>, r: Rune, lo: nat, hi: nat): (k: nat)
    requires lo <= hi <= |ranges|
    ensures lo <= k <= hi
    decreases hi - lo
  {
    if lo == hi then lo
    else
      var mid := (lo + hi) / 2;
      if r < ranges[mid].0 then UpperBound(ranges, r, lo, mid) else UpperBound(ranges, r, mid + 1, hi)
  }

  lemma {:induction false} UpperBoundSplits(ranges: seq<Range>, r: Rune, lo: nat, hi: nat)
    requires lo <= hi <= |ranges| && Ordered(ranges)
    ensures forall a :: lo <= a < UpperBound(ranges, r, lo, hi) ==> ranges[a].0 <= r
    ensures forall a :: UpperBound(ranges, r, lo, hi) <= a < hi ==> r < ranges[a].0
    decreases hi - lo
  {
    if lo < hi {
      var mid := (lo + hi) / 2;
      if r < ranges[mid].0 {
        UpperBoundSplits(ranges, r, lo, mid);
      } else {
        UpperBoundSplits(ranges, r, mid + 1, hi);
      }
    }
  }

  /** The fast membership test decides membership in the ranges. */
  lemma {:induction false} ContainsDecides(c: RuneClass, r: Rune)
    requires c.Ready()
    ensures c.Contains(r) <==> InRanges(c.ranges, r)
  {
    if r >= ASCII_SIZE {
      UpperBoundSplits(c.ranges, r, 0, |c.ranges|);
      var k: int := UpperBound(c.ranges, r, 0, |c.ranges|);
      forall a: int | 0 <= a < |c.ranges| && a != k - 1
        ensures !(c.ranges[a].0 <= r <= c.ranges[a].1)
      {
        if a < k - 1 {
          assert c.ranges[a].1 < c.ranges[k - 1].0;
        }
      }
    }
  }

  // ---------------------------------------------------------------------
  // Building classes
  // ---------------------------------------------------------------------

  predicate Ascends(a: Range, b: Range)
  {
    a.0 < b.0 || (a.0 == b.0 && a.1 <= b.1)
  }

  ghost predicate SortedRanges(s: seq<Range>)
  {
    forall a, b :: 0 <= a < b < |s| ==> Ascends(s[a], s[b])
  }

  /** The library sort: ascending pairs. */
  function SortRanges(s: seq<Range>): (r: seq<Range>)
    ensures |r| == |s|
  {
    if s == [] then [] else InsertRange(s[0], SortRanges(s[1..]))
  }

  function InsertRange(x: Range, s: seq<Range>): (r: seq<Range>)
    ensures |r| == |s| + 1
  {
    if s == [] || Ascends(x, s[0]) then [x] + s else [s[0]] + InsertRange(x, s[1..])
  }

  lemma FrontSorted(x: Range, s: seq<Range>)
    requires SortedRanges(s) && forall k :: 0 <= k < |s| ==> Ascends(x, s[k])
    ensures SortedRanges([x] + s)
  {
  }

  lemma {:induction false} InsertRangeKeeps(x: Range, s: seq<Range>)
    ensures multiset(InsertRange(x, s)) == multiset{x} + multiset(s)
    decreases |s|
  {
    if s != [] && !Ascends(x, s[0]) {
      InsertRangeKeeps(x, s[1..]);
      assert s == [s[0]] + s[1..];
    }
  }

  lemma {:induction false} InsertRangeSorted(x: Range, s: seq<Range>)
    requires SortedRanges(s)
    ensures SortedRanges(InsertRange(x, s))
    decreases |s|
  {
    if s == [] || Ascends(x, s[0]) {
      FrontSorted(x, s);
    } else {
      var rest := InsertRange(x, s[1..]);
      InsertRangeSorted(x, s[1..]);
      InsertRangeKeeps(x, s[1..]);
      forall k | 0 <= k < |rest|
        ensures Ascends(s[0], rest[k])
      {
        assert rest[k] in multiset{x} + multiset(s[1..]);
      }
      FrontSorted(s[0], rest);
    }
  }

  lemma {:induction false} SortRangesSorted(s: seq<Range>)
    ensures multiset(SortRanges(s)) == multiset(s)
    ensures SortedRanges(SortRanges(s))
    decreases |s|
  {
    if s != [] {
      SortRangesSorted(s[1..]);
      InsertRangeSorted(s[0], SortRanges(s[1..]));
      InsertRangeKeeps(s[0], SortRanges(s[1..]));
      assert s == [s[0]] + s[1..];
    }
  }

  lemma SameMembers(a: seq<Range>, b: seq<Range>, r: Rune)
    requires multiset(a) == multiset(b) && InRanges(a, r)
    ensures InRanges(b, r)
  {
    var k :| 0 <= k < |a| && a[k].0 <= r <= a[k].1;
    assert a[k] in multiset(b);
  }

  lemma InRangesSnoc(s: seq<Range>, x: Range, r: Rune)
    ensures InRanges(s + [x], r) <==> InRanges(s, r) || x.0 <= r <= x.1
  {
    var t := s + [x];
    if InRanges(s, r) {
      var k :| 0 <= k < |s| && s[k].0 <= r <= s[k].1;
      assert t[k] == s[k];
    }
    assert t[|s|] == x;
  }

  /** The bitmap of the ASCII members. */
  function BitmapOf(ranges: seq<Range>): (ascii: seq<bool>)
    ensures BitmapAgrees(ascii, ranges)
  {
    seq(ASCII_SIZE, (r: nat) => InRanges(ranges, r))
  }

  /** Sets the bitmap range by range. */
  method RebuildAsciiBitmap(ranges: seq<Range>) returns (ascii: seq<bool>)
    ensures ascii == BitmapOf(ranges)
  {
    ascii := seq(ASCII_SIZE, _ => false);
    for k := 0 to |ranges|
      invariant BitmapAgrees(ascii, ranges[..k])
    {
      ghost var before := ascii;
      var (lo, hi) := ranges[k];
      assert ranges[..k + 1] == ranges[..k] + [ranges[k]];
      if lo < ASCII_SIZE {
        var clamped := if hi < ASCII_SIZE then hi else ASCII_SIZE - 1;
        var r := lo;
        while r <= clamped
          invariant |ascii| == ASCII_SIZE && lo <= r && (r <= clamped + 1 || r == lo)
          invariant forall x :: 0 <= x < ASCII_SIZE ==> ascii[x] == (before[x] || lo <= x < r)
        {
          ascii := ascii[r := true];
          r := r + 1;
        }
      }
      forall x | 0 <= x < ASCII_SIZE
        ensures ascii[x] <==> InRanges(ranges[..k + 1], x)
      {
        InRangesSnoc(ranges[..k], ranges[k], x);
      }
    }
    assert ranges[..|ranges|] == ranges;
    assert forall r :: 0 <= r < ASCII_SIZE ==> ascii[r] == BitmapOf(ranges)[r];
  }

  /** Sorted, disjoint and not even adjacent. */
  ghost predicate Separated(ranges: seq<Range>)
  {
    forall a, b :: 0 <= a < b < |ranges| ==> ranges[a].1 + 1 < ranges[b].0 && Precedes(ranges[a], ranges[b])
  }

  /** No pair is inverted. */
  ghost predicate Upright(ranges: seq<Range>)
  {
    forall k :: 0 <= k < |ranges| ==> ranges[k].0 <= ranges[k].1
  }

  /** A pair is inverted by one at most; such a pair denotes nothing. */
  ghost predicate Nearly(ranges: seq<Range>)
  {
    forall k :: 0 <= k < |ranges| ==> ranges[k].0 <= ranges[k].1 + 1
  }

  /** Such pairs of runes. */
  ghost predicate Bounded(ranges: seq<Range>)
  {
    forall k :: 0 <= k < |ranges| ==> ranges[k].0 <= ranges[k].1 + 1 <= MAX_RUNE + 1
  }

  /** Such pairs of runes that start at no inner surrogate. */
  ghost predicate Edged(ranges: seq<Range>)
  {
    forall k :: 0 <= k < |ranges| ==>
      && ranges[k].0 <= ranges[k].1 + 1 <= MAX_RUNE + 1
      && !(SURROGATE_LO < ranges[k].0 <= SURROGATE_HI)
  }

  /** The next range of a sorted list widens the last one, or follows it. */
  function MergeNext(merged: seq<Range>, x: Range): (r: seq<Range>)
    requires merged != []
    ensures r != []
  {
    var n := |merged| - 1;
    var back := merged[n];
    if x.0 <= back.1 + 1 then merged[n := (back.0, if back.1 < x.1 then x.1 else back.1)] else merged + [x]
  }

  /** The first `i` ranges of a sorted list, merged where they overlap or touch. */
  function Merged(sorted: seq<Range>, i: nat): (r: seq<Range>)
    requires 1 <= i <= |sorted|
    ensures r != []
  {
    if i == 1 then [sorted[0]] else MergeNext(Merged(sorted, i - 1), sorted[i - 1])
  }

  /** The class of collected ranges: sorted and merged. */
  function Finalized(ranges: seq<Range>): RuneClass
  {
    var final := if |ranges| <= 1 then ranges else Merged(SortRanges(ranges), |ranges|);
    RuneClass(final, BitmapOf(final))
  }

  /** Extending the last range by an overlapping or adjacent one is their union. */
  lemma MergeMembers(merged: seq<Range>, x: Range, r: Rune)
    requires merged != [] && merged[|merged| - 1].0 <= x.0 <= merged[|merged| - 1].1 + 1
    ensures var n := |merged| - 1; var back := merged[n];
            InRanges(merged[n := (back.0, if back.1 < x.1 then x.1 else back.1)], r) <==> InRanges(merged, r) || x.0 <= r <= x.1
  {
    var n := |merged| - 1;
    var back := merged[n];
    var wide: Range := (back.0, if back.1 < x.1 then x.1 else back.1);
    assert merged == merged[..n] + [back];
    assert merged[n := wide] == merged[..n] + [wide];
    InRangesSnoc(merged[..n], back, r);
    InRangesSnoc(merged[..n], wide, r);
  }

  /** The first `i` ranges of a sorted list have been merged. */
  ghost predicate Merges(merged: seq<Range>, sorted: seq<Range>, i: nat)
    requires 1 <= i <= |sorted|
  {
    && merged != [] && Separated(merged) && merged[|merged| - 1].0 <= sorted[i - 1].0
    && forall r: Rune :: InRanges(merged, r) <==> InRanges(sorted[..i], r)
  }

  lemma {:induction false} MergeNextRight(sorted: seq<Range>, i: nat, before: seq<Range>)
    requires SortedRanges(sorted) && 1 <= i < |sorted| && Merges(before, sorted, i)
    ensures Merges(MergeNext(before, sorted[i]), sorted, i + 1)
  {
    var x := sorted[i];
    assert Ascends(sorted[i - 1], x);
    assert sorted[..i + 1] == sorted[..i] + [x];
    forall r: Rune
      ensures InRanges(MergeNext(before, x), r) <==> InRanges(sorted[..i + 1], r)
    {
      InRangesSnoc(sorted[..i], x, r);
      if x.0 <= before[|before| - 1].1 + 1 {
        MergeMembers(before, x, r);
      } else {
        InRangesSnoc(before, x, r);
      }
    }
  }

  lemma {:induction false} MergeFirst(sorted: seq<Range>)
    requires sorted != []
    ensures Merges([sorted[0]], sorted, 1)
  {
    assert sorted[..1] == [sorted[0]];
  }

  lemma {:induction false} MergedRight(sorted: seq<Range>, i: nat)
    requires SortedRanges(sorted) && 1 <= i <= |sorted|
    ensures Merges(Merged(sorted, i), sorted, i)
  {
    if i == 1 {
      MergeFirst(sorted);
    } else {
      var before := Merged(sorted, i - 1);
      MergedRight(sorted, i - 1);
      assert Merged(sorted, i) == MergeNext(before, sorted[i - 1]);
      MergeNextRight(sorted, i - 1, before);
    }
  }

  /** Merging inverts no pair. */
  lemma {:induction false} MergedUpright(sorted: seq<Range>, i: nat)
    requires 1 <= i <= |sorted|
    ensures Upright(sorted) ==> Upright(Merged(sorted, i))
    ensures Nearly(sorted) ==> Nearly(Merged(sorted, i))
    ensures Bounded(sorted) ==> Bounded(Merged(sorted, i))
    ensures Edged(sorted) ==> Edged(Merged(sorted, i))
  {
    if i > 1 {
      MergedUpright(sorted, i - 1);
    }
  }

  /** Whatever was added, members are kept and the class is ready for matching. */
  lemma {:induction false} FinalizedRight(ranges: seq<Range>)
    ensures var c := Finalized(ranges);
            && c.Ready() && Separated(c.ranges)
            && (forall r: Rune :: InRanges(c.ranges, r) <==> InRanges(ranges, r))
            && (Upright(ranges) ==> Upright(c.ranges)) && (Nearly(ranges) ==> Nearly(c.ranges)) && (Bounded(ranges) ==> Bounded(c.ranges)) && (Edged(ranges) ==> Edged(c.ranges))
  {
    if |ranges| > 1 {
      var sorted := SortRanges(ranges);
      SortRangesSorted(ranges);
      MergedRight(sorted, |ranges|);
      MergedUpright(sorted, |ranges|);
      SortedUpright(ranges, sorted);
      assert sorted[..|ranges|] == sorted;
      forall r: Rune
        ensures InRanges(sorted, r) <==> InRanges(ranges, r)
      {
        if InRanges(sorted, r) { SameMembers(sorted, ranges, r); }
        if InRanges(ranges, r) { SameMembers(ranges, sorted, r); }
      }
    }
  }

  /** Merges sorted ranges that overlap or touch. */
  method MergeSorted(sorted: seq<Range>) returns (merged: seq<Range>)
    requires sorted != []
    ensures merged == Merged(sorted, |sorted|)
  {
    merged := [sorted[0]];
    for i := 1 to |sorted|
      invariant merged == Merged(sorted, i)
    {
      var n := |merged| - 1;
      var back, x := merged[n], sorted[i];
      if x.0 <= back.1 + 1 {
        merged := merged[n := (back.0, if back.1 < x.1 then x.1 else back.1)];
      } else {
        merged := merged + [x];
      }
    }
  }

  /** Sorts and merges collected ranges and rebuilds the bitmap. */
  method Finalize(ranges: seq<Range>) returns (c: RuneClass)
    ensures c == Finalized(ranges)
    ensures c.Ready() && Separated(c.ranges)
    ensures forall r: Rune :: InRanges(c.ranges, r) <==> InRanges(ranges, r)
    ensures Upright(ranges) ==> Upright(c.ranges)
  {
    FinalizedRight(ranges);
    if |ranges| <= 1 {
      var ascii := RebuildAsciiBitmap(ranges);
      return RuneClass(ranges, ascii);
    }
    var merged := MergeSorted(SortRanges(ranges));
    var ascii := RebuildAsciiBitmap(merged);
    return RuneClass(merged, ascii);
  }

  lemma SortedUpright(ranges: seq<Range>, sorted: seq<Range>)
    requires multiset(sorted) == multiset(ranges)
    ensures Upright(ranges) ==> Upright(sorted)
    ensures Nearly(ranges) ==> Nearly(sorted)
    ensures Bounded(ranges) ==> Bounded(sorted)
    ensures Edged(ranges) ==> Edged(sorted)
  {
    forall k | 0 <= k < |sorted|
      ensures exists a :: 0 <= a < |ranges| && ranges[a] == sorted[k]
    {
      assert sorted[k] in multiset(ranges);
    }
  }

  // ---------------------------------------------------------------------
  // Complement over the Unicode scalar values
  // ---------------------------------------------------------------------

  predicate IsScalar(r: Rune)
  {
    r <= MAX_RUNE && !(SURROGATE_LO <= r <= SURROGATE_HI)
  }

  /** The part of a gap that lies outside the surrogates. */
  function GapPieces(lo: Rune, hi: Rune): seq<Range>
  {
    if lo < SURROGATE_LO then
      if hi < SURROGATE_LO then [(lo, hi)]
      else [(lo, SURROGATE_LO - 1)] + if hi > SURROGATE_HI then [(SURROGATE_HI + 1, hi)] else []
    else if lo <= SURROGATE_HI then [(SURROGATE_HI + 1, hi)]
    else [(lo, hi)]
  }

  lemma GapMembers(lo: Rune, hi: Rune, r: Rune)
    requires lo <= hi && IsScalar(r)
    ensures InRanges(GapPieces(lo, hi), r) <==> lo <= r <= hi
  {
    var g := GapPieces(lo, hi);
    if lo <= r <= hi {
      assert g[0].0 <= r <= g[0].1 || (|g| > 1 && g[1].0 <= r <= g[1].1);
    }
  }

  /** Ranges that can be complemented again. */
  ghost predicate Complementable(ranges: seq<Range>)
  {
    Ordered(ranges) && Edged(ranges)
  }

  /** The first rune at or after `prev` at which a piece may start. */
  function Snap(prev: Rune): Rune
  {
    if SURROGATE_LO <= prev <= SURROGATE_HI then SURROGATE_HI + 1 else prev
  }

  /** The pieces collected so far lie below `prev`. */
  ghost predicate Collected(pieces: seq<Range>, prev: Rune)
  {
    Ordered(pieces) && forall k :: 0 <= k < |pieces| ==> pieces[k].0 <= Snap(prev) && pieces[k].1 < prev
  }

  lemma CollectGap(pieces: seq<Range>, prev: Rune, lo: Rune, next: Rune)
    requires Collected(pieces, prev) && prev < lo <= next
    ensures Collected(pieces + GapPieces(prev, lo - 1), next)
  {
  }

  lemma InRangesConcat(a: seq<Range>, b: seq<Range>, r: Rune)
    ensures InRanges(a + b, r) <==> InRanges(a, r) || InRanges(b, r)
  {
    var t := a + b;
    if InRanges(a, r) {
      var k :| 0 <= k < |a| && a[k].0 <= r <= a[k].1;
      assert t[k] == a[k];
    }
    if InRanges(b, r) {
      var k :| 0 <= k < |b| && b[k].0 <= r <= b[k].1;
      assert t[|a| + k] == b[k];
    }
  }

  /** The pieces below `prev` are the scalar values there that the first `k` ranges leave out. */
  ghost predicate Complements(pieces: seq<Range>, ranges: seq<Range>, k: nat, prev: Rune)
    requires k <= |ranges|
  {
    && (forall j :: 0 <= j < k ==> ranges[j].1 < prev)
    && forall r: Rune :: IsScalar(r) && r < prev ==> (InRanges(pieces, r) <==> !InRanges(ranges[..k], r))
  }

  lemma {:induction false} CollectedOne(ranges: seq<Range>, k: nat, before: seq<Range>, prev: Rune, pieces: seq<Range>, r: Rune)
    requires k < |ranges| && ranges[k].0 <= ranges[k].1 + 1 && prev <= ranges[k].0
    requires Collected(before, prev) && Complements(before, ranges, k, prev)
    requires pieces == if ranges[k].0 > prev then before + GapPieces(prev, ranges[k].0 - 1) else before
    requires IsScalar(r) && r < ranges[k].1 + 1
    ensures InRanges(pieces, r) <==> !InRanges(ranges[..k + 1], r)
  {
    var (lo, hi) := ranges[k];
    assert ranges[..k + 1] == ranges[..k] + [ranges[k]];
    InRangesSnoc(ranges[..k], ranges[k], r);
    if lo > prev {
      InRangesConcat(before, GapPieces(prev, lo - 1), r);
      GapMembers(prev, lo - 1, r);
    }
    Uncovered(ranges, k, prev, r);
    NotCollected(before, prev, r);
  }

  lemma {:induction false} CollectedSoFar(ranges: seq<Range>, k: nat, before: seq<Range>, prev: Rune, pieces: seq<Range>)
    requires k < |ranges| && ranges[k].0 <= ranges[k].1 + 1 && prev <= ranges[k].0
    requires Collected(before, prev) && Complements(before, ranges, k, prev)
    requires pieces == if ranges[k].0 > prev then before + GapPieces(prev, ranges[k].0 - 1) else before
    ensures Complements(pieces, ranges, k + 1, ranges[k].1 + 1)
  {
    forall r: Rune | IsScalar(r) && r < ranges[k].1 + 1
      ensures InRanges(pieces, r) <==> !InRanges(ranges[..k + 1], r)
    {
      CollectedOne(ranges, k, before, prev, pieces, r);
    }
  }

  /** Where the first `k` ranges end. */
  function EndOf(ranges: seq<Range>, k: nat): Rune
    requires k <= |ranges|
  {
    if k == 0 then 0 else ranges[k - 1].1 + 1
  }

  /** The gaps before and between the first `k` ranges. */
  function Gaps(ranges: seq<Range>, k: nat): seq<Range>
    requires k <= |ranges|
  {
    if k == 0 then []
    else
      var before, prev, lo := Gaps(ranges, k - 1), EndOf(ranges, k - 1), ranges[k - 1].0;
      if lo > prev then before + GapPieces(prev, lo - 1) else before
  }

  /** The class of the gaps around ranges in order. */
  function Complemented(ranges: seq<Range>): RuneClass
  {
    var before, prev := Gaps(ranges, |ranges|), EndOf(ranges, |ranges|);
    var pieces := if prev <= MAX_RUNE then before + GapPieces(prev, MAX_RUNE) else before;
    RuneClass(pieces, BitmapOf(pieces))
  }

  lemma {:induction false} GapCollected(range: Range, before: seq<Range>, prev: Rune, pieces: seq<Range>)
    requires range.0 <= range.1 + 1 && prev <= range.0 && Collected(before, prev)
    requires pieces == if range.0 > prev then before + GapPieces(prev, range.0 - 1) else before
    ensures Collected(pieces, range.1 + 1)
  {
    if range.0 > prev {
      CollectGap(before, prev, range.0, range.1 + 1);
    }
  }

  lemma EndsBefore(ranges: seq<Range>, k: nat)
    requires Ordered(ranges) && k < |ranges|
    ensures EndOf(ranges, k) <= ranges[k].0
  {
  }

  lemma {:induction false} GapsRight(ranges: seq<Range>, k: nat)
    requires Ordered(ranges) && Nearly(ranges) && k <= |ranges|
    ensures Collected(Gaps(ranges, k), EndOf(ranges, k)) && Complements(Gaps(ranges, k), ranges, k, EndOf(ranges, k))
  {
    if k > 0 {
      GapsRight(ranges, k - 1);
      EndsBefore(ranges, k - 1);
      var before, prev, pieces := Gaps(ranges, k - 1), EndOf(ranges, k - 1), Gaps(ranges, k);
      GapCollected(ranges[k - 1], before, prev, pieces);
      CollectedSoFar(ranges, k - 1, before, prev, pieces);
    }
  }

  /** Every rune of a gap up to the last one is a scalar value. */
  lemma GapScalars(lo: Rune, hi: Rune, r: Rune)
    requires hi <= MAX_RUNE && InRanges(GapPieces(lo, hi), r)
    ensures IsScalar(r)
  {
  }

  lemma {:induction false} GapsScalar(ranges: seq<Range>, k: nat, r: Rune)
    requires Bounded(ranges) && k <= |ranges| && InRanges(Gaps(ranges, k), r)
    ensures IsScalar(r)
  {
    assert k > 0;
    var before, prev, lo := Gaps(ranges, k - 1), EndOf(ranges, k - 1), ranges[k - 1].0;
    if InRanges(before, r) {
      GapsScalar(ranges, k - 1, r);
    } else {
      assert lo > prev;
      InRangesConcat(before, GapPieces(prev, lo - 1), r);
      GapScalars(prev, lo - 1, r);
    }
  }

  lemma {:induction false} GapsEdged(ranges: seq<Range>, k: nat)
    requires Complementable(ranges) && k <= |ranges|
    ensures Edged(Gaps(ranges, k))
  {
    if k > 0 {
      GapsEdged(ranges, k - 1);
      GapsRight(ranges, k - 1);
    }
  }

  /** The scalar values outside a class: membership is negated, and the result can be complemented again. */
  lemma {:induction false} ComplementedRight(ranges: seq<Range>)
    requires Ordered(ranges) && Nearly(ranges)
    ensures var c := Complemented(ranges);
            && c.Ready() && (Complementable(ranges) ==> Complementable(c.ranges))
            && (forall r: Rune :: IsScalar(r) ==> (InRanges(c.ranges, r) <==> !InRanges(ranges, r)))
            && (Bounded(ranges) ==> forall r: Rune :: InRanges(c.ranges, r) ==> IsScalar(r))
  {
    var before, prev := Gaps(ranges, |ranges|), EndOf(ranges, |ranges|);
    GapsRight(ranges, |ranges|);
    if prev <= MAX_RUNE {
      CollectGap(before, prev, MAX_RUNE + 1, MAX_RUNE + 1);
    }
    assert ranges[..|ranges|] == ranges;
    forall r: Rune | IsScalar(r)
      ensures InRanges(Complemented(ranges).ranges, r) <==> !InRanges(ranges, r)
    {
      if prev <= MAX_RUNE {
        InRangesConcat(before, GapPieces(prev, MAX_RUNE), r);
        GapMembers(prev, MAX_RUNE, r);
      }
      Uncovered(ranges, |ranges|, prev, r);
      NotCollected(before, prev, r);
    }
    if Complementable(ranges) {
      GapsEdged(ranges, |ranges|);
    }
    if Bounded(ranges) {
      ComplementScalar(ranges);
    }
  }

  lemma {:induction false} ComplementScalar(ranges: seq<Range>)
    requires Bounded(ranges)
    ensures forall r: Rune :: InRanges(Complemented(ranges).ranges, r) ==> IsScalar(r)
  {
    var before, prev := Gaps(ranges, |ranges|), EndOf(ranges, |ranges|);
    forall r: Rune | InRanges(Complemented(ranges).ranges, r)
      ensures IsScalar(r)
    {
      if InRanges(before, r) {
        GapsScalar(ranges, |ranges|, r);
      } else {
        InRangesConcat(before, GapPieces(prev, MAX_RUNE), r);
        GapScalars(prev, MAX_RUNE, r);
      }
    }
  }

  /** Collects the gaps between ranges in order. */
  method Complement(ranges: seq<Range>) returns (c: RuneClass)
    requires Ordered(ranges) && Nearly(ranges)
    ensures c == Complemented(ranges)
    ensures c.Ready() && (Complementable(ranges) ==> Complementable(c.ranges))
    ensures forall r: Rune :: IsScalar(r) ==> (c.Contains(r) <==> !InRanges(ranges, r))
    ensures Bounded(ranges) ==> forall r: Rune :: c.Contains(r) ==> IsScalar(r)
  {
    var pieces: seq<Range> := [];
    var prev: Rune := 0;
    for k := 0 to |ranges|
      invariant pieces == Gaps(ranges, k) && prev == EndOf(ranges, k)
    {
      var (lo, hi) := ranges[k];
      if lo > prev {
        pieces := pieces + GapPieces(prev, lo - 1);
      }
      prev := hi + 1;
    }
    if prev <= MAX_RUNE {
      pieces := pieces + GapPieces(prev, MAX_RUNE);
    }
    var ascii := RebuildAsciiBitmap(pieces);
    c := RuneClass(pieces, ascii);
    ComplementedRight(ranges);
    ghost var outside := c;
    forall r: Rune
      ensures outside.Contains(r) <==> InRanges(outside.ranges, r)
    {
      ContainsDecides(outside, r);
    }
  }

  lemma Uncovered(ranges: seq<Range>, k: nat, prev: Rune, r: Rune)
    requires k <= |ranges| && forall j :: 0 <= j < k ==> ranges[j].1 < prev
    ensures r >= prev ==> !InRanges(ranges[..k], r)
  {
  }

  lemma NotCollected(pieces: seq<Range>, prev: Rune, r: Rune)
    requires Collected(pieces, prev)
    ensures r >= prev ==> !InRanges(pieces, r)
  {
  }

  /** Ranges between Unicode scalar values. */
  ghost predicate ScalarEnds(ranges: seq<Range>)
  {
    Upright(ranges) && forall k :: 0 <= k < |ranges| ==> IsScalar(ranges[k].0) && IsScalar(ranges[k].1)
  }

  /** Whatever ranges between scalar values were added to a class, once finalized it can be complemented. */
  lemma FinalizedComplementable(added: seq<Range>, ranges: seq<Range>)
    requires ScalarEnds(added) && Separated(ranges) && Upright(ranges)
    requires forall r: Rune :: InRanges(ranges, r) <==> InRanges(added, r)
    ensures Complementable(ranges)
  {
    forall k | 0 <= k < |ranges|
      ensures IsScalar(ranges[k].0) && ranges[k].1 <= MAX_RUNE
    {
      var (lo, hi) := ranges[k];
      assert InRanges(ranges, hi);
      assert InRanges(ranges, lo);
      var a :| 0 <= a < |added| && added[a].0 <= lo <= added[a].1;
      if lo > 0 {
        GapBefore(ranges, k);
        assert !InRanges(added, lo - 1);
      }
      assert added[a].0 == lo;
    }
  }

  lemma GapBefore(ranges: seq<Range>, k: nat)
    requires Separated(ranges) && Upright(ranges) && k < |ranges| && ranges[k].0 > 0
    ensures !InRanges(ranges, ranges[k].0 - 1)
  {
    forall b | 0 <= b < |ranges|
      ensures !(ranges[b].0 <= ranges[k].0 - 1 <= ranges[b].1)
    {
      assert b < k ==> ranges[b].1 + 1 < ranges[k].0;
      assert k < b ==> ranges[k].0 <= ranges[b].0;
    }
  }

  /** Every rune: all Unicode scalar values. */
  method AllScalars() returns (c: RuneClass)
    ensures c.Ready() && Complementable(c.ranges)
    ensures forall r: Rune :: InRanges(c.ranges, r) <==> IsScalar(r)
  {
    var ranges := [(0, SURROGATE_LO - 1), (SURROGATE_HI + 1, MAX_RUNE)];
    forall r: Rune
      ensures InRanges(ranges, r) <==> IsScalar(r)
    {
      assert ranges[0] == (0, SURROGATE_LO - 1) && ranges[1] == (SURROGATE_HI + 1, MAX_RUNE);
    }
    var ascii := RebuildAsciiBitmap(ranges);
    c := RuneClass(ranges, ascii);
  }
}
