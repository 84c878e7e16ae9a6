/** `StabilityIntervals`: buffers reach the disk out of order, and this structure turns
    the finished writes into one stable LSN, held back so that it never falls inside a
    batch that is not completely written. */
module Stability {
  import opened Base

  type Interval = (Lsn, Lsn)

  /** First LSN of each open batch (its manifest) to its last LSN. */
  type Batches = map<nat, Lsn>

  datatype Intervals = Intervals(ranges: seq<Interval>, batches: Batches, stable: Lsn)

  predicate Within(r: Interval, x: Lsn) {
    r.0 <= x <= r.1
  }

  predicate Apart(a: Interval, b: Interval) {
    a.1 < b.0 || b.1 < a.0
  }

  ghost predicate InSome(rs: seq<Interval>, x: Lsn) {
    exists i :: 0 <= i < |rs| && Within(rs[i], x)
  }

  /** x is known to be on disk: below the stable LSN, or inside a pending range. */
  ghost predicate Covered(s: Intervals, x: Lsn) {
    x <= s.stable || InSome(s.ranges, x)
  }

  /** Highest range first, nothing overlapping. */
  predicate Descending(rs: seq<Interval>) {
    && (forall i :: 0 <= i < |rs| ==> rs[i].0 <= rs[i].1)
    && (forall i, j :: 0 <= i < j < |rs| ==> rs[j].1 < rs[i].0)
  }

  predicate PairwiseApart(rs: seq<Interval>) {
    && (forall i :: 0 <= i < |rs| ==> rs[i].0 <= rs[i].1)
    && (forall i, j :: 0 <= i < j < |rs| ==> Apart(rs[i], rs[j]))
  }

  /** Batches do not overlap: callers hold the exclusive lock while a batch is open. */
  ghost predicate DisjointBatches(batches: Batches) {
    && (forall l :: l in batches ==> l < batches[l])
    && (forall l, m :: l in batches && m in batches && l < m ==> batches[l] < m)
  }

  ghost predicate Valid(s: Intervals) {
    && Descending(s.ranges)
    && (forall i :: 0 <= i < |s.ranges| ==> s.stable + 1 < s.ranges[i].0)
    && DisjointBatches(s.batches)
    && (forall l :: l in s.batches ==> s.stable < s.batches[l])
  }

  /** The batches whose last byte is not stable yet. */
  function Unfinished(batches: Batches, stable: Lsn): Batches {
    map l | l in batches && stable < batches[l] :: batches[l]
  }

  /** What one fsync report does to the stable LSN: coverage grows by exactly the
      reported interval, and the stable LSN ends right before the first gap. */
  ghost predicate FsyncTo(s: Intervals, iv: Interval, s': Intervals) {
    && (forall x :: Covered(s', x) <==> Covered(s, x) || Within(iv, x))
    && !Covered(s', s'.stable + 1)
    && s'.batches == Unfinished(s.batches, s'.stable)
  }

  /** What one fsync report publishes, given the batches before and after. */
  ghost predicate Publishes(before: Batches, after: Batches, stable: Lsn, out: Option<Lsn>) {
    && (after == map[] ==> out == Some(stable))
    // an unfinished batch has begun: publish up to its first byte
    && (after != map[] && (exists l :: l in after && l <= stable) ==>
          out.Some? && 0 <= out.value + 1 && out.value + 1 in after && out.value < stable && forall l ::
              l in after ==> out.value < l)
    // batches are left but have not begun: publish the end of the last finished batch
    && (after != map[] && (forall l :: l in after ==> stable < l) ==>
          if after == before then out == None
          else && out.Some?
               && (exists l :: l in before && l !in after && before[l] == out.value)
               && (forall l :: l in before && l !in after ==> before[l] <= out.value))
  }

  // ---------------------------------------------------------------------------------
  // The structure itself
  // ---------------------------------------------------------------------------------

  /** Put r into its place among ranges that are already sorted. */
  function InsertDescending(rs: seq<Interval>, r: Interval): (res: seq<Interval>) {
    if rs == [] || rs[0].1 < r.0 then [r] + rs else [rs[0]] + InsertDescending(rs[1..], r)
  }

  lemma AllBelow(rs: seq<Interval>, r: Interval)
    requires Descending(rs) && r.0 <= r.1
    requires forall i :: 0 <= i < |rs| ==> rs[i].1 < r.0
    ensures Descending([r] + rs)
  {
  }

  lemma {:induction false} InsertedDescending(rs: seq<Interval>, r: Interval)
    requires Descending(rs) && r.0 <= r.1
    requires forall i :: 0 <= i < |rs| ==> Apart(rs[i], r)
    ensures Descending(InsertDescending(rs, r))
    ensures multiset(InsertDescending(rs, r)) == multiset(rs) + multiset{r}
  {
    if rs == [] || rs[0].1 < r.0 {
      AllBelow(rs, r);
    } else {
      var tail := rs[1..];
      var rest := InsertDescending(tail, r);
      InsertedDescending(tail, r);
      assert rs == [rs[0]] + tail;
      forall i | 0 <= i < |rest| ensures rest[i].1 < rs[0].0 {
        assert rest[i] in multiset(rest);
        assert rest[i] == r || rest[i] in tail;
      }
      AllBelow(rest, rs[0]);
    }
  }

  /** `sort_unstable_by_key(Reverse)`, for ranges that do not overlap. */
  function SortDescending(rs: seq<Interval>): (res: seq<Interval>) {
    if rs == [] then [] else InsertDescending(SortDescending(rs[1..]), rs[0])
  }

  lemma {:induction false} SortedDescending(rs: seq<Interval>)
    requires PairwiseApart(rs)
    ensures Descending(SortDescending(rs))
    ensures multiset(SortDescending(rs)) == multiset(rs)
  {
    if rs != [] {
      var rest := SortDescending(rs[1..]);
      SortedDescending(rs[1..]);
      assert rs == [rs[0]] + rs[1..];
      forall i | 0 <= i < |rest| ensures Apart(rest[i], rs[0]) {
        assert rest[i] in multiset(rest);
        assert rest[i] in rs[1..];
      }
      InsertedDescending(rest, rs[0]);
    }
  }

  /** The lowest batch, as iterating the ordered map yields it first. */
  lemma LowestBatch(batches: Batches) returns (low: nat)
    requires batches != map[]
    ensures low in batches && forall l :: l in batches ==> low <= l
    decreases |batches|
  {
    var k :| k in batches;
    var rest := batches - {k};
    if rest == map[] {
      forall l | l in batches ensures l == k { assert l != k ==> l in rest; }
      low := k;
    } else {
      assert rest.Keys == batches.Keys - {k};
      var m := LowestBatch(rest);
      low := if m < k then m else k;
      forall l | l in batches ensures low <= l {
        assert l == k || l in rest;
      }
    }
  }

  method FirstBatch(batches: Batches) returns (low: nat)
    requires batches != map[]
    ensures low in batches && forall l :: l in batches ==> low <= l
  {
    ghost var lowest := LowestBatch(batches);
    low :| low in batches && forall l :: l in batches ==> low <= l;
  }

  class StabilityIntervals {
    var fsyncedRanges: seq<Interval>
    var batches: Batches
    var stableLsn: Lsn

    function View(): Intervals
      reads this
    {
      Intervals(fsyncedRanges, batches, stableLsn)
    }

    constructor (lsn: Lsn)
      ensures View() == Intervals([], map[], lsn) && Valid(View())
    {
      stableLsn := lsn;
      fsyncedRanges := [];
      batches := map[];
    }

    method MarkBatch(low: nat, high: Lsn)
      requires Valid(View()) && stableLsn < low < high
      requires DisjointBatches(batches[low := high])
      modifies this`batches
      ensures Valid(View()) && batches == old(batches)[low := high]
    {
      batches := batches[low := high];
    }

    method MarkFsync(iv: Interval) returns (out: Option<Lsn>)
      requires Valid(View()) && iv.0 <= iv.1
      requires forall x :: Within(iv, x) ==> !Covered(View(), x)
      modifies this
      ensures Valid(View())
      ensures FsyncTo(old(View()), iv, View())
      ensures Publishes(old(batches), batches, stableLsn, out)
    {
      ghost var s0 := View();
      Extend(iv);
      assert forall x :: Covered(View(), x) <==> Covered(s0, x) || Within(iv, x);
      Absorb();
      out := ReleaseBatches();
    }

    /** Coalesce with the lowest pending range where possible, then sort. */
    method Extend(iv: Interval)
      requires Valid(View()) && iv.0 <= iv.1
      requires forall x :: Within(iv, x) ==> !Covered(View(), x)
      modifies this`fsyncedRanges
      ensures Descending(fsyncedRanges)
      ensures forall i :: 0 <= i < |fsyncedRanges| ==> stableLsn < fsyncedRanges[i].0
      ensures forall x :: InSome(fsyncedRanges, x) <==> InSome(old(fsyncedRanges), x) || Within(iv, x)
    {
      var rs := fsyncedRanges;
      var n := |rs|;
      var merged: seq<Interval>;
      if n > 0 && rs[n - 1].0 == iv.1 + 1 {
        merged := rs[n - 1 := (iv.0, rs[n - 1].1)];
      } else if n > 0 && rs[n - 1].1 + 1 == iv.0 {
        merged := rs[n - 1 := (rs[n - 1].0, iv.1)];
      } else {
        merged := rs + [iv];
      }
      MergedApart(View(), iv, merged);
      MergedCoverage(rs, iv, merged);
      SortedCoverage(merged, stableLsn);
      fsyncedRanges := SortDescending(merged);
    }

    /** Move the stable LSN over every range that continues it. */
    method Absorb()
      requires Descending(fsyncedRanges)
      requires forall i :: 0 <= i < |fsyncedRanges| ==> stableLsn < fsyncedRanges[i].0
      modifies this`fsyncedRanges, this`stableLsn
      ensures Descending(fsyncedRanges)
      ensures forall i :: 0 <= i < |fsyncedRanges| ==> stableLsn + 1 < fsyncedRanges[i].0
      ensures forall x :: Covered(View(), x) <==> old(Covered(View(), x))
      ensures old(stableLsn) <= stableLsn
    {
      while |fsyncedRanges| > 0 && stableLsn + 1 == fsyncedRanges[|fsyncedRanges| - 1].0
        invariant Descending(fsyncedRanges)
        invariant forall i :: 0 <= i < |fsyncedRanges| ==> stableLsn < fsyncedRanges[i].0
        invariant forall x :: Covered(View(), x) <==> old(Covered(View(), x))
        invariant old(stableLsn) <= stableLsn
        decreases |fsyncedRanges|
      {
        ghost var before := View();
        var last := fsyncedRanges[|fsyncedRanges| - 1];
        fsyncedRanges := fsyncedRanges[..|fsyncedRanges| - 1];
        stableLsn := last.1;
        PopKeepsCoverage(before);
      }
    }

    /** Drop the batches that are completely stable and decide what to publish. */
    method ReleaseBatches() returns (out: Option<Lsn>)
      requires DisjointBatches(batches)
      modifies this`batches
      ensures DisjointBatches(batches)
      ensures batches == Unfinished(old(batches), stableLsn)
      ensures Publishes(old(batches), batches, stableLsn, out)
    {
      var batchStable: Option<Lsn> := None;
      ghost var was := batches;
      while batches != map[]
        invariant Released(was, batches, stableLsn, batchStable)
        decreases |batches|
      {
        var low := FirstBatch(batches);
        var high := batches[low];
        if high <= stableLsn {
          ReleaseOne(was, batches, stableLsn, batchStable, low);
          batchStable := Some(high);
          batches := batches - {low};
        } else {
          RestUnreleased(was, batches, stableLsn, batchStable, low);
          return if low <= stableLsn then Some(low - 1) else batchStable;
        }
      }
      AllReleased(was, stableLsn, batchStable);
      return Some(stableLsn);
    }
  }

  // ---------------------------------------------------------------------------------
  // Helper lemmas
  // ---------------------------------------------------------------------------------

  lemma FreshIsApart(s: Intervals, iv: Interval)
    requires Valid(s) && iv.0 <= iv.1
    requires forall x :: Within(iv, x) ==> !Covered(s, x)
    ensures s.stable < iv.0
    ensures forall i :: 0 <= i < |s.ranges| ==> Apart(s.ranges[i], iv)
  {
    assert Within(iv, iv.0) && Within(iv, iv.1);
    forall i | 0 <= i < |s.ranges| ensures Apart(s.ranges[i], iv) {
      var r := s.ranges[i];
      if !Apart(r, iv) {
        var x := if r.0 < iv.0 then iv.0 else r.0;
        assert Within(r, x) && Within(iv, x);
        assert Covered(s, x);
      }
    }
  }

  /** Progress of the batch loop: the batches in `was` but not in `left` are finished. */
  ghost predicate Released(was: Batches, left: Batches, stable: Lsn, last: Option<Lsn>) {
    && DisjointBatches(was)
    && (forall l :: l in left ==> l in was && left[l] == was[l])
    && (forall l :: l in was && l !in left ==> was[l] <= stable)
    && (forall l, m :: l in was && l !in left && m in left ==> l < m)
    && (last.None? ==> left == was)
    && (last.Some? ==> && (exists l :: l in was && l !in left && was[l] == last.value)
                       && (forall l :: l in was && l !in left ==> was[l] <= last.value))
  }

  lemma ReleaseOne(was: Batches, left: Batches, stable: Lsn, last: Option<Lsn>, low: nat)
    requires Released(was, left, stable, last) && low in left && left[low] <= stable
    requires forall l :: l in left ==> low <= l
    ensures Released(was, left - {low}, stable, Some(left[low]))
    ensures last.Some? ==> last.value < left[low]
  {
    var rest := left - {low};
    assert low in was && low !in rest && was[low] == left[low];
    forall l | l in was && l !in rest ensures was[l] <= left[low] {
      assert l == low || l !in left;
      assert l < low ==> was[l] < low < was[low];
    }
  }

  lemma AllReleased(was: Batches, stable: Lsn, last: Option<Lsn>)
    requires Released(was, map[], stable, last)
    ensures Unfinished(was, stable) == map[] && Publishes(was, map[], stable, Some(stable))
  {
  }

  /** The lowest batch left is unfinished, so all that are left are. */
  lemma RestUnreleased(was: Batches, left: Batches, stable: Lsn, last: Option<Lsn>, low: nat)
    requires Released(was, left, stable, last) && low in left && stable < left[low]
    requires forall l :: l in left ==> low <= l
    ensures left == Unfinished(was, stable)
    ensures Publishes(was, left, stable, if low <= stable then Some(low - 1) else last)
  {
    forall l | l in left ensures stable < was[l] {
      assert low < l ==> was[low] < l < was[l];
    }
    var open := Unfinished(was, stable);
    assert forall l :: l in left <==> l in open;
    assert left == open;
  }

  /** How `mark_fsync` adds an interval to the pending ranges before sorting them. */
  predicate Merged(rs: seq<Interval>, iv: Interval, merged: seq<Interval>) {
    var n := |rs|;
    if n > 0 && rs[n - 1].0 == iv.1 + 1 then merged == rs[n - 1 := (iv.0, rs[n - 1].1)]
    else if n > 0 && rs[n - 1].1 + 1 == iv.0 then merged == rs[n - 1 := (rs[n - 1].0, iv.1)]
    else merged == rs + [iv]
  }

  lemma MergedApart(s: Intervals, iv: Interval, merged: seq<Interval>)
    requires Valid(s) && iv.0 <= iv.1 && Merged(s.ranges, iv, merged)
    requires forall x :: Within(iv, x) ==> !Covered(s, x)
    ensures PairwiseApart(merged)
    ensures forall i :: 0 <= i < |merged| ==> s.stable < merged[i].0
  {
    FreshIsApart(s, iv);
  }

  lemma MergedCoverage(rs: seq<Interval>, iv: Interval, merged: seq<Interval>)
    requires Merged(rs, iv, merged)
    requires iv.0 <= iv.1 && forall i :: 0 <= i < |rs| ==> rs[i].0 <= rs[i].1
    ensures forall x :: InSome(merged, x) <==> InSome(rs, x) || Within(iv, x)
  {
    forall x ensures InSome(merged, x) <==> InSome(rs, x) || Within(iv, x) {
      if InSome(rs, x) {
        var i :| 0 <= i < |rs| && Within(rs[i], x);
        assert Within(merged[i], x);
      }
      if Within(iv, x) {
        assert Within(merged[|merged| - 1], x);
      }
      if InSome(merged, x) {
        var i :| 0 <= i < |merged| && Within(merged[i], x);
        if i < |rs| && !Within(iv, x) {
          assert Within(rs[i], x);
        }
      }
    }
  }

  lemma SortedCoverage(rs: seq<Interval>, stable: Lsn)
    requires PairwiseApart(rs) && forall i :: 0 <= i < |rs| ==> stable < rs[i].0
    ensures Descending(SortDescending(rs))
    ensures forall i :: 0 <= i < |SortDescending(rs)| ==> stable < SortDescending(rs)[i].0
    ensures forall x :: InSome(rs, x) <==> InSome(SortDescending(rs), x)
  {
    var qs := SortDescending(rs);
    SortedDescending(rs);
    forall i | 0 <= i < |qs| ensures stable < qs[i].0 {
      assert qs[i] in multiset(qs);
      assert qs[i] in rs;
    }
    forall x ensures InSome(rs, x) <==> InSome(qs, x) {
      if InSome(rs, x) {
        var i :| 0 <= i < |rs| && Within(rs[i], x);
        assert rs[i] in multiset(rs);
        assert rs[i] in qs;
      }
      if InSome(qs, x) {
        var i :| 0 <= i < |qs| && Within(qs[i], x);
        assert qs[i] in multiset(qs);
        assert qs[i] in rs;
      }
    }
  }

  lemma PopKeepsCoverage(s: Intervals)
    requires |s.ranges| > 0 && s.stable + 1 == s.ranges[|s.ranges| - 1].0
    requires s.ranges[|s.ranges| - 1].0 <= s.ranges[|s.ranges| - 1].1
    ensures var n := |s.ranges| - 1;
            forall x :: Covered(s, x) <==> Covered(s.(ranges := s.ranges[..n], stable := s.ranges[n].1), x)
  {
    var n := |s.ranges| - 1;
    var t := s.(ranges := s.ranges[..n], stable := s.ranges[n].1);
    forall x ensures Covered(s, x) <==> Covered(t, x) {
      if Covered(s, x) && x > s.stable {
        var i :| 0 <= i < |s.ranges| && Within(s.ranges[i], x);
        assert i < n ==> Within(t.ranges[i], x);
      }
      if Covered(t, x) {
        if x <= t.stable {
          assert x <= s.stable || Within(s.ranges[n], x);
        } else {
          var i :| 0 <= i < |t.ranges| && Within(t.ranges[i], x);
          assert Within(s.ranges[i], x);
        }
      }
    }
  }

  // ---------------------------------------------------------------------------------
  // Whole runs: any order of fsync reports and batch marks
  // ---------------------------------------------------------------------------------

  /** The structure, the published stable LSN (`IoBufs::stable_lsn`), and the history:
      every batch ever marked and every interval ever reported since `start`. */
  datatype Tracker = Tracker(now: Intervals, published: Lsn, ever: Batches, start: Lsn, reported: seq<Interval>)

  ghost predicate Sound(t: Tracker) {
    && Valid(t.now)
    && t.start <= t.published <= t.now.stable
    && (forall x :: t.start < x ==> (Covered(t.now, x) <==> InSome(t.reported, x)))
    && DisjointBatches(t.ever)
    && (forall l :: l in t.now.batches ==> l in t.ever && t.ever[l] == t.now.batches[l] && t.published < l)
    && (forall l :: l in t.ever && l !in t.now.batches ==> t.ever[l] <= t.published)
  }

  function Begin(lsn: Lsn): Tracker {
    Tracker(Intervals([], map[], lsn), lsn, map[], lsn, [])
  }

  /** `mark_interval`: report an interval and store what it publishes. */
  ghost predicate FsyncStep(t: Tracker, iv: Interval, t': Tracker) {
    && t.start < iv.0 <= iv.1
    && (forall x :: Within(iv, x) ==> !Covered(t.now, x))
    && Valid(t'.now)
    && FsyncTo(t.now, iv, t'.now)
    && (exists out :: Publishes(t.now.batches, t'.now.batches, t'.now.stable, out)
                      && t'.published == if out.Some? then out.value else t.published)
    && t'.ever == t.ever && t'.start == t.start && t'.reported == t.reported + [iv]
  }

  /** `mark_batch`. */
  ghost predicate BatchStep(t: Tracker, low: nat, high: Lsn, t': Tracker) {
    && t.now.stable < low < high && low !in t.ever
    && DisjointBatches(t.ever[low := high])
    && t' == t.(now := t.now.(batches := t.now.batches[low := high]), ever := t.ever[low := high])
  }

  lemma BeginSound(lsn: Lsn)
    ensures Sound(Begin(lsn))
  {
    forall x | lsn < x ensures !Covered(Begin(lsn).now, x) && !InSome([], x) {}
  }

  lemma StableNeverFalls(s: Intervals, iv: Interval, s': Intervals)
    requires FsyncTo(s, iv, s')
    ensures s.stable <= s'.stable
  {
    if s'.stable < s.stable {
      assert Covered(s, s'.stable + 1);
    }
  }

  lemma FsyncKeepsSound(t: Tracker, iv: Interval, t': Tracker)
    requires Sound(t) && FsyncStep(t, iv, t')
    ensures Sound(t') && t.published <= t'.published
  {
    StableNeverFalls(t.now, iv, t'.now);
    forall x | t.start < x ensures Covered(t'.now, x) <==> InSome(t'.reported, x) {
      if InSome(t'.reported, x) {
        var i :| 0 <= i < |t'.reported| && Within(t'.reported[i], x);
        assert i < |t.reported| ==> Within(t.reported[i], x);
      }
      if InSome(t.reported, x) {
        var i :| 0 <= i < |t.reported| && Within(t.reported[i], x);
        assert Within(t'.reported[i], x);
      }
      if Within(iv, x) {
        assert Within(t'.reported[|t.reported|], x);
      }
    }
    PublishingKeepsSound(t, t');
  }

  /** The batch clauses of Sound survive publishing, and the published LSN never falls. */
  lemma PublishingKeepsSound(t: Tracker, t': Tracker)
    requires Sound(t) && t.now.stable <= t'.now.stable && t'.ever == t.ever
    requires t'.now.batches == Unfinished(t.now.batches, t'.now.stable)
    requires exists out :: Publishes(t.now.batches, t'.now.batches, t'.now.stable, out)
                           && t'.published == if out.Some? then out.value else t.published
    ensures t.published <= t'.published <= t'.now.stable
    ensures forall l :: l in t'.now.batches ==> l in t.ever && t.ever[l] == t'.now.batches[l] && t'.published < l
    ensures forall l :: l in t'.ever && l !in t'.now.batches ==> t'.ever[l] <= t'.published
  {
    var out :| Publishes(t.now.batches, t'.now.batches, t'.now.stable, out)
               && t'.published == if out.Some? then out.value else t.published;
    var before, after, stable := t.now.batches, t'.now.batches, t'.now.stable;
    if after == map[] {
    } else if exists l :: l in after && l <= stable {
      assert t.published <= out.value;
      forall l | l in t'.ever && l !in after ensures t'.ever[l] <= t'.published {
        if l in before {
          assert before[l] <= stable;
        }
      }
    } else if after == before {
    } else {
      var m :| m in before && m !in after && before[m] == out.value;
      assert t.published < m < out.value <= stable;
      forall l | l in after ensures t'.published < l {
      }
    }
  }

  lemma BatchKeepsSound(t: Tracker, low: nat, high: Lsn, t': Tracker)
    requires Sound(t) && BatchStep(t, low, high, t')
    ensures Sound(t') && t.published == t'.published
  {
    forall x ensures Covered(t'.now, x) <==> Covered(t.now, x) {}
    forall l | l in t'.now.batches ensures l in t'.ever && t'.ever[l] == t'.now.batches[l] {}
    forall l | l in t'.ever && l !in t'.now.batches ensures t'.ever[l] <= t'.published {
      assert l != low;
    }
  }

  ghost predicate Step(t: Tracker, t': Tracker) {
    || (exists iv: Interval :: FsyncStep(t, iv, t'))
    || (exists low: nat, high: Lsn :: BatchStep(t, low, high, t'))
  }

  lemma StepKeepsSound(t: Tracker, t': Tracker)
    requires Sound(t) && Step(t, t')
    ensures Sound(t') && t.published <= t'.published
  {
    if iv: Interval :| FsyncStep(t, iv, t') {
      FsyncKeepsSound(t, iv, t');
    } else {
      var low: nat, high: Lsn :| BatchStep(t, low, high, t');
      BatchKeepsSound(t, low, high, t');
    }
  }

  ghost predicate Run(ts: seq<Tracker>) {
    && |ts| > 0 && ts[0] == Begin(ts[0].start)
    && forall i, j {:trigger Step(ts[i], ts[j])} :: 0 <= i && j == i + 1 < |ts| ==> Step(ts[i], ts[j])
  }

  lemma {:induction false} RunIsSound(ts: seq<Tracker>, n: nat)
    requires Run(ts) && n < |ts|
    ensures Sound(ts[n]) && ts[0].published <= ts[n].published
  {
    if n == 0 {
      BeginSound(ts[0].start);
    } else {
      RunIsSound(ts, n - 1);
      assert Step(ts[n - 1], ts[n]);
      StepKeepsSound(ts[n - 1], ts[n]);
    }
  }

  /** The main result, over every run: the stable LSN is exactly the end of the gap-free
      prefix of what was reported; the published LSN only rises, and it is never inside a
      batch that is not completely covered. */
  lemma StableIsGapFreeEnd(ts: seq<Tracker>, n: nat)
    requires Run(ts) && n < |ts|
    ensures forall x :: ts[n].start < x <= ts[n].now.stable ==> InSome(ts[n].reported, x)
    ensures !InSome(ts[n].reported, ts[n].now.stable + 1)
    ensures forall l :: l in ts[n].ever ==> ts[n].published < l || ts[n].ever[l] <= ts[n].published
    ensures n > 0 ==> ts[n - 1].published <= ts[n].published
  {
    RunIsSound(ts, n);
    var t := ts[n];
    assert !Covered(t.now, t.now.stable + 1);
    assert t.start < t.now.stable + 1;
    forall x | t.start < x <= t.now.stable ensures InSome(t.reported, x) {
      assert Covered(t.now, x);
    }
    if n > 0 {
      RunIsSound(ts, n - 1);
      assert Step(ts[n - 1], ts[n]);
      StepKeepsSound(ts[n - 1], ts[n]);
    }
  }
}
