/** Whole runs of the accountant: the page cache's swaps, the operations the accountant is told
    of in any order, stabilization with its parts one by one, and new segments. */
module SegmentRuns {
  import opened Base
  import opened SegmentTally
  import opened Segments
  import opened Accountant

  /** The segments up to LSN `done` are deactivated; `pending` are the emptied LSNs that the
      deactivation going on still has to free. */
  datatype Point = Point(a: Accounts, done: int, pending: set<nat>)

  datatype Step =
    | PageLink(pid: PageId, i: nat, size: nat)      // the page cache's swaps
    | PageReplace(pid: PageId, i: nat, size: nat)
    | TellLink(i: nat, part: Part)                  // `insert_pid`
    | TellRemoval(i: nat, part: Part)               // `remove_pid` and the cleaning after it
    | NewSegment(i: nat, lsn: nat)                  // `next`
    | Raise(stable: int)                            // `stabilize`: the new stable LSN
    | Deactivate(i: nat)                            //   the lowest active segment
    | FreeWaiter(l: nat)                            //   a segment that waited for it
    | Clean(i: nat)                                 //   `possibly_clean_or_free_segment`
    | DrainOne(i: nat)                              //   relocating the end of the file
    | Finish                                        //   the end of `stabilize`
    | Pop(cleaner: map<nat, set<PageId>>)           // `SegmentCleaner::pop`

  ghost predicate Resting(x: Point) {
    x.done == x.a.maxStabilized && x.pending == {}
  }

  /** The thread's reservation in segment i is open, so the log is not stable up to the end of
      that segment; and LSNs of one page rise. The swap does not take the accountant's lock: it
      may come in the middle of a stabilization. */
  ghost predicate Swappable(x: Point, pid: PageId, i: nat) {
    && State(x.a, i).Active? && x.a.maxStabilized < State(x.a, i).lsn
    && (pid in x.a.last ==> x.a.last[pid] <= State(x.a, i).lsn)
  }

  ghost predicate Enabled(x: Point, st: Step, segmentSize: nat) {
    && segmentSize > 0
    && match st
       case PageLink(pid, i, _) => Swappable(x, pid, i)
       case PageReplace(pid, i, _) => Swappable(x, pid, i)
       case TellLink(i, part) => Resting(x) && part in BookAt(x.a, i).links
       case TellRemoval(i, part) => Resting(x) && part in BookAt(x.a, i).removals
       case NewSegment(i, lsn) =>
         && Resting(x) && x.a.bound <= lsn && x.a.maxStabilized < lsn
         && if x.a.free == {} then i == x.a.tip else i in x.a.free && forall j :: j in x.a.free ==> i <= j
       case Raise(stable) => Resting(x) && OpenAbove(x.a, stable) && x.a.maxStabilized < stable
       case Deactivate(i) =>
         && x.pending == {} && State(x.a, i).Active? && State(x.a, i).lsn <= x.a.maxStabilized
         && (forall l :: l in x.a.ordering && x.done < l ==> State(x.a, i).lsn <= l)
       case FreeWaiter(l) => l in x.pending
       case Clean(i) => true
       case DrainOne(i) => State(x.a, i).Inactive?
       case Finish => x.pending == {} && forall l :: l in x.a.ordering ==> l <= x.done || x.a.maxStabilized < l
       case Pop(cleaner) => cleaner.Keys <= x.a.cleaner.Keys
  }

  /** y is where the step leads; every accountant's assertion on the way holds. */
  ghost predicate Leads(x: Point, st: Step, y: Point, segmentSize: nat)
    requires segmentSize > 0
  {
    match st
    case PageLink(pid, i, size) => State(x.a, i).Active? && y == x.(a := Linked(x.a, pid, i, size))
    case PageReplace(pid, i, size) => State(x.a, i).Active? && y == x.(a := Replaced(x.a, pid, i, size))
    case TellLink(i, part) => State(x.a, i).Active? && State(x.a, i).lsn == part.r
        && y == x.(a := ToldLink(x.a, i, part))
    case TellRemoval(i, part) =>
      && var s := State(x.a, i);
      && !s.Free? && s.lsn <= part.r && (s.Inactive? ==> part.size <= s.rss)
      && y == x.(a := Cleaned(ToldRemoval(x.a, i, part), i, segmentSize))
    case NewSegment(i, lsn) => MayBeTaken(x.a, i, lsn) && y == x.(a := Take(x.a, i, lsn))
    case Raise(stable) => y == x.(a := x.a.(maxStabilized := stable))
    case Deactivate(i) =>
      && State(x.a, i).Active? && State(x.a, i).deferredRss <= State(x.a, i).rss
      && y == Point(Segments.Deactivate(x.a, i), State(x.a, i).lsn, State(x.a, i).canFree)
    case FreeWaiter(l) =>
      && l in x.a.ordering && Freeable(x.a, x.a.ordering[l])
      && y == Point(Shrunk(Freed(x.a, x.a.ordering[l])), x.done, x.pending - {l})
    case Clean(i) => y == x.(a := Cleaned(x.a, i, segmentSize))
    case DrainOne(i) => State(x.a, i).Inactive? && i !in x.a.cleaner && State(x.a, i).lsn <= x.done
        && y == x.(a := Drain(x.a, i))
    case Finish => y == x.(done := x.a.maxStabilized)
    case Pop(cleaner) => y == x.(a := x.a.(cleaner := cleaner))
  }

  /** What `free_segment` asserts, and that nobody needs the segment: it holds no page, nothing
      is still to be applied to it, and what replaced its pages is stable. */
  ghost predicate Freeable(a: Accounts, i: nat) {
    && State(a, i).Free? && State(a, i).previous.Some? && i < a.tip && i !in a.free
    && BookAt(a, i) == NOTHING && Bounded(Gone(a, i), a.maxStabilized)
  }

  ghost predicate Inv(x: Point) {
    Good(x.a, x.done, x.pending) && OpenAbove(x.a, x.a.maxStabilized)
  }

  lemma SwapStep(x: Point, st: Step, segmentSize: nat) returns (y: Point)
    requires Inv(x) && Enabled(x, st, segmentSize) && (st.PageLink? || st.PageReplace?)
    ensures Leads(x, st, y, segmentSize) && Inv(y)
  {
    if st.PageLink? {
      LinkedKeeps(x.a, st.pid, st.i, st.size, x.done, x.pending);
      OpenLinked(x.a, st.pid, st.i, st.size, x.a.maxStabilized);
      y := x.(a := Linked(x.a, st.pid, st.i, st.size));
    } else {
      ReplacedKeeps(x.a, st.pid, st.i, st.size, x.done, x.pending);
      OpenReplaced(x.a, st.pid, st.i, st.size, x.a.maxStabilized);
      y := x.(a := Replaced(x.a, st.pid, st.i, st.size));
    }
  }

  lemma TellLinkStep(x: Point, i: nat, part: Part, segmentSize: nat) returns (y: Point)
    requires Inv(x) && Enabled(x, TellLink(i, part), segmentSize)
    ensures Leads(x, TellLink(i, part), y, segmentSize) && Inv(y)
  {
    ToldLinkKeeps(x.a, i, part, x.done, x.pending);
    y := x.(a := ToldLink(x.a, i, part));
    OpenFewer(x.a, y.a, x.a.maxStabilized);
  }

  lemma TellRemovalStep(x: Point, i: nat, part: Part, segmentSize: nat) returns (y: Point)
    requires Inv(x) && Enabled(x, TellRemoval(i, part), segmentSize)
    ensures Leads(x, TellRemoval(i, part), y, segmentSize) && Inv(y)
  {
    ToldRemovalKeeps(x.a, i, part, x.done, x.pending);
    var b := ToldRemoval(x.a, i, part);
    CleanedKeeps(b, i, segmentSize, x.done, x.pending);
    CleanedFollows(b, i, segmentSize);
    y := x.(a := Cleaned(b, i, segmentSize));
    OpenFewer(x.a, y.a, x.a.maxStabilized);
  }

  lemma NewSegmentStep(x: Point, i: nat, lsn: nat, segmentSize: nat) returns (y: Point)
    requires Inv(x) && Enabled(x, NewSegment(i, lsn), segmentSize)
    ensures Leads(x, NewSegment(i, lsn), y, segmentSize) && Inv(y)
  {
    AllMayBeTaken(x.a, lsn, x.done);
    assert MayBeTaken(x.a, i, lsn);
    y := x.(a := Take(x.a, i, lsn));
    OpenFewer(x.a, y.a, x.a.maxStabilized);
  }

  lemma DeactivateStep(x: Point, i: nat, segmentSize: nat) returns (y: Point)
    requires Inv(x) && Enabled(x, Deactivate(i), segmentSize)
    ensures Leads(x, Deactivate(i), y, segmentSize) && Inv(y)
  {
    OpenIsClosed(x.a, i, x.a.maxStabilized);
    DeactivateKeeps(x.a, i, x.done);
    y := Point(Segments.Deactivate(x.a, i), State(x.a, i).lsn, State(x.a, i).canFree);
    OpenFewer(x.a, y.a, x.a.maxStabilized);
  }

  lemma FreeWaiterStep(x: Point, l: nat, segmentSize: nat) returns (y: Point)
    requires Inv(x) && Enabled(x, FreeWaiter(l), segmentSize)
    ensures Leads(x, FreeWaiter(l), y, segmentSize) && Inv(y)
  {
    WaiterIsEmpty(x.a, l, x.done, x.pending);
    var i := x.a.ordering[l];
    FreedKeeps(x.a, l, x.done, x.pending);
    ShrunkKeeps(Freed(x.a, i), x.done, x.pending - {l});
    y := Point(Shrunk(Freed(x.a, i)), x.done, x.pending - {l});
    OpenFewer(x.a, y.a, x.a.maxStabilized);
  }

  lemma SmallStep(x: Point, st: Step, segmentSize: nat) returns (y: Point)
    requires Inv(x) && Enabled(x, st, segmentSize) && (st.Raise? || st.Clean? || st.DrainOne? || st.Finish? || st.Pop?)
    ensures Leads(x, st, y, segmentSize) && Inv(y)
  {
    match st
    case Raise(stable) =>
      StabilizedKeeps(x.a, x.done, stable);
      y := x.(a := x.a.(maxStabilized := stable));
      OpenFewer(x.a, y.a, stable);
    case Clean(i) =>
      CleanedKeeps(x.a, i, segmentSize, x.done, x.pending);
      CleanedFollows(x.a, i, segmentSize);
      y := x.(a := Cleaned(x.a, i, segmentSize));
      OpenFewer(x.a, y.a, x.a.maxStabilized);
    case DrainOne(i) =>
      DrainKeeps(x.a, i, x.done, x.pending);
      y := x.(a := Drain(x.a, i));
      OpenFewer(x.a, y.a, x.a.maxStabilized);
    case Finish =>
      AdvanceKeeps(x.a, x.done, x.a.maxStabilized);
      y := x.(done := x.a.maxStabilized);
    case Pop(cleaner) =>
      y := x.(a := x.a.(cleaner := cleaner));
      CleanerKeeps(x.a, y.a, x.done, x.pending);
      OpenFewer(x.a, y.a, x.a.maxStabilized);
  }

  /** Every step that is enabled can be taken: no assertion of the accountant fails. */
  lemma StepIsSound(x: Point, st: Step, segmentSize: nat) returns (y: Point)
    requires Inv(x) && Enabled(x, st, segmentSize)
    ensures Leads(x, st, y, segmentSize) && Inv(y) && forall z :: Leads(x, st, z, segmentSize) ==> z == y
  {
    match st
    case PageLink(_, _, _) => y := SwapStep(x, st, segmentSize);
    case PageReplace(_, _, _) => y := SwapStep(x, st, segmentSize);
    case TellLink(i, part) => y := TellLinkStep(x, i, part, segmentSize);
    case TellRemoval(i, part) => y := TellRemovalStep(x, i, part, segmentSize);
    case NewSegment(i, lsn) => y := NewSegmentStep(x, i, lsn, segmentSize);
    case Deactivate(i) => y := DeactivateStep(x, i, segmentSize);
    case FreeWaiter(l) => y := FreeWaiterStep(x, l, segmentSize);
    case _ => y := SmallStep(x, st, segmentSize);
  }

  // ---------------------------------------------------------------------------------
  // Runs
  // ---------------------------------------------------------------------------------

  const START := Point(Accounts([], {}, 0, -1, map[], map[], map[], map[], {}, 0, map[], map[]), -1, {})

  ghost predicate Moves(x: Point, st: Step, y: Point, segmentSize: nat)
    requires segmentSize > 0
  {
    Enabled(x, st, segmentSize) && Leads(x, st, y, segmentSize)
  }

  ghost predicate Run(xs: seq<Point>, steps: seq<Step>, segmentSize: nat) {
    && segmentSize > 0 && |xs| == |steps| + 1 && xs[0] == START
    && (forall i, j {:trigger Moves(xs[i], steps[i], xs[j], segmentSize)} :: 0 <= i && j == i + 1 < |xs| ==>
          Moves(xs[i], steps[i], xs[j], segmentSize))
  }

  lemma {:induction false} RunInv(xs: seq<Point>, steps: seq<Step>, segmentSize: nat, n: nat)
    requires Run(xs, steps, segmentSize) && n < |xs|
    ensures Inv(xs[n])
  {
    if n > 0 {
      RunInv(xs, steps, segmentSize, n - 1);
      assert Moves(xs[n - 1], steps[n - 1], xs[n], segmentSize);
      var y := StepIsSound(xs[n - 1], steps[n - 1], segmentSize);
    }
  }

  /** In every run, whatever can happen next can be done without a failing assertion. */
  lemma NothingFails(xs: seq<Point>, steps: seq<Step>, segmentSize: nat, st: Step) returns (y: Point)
    requires Run(xs, steps, segmentSize) && Enabled(xs[|xs| - 1], st, segmentSize)
    ensures Leads(xs[|xs| - 1], st, y, segmentSize)
  {
    RunInv(xs, steps, segmentSize, |xs| - 1);
    y := StepIsSound(xs[|xs| - 1], st, segmentSize);
  }

  /** In every run, a segment on the free list holds no page, nothing is still to be applied to
      it, and whatever replaced its last pages is stable; so `next` never hands out live space. */
  lemma FreeIsDead(xs: seq<Point>, steps: seq<Step>, segmentSize: nat, n: nat, i: nat)
    requires Run(xs, steps, segmentSize) && n < |xs| && i in xs[n].a.free
    ensures BookAt(xs[n].a, i) == NOTHING && Bounded(Gone(xs[n].a, i), xs[n].a.maxStabilized) && State(xs[n].a, i).Free?
  {
    RunInv(xs, steps, segmentSize, n);
    var x := xs[n];
    assert Reusable(x.a, i) && Placed(x.a, i, x.done) && Counted(x.a, i);
  }

  /** In every run, a page's current fragments lie in segments that are in use, at most up to
      the page's last LSN. */
  lemma LiveIsInUse(xs: seq<Point>, steps: seq<Step>, segmentSize: nat, n: nat, i: nat, pid: PageId)
    requires Run(xs, steps, segmentSize) && n < |xs| && pid in BookAt(xs[n].a, i).live
    ensures var s := State(xs[n].a, i);
            !s.Free? && i !in xs[n].a.free && pid in xs[n].a.last && s.lsn <= xs[n].a.last[pid]
  {
    RunInv(xs, steps, segmentSize, n);
    var x := xs[n];
    assert Counted(x.a, i) && Placed(x.a, i, x.done);
  }
}
