/** The segment accountant as the object the log and the page cache call, under its lock. */
module Accountant {
  import opened Base
  import opened SegmentTally
  import opened Segments

  /** Where one fragment of a page lies: nowhere in the log once it has moved to the heap. */
  datatype Frag = Frag(segment: Option<nat>, size: nat)

  /** The bytes that a list of fragments has in each segment. */
  function Sums(frags: seq<Frag>): map<nat, nat> {
    if frags == [] then map[] else
    var sums, last := Sums(frags[..|frags| - 1]), frags[|frags| - 1];
    match last.segment
    case None => sums
    case Some(i) => sums[i := (if i in sums then sums[i] else 0) + last.size]
  }

  method Summed(frags: seq<Frag>) returns (removals: map<nat, nat>)
    ensures removals == Sums(frags)
  {
    removals := map[];
    for k := 0 to |frags|
      invariant removals == Sums(frags[..k])
    {
      assert frags[..k + 1][..k] == frags[..k];
      if frags[k].segment.Some? {
        var j := frags[k].segment.value;
        removals := removals[j := (if j in removals then removals[j] else 0) + frags[k].size];
      }
    }
    assert frags[..|frags|] == frags;
  }

  /** The fragments are the page's current ones. */
  ghost predicate Names(a: Accounts, pid: PageId, frags: seq<Frag>) {
    forall i {:trigger BookAt(a, i)} :: 0 <= i ==>
      var live := BookAt(a, i).live;
      if i in Sums(frags) then pid in live && live[pid] == Sums(frags)[i] else pid !in live
  }

  /** The accountant has still to be told of these removals. */
  ghost predicate Owed(a: Accounts, pid: PageId, lsn: nat, removals: map<nat, nat>, todo: set<nat>) {
    forall j {:trigger BookAt(a, j)} :: j in todo && j in removals ==>
        Part(pid, lsn, removals[j]) in BookAt(a, j).removals
  }

  /** What the page cache passes to `mark_replace` is what a replacement has the accountant
      told. */
  lemma ReplacedOwes(a: Accounts, pid: PageId, i: nat, size: nat, frags: seq<Frag>)
    requires Tallied(a) && State(a, i).Active? && Names(a, pid, frags)
    ensures var b := Replaced(a, pid, i, size);
      && Part(pid, State(a, i).lsn, size) in BookAt(b, i).links
      && Owed(b, pid, State(a, i).lsn, Sums(frags), Sums(frags).Keys)
  {
    var b, lsn := Replaced(a, pid, i, size), State(a, i).lsn;
    forall j: nat | j in Sums(frags) ensures Part(pid, lsn, Sums(frags)[j]) in BookAt(b, j).removals {
      assert pid in BookAt(a, j).live && BookAt(a, j).live[pid] == Sums(frags)[j];
      LiveIsNotFree(a, j, pid);
      assert j in a.book && BookAt(b, j) == ReplacedAt(a, pid, i, size, j);
    }
    assert BookAt(b, i) == ReplacedAt(a, pid, i, size, i);
  }

  lemma LiveIsNotFree(a: Accounts, j: nat, pid: PageId)
    requires Tallied(a) && pid in BookAt(a, j).live
    ensures !State(a, j).Free?
  {
    assert Counted(a, j);
  }

  /** Segment j's book once the accountant has been told of a replacement's parts. */
  ghost function ToldAt(t: Tally, pid: PageId, lsn: nat, link: Option<nat>, removal: Option<nat>): Tally {
    t.(links := if link.Some? then t.links - multiset{Part(pid, lsn, link.value)} else t.links,
       removals := if removal.Some? then t.removals - multiset{Part(pid, lsn, removal.value)} else t.removals)
  }

  function Find(m: map<nat, nat>, j: nat): Option<nat> {
    if j in m then Some(m[j]) else None
  }

  function TruncDiv(x: int, y: nat): int
    requires y > 0
  {
    if x >= 0 then x / y else -(-x / y)
  }

  function CountFree(s: seq<Segment>): nat {
    if s == [] then 0 else CountFree(s[..|s| - 1]) + (if s[|s| - 1].Free? then 1 else 0)
  }

  function CountInactive(s: seq<Segment>): nat {
    if s == [] then 0 else CountInactive(s[..|s| - 1]) + (if s[|s| - 1].Inactive? then 1 else 0)
  }

  lemma {:induction false} InactiveExists(s: seq<Segment>)
    requires CountInactive(s) > 0
    ensures exists i :: 0 <= i < |s| && s[i].Inactive?
  {
    if s[|s| - 1].Inactive? {
    } else {
      InactiveExists(s[..|s| - 1]);
      var i :| 0 <= i < |s| - 1 && s[..|s| - 1][i].Inactive?;
      assert s[i].Inactive?;
    }
  }

  /** The first key of an ordered set. */
  method Least(s: set<nat>) returns (l: nat)
    requires s != {}
    ensures l in s && forall m :: m in s ==> l <= m
  {
    l :| l in s;
    var rest := s - {l};
    while rest != {}
      invariant l in s && rest <= s && forall m :: m in s ==> m in rest || l <= m
      decreases rest
    {
      var m: nat :| m in rest;
      rest := rest - {m};
      if m < l { l := m; }
    }
  }

  class SegmentAccountant {
    const segmentSize: nat
    var segments: seq<Segment>
    var free: set<nat>
    var tip: nat
    var maxStabilized: int
    var ordering: map<nat, nat>
    var cleaner: map<nat, set<PageId>>
    ghost var book: map<nat, Tally>
    ghost var last: map<PageId, nat>
    ghost var handed: set<nat>
    ghost var bound: nat
    ghost var waits: map<nat, nat>
    ghost var gone: map<nat, map<PageId, nat>>

    ghost function View(): Accounts
      reads this
    {
      Accounts(segments, free, tip, maxStabilized, ordering, cleaner, book, last, handed, bound, waits, gone)
    }

    ghost predicate Valid()
      reads this
    {
      segmentSize > 0 && Good(View(), maxStabilized, {})
    }

    /** `start` on an empty snapshot. */
    constructor (segmentSize: nat)
      requires segmentSize > 0
      ensures Valid() && this.segmentSize == segmentSize
      ensures View() == Accounts([], {}, 0, -1, map[], map[], map[], map[], {}, 0, map[], map[])
    {
      this.segmentSize := segmentSize;
      segments, free, tip, maxStabilized, ordering, cleaner := [], {}, 0, -1, map[], map[];
      book, last, handed, bound, waits, gone := map[], map[], {}, 0, map[], map[];
    }

    /** `free_segment`; its three assertions are preconditions here, next to the promise that
        the segment holds no page and that the pages it lost have stable replacements. */
    method FreeSegment(i: nat)
      requires i < |segments| && segments[i].Free? && segments[i].previous.Some?
      requires i < tip && i !in free
      requires BookAt(View(), i) == NOTHING && Bounded(Gone(View(), i), maxStabilized)
      modifies this
      ensures View() == Shrunk(Freed(old(View()), i))
    {
      cleaner := cleaner - {i};
      free := free + {i};
      var l := segments[i].previous.value;
      ordering := ordering - {l};
      waits := waits - {l};
      Truncate();
    }

    /** The truncation loop of `free_segment`. */
    method Truncate()
      modifies this`free, this`tip
      ensures (free, tip) == Cut(old(free), old(tip))
    {
      while tip != 0 && |free| > 1
        invariant Cut(free, tip) == Cut(old(free), old(tip))
        decreases tip
      {
        var last := tip - 1;
        if last in free {
          free := free - {last};
          tip := last;
        } else {
          break;
        }
      }
    }

    /** The first half of `possibly_clean_or_free_segment`. */
    method Thin(i: nat, lsn: nat, ghost done: int, ghost pending: set<nat>)
      requires segmentSize > 0 && Good(View(), done, pending) && !State(View(), i).Free? && State(View(), i).lsn <= lsn
      modifies this`segments, this`cleaner
      ensures View() == Thinned(old(View()), i, segmentSize)
    {
      if segments[i].Inactive? {
        var livePct := segments[i].rss * 100 / segmentSize;
        if livePct <= CLEANUP_THRESHOLD {
          DrainKeeps(View(), i, done, pending);
          var pids := segments[i].pids;
          segments := segments[i := Drained(segments[i])];
          assert i !in cleaner;
          cleaner := cleaner[i := pids];
        }
      }
    }

    /** The second half. */
    method Collect(i: nat, lsn: nat, ghost done: int, ghost pending: set<nat>)
      requires Good(View(), done, pending) && !State(View(), i).Free? && State(View(), i).lsn <= lsn
      modifies this
      ensures View() == Collected(old(View()), i)
    {
      if CanFree(segments[i]) {
        EmptySegment(View(), i, done, pending);
        var segmentLsn, replacement := segments[i].lsn, segments[i].latest;
        assert replacement in ordering ==> Ordered(View(), replacement);
        if replacement in ordering && segments[ordering[replacement]].Active? {
          var k := ordering[replacement];
          segments := segments[i := Free(Some(segmentLsn))];
          segments := segments[k := segments[k].(canFree := segments[k].canFree + {segmentLsn})];
          waits := waits[segmentLsn := replacement];
        } else {
          ReplacementIsStable(View(), i, done, pending);
          assert replacement <= maxStabilized;
          segments := segments[i := Free(Some(segmentLsn))];
          FreeSegment(i);
        }
      }
    }

    method PossiblyCleanOrFree(i: nat, lsn: nat, ghost done: int, ghost pending: set<nat>)
      requires segmentSize > 0 && Good(View(), done, pending) && !State(View(), i).Free? && State(View(), i).lsn <= lsn
      modifies this
      ensures View() == Cleaned(old(View()), i, segmentSize)
      ensures Good(View(), done, pending) && Follows(old(View()), View())
    {
      CleanedKeeps(View(), i, segmentSize, done, pending);
      CleanedFollows(View(), i, segmentSize);
      ThinnedKeeps(View(), i, segmentSize, done, pending);
      Thin(i, lsn, done, pending);
      Collect(i, lsn, done, pending);
    }

    /** A swap of the page cache that links page pid, by a reservation in segment i that is not
        complete yet. LSNs of one page rise. */
    ghost method PageLinked(pid: PageId, i: nat, size: nat)
      requires Valid() && State(View(), i).Active? && (pid in last ==> last[pid] <= State(View(), i).lsn)
      modifies this`book, this`last
      ensures Valid() && View() == Linked(old(View()), pid, i, size)
    {
      LinkedKeeps(View(), pid, i, size, maxStabilized, {});
      var a := Linked(View(), pid, i, size);
      book, last := a.book, a.last;
    }

    /** A swap of the page cache that replaces page pid. */
    ghost method PageReplaced(pid: PageId, i: nat, size: nat, frags: seq<Frag>)
      requires Valid() && State(View(), i).Active? && (pid in last ==> last[pid] <= State(View(), i).lsn)
      requires Names(View(), pid, frags)
      modifies this`book, this`last
      ensures Valid() && View() == Replaced(old(View()), pid, i, size)
      ensures Part(pid, State(View(), i).lsn, size) in BookAt(View(), i).links
      ensures Owed(View(), pid, State(View(), i).lsn, Sums(frags), Sums(frags).Keys)
    {
      ReplacedKeeps(View(), pid, i, size, maxStabilized, {});
      ReplacedOwes(View(), pid, i, size, frags);
      var a := Replaced(View(), pid, i, size);
      book, last := a.book, a.last;
    }

    /** `mark_link`, any time after the swap. */
    method MarkLink(pid: PageId, frag: Frag, lsn: nat)
      requires Valid()
      requires frag.segment.Some? ==> Part(pid, lsn, frag.size) in BookAt(View(), frag.segment.value).links
      modifies this`segments, this`book
      ensures Valid()
      ensures frag.segment.Some? ==>
        State(old(View()), frag.segment.value).Active? && State(old(View()), frag.segment.value).lsn == lsn
      ensures View() == if frag.segment.Some? then ToldLink(old(View()), frag.segment.value,
              Part(pid, lsn, frag.size)) else old(View())
      ensures forall j: nat {:trigger BookAt(View(), j)} ::
        BookAt(View(), j) == ToldAt(BookAt(old(View()), j), pid, lsn,
            if frag.segment == Some(j) then Some(frag.size) else None, None)
    {
      if frag.segment.Some? {
        var i := frag.segment.value;
        ghost var a := View();
        ToldLinkKeeps(a, i, Part(pid, lsn, frag.size), maxStabilized, {});
        assert segments[i].lsn == lsn;
        segments := segments[i := Inserted(segments[i], pid, frag.size)];
        book := ToldLink(a, i, Part(pid, lsn, frag.size)).book;
      }
    }

    /** One round of the removal loop of `mark_replace`. */
    method RemovePage(pid: PageId, lsn: nat, size: nat, j: nat)
      requires Valid() && Part(pid, lsn, size) in BookAt(View(), j).removals
      modifies this
      ensures Valid() && maxStabilized == old(maxStabilized) && last == old(last)
      ensures forall i: nat {:trigger BookAt(View(), i)} ::
        BookAt(View(), i) == ToldAt(BookAt(old(View()), i), pid, lsn, None, if i == j then Some(size) else None)
    {
      ghost var a, part := View(), Part(pid, lsn, size);
      ToldRemovalKeeps(a, j, part, maxStabilized, {});
      assert segments[j].lsn <= lsn;
      ghost var b := ToldRemoval(a, j, part);
      book, gone := b.book, b.gone;
      segments := segments[j := Removed(segments[j], pid, lsn, size)];
      assert View() == b;
      PossiblyCleanOrFree(j, lsn, maxStabilized, {});
    }

    /** `mark_replace`, any time after the swap, for a page whose new base is in the log. */
    method MarkReplace(pid: PageId, oldFrags: seq<Frag>, i: nat, size: nat, lsn: nat)
      requires Valid() && Part(pid, lsn, size) in BookAt(View(), i).links
      requires Owed(View(), pid, lsn, Sums(oldFrags), Sums(oldFrags).Keys)
      modifies this
      ensures Valid() && maxStabilized == old(maxStabilized) && last == old(last)
      ensures forall j: nat {:trigger BookAt(View(), j)} ::
        BookAt(View(), j) == ToldAt(BookAt(old(View()), j), pid, lsn, if j == i then Some(size) else None,
            Find(Sums(oldFrags), j))
    {
      ghost var a := View();
      MarkLink(pid, Frag(Some(i), size), lsn);
      var removals := Summed(oldFrags);
      ghost var b := View();
      StillOwed(a, b, pid, lsn, i, size, removals);
      RemovePages(pid, lsn, removals);
      forall j: nat ensures BookAt(View(), j) ==
          ToldAt(BookAt(a, j), pid, lsn, if j == i then Some(size) else None, Find(removals, j)) {
        assert BookAt(b, j) == ToldAt(BookAt(a, j), pid, lsn, if j == i then Some(size) else None, None);
      }
    }

    method RemovePages(pid: PageId, lsn: nat, removals: map<nat, nat>)
      requires Valid() && Owed(View(), pid, lsn, removals, removals.Keys)
      modifies this
      ensures Valid() && maxStabilized == old(maxStabilized) && last == old(last)
      ensures forall j: nat {:trigger BookAt(View(), j)} ::
        BookAt(View(), j) == ToldAt(BookAt(old(View()), j), pid, lsn, None, Find(removals, j))
    {
      ghost var a := View();
      var todo := removals.Keys;
      while todo != {}
        invariant Valid() && maxStabilized == old(maxStabilized) && last == old(last)
        invariant todo <= removals.Keys
        invariant forall j: nat {:trigger BookAt(View(), j)} ::
          BookAt(View(), j) == if j in todo then BookAt(a, j)
              else ToldAt(BookAt(a, j), pid, lsn, None, Find(removals, j))
        decreases todo
      {
        var j: nat :| j in todo;
        assert BookAt(View(), j) == BookAt(a, j);
        RemovePage(pid, lsn, removals[j], j);
        todo := todo - {j};
      }
    }

    method CountSegments() returns (freeSegs: nat, inactiveSegs: nat)
      ensures freeSegs == CountFree(segments) && inactiveSegs == CountInactive(segments)
    {
      freeSegs, inactiveSegs := 0, 0;
      for k := 0 to |segments|
        invariant freeSegs == CountFree(segments[..k]) && inactiveSegs == CountInactive(segments[..k])
      {
        assert segments[..k + 1][..k] == segments[..k];
        if segments[k].Free? { freeSegs := freeSegs + 1; }
        if segments[k].Inactive? { inactiveSegs := inactiveSegs + 1; }
      }
      assert segments[..|segments|] == segments;
    }

    method LastInactive() returns (last: nat)
      requires CountInactive(segments) > 0
      ensures last < |segments| && segments[last].Inactive?
      ensures forall k :: last < k < |segments| ==> !segments[k].Inactive?
    {
      InactiveExists(segments);
      ghost var w :| 0 <= w < |segments| && segments[w].Inactive?;
      last := |segments| - 1;
      while !segments[last].Inactive?
        invariant w <= last < |segments|
        invariant forall k :: last < k < |segments| ==> !segments[k].Inactive?
        decreases last
      {
        last := last - 1;
      }
    }

    /** The end of `deactivate_segment`: when half of the file is free, the last inactive
        segment is drained. */
    method Relocate(lsn: nat)
      requires Good(View(), lsn, {})
      modifies this`segments, this`cleaner
      ensures Good(View(), lsn, {}) && Follows(old(View()), View()) && ordering == old(ordering)
    {
      var freeSegs, inactiveSegs := CountSegments();
      var freeRatio := freeSegs * 100 / (1 + freeSegs + inactiveSegs);
      if freeRatio >= CLEANUP_THRESHOLD && inactiveSegs > 5 {
        var last := LastInactive();
        DrainKeeps(View(), last, lsn, {});
        assert segments[last].lsn <= lsn && last !in cleaner;
        cleaner := cleaner[last := segments[last].pids];
        segments := segments[last := Drained(segments[last])];
      }
    }

    /** `deactivate_segment`, for the lowest LSN that is still active. */
    method DeactivateSegment(l: nat, ghost done: int)
      requires segmentSize > 0 && Good(View(), done, {}) && l in ordering && done < l <= maxStabilized
      requires (forall m :: m in ordering && done < m ==> l <= m) && OpenAbove(View(), l)
      modifies this
      ensures Good(View(), l, {}) && maxStabilized == old(maxStabilized) && book == old(book) && last == old(last)
              && gone == old(gone)
      ensures forall m :: l < m ==> (m in ordering <==> m in old(ordering))
    {
      ghost var a := View();
      var i := ordering[l];
      assert Ordered(a, l) && Placed(a, i, done) && (l in a.waits ==> Waiting(a, l, done, {}));
      OpenIsClosed(a, i, l);
      DeactivateKeeps(a, i, done);
      assert segments[i].Active?;
      var freeable := segments[i].canFree;
      segments := segments[i := Deactivated(segments[i])];
      FreeWaiters(freeable, i, l);
      ghost var b := View();
      PossiblyCleanOrFree(i, l, l, {});
      ghost var c := View();
      Relocate(l);
      LaterStay(b, c, l);
    }

    /** The segments that waited for LSN l are freed. */
    method FreeWaiters(freeable: set<nat>, i: nat, ghost l: nat)
      requires Good(View(), l, freeable) && l in ordering && ordering[l] == i && State(View(), i).Inactive?
      modifies this
      ensures Good(View(), l, {}) && l in ordering && ordering[l] == i && State(View(), i) == old(State(View(), i))
      ensures maxStabilized == old(maxStabilized) && book == old(book) && last == old(last) && gone == old(gone)
      ensures forall m :: l < m ==> (m in ordering <==> m in old(ordering))
    {
      var todo := freeable;
      while todo != {}
        invariant Good(View(), l, todo) && l in ordering && ordering[l] == i
                  && State(View(), i) == old(State(View(), i))
        invariant maxStabilized == old(maxStabilized) && book == old(book) && last == old(last) && gone == old(gone)
        invariant forall m :: l < m ==> (m in ordering <==> m in old(ordering))
        decreases todo
      {
        var w: nat :| w in todo;
        ghost var a := View();
        WaiterIsEmpty(a, w, l, todo);
        var k := ordering[w];
        assert k != i;
        FreedKeeps(a, w, l, todo);
        ShrunkKeeps(Freed(a, k), l, todo - {w});
        FreeSegment(k);
        todo := todo - {w};
      }
    }

    /** `stabilize`, for a stable LSN in bytes. The stack of operations has been drained, so an
        operation that is not applied belongs to a thread whose reservation is still open. Then no
        segment up to the stable LSN is active, and none waits any more for one up to it. */
    method Stabilize(stableLsn: int)
      requires Valid() && OpenAbove(View(), TruncDiv(stableLsn, segmentSize) - 1)
      modifies this
      ensures Valid() && book == old(book) && last == old(last) && gone == old(gone)
      ensures maxStabilized == var lsn := TruncDiv(stableLsn, segmentSize) - 1;
              if old(maxStabilized) >= lsn then old(maxStabilized) else lsn
      ensures forall i: nat {:trigger State(View(), i)} ::
        State(View(), i).Active? ==> maxStabilized < State(View(), i).lsn
      ensures forall l :: l in waits ==> maxStabilized < waits[l]
    {
      var lsn := TruncDiv(stableLsn, segmentSize) - 1;
      if maxStabilized >= lsn {
        NoneIsLate(View(), maxStabilized);
        return;
      }
      var todo := set l | l in ordering && maxStabilized < l <= lsn;
      ghost var done := maxStabilized;
      StabilizedKeeps(View(), done, lsn);
      maxStabilized := lsn;
      assert OpenAbove(View(), lsn) by { OpenFewer(old(View()), View(), lsn); }
      while todo != {}
        invariant OpenAbove(View(), lsn)
        invariant Good(View(), done, {}) && maxStabilized == lsn && book == old(book) && last == old(last)
                  && gone == old(gone)
        invariant done <= lsn && forall l :: l in todo <==> l in ordering && done < l <= lsn
        decreases todo
      {
        var l := Least(todo);
        ghost var before := View();
        OpenLower(before, l, lsn);
        DeactivateSegment(l, done);
        OpenFewer(before, View(), lsn);
        done := l;
        assert forall m :: m in todo - {l} <==> m in todo && l < m;
        todo := todo - {l};
      }
      AdvanceKeeps(View(), done, lsn);
      NoneIsLate(View(), lsn);
    }

    /** `SegmentCleaner::pop`: the next page to rewrite, out of the first segment to clean. */
    method Pop() returns (r: Option<(PageId, nat)>)
      requires Valid()
      modifies this`cleaner
      ensures Valid()
      ensures r.Some? ==> r.value.1 in old(cleaner) && r.value.0 in old(cleaner)[r.value.1]
      ensures r.Some? ==> cleaner == old(cleaner)[r.value.1 := old(cleaner)[r.value.1] - {r.value.0}]
      ensures r.None? ==>
        || cleaner == old(cleaner)
        || exists i :: i in old(cleaner) && old(cleaner)[i] == {} && cleaner == old(cleaner) - {i}
    {
      r := None;
      if cleaner.Keys == {} { return; }
      var i := Least(cleaner.Keys);
      if cleaner[i] != {} {
        var pid := Least(cleaner[i]);
        CleanerKeeps(View(), View().(cleaner := cleaner[i := cleaner[i] - {pid}]), maxStabilized, {});
        cleaner := cleaner[i := cleaner[i] - {pid}];
        return Some((pid, i));
      }
      CleanerKeeps(View(), View().(cleaner := cleaner - {i}), maxStabilized, {});
      cleaner := cleaner - {i};
    }

    /** The lowest free segment, or else the one at the tip. */
    method Pick() returns (i: nat, fromTip: bool)
      requires forall j :: j in free ==> j < tip
      modifies this`free, this`tip
      ensures fromTip <==> old(free) == {}
      ensures if fromTip then i == old(tip) else i in old(free) && forall j :: j in old(free) ==> i <= j
      ensures free == old(free) - {i} && tip == if fromTip then old(tip) + 1 else old(tip)
    {
      if free != {} {
        i := Least(free);
        free := free - {i};
        fromTip := false;
      } else {
        i := tip;
        tip := tip + 1;
        fromTip := true;
      }
    }

    /** `next`. */
    method Next(lsn: nat) returns (i: nat, fromTip: bool)
      requires Valid() && bound <= lsn && maxStabilized < lsn
      modifies this
      ensures Valid() && View() == Take(old(View()), i, lsn)
      ensures fromTip <==> old(free) == {}
      ensures if fromTip then i == old(tip) else i in old(free) && forall j :: j in old(free) ==> i <= j
      ensures BookAt(old(View()), i) == NOTHING && Bounded(Gone(old(View()), i), maxStabilized) && i <= lsn
    {
      ghost var a := View();
      AllMayBeTaken(a, lsn, maxStabilized);
      i, fromTip := Pick();
      assert MayBeTaken(a, i, lsn);
      Activate(i, lsn);
      assert View() == Take(a, i, lsn);
    }

    /** The segment gets its LSN. */
    method Activate(i: nat, lsn: nat)
      requires State(View(), i).Free?
      modifies this`segments, this`ordering, this`handed, this`bound, this`gone
      ensures segments == Grown(old(segments), i)[i := Active(lsn, 0, 0, {}, {}, 0, {})]
              && ordering == old(ordering)[lsn := i]
      ensures handed == old(handed) + {lsn} && bound == lsn + 1 && gone == old(gone)[i := map[]]
    {
      segments := Grown(segments, i);
      assert segments[i].Free?;
      segments := segments[i := Active(lsn, 0, 0, {}, {}, 0, {})];
      ordering := ordering[lsn := i];
      handed, bound, gone := handed + {lsn}, lsn + 1, gone[i := map[]];
    }
  }

  /** Segment i is free, holds no page, and can be handed out under LSN lsn. */
  ghost predicate MayBeTaken(a: Accounts, i: nat, lsn: nat) {
    && State(a, i).Free? && BookAt(a, i) == NOTHING && Bounded(Gone(a, i), a.maxStabilized) && i <= lsn
    && Good(Take(a, i, lsn), a.maxStabilized, {})
  }

  lemma AllMayBeTaken(a: Accounts, lsn: nat, done: int)
    requires Good(a, done, {}) && done == a.maxStabilized < lsn && a.bound <= lsn
    ensures forall i {:trigger MayBeTaken(a, i, lsn)} :: i in a.free || i == a.tip ==> MayBeTaken(a, i, lsn)
    ensures forall i :: i in a.free ==> i < a.tip
  {
    forall i: nat | i in a.free || i == a.tip ensures MayBeTaken(a, i, lsn) {
      FreeIsEmpty(a, i, lsn, done);
      TakeKeeps(a, i, lsn, done);
    }
    forall i | i in a.free ensures i < a.tip { assert Reusable(a, i); }
  }

  lemma StillOwed(a: Accounts, b: Accounts, pid: PageId, lsn: nat, i: nat, size: nat, removals: map<nat, nat>)
    requires Owed(a, pid, lsn, removals, removals.Keys)
    requires forall j: nat {:trigger BookAt(b, j)} ::
      BookAt(b, j) == ToldAt(BookAt(a, j), pid, lsn, if Some(i) == Some(j) then Some(size) else None, None)
    ensures Owed(b, pid, lsn, removals, removals.Keys)
  {
    forall j | j in removals ensures Part(pid, lsn, removals[j]) in BookAt(b, j).removals {
      assert BookAt(a, j).removals == BookAt(b, j).removals;
    }
  }

  lemma OpenLower(a: Accounts, l: int, m: int)
    requires OpenAbove(a, m) && l <= m
    ensures OpenAbove(a, l)
  {
    forall i: nat ensures Above(BookAt(a, i), l) { assert Above(BookAt(a, i), m); }
  }

  /** What is active or waited for is above `done`. */
  lemma NoneIsLate(a: Accounts, done: int)
    requires Good(a, done, {})
    ensures forall i: nat {:trigger State(a, i)} :: State(a, i).Active? ==> done < State(a, i).lsn
    ensures forall l :: l in a.waits ==> done < a.waits[l]
  {
    forall i: nat ensures State(a, i).Active? ==> done < State(a, i).lsn { assert Placed(a, i, done); }
    forall l | l in a.waits ensures done < a.waits[l] {
      assert Waiting(a, l, done, {});
      assert Placed(a, a.ordering[a.waits[l]], done);
    }
  }

  /** The LSNs above `done` are those of the active segments. */
  lemma LaterStay(a: Accounts, b: Accounts, done: int)
    requires Good(a, done, {}) && Good(b, done, {}) && Follows(a, b)
    ensures forall m :: done < m ==> (m in b.ordering <==> m in a.ordering)
  {
    forall m: nat | done < m ensures m in b.ordering ==> m in a.ordering {
      if m in b.ordering {
        var i := b.ordering[m];
        assert Ordered(b, m) && (m in b.waits ==> Waiting(b, m, done, {})) && Stays(State(a, i), State(b, i))
               && Placed(a, i, done);
      }
    }
    forall m: nat | done < m ensures m in a.ordering ==> m in b.ordering {
      if m in a.ordering {
        var i := a.ordering[m];
        assert Ordered(a, m) && (m in a.waits ==> Waiting(a, m, done, {})) && Placed(a, i, done);
        assert Stays(State(a, i), State(b, i)) && Placed(b, i, done);
      }
    }
  }

  lemma CleanerKeeps(a: Accounts, b: Accounts, done: int, pending: set<nat>)
    requires Good(a, done, pending) && b == a.(cleaner := b.cleaner) && b.cleaner.Keys <= a.cleaner.Keys
    ensures Good(b, done, pending)
  {
    SameTallied(a, b);
    forall j: nat ensures Placed(b, j, done) { assert Placed(a, j, done); }
    forall l | l in b.ordering ensures Ordered(b, l) { assert Ordered(a, l); }
    forall l | l in b.waits ensures Waiting(b, l, done, pending) { assert Waiting(a, l, done, pending); }
    forall j | j in b.free ensures Reusable(b, j) { assert Reusable(a, j); }
    forall l | l in b.handed ensures Known(b, l, done) { assert Known(a, l, done); }
  }
}
