/** The segment accountant's state, its steps, and the invariants that every step keeps. File
    offsets and LSNs are counted in segments: segment i lies at byte i * segment_size, and LSN l
    stands for l * segment_size. */
module Segments {
  import opened Base
  import opened SegmentTally

  /** The accountant's fields, and below the line what is true of the log. */
  datatype Accounts = Accounts(
    segments: seq<Segment>,
    free: set<nat>,
    tip: nat,
    maxStabilized: int,
    ordering: map<nat, nat>,                  // LSN to segment
    cleaner: map<nat, set<PageId>>,
    // ----
    book: map<nat, Tally>,                    // per segment, its pages and what is still to be applied
    last: map<PageId, nat>,                   // per page, the segment LSN of its newest fragment
    handed: set<nat>,                         // every LSN that `next` was called with
    bound: nat,                               // all of them are below this one
    waits: map<nat, nat>,                     // an emptied LSN, to the latest replacement it waits for
    gone: map<nat, map<PageId, nat>>)         // per segment, the LSNs that replaced the pages it lost

  function State(a: Accounts, i: nat): Segment {
    if i < |a.segments| then a.segments[i] else Free(None)
  }

  /** What is true of segment i. */
  function BookAt(a: Accounts, i: nat): Tally {
    if i in a.book then a.book[i] else NOTHING
  }

  function Gone(a: Accounts, i: nat): map<PageId, nat> {
    if i in a.gone then a.gone[i] else map[]
  }

  ghost predicate Bounded(m: map<PageId, nat>, r: int) {
    forall p :: p in m ==> m[p] <= r
  }

  // ---------------------------------------------------------------------------------
  // Invariants; the segments with an LSN up to `done` have been deactivated, and `pending`
  // holds the emptied LSNs whose turn to be freed has come
  // ---------------------------------------------------------------------------------

  ghost predicate Counted(a: Accounts, i: nat) {
    Fits(State(a, i), BookAt(a, i), a.last, a.handed)
  }

  /** Segment i is empty, and kept back under its old LSN. */
  ghost predicate IsWaiting(a: Accounts, i: nat) {
    var s := State(a, i);
    && s.Free? && s.previous.Some? && s.previous.value in a.waits
    && s.previous.value in a.ordering && a.ordering[s.previous.value] == i
  }

  /** Where segment i stands; a free segment that is not kept back has only lost pages whose
      replacements are stable. */
  ghost predicate Placed(a: Accounts, i: nat, done: int) {
    var s := State(a, i);
    if s.Free? then IsWaiting(a, i) || (i !in a.cleaner && Bounded(Gone(a, i), a.maxStabilized))
    else
      && i < a.tip && i !in a.free
      && s.lsn in a.ordering && a.ordering[s.lsn] == i && s.lsn !in a.waits
      && (s.latest in a.handed || s.latest == 0) && Bounded(Gone(a, i), s.latest)
      && (s.Active? <==> done < s.lsn)
      && (i in a.cleaner ==> s.Draining?)
      && (s.Active? ==> forall l :: l in s.canFree ==> l in a.waits && a.waits[l] == s.lsn)
  }

  ghost predicate Ordered(a: Accounts, l: nat)
    requires l in a.ordering
  {
    var i := a.ordering[l];
    && i < a.tip && i !in a.free && l in a.handed
    && (if l in a.waits then State(a, i) == Free(Some(l)) && Bounded(Gone(a, i), a.waits[l])
        else !State(a, i).Free? && State(a, i).lsn == l)
  }

  /** LSN l is emptied, but its latest replacement is still in an active segment. */
  ghost predicate Waiting(a: Accounts, l: nat, done: int, pending: set<nat>)
    requires l in a.waits
  {
    && l <= done && l in a.ordering
    && (if l in pending then a.waits[l] <= done else Delayed(a, l, a.waits[l]))
  }

  ghost predicate Delayed(a: Accounts, l: nat, r: nat) {
    r in a.ordering && State(a, a.ordering[r]).Active? && State(a, a.ordering[r]).lsn == r
        && l in State(a, a.ordering[r]).canFree
  }

  ghost predicate Reusable(a: Accounts, i: nat) {
    i < a.tip && State(a, i).Free? && !IsWaiting(a, i)
  }

  ghost predicate Known(a: Accounts, l: nat, done: int) {
    l < a.bound && (l in a.ordering || l <= done)
  }

  ghost predicate Tallied(a: Accounts) {
    forall i {:trigger Counted(a, i)} :: 0 <= i ==> Counted(a, i)
  }

  ghost predicate Mapped(a: Accounts, done: int, pending: set<nat>) {
    && done <= a.maxStabilized && a.tip <= a.bound && pending <= a.waits.Keys
    && (forall i {:trigger Placed(a, i, done)} :: 0 <= i ==> Placed(a, i, done))
    && (forall l {:trigger Ordered(a, l)} :: l in a.ordering ==> Ordered(a, l))
    && (forall l {:trigger Waiting(a, l, done, pending)} :: l in a.waits ==> Waiting(a, l, done, pending))
    && (forall i {:trigger Reusable(a, i)} :: i in a.free ==> Reusable(a, i))
    && (forall l {:trigger Known(a, l, done)} :: l in a.handed ==> Known(a, l, done))
  }

  ghost predicate Good(a: Accounts, done: int, pending: set<nat>) {
    Tallied(a) && Mapped(a, done, pending)
  }

  // ---------------------------------------------------------------------------------
  // Steps
  // ---------------------------------------------------------------------------------

  function Put(a: Accounts, i: nat, s: Segment): Accounts
    requires i < |a.segments|
  {
    a.(segments := a.segments[i := s])
  }

  /** A page is linked in segment i: the page cache's swap. */
  function Linked(a: Accounts, pid: PageId, i: nat, size: nat): Accounts
    requires State(a, i).Active?
  {
    var lsn := State(a, i).lsn;
    a.(book := a.book[i := Comes(BookAt(a, i), Part(pid, lsn, size))], last := a.last[pid := lsn])
  }

  /** What a replacement of page pid by a fragment with segment LSN lsn takes from a segment. */
  function Vacated(s: Segment, t: Tally, pid: PageId, lsn: nat): Tally {
    if !s.Free? && pid in t.live then Leaves(t, Part(pid, lsn, t.live[pid]), s.lsn) else t
  }

  function ReplacedAt(a: Accounts, pid: PageId, i: nat, size: nat, j: nat): Tally
    requires State(a, i).Active?
  {
    var lsn := State(a, i).lsn;
    var t := Vacated(State(a, j), BookAt(a, j), pid, lsn);
    if j == i then Comes(t, Part(pid, lsn, size)) else t
  }

  /** A page is replaced by a new base in segment i: the page cache's swap. */
  function Replaced(a: Accounts, pid: PageId, i: nat, size: nat): Accounts
    requires State(a, i).Active?
  {
    a.(book := map j | j in a.book.Keys + {i} :: ReplacedAt(a, pid, i, size, j), last := a.last[pid := State(a, i).lsn])
  }

  /** `insert_pid` is told of a link. */
  function ToldLink(a: Accounts, i: nat, part: Part): Accounts
    requires State(a, i).Active?
  {
    var t := BookAt(a, i);
    Put(a, i, Inserted(State(a, i), part.pid, part.size)).(book := a.book[i := t.(links := t.links - multiset{part})])
  }

  /** `remove_pid` is told of a removal. */
  function ToldRemoval(a: Accounts, i: nat, part: Part): Accounts
    requires var s := State(a, i); !s.Free? && (s.Inactive? ==> part.size <= s.rss)
  {
    var s, t := State(a, i), BookAt(a, i);
    Put(a, i, Removed(s, part.pid, part.r, part.size)).(
      book := a.book[i := t.(removals := t.removals - multiset{part})],
      gone := if part.r == s.lsn then a.gone else a.gone[i := Gone(a, i)[part.pid := part.r]])
  }

  /** A segment's pages are handed to the cleaner. */
  function Drain(a: Accounts, i: nat): Accounts
    requires State(a, i).Inactive?
  {
    Put(a, i, Drained(State(a, i))).(cleaner := a.cleaner[i := State(a, i).pids])
  }

  /** `draining_to_free`. */
  function Emptied(a: Accounts, i: nat): Accounts
    requires State(a, i).Draining?
  {
    Put(a, i, Free(Some(State(a, i).lsn)))
  }

  /** `free_segment` up to the truncation. */
  function Freed(a: Accounts, i: nat): Accounts
    requires State(a, i).Free? && State(a, i).previous.Some?
  {
    var l := State(a, i).previous.value;
    a.(cleaner := a.cleaner - {i}, free := a.free + {i}, ordering := a.ordering - {l}, waits := a.waits - {l})
  }

  /** The truncation loop. */
  function Cut(free: set<nat>, tip: nat): (set<nat>, nat)
    decreases tip
  {
    if tip != 0 && |free| > 1 && tip - 1 in free then Cut(free - {tip - 1}, tip - 1) else (free, tip)
  }

  function Shrunk(a: Accounts): Accounts {
    a.(free := Cut(a.free, a.tip).0, tip := Cut(a.free, a.tip).1)
  }

  /** An emptied segment joins the free list at once. */
  function Release(a: Accounts, i: nat): Accounts
    requires State(a, i).Draining?
  {
    Freed(Emptied(a, i), i)
  }

  /** An emptied segment waits until segment k, which holds the latest replacement, is deactivated. */
  function Defer(a: Accounts, i: nat, k: nat): Accounts
    requires State(a, i).Draining? && State(a, k).Active?
  {
    var s := State(a, i);
    Put(Emptied(a, i), k, State(a, k).(canFree := State(a, k).canFree + {s.lsn})).(waits := a.waits[s.lsn := s.latest])
  }

  function Deactivate(a: Accounts, i: nat): Accounts
    requires State(a, i).Active? && State(a, i).deferredRss <= State(a, i).rss
  {
    Put(a, i, Deactivated(State(a, i)))
  }

  /** `segment_id`. */
  function Grown(s: seq<Segment>, i: nat): (t: seq<Segment>)
    ensures i < |t| && s <= t
  {
    if i < |s| then s else s + seq(i + 1 - |s|, _ => Free(None))
  }

  /** Segment i becomes active under a new LSN. */
  function Take(a: Accounts, i: nat, lsn: nat): Accounts {
    a.(segments := Grown(a.segments, i)[i := Active(lsn, 0, 0, {}, {}, 0, {})], free := a.free - {i},
       tip := if i == a.tip then a.tip + 1 else a.tip,
       ordering := a.ordering[lsn := i], handed := a.handed + {lsn}, bound := lsn + 1, gone := a.gone[i := map[]])
  }

  // ---------------------------------------------------------------------------------
  // Every step keeps the invariants
  // ---------------------------------------------------------------------------------

  /** Only segment i and its book change. */
  lemma TalliedAfter(a: Accounts, b: Accounts, i: nat, s: Segment, t: Tally)
    requires Tallied(a) && i < |a.segments| && Fits(s, t, a.last, a.handed)
             && (b.book == a.book[i := t] || (b.book == a.book && t == BookAt(a, i)))
    requires b.segments == a.segments[i := s] && b.last == a.last && b.handed == a.handed
    ensures Tallied(b)
  {
    forall j: nat ensures Counted(b, j) { assert Counted(a, j); }
  }

  lemma SameTallied(a: Accounts, b: Accounts)
    requires Tallied(a) && b.segments == a.segments && b.book == a.book && b.last == a.last && b.handed == a.handed
    ensures Tallied(b)
  {
    forall j: nat ensures Counted(b, j) { assert Counted(a, j); }
  }

  /** What the map of segments depends on is the same. */
  ghost predicate SameMap(a: Accounts, b: Accounts) {
    b == a.(book := b.book, last := b.last)
  }

  lemma SameMapped(a: Accounts, b: Accounts, done: int, pending: set<nat>)
    requires Mapped(a, done, pending) && SameMap(a, b)
    ensures Mapped(b, done, pending)
  {
    forall j: nat ensures Placed(b, j, done) { assert Placed(a, j, done); }
    forall l | l in b.ordering ensures Ordered(b, l) { assert Ordered(a, l); }
    forall l | l in b.waits ensures Waiting(b, l, done, pending) { assert Waiting(a, l, done, pending); }
    forall j | j in b.free ensures Reusable(b, j) { assert Reusable(a, j); }
    forall l | l in b.handed ensures Known(b, l, done) { assert Known(a, l, done); }
  }

  /** The counters and lost pages of one segment change, not its kind. */
  lemma EditKeepsMapped(a: Accounts, b: Accounts, i: nat, s: Segment, done: int, pending: set<nat>)
    requires Mapped(a, done, pending) && i < |a.segments|
             && b == a.(segments := a.segments[i := s], book := b.book, gone := b.gone)
    requires var o := State(a, i);
      && !o.Free? && !s.Free? && s.lsn == o.lsn && (s.latest == o.latest || s.latest in a.handed)
      && (o.Active? <==> s.Active?) && (o.Draining? <==> s.Draining?) && (s.Active? ==> s.canFree == o.canFree)
    requires Bounded(Gone(b, i), s.latest) && forall j: nat {:trigger Gone(b, j)} :: j != i ==> Gone(b, j) == Gone(a, j)
    ensures Mapped(b, done, pending)
  {
    assert Placed(a, i, done);
    forall j: nat ensures Placed(b, j, done) { assert Placed(a, j, done); }
    forall l | l in b.ordering ensures Ordered(b, l) { assert Ordered(a, l); }
    forall l | l in b.waits ensures Waiting(b, l, done, pending) { assert Waiting(a, l, done, pending); }
    forall j | j in b.free ensures Reusable(b, j) { assert Reusable(a, j); }
    forall l | l in b.handed ensures Known(b, l, done) { assert Known(a, l, done); }
  }

  lemma LinkedTallied(a: Accounts, pid: PageId, i: nat, size: nat)
    requires Tallied(a) && State(a, i).Active? && (pid in a.last ==> a.last[pid] <= State(a, i).lsn)
    ensures Tallied(Linked(a, pid, i, size))
  {
    var b := Linked(a, pid, i, size);
    LaterUpdate(a.last, pid, State(a, i).lsn);
    forall j: nat ensures Counted(b, j) {
      assert Counted(a, j);
      if j == i {
        ComesFits(State(a, i), BookAt(a, i), pid, size, a.last, b.last, a.handed);
      } else {
        FitsLater(State(a, j), BookAt(a, j), a.last, b.last, a.handed, b.handed);
      }
    }
  }

  lemma LinkedKeeps(a: Accounts, pid: PageId, i: nat, size: nat, done: int, pending: set<nat>)
    requires Good(a, done, pending) && State(a, i).Active? && (pid in a.last ==> a.last[pid] <= State(a, i).lsn)
    ensures Good(Linked(a, pid, i, size), done, pending)
  {
    LinkedTallied(a, pid, i, size);
    SameMapped(a, Linked(a, pid, i, size), done, pending);
  }

  /** No other segment has the LSN of segment i. */
  lemma OwnLsn(a: Accounts, i: nat, j: nat, done: int, pending: set<nat>)
    requires Mapped(a, done, pending) && !State(a, i).Free? && !State(a, j).Free? && i != j
    ensures State(a, i).lsn != State(a, j).lsn
  {
    assert Placed(a, i, done) && Placed(a, j, done);
  }

  lemma LsnIsHanded(a: Accounts, i: nat, done: int, pending: set<nat>)
    requires Mapped(a, done, pending) && !State(a, i).Free?
    ensures State(a, i).lsn in a.handed
  {
    assert Placed(a, i, done) && Ordered(a, State(a, i).lsn);
  }

  lemma ReplacedFits(a: Accounts, pid: PageId, i: nat, size: nat, j: nat, last': map<PageId, nat>, done: int,
                     pending: set<nat>)
    requires Mapped(a, done, pending) && Counted(a, j) && State(a, i).Active?
             && (pid in a.last ==> a.last[pid] <= State(a, i).lsn)
    requires last' == a.last[pid := State(a, i).lsn]
    ensures Fits(State(a, j), ReplacedAt(a, pid, i, size, j), last', a.handed)
  {
    var s, t, lsn := State(a, j), BookAt(a, j), State(a, i).lsn;
    LsnIsHanded(a, i, done, pending);
    FitsLater(s, t, a.last, last', a.handed, a.handed);
    if j != i {
      if !s.Free? && pid in t.live {
        OwnLsn(a, i, j, done, pending);
        LeavesFits(s, t, pid, lsn, a.last, last', a.handed);
      }
    } else if pid in t.live {
      StaysFits(s, t, pid, size, a.last, last', a.handed);
    } else {
      ComesFits(s, t, pid, size, a.last, last', a.handed);
    }
  }

  lemma ReplacedKeeps(a: Accounts, pid: PageId, i: nat, size: nat, done: int, pending: set<nat>)
    requires Good(a, done, pending) && State(a, i).Active? && (pid in a.last ==> a.last[pid] <= State(a, i).lsn)
    ensures Good(Replaced(a, pid, i, size), done, pending)
  {
    var b := Replaced(a, pid, i, size);
    forall j: nat ensures Counted(b, j) {
      assert Counted(a, j);
      ReplacedFits(a, pid, i, size, j, b.last, done, pending);
      assert BookAt(b, j) == ReplacedAt(a, pid, i, size, j);
    }
    SameMapped(a, b, done, pending);
  }

  lemma ToldLinkTallied(a: Accounts, i: nat, part: Part)
    requires Tallied(a) && part in BookAt(a, i).links
    ensures State(a, i).Active? && part.r == State(a, i).lsn && Tallied(ToldLink(a, i, part))
  {
    assert Counted(a, i);
    InsertedFits(State(a, i), BookAt(a, i), part, a.last, a.handed);
    var b := ToldLink(a, i, part);
    TalliedAfter(a, b, i, State(b, i), BookAt(b, i));
  }

  lemma ToldLinkKeeps(a: Accounts, i: nat, part: Part, done: int, pending: set<nat>)
    requires Good(a, done, pending) && part in BookAt(a, i).links
    ensures State(a, i).Active? && part.r == State(a, i).lsn && Good(ToldLink(a, i, part), done, pending)
  {
    ToldLinkTallied(a, i, part);
    assert Placed(a, i, done);
    var b := ToldLink(a, i, part);
    EditKeepsMapped(a, b, i, b.segments[i], done, pending);
  }

  lemma ToldRemovalTallied(a: Accounts, i: nat, part: Part)
    requires Tallied(a) && part in BookAt(a, i).removals
    ensures !State(a, i).Free? && (State(a, i).Inactive? ==> part.size <= State(a, i).rss) && State(a, i).lsn <= part.r
    ensures part.r in a.handed && Tallied(ToldRemoval(a, i, part))
  {
    assert Counted(a, i);
    RemovedFits(State(a, i), BookAt(a, i), part, a.last, a.handed);
    var b := ToldRemoval(a, i, part);
    TalliedAfter(a, b, i, State(b, i), BookAt(b, i));
  }

  /** The counters can be told of a removal at any time and in any order. */
  lemma ToldRemovalKeeps(a: Accounts, i: nat, part: Part, done: int, pending: set<nat>)
    requires Good(a, done, pending) && part in BookAt(a, i).removals
    ensures !State(a, i).Free? && (State(a, i).Inactive? ==> part.size <= State(a, i).rss) && State(a, i).lsn <= part.r
    ensures Good(ToldRemoval(a, i, part), done, pending)
  {
    ToldRemovalTallied(a, i, part);
    assert Placed(a, i, done);
    var b := ToldRemoval(a, i, part);
    EditKeepsMapped(a, b, i, b.segments[i], done, pending);
  }

  lemma DrainKeeps(a: Accounts, i: nat, done: int, pending: set<nat>)
    requires Good(a, done, pending) && State(a, i).Inactive?
    ensures Good(Drain(a, i), done, pending) && i !in a.cleaner && State(a, i).lsn <= done
  {
    assert Counted(a, i) && Placed(a, i, done);
    DrainedFits(State(a, i), BookAt(a, i), a.last, a.handed);
    TalliedAfter(a, Drain(a, i), i, Drained(State(a, i)), BookAt(a, i));
    DrainKeepsMapped(a, i, done, pending);
  }

  lemma DrainKeepsMapped(a: Accounts, i: nat, done: int, pending: set<nat>)
    requires Mapped(a, done, pending) && State(a, i).Inactive?
    ensures Mapped(Drain(a, i), done, pending)
  {
    var b := Drain(a, i);
    assert Placed(a, i, done);
    forall j: nat ensures Placed(b, j, done) { assert Placed(a, j, done); }
    forall l | l in b.ordering ensures Ordered(b, l) { assert Ordered(a, l); }
    forall l | l in b.waits ensures Waiting(b, l, done, pending) { assert Waiting(a, l, done, pending); }
    forall j | j in b.free ensures Reusable(b, j) { assert Reusable(a, j); }
    forall l | l in b.handed ensures Known(b, l, done) { assert Known(a, l, done); }
  }

  /** A draining segment whose pages are all replaced is empty, and nothing is still to be
      applied to it. */
  lemma EmptySegment(a: Accounts, i: nat, done: int, pending: set<nat>)
    requires Good(a, done, pending) && CanFree(State(a, i))
    ensures BookAt(a, i) == NOTHING && i < a.tip && i !in a.free && Bounded(Gone(a, i), State(a, i).latest)
    ensures var l := State(a, i).lsn; l <= done && l in a.ordering && a.ordering[l] == i && l !in a.waits
  {
    assert Counted(a, i) && Placed(a, i, done);
    FreeableIsEmpty(State(a, i), BookAt(a, i));
  }

  /** The latest replacement is stable when its segment is no longer active. */
  lemma ReplacementIsStable(a: Accounts, i: nat, done: int, pending: set<nat>)
    requires Mapped(a, done, pending) && CanFree(State(a, i))
    requires var r := State(a, i).latest; r !in a.ordering || !State(a, a.ordering[r]).Active?
    ensures State(a, i).latest <= done
  {
    var r := State(a, i).latest;
    assert Placed(a, i, done);
    if r in a.handed {
      assert Known(a, r, done);
      if r in a.ordering {
        assert Ordered(a, r) && Placed(a, a.ordering[r], done);
        if r in a.waits { assert Waiting(a, r, done, pending); }
      }
    }
  }

  /** An emptied segment waits for the active segment k. */
  lemma DeferKeeps(a: Accounts, i: nat, k: nat, done: int, pending: set<nat>)
    requires Good(a, done, pending) && CanFree(State(a, i))
    requires State(a, k).Active? && State(a, k).lsn == State(a, i).latest
    ensures Good(Defer(a, i, k), done, pending)
  {
    EmptiedTallied(a, i);
    DeferTallied(a, i, k);
    DeferKeepsMapped(a, i, k, done, pending);
  }

  lemma EmptiedTallied(a: Accounts, i: nat)
    requires Tallied(a) && CanFree(State(a, i))
    ensures BookAt(a, i) == NOTHING && Tallied(Emptied(a, i))
  {
    assert Counted(a, i);
    FreeableIsEmpty(State(a, i), BookAt(a, i));
    FreeFits(Some(State(a, i).lsn), a.last, a.handed);
    TalliedAfter(a, Emptied(a, i), i, Free(Some(State(a, i).lsn)), NOTHING);
  }

  lemma DeferTallied(a: Accounts, i: nat, k: nat)
    requires State(a, i).Draining? && Tallied(Emptied(a, i)) && State(a, k).Active?
    ensures Tallied(Defer(a, i, k))
  {
    var b, c := Emptied(a, i), Defer(a, i, k);
    assert Counted(b, k);
    CanFreeFits(State(b, k), BookAt(b, k), State(c, k).canFree, b.last, b.handed);
    TalliedAfter(b, c, k, State(c, k), BookAt(b, k));
  }

  lemma DeferPlaces(a: Accounts, i: nat, k: nat, done: int, pending: set<nat>, j: nat)
    requires Mapped(a, done, pending) && State(a, i).Draining?
    requires State(a, k).Active? && State(a, k).lsn == State(a, i).latest
    ensures Placed(Defer(a, i, k), j, done)
  {
    assert Placed(a, k, done) && Placed(a, i, done) && Placed(a, j, done);
  }

  lemma DeferKeepsMapped(a: Accounts, i: nat, k: nat, done: int, pending: set<nat>)
    requires Mapped(a, done, pending) && State(a, i).Draining?
    requires State(a, k).Active? && State(a, k).lsn == State(a, i).latest
    ensures Mapped(Defer(a, i, k), done, pending)
  {
    var b := Defer(a, i, k);
    forall j: nat ensures Placed(b, j, done) { DeferPlaces(a, i, k, done, pending, j); }
    assert Placed(a, k, done) && Placed(a, i, done);
    forall l | l in b.ordering ensures Ordered(b, l) { assert Ordered(a, l); }
    forall l | l in b.waits ensures Waiting(b, l, done, pending) {
      assert l in a.waits ==> Waiting(a, l, done, pending);
    }
    forall j | j in b.free ensures Reusable(b, j) { assert Reusable(a, j); }
    forall l | l in b.handed ensures Known(b, l, done) { assert Known(a, l, done); }
  }

  /** An emptied segment whose latest replacement is stable may wait for nothing. */
  lemma EmptiedKeeps(a: Accounts, i: nat, done: int, pending: set<nat>)
    requires Good(a, done, pending) && CanFree(State(a, i)) && State(a, i).latest <= done
    ensures var s := State(a, i); Good(Emptied(a, i).(waits := a.waits[s.lsn := s.latest]), done, pending + {s.lsn})
  {
    EmptiedTallied(a, i);
    SameTallied(Emptied(a, i), Emptied(a, i).(waits := a.waits[State(a, i).lsn := State(a, i).latest]));
    EmptiedKeepsMapped(a, i, done, pending);
  }

  lemma EmptiedKeepsMapped(a: Accounts, i: nat, done: int, pending: set<nat>)
    requires Mapped(a, done, pending) && State(a, i).Draining? && State(a, i).latest <= done
    ensures var s := State(a, i); Mapped(Emptied(a, i).(waits := a.waits[s.lsn := s.latest]), done, pending + {s.lsn})
  {
    var s := State(a, i);
    var b := Emptied(a, i).(waits := a.waits[s.lsn := s.latest]);
    assert Placed(a, i, done);
    forall j: nat ensures Placed(b, j, done) { assert Placed(a, j, done); }
    forall l | l in b.ordering ensures Ordered(b, l) { assert Ordered(a, l); }
    forall l | l in b.waits ensures Waiting(b, l, done, pending + {s.lsn}) {
      assert l in a.waits ==> Waiting(a, l, done, pending);
    }
    forall j | j in b.free ensures Reusable(b, j) { assert Reusable(a, j); }
    forall l | l in b.handed ensures Known(b, l, done) { assert Known(a, l, done); }
  }

  /** A segment whose turn has come. */
  lemma WaiterIsEmpty(a: Accounts, l: nat, done: int, pending: set<nat>)
    requires Good(a, done, pending) && l in pending
    ensures l in a.waits && l in a.ordering && l <= done && a.waits[l] <= done
    ensures var i := a.ordering[l];
      State(a, i) == Free(Some(l)) && i < a.tip && i !in a.free && BookAt(a, i) == NOTHING
          && Bounded(Gone(a, i), a.waits[l])
  {
    assert Waiting(a, l, done, pending) && Ordered(a, l) && Counted(a, a.ordering[l]);
  }

  lemma FreedKeeps(a: Accounts, l: nat, done: int, pending: set<nat>)
    requires Good(a, done, pending) && l in pending && l in a.ordering && State(a, a.ordering[l]) == Free(Some(l))
    ensures Good(Freed(a, a.ordering[l]), done, pending - {l})
  {
    var b := Freed(a, a.ordering[l]);
    forall j: nat ensures Counted(b, j) { assert Counted(a, j); }
    WaiterIsEmpty(a, l, done, pending);
    FreedKeepsMapped(a, l, done, pending);
  }

  lemma FreedKeepsMapped(a: Accounts, l: nat, done: int, pending: set<nat>)
    requires Mapped(a, done, pending) && l in pending && l in a.ordering && State(a, a.ordering[l]) == Free(Some(l))
    requires l in a.waits && Bounded(Gone(a, a.ordering[l]), a.waits[l]) && a.waits[l] <= done
    ensures Mapped(Freed(a, a.ordering[l]), done, pending - {l})
  {
    var i := a.ordering[l];
    var b := Freed(a, i);
    assert Ordered(a, l) && Waiting(a, l, done, pending);
    forall j: nat ensures Placed(b, j, done) { assert Placed(a, j, done); }
    forall m | m in b.ordering ensures Ordered(b, m) { assert Ordered(a, m); }
    forall m | m in b.waits ensures Waiting(b, m, done, pending - {l}) { assert Waiting(a, m, done, pending); }
    forall j | j in b.free ensures Reusable(b, j) { assert j != i ==> Reusable(a, j); }
    forall m | m in b.handed ensures Known(b, m, done) { assert Known(a, m, done); }
  }

  lemma ReleaseKeeps(a: Accounts, i: nat, done: int, pending: set<nat>)
    requires Good(a, done, pending) && CanFree(State(a, i)) && State(a, i).latest <= done
    ensures Good(Release(a, i), done, pending)
  {
    var l := State(a, i).lsn;
    EmptySegment(a, i, done, pending);
    EmptiedKeeps(a, i, done, pending);
    var b := Emptied(a, i).(waits := a.waits[l := State(a, i).latest]);
    FreedKeeps(b, l, done, pending + {l});
    assert b.waits - {l} == a.waits && pending + {l} - {l} == pending;
    assert Freed(b, i) == Release(a, i);
  }

  /** Truncation drops exactly the free segments at the end of the file, but keeps the last
      free segment. */
  lemma {:induction false} CutEffect(free: set<nat>, tip: nat)
    ensures var (free', tip') := Cut(free, tip);
      && free' <= free && tip' <= tip
      && (forall i: nat :: i in free && i !in free' <==> tip' <= i < tip)
      && (free != {} ==> free' != {})
      && (tip' == 0 || |free'| <= 1 || tip' - 1 !in free')
    decreases tip
  {
    if tip != 0 && |free| > 1 && tip - 1 in free { CutEffect(free - {tip - 1}, tip - 1); }
  }

  lemma CutKeeps(a: Accounts, b: Accounts, done: int, pending: set<nat>)
    requires Mapped(a, done, pending) && a.tip > 0 && a.tip - 1 in a.free
    requires b == a.(free := a.free - {a.tip - 1}, tip := a.tip - 1)
    ensures Mapped(b, done, pending)
  {
    assert Reusable(a, a.tip - 1);
    forall j: nat ensures Placed(b, j, done) { assert Placed(a, j, done); }
    forall l | l in b.ordering ensures Ordered(b, l) { assert Ordered(a, l); }
    forall l | l in b.waits ensures Waiting(b, l, done, pending) { assert Waiting(a, l, done, pending); }
    forall j | j in b.free ensures Reusable(b, j) { assert Reusable(a, j); }
    forall l | l in b.handed ensures Known(b, l, done) { assert Known(a, l, done); }
  }

  lemma {:induction false} ShrunkKeepsMapped(a: Accounts, done: int, pending: set<nat>)
    requires Mapped(a, done, pending)
    ensures Mapped(Shrunk(a), done, pending)
    decreases a.tip
  {
    if a.tip != 0 && |a.free| > 1 && a.tip - 1 in a.free {
      var b := a.(free := a.free - {a.tip - 1}, tip := a.tip - 1);
      CutKeeps(a, b, done, pending);
      ShrunkKeepsMapped(b, done, pending);
      assert Shrunk(a) == Shrunk(b);
    }
  }

  lemma ShrunkKeeps(a: Accounts, done: int, pending: set<nat>)
    requires Good(a, done, pending)
    ensures Good(Shrunk(a), done, pending)
  {
    SameTallied(a, Shrunk(a));
    ShrunkKeepsMapped(a, done, pending);
  }

  ghost predicate Above(t: Tally, l: int) {
    (forall p :: p in t.links ==> l < p.r) && (forall p :: p in t.removals ==> l < p.r)
  }

  /** Every operation that the accountant has not been told of puts its page above LSN l. A
      thread completes its reservation only after it has reported, so the log is not stable
      where an operation is unreported. */
  ghost predicate OpenAbove(a: Accounts, l: int) {
    forall i {:trigger BookAt(a, i)} :: 0 <= i ==> Above(BookAt(a, i), l)
  }

  lemma OpenFewer(a: Accounts, b: Accounts, l: int)
    requires OpenAbove(a, l)
    requires forall i: nat {:trigger BookAt(b, i)} ::
      BookAt(b, i).links <= BookAt(a, i).links && BookAt(b, i).removals <= BookAt(a, i).removals
    ensures OpenAbove(b, l)
  {
    forall i: nat ensures Above(BookAt(b, i), l) { assert Above(BookAt(a, i), l); }
  }

  /** The stable LSN rises past no open operation, so a segment below it is closed. */
  lemma OpenIsClosed(a: Accounts, i: nat, l: int)
    requires Tallied(a) && OpenAbove(a, l) && State(a, i).Active? && State(a, i).lsn <= l
    ensures Closed(BookAt(a, i), State(a, i).lsn)
  {
    assert Counted(a, i) && Above(BookAt(a, i), l);
    if p :| p in BookAt(a, i).links {
      assert false;
    }
  }

  lemma OpenLinked(a: Accounts, pid: PageId, i: nat, size: nat, l: int)
    requires OpenAbove(a, l) && State(a, i).Active? && l < State(a, i).lsn
    ensures OpenAbove(Linked(a, pid, i, size), l)
  {
    var b := Linked(a, pid, i, size);
    var t := Comes(BookAt(a, i), Part(pid, State(a, i).lsn, size));
    assert Above(BookAt(a, i), l);
    ComesAbove(BookAt(a, i), Part(pid, State(a, i).lsn, size), l);
    forall j: nat ensures Above(BookAt(b, j), l) {
      assert BookAt(b, j) == if j == i then t else BookAt(a, j);
      assert j != i ==> Above(BookAt(a, j), l);
    }
  }

  lemma ComesAbove(t: Tally, part: Part, l: int)
    requires Above(t, l) && l < part.r
    ensures Above(Comes(t, part), l)
  {
  }

  lemma VacatedAbove(s: Segment, t: Tally, pid: PageId, lsn: nat, l: int)
    requires Above(t, l) && l < lsn
    ensures Above(Vacated(s, t, pid, lsn), l)
  {
  }

  lemma ReplacedAbove(a: Accounts, pid: PageId, i: nat, size: nat, j: nat, l: int)
    requires Above(BookAt(a, j), l) && State(a, i).Active? && l < State(a, i).lsn
    ensures Above(ReplacedAt(a, pid, i, size, j), l)
  {
    var lsn := State(a, i).lsn;
    VacatedAbove(State(a, j), BookAt(a, j), pid, lsn, l);
    ComesAbove(Vacated(State(a, j), BookAt(a, j), pid, lsn), Part(pid, lsn, size), l);
  }

  lemma OpenReplaced(a: Accounts, pid: PageId, i: nat, size: nat, l: int)
    requires OpenAbove(a, l) && State(a, i).Active? && l < State(a, i).lsn
    ensures OpenAbove(Replaced(a, pid, i, size), l)
  {
    var b := Replaced(a, pid, i, size);
    forall j: nat ensures Above(BookAt(b, j), l) {
      assert Above(BookAt(a, j), l);
      ReplacedAbove(a, pid, i, size, j, l);
    }
  }

  lemma DeactivateKeeps(a: Accounts, i: nat, done: int)
    requires Good(a, done, {}) && State(a, i).Active? && State(a, i).lsn <= a.maxStabilized
    requires Closed(BookAt(a, i), State(a, i).lsn)
    requires forall l :: l in a.ordering && done < l ==> State(a, i).lsn <= l
    ensures State(a, i).deferredRss <= State(a, i).rss
    ensures Good(Deactivate(a, i), State(a, i).lsn, State(a, i).canFree)
  {
    assert Counted(a, i);
    DeactivatedFits(State(a, i), BookAt(a, i), a.last, a.handed);
    TalliedAfter(a, Deactivate(a, i), i, Deactivated(State(a, i)), BookAt(a, i));
    DeactivateKeepsMapped(a, i, done);
  }

  lemma DeactivateKeepsMapped(a: Accounts, i: nat, done: int)
    requires Mapped(a, done, {}) && State(a, i).Active? && State(a, i).deferredRss <= State(a, i).rss
    requires State(a, i).lsn <= a.maxStabilized
    requires forall l :: l in a.ordering && done < l ==> State(a, i).lsn <= l
    ensures Mapped(Deactivate(a, i), State(a, i).lsn, State(a, i).canFree)
  {
    var b := Deactivate(a, i);
    var done', pending := State(a, i).lsn, State(a, i).canFree;
    assert Placed(a, i, done);
    forall j: nat ensures Placed(b, j, done') { assert Placed(a, j, done); }
    forall l | l in b.ordering ensures Ordered(b, l) { assert Ordered(a, l); }
    forall l | l in b.waits ensures Waiting(b, l, done', pending) { assert Waiting(a, l, done, {}); }
    forall j | j in b.free ensures Reusable(b, j) { assert Reusable(a, j); }
    forall l | l in b.handed ensures Known(b, l, done') { assert Known(a, l, done); }
  }

  /** `next` hands out space that holds no page, all of whose lost pages have a stable
      replacement, and that lies no higher than the LSN. */
  lemma TakeKeeps(a: Accounts, i: nat, lsn: nat, done: int)
    requires Good(a, done, {}) && done < lsn && a.bound <= lsn
    requires i in a.free || i == a.tip
    ensures State(a, i).Free? && BookAt(a, i) == NOTHING && Bounded(Gone(a, i), a.maxStabilized) && i <= lsn
    ensures Good(Take(a, i, lsn), done, {})
  {
    FreeIsEmpty(a, i, lsn, done);
    TakeTallied(a, i, lsn);
    TakeKeepsMapped(a, i, lsn, done);
  }

  lemma FreeIsEmpty(a: Accounts, i: nat, lsn: nat, done: int)
    requires Good(a, done, {}) && done < lsn && a.bound <= lsn
    requires i in a.free || i == a.tip
    ensures State(a, i).Free? && BookAt(a, i) == NOTHING && Bounded(Gone(a, i), a.maxStabilized) && i <= lsn
  {
    assert Placed(a, i, done) && (i in a.free ==> Reusable(a, i));
    NewIsApart(a, i, lsn, done);
    assert Counted(a, i);
  }

  lemma TakeTallied(a: Accounts, i: nat, lsn: nat)
    requires Tallied(a) && State(a, i).Free? && BookAt(a, i) == NOTHING
    ensures Tallied(Take(a, i, lsn))
    ensures forall j: nat {:trigger State(Take(a, i, lsn), j)} :: j != i ==> State(Take(a, i, lsn), j) == State(a, j)
  {
    var b := Take(a, i, lsn);
    forall j: nat ensures Counted(b, j) {
      if j == i {
        NewFits(lsn, b.last, b.handed);
      } else {
        assert Counted(a, j) && State(b, j) == State(a, j);
        FitsLater(State(a, j), BookAt(a, j), a.last, b.last, a.handed, b.handed);
      }
    }
  }

  lemma NewIsApart(a: Accounts, i: nat, lsn: nat, done: int)
    requires Mapped(a, done, {}) && done < lsn && a.bound <= lsn && State(a, i).Free?
    requires i in a.free || i == a.tip
    ensures lsn !in a.ordering && lsn !in a.waits && i !in a.cleaner && i <= a.tip && a.tip !in a.free
    ensures forall l :: l in a.ordering ==> a.ordering[l] != i
  {
    assert lsn in a.ordering ==> Ordered(a, lsn) && Known(a, lsn, done);
    assert lsn in a.waits ==> Waiting(a, lsn, done, {});
    assert i in a.free ==> Reusable(a, i);
    assert a.tip in a.free ==> Reusable(a, a.tip);
    assert Placed(a, i, done);
    forall l | l in a.ordering ensures a.ordering[l] != i { assert Ordered(a, l); }
  }

  lemma TakeKeepsWaits(a: Accounts, i: nat, lsn: nat, done: int)
    requires Mapped(a, done, {}) && done < lsn && a.bound <= lsn && State(a, i).Free?
    requires i in a.free || i == a.tip
    requires forall j: nat {:trigger State(Take(a, i, lsn), j)} :: j != i ==> State(Take(a, i, lsn), j) == State(a, j)
    ensures var b := Take(a, i, lsn);
      && (forall l {:trigger Waiting(b, l, done, {})} :: l in b.waits ==> Waiting(b, l, done, {}))
      && (forall j {:trigger Reusable(b, j)} :: j in b.free ==> Reusable(b, j))
  {
    var b := Take(a, i, lsn);
    NewIsApart(a, i, lsn, done);
    forall l | l in b.waits ensures Waiting(b, l, done, {}) {
      assert Waiting(a, l, done, {}) && Ordered(a, a.waits[l]);
    }
    forall j | j in b.free ensures Reusable(b, j) { assert Reusable(a, j); }
  }

  lemma TakeKeepsMapped(a: Accounts, i: nat, lsn: nat, done: int)
    requires Mapped(a, done, {}) && done < lsn && a.bound <= lsn && State(a, i).Free?
    requires i in a.free || i == a.tip
    requires forall j: nat {:trigger State(Take(a, i, lsn), j)} :: j != i ==> State(Take(a, i, lsn), j) == State(a, j)
    ensures Mapped(Take(a, i, lsn), done, {})
  {
    var b := Take(a, i, lsn);
    NewIsApart(a, i, lsn, done);
    TakeKeepsWaits(a, i, lsn, done);
    forall j: nat ensures Placed(b, j, done) { assert Placed(a, j, done); }
    forall l | l in b.ordering ensures Ordered(b, l) { assert l != lsn ==> Ordered(a, l); }
    forall l | l in b.handed ensures Known(b, l, done) { assert l != lsn ==> Known(a, l, done); }
  }

  /** Raising the stable LSN. */
  lemma StabilizedKeeps(a: Accounts, done: int, stable: int)
    requires Good(a, done, {}) && a.maxStabilized <= stable
    ensures Good(a.(maxStabilized := stable), done, {})
  {
    var b := a.(maxStabilized := stable);
    forall j: nat ensures Counted(b, j) { assert Counted(a, j); }
    forall j: nat ensures Placed(b, j, done) { assert Placed(a, j, done); }
    forall l | l in b.ordering ensures Ordered(b, l) { assert Ordered(a, l); }
    forall l | l in b.waits ensures Waiting(b, l, done, {}) { assert Waiting(a, l, done, {}); }
    forall j | j in b.free ensures Reusable(b, j) { assert Reusable(a, j); }
    forall l | l in b.handed ensures Known(b, l, done) { assert Known(a, l, done); }
  }

  /** No segment has an LSN above `done` up to `stable`. */
  lemma AdvanceKeeps(a: Accounts, done: int, stable: int)
    requires Good(a, done, {}) && done <= stable <= a.maxStabilized
    requires forall l :: l in a.ordering ==> l <= done || stable < l
    ensures Good(a, stable, {})
  {
    forall j: nat ensures Placed(a, j, stable) { assert Placed(a, j, done); }
    forall l | l in a.waits ensures Waiting(a, l, stable, {}) { assert Waiting(a, l, done, {}); }
    forall l | l in a.handed ensures Known(a, l, stable) { assert Known(a, l, done); }
  }

  // ---------------------------------------------------------------------------------
  // Cleaning
  // ---------------------------------------------------------------------------------

  const CLEANUP_THRESHOLD: nat := 50

  /** The first half of `possibly_clean_or_free_segment`: drain a segment that is half empty. */
  function Thinned(a: Accounts, i: nat, segmentSize: nat): Accounts
    requires segmentSize > 0
  {
    if State(a, i).Inactive? && State(a, i).rss * 100 / segmentSize <= CLEANUP_THRESHOLD then Drain(a, i) else a
  }

  /** The second half: free a segment that is empty, now or when its latest replacement is stable. */
  function Collected(a: Accounts, i: nat): Accounts {
    if !CanFree(State(a, i)) then a else
    var r := State(a, i).latest;
    if r in a.ordering && State(a, a.ordering[r]).Active? then Defer(a, i, a.ordering[r]) else Shrunk(Release(a, i))
  }

  function Cleaned(a: Accounts, i: nat, segmentSize: nat): Accounts
    requires segmentSize > 0
  {
    Collected(Thinned(a, i, segmentSize), i)
  }

  /** No page moves, no segment becomes or stops being active, and none is given a new LSN. */
  ghost predicate Follows(a: Accounts, b: Accounts) {
    && b.book == a.book && b.last == a.last && b.gone == a.gone && b.handed == a.handed && b.bound == a.bound
    && b.maxStabilized == a.maxStabilized && |b.segments| == |a.segments|
    && (forall i {:trigger State(b, i)} :: 0 <= i ==> Stays(State(a, i), State(b, i)))
  }

  ghost predicate Stays(s: Segment, t: Segment) {
    && (s.Active? <==> t.Active?)
    && (!t.Free? ==> !s.Free? && t.lsn == s.lsn)
    && (s.Active? ==> t == s.(canFree := t.canFree))
  }

  lemma CollectedKeeps(a: Accounts, i: nat, done: int, pending: set<nat>)
    requires Good(a, done, pending)
    ensures Good(Collected(a, i), done, pending)
  {
    if CanFree(State(a, i)) {
      var r := State(a, i).latest;
      if r in a.ordering && State(a, a.ordering[r]).Active? {
        assert Ordered(a, r);
        DeferKeeps(a, i, a.ordering[r], done, pending);
      } else {
        ReplacementIsStable(a, i, done, pending);
        ReleaseKeeps(a, i, done, pending);
        ShrunkKeeps(Release(a, i), done, pending);
      }
    }
  }

  lemma ThinnedKeeps(a: Accounts, i: nat, segmentSize: nat, done: int, pending: set<nat>)
    requires segmentSize > 0 && Good(a, done, pending)
    ensures Good(Thinned(a, i, segmentSize), done, pending)
  {
    if Thinned(a, i, segmentSize) != a { DrainKeeps(a, i, done, pending); }
  }

  lemma CleanedKeeps(a: Accounts, i: nat, segmentSize: nat, done: int, pending: set<nat>)
    requires segmentSize > 0 && Good(a, done, pending)
    ensures Good(Cleaned(a, i, segmentSize), done, pending)
  {
    ThinnedKeeps(a, i, segmentSize, done, pending);
    CollectedKeeps(Thinned(a, i, segmentSize), i, done, pending);
  }

  lemma FollowsTransitive(a: Accounts, b: Accounts, c: Accounts)
    requires Follows(a, b) && Follows(b, c)
    ensures Follows(a, c)
  {
    forall i: nat ensures Stays(State(a, i), State(c, i)) {
      assert Stays(State(a, i), State(b, i)) && Stays(State(b, i), State(c, i));
    }
  }

  lemma DeferFollows(a: Accounts, i: nat, k: nat)
    requires State(a, i).Draining? && State(a, k).Active?
    ensures Follows(a, Defer(a, i, k))
  {
    var b := Defer(a, i, k);
    forall j: nat ensures Stays(State(a, j), State(b, j)) {}
  }

  lemma ReleaseFollows(a: Accounts, i: nat)
    requires State(a, i).Draining?
    ensures Follows(a, Shrunk(Release(a, i)))
  {
    var b := Release(a, i);
    assert Shrunk(b).segments == b.segments;
    forall j: nat ensures Stays(State(a, j), State(Shrunk(b), j)) { assert State(Shrunk(b), j) == State(b, j); }
  }

  lemma CollectedFollows(a: Accounts, i: nat)
    ensures Follows(a, Collected(a, i))
  {
    if CanFree(State(a, i)) {
      var r := State(a, i).latest;
      if r in a.ordering && State(a, a.ordering[r]).Active? {
        DeferFollows(a, i, a.ordering[r]);
      } else {
        ReleaseFollows(a, i);
      }
    }
  }

  lemma CleanedFollows(a: Accounts, i: nat, segmentSize: nat)
    requires segmentSize > 0
    ensures Follows(a, Cleaned(a, i, segmentSize))
  {
    var b := Thinned(a, i, segmentSize);
    forall j: nat ensures Stays(State(a, j), State(b, j)) {}
    CollectedFollows(b, i);
    FollowsTransitive(a, b, Collected(b, i));
  }
}
