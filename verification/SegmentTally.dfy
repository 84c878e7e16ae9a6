/** One segment: its counters, the pages that really live in it, and the link and replace
    operations that the accountant has not been told of yet. */
module SegmentTally {
  import opened Base

  /** The life cycle of a segment. */
  datatype Segment =
    | Free(previous: Option<nat>)
    | Active(lsn: nat, rss: nat, deferredRss: nat, deferred: set<PageId>, pids: set<PageId>, latest: nat,
             canFree: set<nat>)
    | Inactive(lsn: nat, rss: nat, maxPids: nat, replaced: nat, pids: set<PageId>, latest: nat)
    | Draining(lsn: nat, maxPids: nat, replaced: nat, latest: nat)

  /** One page's part in an operation on a segment: bytes that came or went, and the segment LSN
      of the page's new fragment. */
  datatype Part = Part(pid: PageId, r: nat, size: nat)

  /** What is true of a segment: the bytes of the pages that live in it, and the parts of
      operations that are still to be applied to its counters. */
  datatype Tally = Tally(live: map<PageId, nat>, links: multiset<Part>, removals: multiset<Part>)

  const NOTHING := Tally(map[], multiset{}, multiset{})

  function Max(x: nat, y: nat): nat {
    if x < y then y else x
  }

  // ---------------------------------------------------------------------------------
  // Sums
  // ---------------------------------------------------------------------------------

  ghost function Total(m: map<PageId, nat>): nat {
    if m == map[] then 0 else
    var p: PageId :| p in m;
    m[p] + Total(m - {p})
  }

  lemma {:induction false} TotalWithout(m: map<PageId, nat>, p: PageId)
    requires p in m
    ensures Total(m) == m[p] + Total(m - {p})
    decreases |m|
  {
    var q: PageId :| q in m && Total(m) == m[q] + Total(m - {q});
    if q != p {
      TotalWithout(m - {q}, p);
      TotalWithout(m - {p}, q);
      assert m - {q} - {p} == m - {p} - {q};
    }
  }

  lemma TotalUpdate(m: map<PageId, nat>, p: PageId, n: nat)
    ensures Total(m[p := n]) == n + Total(m - {p})
  {
    TotalWithout(m[p := n], p);
    assert m[p := n] - {p} == m - {p};
  }

  ghost function Sum(ps: multiset<Part>): nat
    decreases |ps|
  {
    if ps == multiset{} then 0 else
    var p :| p in ps;
    p.size + Sum(ps - multiset{p})
  }

  lemma {:induction false} SumWithout(ps: multiset<Part>, p: Part)
    requires p in ps
    ensures Sum(ps) == p.size + Sum(ps - multiset{p})
    decreases |ps|
  {
    var q :| q in ps && Sum(ps) == q.size + Sum(ps - multiset{q});
    if q != p {
      SumWithout(ps - multiset{q}, p);
      SumWithout(ps - multiset{p}, q);
      assert ps - multiset{q} - multiset{p} == ps - multiset{p} - multiset{q};
    }
  }

  lemma SumMore(ps: multiset<Part>, p: Part)
    ensures Sum(ps + multiset{p}) == Sum(ps) + p.size
  {
    SumWithout(ps + multiset{p}, p);
    assert ps + multiset{p} - multiset{p} == ps;
  }

  lemma Swap(a: set<PageId>, b: set<PageId>, c: set<PageId>)
    ensures a + (b + c) == b + (a + c)
  {
  }

  /** The pages of some parts. */
  ghost function Pids(ps: multiset<Part>): set<PageId>
    decreases |ps|
  {
    if ps == multiset{} then {} else
    var p :| p in ps;
    {p.pid} + Pids(ps - multiset{p})
  }

  lemma {:induction false} PidsWithout(ps: multiset<Part>, p: Part)
    requires p in ps
    ensures Pids(ps) == {p.pid} + Pids(ps - multiset{p})
    decreases |ps|
  {
    var q :| q in ps && Pids(ps) == {q.pid} + Pids(ps - multiset{q});
    if q != p {
      PidsWithout(ps - multiset{q}, p);
      PidsWithout(ps - multiset{p}, q);
      assert ps - multiset{q} - multiset{p} == ps - multiset{p} - multiset{q};
      Swap({q.pid}, {p.pid}, Pids(ps - multiset{p} - multiset{q}));
    }
  }

  lemma PidsMore(ps: multiset<Part>, p: Part)
    ensures Pids(ps + multiset{p}) == {p.pid} + Pids(ps)
  {
    PidsWithout(ps + multiset{p}, p);
    assert ps + multiset{p} - multiset{p} == ps;
  }

  /** The pages that leave the segment with LSN lsn. */
  ghost function Moved(ps: multiset<Part>, lsn: nat): set<PageId>
    decreases |ps|
  {
    if ps == multiset{} then {} else
    var p :| p in ps;
    MovedBy(p, lsn) + Moved(ps - multiset{p}, lsn)
  }

  function MovedBy(p: Part, lsn: nat): set<PageId> {
    if p.r != lsn then {p.pid} else {}
  }

  lemma {:induction false} MovedWithout(ps: multiset<Part>, p: Part, lsn: nat)
    requires p in ps
    ensures Moved(ps, lsn) == MovedBy(p, lsn) + Moved(ps - multiset{p}, lsn)
    decreases |ps|
  {
    var q :| q in ps && Moved(ps, lsn) == MovedBy(q, lsn) + Moved(ps - multiset{q}, lsn);
    if q != p {
      MovedWithout(ps - multiset{q}, p, lsn);
      MovedWithout(ps - multiset{p}, q, lsn);
      assert ps - multiset{q} - multiset{p} == ps - multiset{p} - multiset{q};
      Swap(MovedBy(q, lsn), MovedBy(p, lsn), Moved(ps - multiset{p} - multiset{q}, lsn));
    }
  }

  lemma MovedMore(ps: multiset<Part>, p: Part, lsn: nat)
    ensures Moved(ps + multiset{p}, lsn) == MovedBy(p, lsn) + Moved(ps, lsn)
  {
    MovedWithout(ps + multiset{p}, p, lsn);
    assert ps + multiset{p} - multiset{p} == ps;
  }

  /** How many parts leave the segment. */
  ghost function Movers(ps: multiset<Part>, lsn: nat): nat
    decreases |ps|
  {
    if ps == multiset{} then 0 else
    var p :| p in ps;
    |MovedBy(p, lsn)| + Movers(ps - multiset{p}, lsn)
  }

  lemma {:induction false} MoversWithout(ps: multiset<Part>, p: Part, lsn: nat)
    requires p in ps
    ensures Movers(ps, lsn) == |MovedBy(p, lsn)| + Movers(ps - multiset{p}, lsn)
    decreases |ps|
  {
    var q :| q in ps && Movers(ps, lsn) == |MovedBy(q, lsn)| + Movers(ps - multiset{q}, lsn);
    if q != p {
      MoversWithout(ps - multiset{q}, p, lsn);
      MoversWithout(ps - multiset{p}, q, lsn);
      assert ps - multiset{q} - multiset{p} == ps - multiset{p} - multiset{q};
    }
  }

  lemma MoversMore(ps: multiset<Part>, p: Part, lsn: nat)
    ensures Movers(ps + multiset{p}, lsn) == |MovedBy(p, lsn)| + Movers(ps, lsn)
  {
    MoversWithout(ps + multiset{p}, p, lsn);
    assert ps + multiset{p} - multiset{p} == ps;
  }

  lemma {:induction false} FewMoved(ps: multiset<Part>, lsn: nat)
    ensures |Moved(ps, lsn)| <= Movers(ps, lsn)
    decreases |ps|
  {
    if ps != multiset{} {
      var p :| p in ps;
      MovedWithout(ps, p, lsn);
      MoversWithout(ps, p, lsn);
      FewMoved(ps - multiset{p}, lsn);
    }
  }

  /** When every part leaves, the pages that leave are all of them. */
  lemma {:induction false} AllMove(ps: multiset<Part>, lsn: nat)
    requires forall p :: p in ps ==> p.r != lsn
    ensures Moved(ps, lsn) == Pids(ps) && Movers(ps, lsn) == |ps|
    decreases |ps|
  {
    if ps != multiset{} {
      var p :| p in ps;
      MovedWithout(ps, p, lsn);
      MoversWithout(ps, p, lsn);
      PidsWithout(ps, p);
      AllMove(ps - multiset{p}, lsn);
    }
  }

  /** Each page that is about to leave does so once, and has not left already. */
  ghost predicate LeaveOnce(ps: multiset<Part>, lsn: nat, deferred: set<PageId>) {
    |Moved(ps, lsn)| == Movers(ps, lsn) && Moved(ps, lsn) !! deferred
  }

  lemma LeaveOnceMore(ps: multiset<Part>, p: Part, lsn: nat, deferred: set<PageId>)
    requires LeaveOnce(ps, lsn, deferred) && p.pid !in Moved(ps, lsn) && p.pid !in deferred
    ensures LeaveOnce(ps + multiset{p}, lsn, deferred)
  {
    MovedMore(ps, p, lsn);
    MoversMore(ps, p, lsn);
  }

  lemma LeaveOnceWithout(ps: multiset<Part>, p: Part, lsn: nat, deferred: set<PageId>)
    requires LeaveOnce(ps, lsn, deferred) && p in ps
    ensures LeaveOnce(ps - multiset{p}, lsn, deferred + MovedBy(p, lsn))
  {
    MovedWithout(ps, p, lsn);
    MoversWithout(ps, p, lsn);
    FewMoved(ps - multiset{p}, lsn);
  }

  lemma {:induction false} FewPids(ps: multiset<Part>)
    ensures |Pids(ps)| <= |ps|
    decreases |ps|
  {
    if ps != multiset{} {
      var p :| p in ps;
      PidsWithout(ps, p);
      FewPids(ps - multiset{p});
    }
  }

  /** No page has two parts. */
  ghost predicate Once(ps: multiset<Part>) {
    |Pids(ps)| == |ps|
  }

  lemma OnceWithout(ps: multiset<Part>, p: Part)
    requires Once(ps) && p in ps
    ensures Once(ps - multiset{p}) && p.pid !in Pids(ps - multiset{p}) && Pids(ps) == {p.pid} + Pids(ps - multiset{p})
  {
    PidsWithout(ps, p);
    FewPids(ps - multiset{p});
  }

  lemma OnceMore(ps: multiset<Part>, p: Part)
    requires Once(ps) && p.pid !in Pids(ps)
    ensures Once(ps + multiset{p})
  {
    PidsMore(ps, p);
  }

  // ---------------------------------------------------------------------------------
  // Counters
  // ---------------------------------------------------------------------------------

  /** The pages that an active segment will have had, and those that will have left it, when
      all operations are applied. */
  ghost function All(s: Segment, t: Tally): set<PageId>
    requires s.Active?
  {
    s.pids + Pids(t.links)
  }

  ghost function Left(s: Segment, t: Tally): set<PageId>
    requires s.Active?
  {
    s.deferred + Moved(t.removals, s.lsn)
  }

  /** The counters of a segment agree with the pages that live in it, up to what is still to be
      applied. */
  ghost predicate Counts(s: Segment, t: Tally) {
    match s
    case Free(_) => t == NOTHING
    case Active(lsn, rss, deferredRss, deferred, _, _, _) =>
      && Parts(All(s, t), Left(s, t), t.live.Keys) && LeaveOnce(t.removals, lsn, deferred)
      && rss + Sum(t.links) == Total(t.live) + deferredRss + Sum(t.removals)
    case Inactive(lsn, rss, maxPids, replaced, pids, _) =>
      && Settled(t, lsn) && Parts(pids, Pids(t.removals), t.live.Keys)
      && |pids| + replaced == maxPids && rss == Total(t.live) + Sum(t.removals)
    case Draining(lsn, maxPids, replaced, _) =>
      Settled(t, lsn) && |t.live.Keys| + |t.removals| + replaced == maxPids
  }

  /** All pages are those that left and those that stay. */
  ghost predicate Parts(all: set<PageId>, left: set<PageId>, stay: set<PageId>) {
    left <= all && stay == all - left
  }

  /** No page comes any more; each page that leaves does so once. */
  ghost predicate Settled(t: Tally, lsn: nat) {
    && t.links == multiset{} && Once(t.removals) && Pids(t.removals) !! t.live.Keys
    && (forall p :: p in t.removals ==> p.r != lsn)
  }

  /** LSNs of a page's operations rise: nothing lives in a segment above the page's last LSN,
      and what left a segment has moved to a higher one. */
  ghost predicate Dated(s: Segment, t: Tally, last: map<PageId, nat>, handed: set<nat>) {
    !s.Free? ==>
      && (forall p :: p in t.live ==> p in last && s.lsn <= last[p])
      && (forall p :: p in t.links ==> p.r == s.lsn)
      && (forall p :: p in t.removals ==> s.lsn <= p.r && p.r in handed)
      && (s.Active? ==> forall p :: p in Left(s, t) ==> p in last && s.lsn < last[p])
  }

  /** `insert_pid`. */
  function Inserted(s: Segment, pid: PageId, size: nat): Segment
    requires s.Active?
  {
    Active(s.lsn, s.rss + size, s.deferredRss, s.deferred, s.pids + {pid}, s.latest, s.canFree)
  }

  /** `remove_pid`, for a page whose new fragment has segment LSN r. */
  function Removed(s: Segment, pid: PageId, r: nat, size: nat): Segment
    requires !s.Free? && (s.Inactive? ==> size <= s.rss)
  {
    match s
    case Active(lsn, rss, deferredRss, deferred, pids, latest, canFree) =>
      Active(lsn, rss, deferredRss + size, if r != lsn then deferred + {pid} else deferred, pids, Max(latest, r),
          canFree)
    case Inactive(lsn, rss, maxPids, replaced, pids, latest) =>
      if r != lsn then Inactive(lsn, rss - size, maxPids, replaced + 1, pids - {pid}, Max(latest, r))
      else Inactive(lsn, rss - size, maxPids, replaced, pids, Max(latest, r))
    case Draining(lsn, maxPids, replaced, latest) =>
      Draining(lsn, maxPids, if r != lsn then replaced + 1 else replaced, Max(latest, r))
  }

  /** `active_to_inactive`. */
  function Deactivated(s: Segment): Segment
    requires s.Active? && s.deferredRss <= s.rss
  {
    Inactive(s.lsn, s.rss - s.deferredRss, |s.pids|, |s.deferred|, s.pids - s.deferred, s.latest)
  }

  /** `inactive_to_draining`. */
  function Drained(s: Segment): Segment
    requires s.Inactive?
  {
    Draining(s.lsn, s.maxPids, s.replaced, s.latest)
  }

  /** `can_free`. */
  predicate CanFree(s: Segment) {
    s.Draining? && s.replaced == s.maxPids
  }

  // ---------------------------------------------------------------------------------
  // A page comes, or leaves: the accountant is not told yet
  // ---------------------------------------------------------------------------------

  function Comes(t: Tally, part: Part): Tally {
    t.(live := t.live[part.pid := (if part.pid in t.live then t.live[part.pid] else 0) + part.size],
       links := t.links + multiset{part})
  }

  /** What leaves is all that the page has in the segment, or, if the new fragment is in the
      same segment, the part that was there before it. */
  function Leaves(t: Tally, part: Part, lsn: nat): Tally
    requires part.pid in t.live && part.size <= t.live[part.pid]
  {
    t.(live := if part.r == lsn then t.live[part.pid := t.live[part.pid] - part.size] else t.live - {part.pid},
       removals := t.removals + multiset{part})
  }

  lemma ComesTotal(t: Tally, part: Part)
    ensures var t' := Comes(t, part);
      && Total(t'.live) == Total(t.live) + part.size && Sum(t'.links) == Sum(t.links) + part.size
      && t'.live.Keys == t.live.Keys + {part.pid} && Pids(t'.links) == {part.pid} + Pids(t.links)
  {
    var t' := Comes(t, part);
    TotalUpdate(t.live, part.pid, t'.live[part.pid]);
    if part.pid in t.live {
      TotalWithout(t.live, part.pid);
    } else {
      assert t.live - {part.pid} == t.live;
    }
    SumMore(t.links, part);
    PidsMore(t.links, part);
  }

  lemma PartsCome(all: set<PageId>, left: set<PageId>, stay: set<PageId>, pid: PageId)
    requires Parts(all, left, stay) && pid !in left
    ensures Parts(all + {pid}, left, stay + {pid})
  {
  }

  lemma ComesCounts(s: Segment, t: Tally, part: Part)
    requires Counts(s, t) && s.Active? && part.pid !in Left(s, t)
    ensures Counts(s, Comes(t, part))
  {
    ComesTotal(t, part);
    ComesAll(s, t, part);
    PartsCome(All(s, t), Left(s, t), t.live.Keys, part.pid);
  }

  lemma ComesAll(s: Segment, t: Tally, part: Part)
    requires s.Active?
    ensures All(s, Comes(t, part)) == All(s, t) + {part.pid} && Left(s, Comes(t, part)) == Left(s, t)
  {
    PidsMore(t.links, part);
  }

  lemma LeavesTotal(t: Tally, part: Part, lsn: nat)
    requires part.pid in t.live && part.size <= t.live[part.pid] && (part.r == lsn || part.size == t.live[part.pid])
    ensures var t' := Leaves(t, part, lsn);
      && Total(t'.live) + part.size == Total(t.live) && Sum(t'.removals) == Sum(t.removals) + part.size
      && t'.live.Keys == if part.r == lsn then t.live.Keys else t.live.Keys - {part.pid}
  {
    TotalWithout(t.live, part.pid);
    TotalUpdate(t.live, part.pid, t.live[part.pid] - part.size);
    SumMore(t.removals, part);
  }

  lemma LeavesActive(s: Segment, t: Tally, part: Part)
    requires Counts(s, t) && s.Active? && part.pid in t.live && part.size <= t.live[part.pid]
    requires part.r == s.lsn || part.size == t.live[part.pid]
    ensures Counts(s, Leaves(t, part, s.lsn))
  {
    LeavesTotal(t, part, s.lsn);
    LeavesLeft(s, t, part);
    LeaveOnceMore(t.removals, part, s.lsn, s.deferred);
    PartsGo(All(s, t), Left(s, t), t.live.Keys, part.pid);
  }

  lemma LeavesLeft(s: Segment, t: Tally, part: Part)
    requires s.Active? && part.pid in t.live && part.size <= t.live[part.pid]
    ensures var t' := Leaves(t, part, s.lsn);
      All(s, t') == All(s, t) && Left(s, t') == MovedBy(part, s.lsn) + Left(s, t)
  {
    MovedMore(t.removals, part, s.lsn);
    Swap(s.deferred, MovedBy(part, s.lsn), Moved(t.removals, s.lsn));
  }

  lemma PartsGo(all: set<PageId>, left: set<PageId>, stay: set<PageId>, pid: PageId)
    requires Parts(all, left, stay) && pid in stay
    ensures Parts(all, {pid} + left, stay - {pid}) && {} + left == left && pid !in left
  {
  }

  lemma LeavesSettled(s: Segment, t: Tally, part: Part)
    requires Counts(s, t) && (s.Inactive? || s.Draining?) && part.pid in t.live
    requires part.r != s.lsn && part.size == t.live[part.pid]
    ensures Counts(s, Leaves(t, part, s.lsn))
  {
    LeavesTotal(t, part, s.lsn);
    PidsMore(t.removals, part);
    OnceMore(t.removals, part);
  }

  // ---------------------------------------------------------------------------------
  // The accountant is told, in any order
  // ---------------------------------------------------------------------------------

  lemma InsertedCounts(s: Segment, t: Tally, part: Part)
    requires Counts(s, t) && part in t.links
    ensures s.Active? && Counts(Inserted(s, part.pid, part.size), t.(links := t.links - multiset{part}))
  {
    SumWithout(t.links, part);
    PidsWithout(t.links, part);
    assert All(Inserted(s, part.pid, part.size), t.(links := t.links - multiset{part})) == All(s, t);
  }

  lemma RemovedLeft(s: Segment, t: Tally, part: Part)
    requires part in t.removals && s.Active?
    ensures var s', t' := Removed(s, part.pid, part.r, part.size), t.(removals := t.removals - multiset{part});
      Left(s', t') == Left(s, t) && All(s', t') == All(s, t)
  {
    MovedWithout(t.removals, part, s.lsn);
  }

  lemma RemovedActive(s: Segment, t: Tally, part: Part)
    requires Counts(s, t) && part in t.removals && s.Active?
    ensures Counts(Removed(s, part.pid, part.r, part.size), t.(removals := t.removals - multiset{part}))
  {
    SumWithout(t.removals, part);
    RemovedLeft(s, t, part);
    LeaveOnceWithout(t.removals, part, s.lsn, s.deferred);
  }

  lemma PartsLeave(all: set<PageId>, left: set<PageId>, stay: set<PageId>, pid: PageId)
    requires Parts(all, {pid} + left, stay) && pid !in left
    ensures Parts(all - {pid}, left, stay) && |all - {pid}| + 1 == |all|
  {
  }

  lemma SettledLess(t: Tally, lsn: nat, part: Part)
    requires Settled(t, lsn) && part in t.removals
    ensures Settled(t.(removals := t.removals - multiset{part}), lsn)
    ensures part.pid !in Pids(t.removals - multiset{part})
            && Pids(t.removals) == {part.pid} + Pids(t.removals - multiset{part})
  {
    OnceWithout(t.removals, part);
  }

  lemma RemovedSettled(s: Segment, t: Tally, part: Part)
    requires Counts(s, t) && part in t.removals && (s.Inactive? || s.Draining?)
    ensures s.Inactive? ==> part.size <= s.rss
    ensures Counts(Removed(s, part.pid, part.r, part.size), t.(removals := t.removals - multiset{part}))
  {
    SumWithout(t.removals, part);
    SettledLess(t, s.lsn, part);
    if s.Inactive? { PartsLeave(s.pids, Pids(t.removals - multiset{part}), t.live.Keys, part.pid); }
  }

  /** No page comes any more, and what is still to be told of only takes pages away. */
  ghost predicate Closed(t: Tally, lsn: nat) {
    t.links == multiset{} && forall p :: p in t.removals ==> p.r != lsn
  }

  lemma DeactivatedCounts(s: Segment, t: Tally)
    requires Counts(s, t) && s.Active? && Closed(t, s.lsn)
    ensures s.deferredRss <= s.rss && Counts(Deactivated(s), t)
  {
    AllMove(t.removals, s.lsn);
    assert (s.pids - s.deferred) + s.deferred == s.pids;
  }

  lemma DrainedCounts(s: Segment, t: Tally)
    requires Counts(s, t) && s.Inactive?
    ensures Counts(Drained(s), t)
  {
  }

  /** A segment whose pages have all been replaced is empty, and nothing is still to come. */
  lemma FreeableIsEmpty(s: Segment, t: Tally)
    requires Counts(s, t) && CanFree(s)
    ensures t == NOTHING
  {
    assert t.live.Keys == {} && t.live == map[];
  }

  // ---------------------------------------------------------------------------------
  // Dates
  // ---------------------------------------------------------------------------------

  /** A page's last LSN only rises. */
  ghost predicate Later(last: map<PageId, nat>, last': map<PageId, nat>) {
    forall p :: p in last ==> p in last' && last[p] <= last'[p]
  }

  lemma LaterUpdate(last: map<PageId, nat>, pid: PageId, lsn: nat)
    requires pid in last ==> last[pid] <= lsn
    ensures Later(last, last[pid := lsn])
  {
  }

  lemma DatedLater(s: Segment, t: Tally, last: map<PageId, nat>, last': map<PageId, nat>, handed: set<nat>,
                   handed': set<nat>)
    requires Dated(s, t, last, handed) && Later(last, last') && handed <= handed'
    ensures Dated(s, t, last', handed')
  {
    if s.Active? {
      forall p | p in Left(s, t) ensures p in last' && s.lsn < last'[p] { assert p in last; }
    }
  }

  /** A page whose LSNs rise does not come back to a segment that it has left. */
  lemma NotLeft(s: Segment, t: Tally, last: map<PageId, nat>, handed: set<nat>, pid: PageId)
    requires Dated(s, t, last, handed) && s.Active? && (pid in last ==> last[pid] <= s.lsn)
    ensures pid !in Left(s, t)
  {
  }

  lemma ComesDated(s: Segment, t: Tally, part: Part, last: map<PageId, nat>, handed: set<nat>)
    requires Dated(s, t, last, handed) && s.Active? && part.pid in last && s.lsn <= last[part.pid] && part.r == s.lsn
    ensures Dated(s, Comes(t, part), last, handed)
  {
    ComesAll(s, t, part);
  }

  lemma LeavesDated(s: Segment, t: Tally, part: Part, last: map<PageId, nat>, handed: set<nat>)
    requires Dated(s, t, last, handed) && !s.Free? && part.pid in t.live && part.size <= t.live[part.pid]
    requires s.lsn <= part.r && part.r in handed && part.pid in last && part.r <= last[part.pid]
    ensures Dated(s, Leaves(t, part, s.lsn), last, handed)
  {
    if s.Active? { MovedMore(t.removals, part, s.lsn); }
  }

  lemma InsertedDated(s: Segment, t: Tally, part: Part, last: map<PageId, nat>, handed: set<nat>)
    requires Dated(s, t, last, handed) && s.Active?
    ensures Dated(Inserted(s, part.pid, part.size), t.(links := t.links - multiset{part}), last, handed)
  {
    assert Left(Inserted(s, part.pid, part.size), t.(links := t.links - multiset{part})) == Left(s, t);
  }

  lemma RemovedDated(s: Segment, t: Tally, part: Part, last: map<PageId, nat>, handed: set<nat>)
    requires Dated(s, t, last, handed) && part in t.removals && !s.Free? && (s.Inactive? ==> part.size <= s.rss)
    ensures Dated(Removed(s, part.pid, part.r, part.size), t.(removals := t.removals - multiset{part}), last, handed)
  {
    if s.Active? { RemovedLeft(s, t, part); }
  }

  // ---------------------------------------------------------------------------------
  // Counters and dates together
  // ---------------------------------------------------------------------------------

  ghost predicate Fits(s: Segment, t: Tally, last: map<PageId, nat>, handed: set<nat>) {
    Counts(s, t) && Dated(s, t, last, handed)
  }

  lemma FreeFits(previous: Option<nat>, last: map<PageId, nat>, handed: set<nat>)
    ensures Fits(Free(previous), NOTHING, last, handed)
  {
  }

  lemma NewFits(lsn: nat, last: map<PageId, nat>, handed: set<nat>)
    ensures Fits(Active(lsn, 0, 0, {}, {}, 0, {}), NOTHING, last, handed)
  {
  }

  lemma FitsLater(s: Segment, t: Tally, last: map<PageId, nat>, last': map<PageId, nat>, handed: set<nat>,
                  handed': set<nat>)
    requires Fits(s, t, last, handed) && Later(last, last') && handed <= handed'
    ensures Fits(s, t, last', handed')
  {
    DatedLater(s, t, last, last', handed, handed');
  }

  lemma CanFreeFits(s: Segment, t: Tally, canFree: set<nat>, last: map<PageId, nat>, handed: set<nat>)
    requires Fits(s, t, last, handed) && s.Active?
    ensures Fits(s.(canFree := canFree), t, last, handed)
  {
    var s' := s.(canFree := canFree);
    assert Left(s', t) == Left(s, t) && All(s', t) == All(s, t);
  }

  lemma ComesFits(s: Segment, t: Tally, pid: PageId, size: nat, last: map<PageId, nat>, last': map<PageId, nat>,
                  handed: set<nat>)
    requires Fits(s, t, last, handed) && s.Active? && (pid in last ==> last[pid] <= s.lsn)
             && last' == last[pid := s.lsn]
    ensures Fits(s, Comes(t, Part(pid, s.lsn, size)), last', handed)
  {
    var part := Part(pid, s.lsn, size);
    NotLeft(s, t, last, handed, pid);
    ComesCounts(s, t, part);
    DatedLater(s, t, last, last', handed, handed);
    ComesDated(s, t, part, last', handed);
  }

  lemma LeavesFits(s: Segment, t: Tally, pid: PageId, r: nat, last: map<PageId, nat>, last': map<PageId, nat>,
                   handed: set<nat>)
    requires Fits(s, t, last, handed) && !s.Free? && pid in t.live && last' == last[pid := r] && r in handed
    requires s.lsn != r && last[pid] <= r
    ensures Fits(s, Leaves(t, Part(pid, r, t.live[pid]), s.lsn), last', handed)
  {
    var part := Part(pid, r, t.live[pid]);
    DatedLater(s, t, last, last', handed, handed);
    if s.Active? { LeavesActive(s, t, part); } else { LeavesSettled(s, t, part); }
    LeavesDated(s, t, part, last', handed);
  }

  /** The new base lies where the page already was. */
  lemma StaysFits(s: Segment, t: Tally, pid: PageId, size: nat, last: map<PageId, nat>, last': map<PageId, nat>,
                  handed: set<nat>)
    requires Fits(s, t, last, handed) && s.Active? && pid in t.live && last[pid] <= s.lsn && last' == last[pid := s.lsn]
    requires s.lsn in handed
    ensures Fits(s, Comes(Leaves(t, Part(pid, s.lsn, t.live[pid]), s.lsn), Part(pid, s.lsn, size)), last', handed)
  {
    var part := Part(pid, s.lsn, t.live[pid]);
    var t1 := Leaves(t, part, s.lsn);
    NotLeft(s, t, last, handed, pid);
    StaysCounts(s, t, part, Part(pid, s.lsn, size));
    DatedLater(s, t, last, last', handed, handed);
    LeavesDated(s, t, part, last', handed);
    ComesDated(s, t1, Part(pid, s.lsn, size), last', handed);
  }

  lemma StaysCounts(s: Segment, t: Tally, part: Part, next: Part)
    requires Counts(s, t) && s.Active? && part.pid in t.live && part.size == t.live[part.pid] && part.r == s.lsn
    requires next.pid == part.pid && part.pid !in Left(s, t)
    ensures Counts(s, Comes(Leaves(t, part, s.lsn), next))
  {
    LeavesActive(s, t, part);
    LeavesLeft(s, t, part);
    ComesCounts(s, Leaves(t, part, s.lsn), next);
  }

  lemma InsertedFits(s: Segment, t: Tally, part: Part, last: map<PageId, nat>, handed: set<nat>)
    requires Fits(s, t, last, handed) && part in t.links
    ensures s.Active? && part.r == s.lsn && Fits(Inserted(s, part.pid, part.size),
            t.(links := t.links - multiset{part}), last, handed)
  {
    InsertedCounts(s, t, part);
    InsertedDated(s, t, part, last, handed);
  }

  lemma RemovedFits(s: Segment, t: Tally, part: Part, last: map<PageId, nat>, handed: set<nat>)
    requires Fits(s, t, last, handed) && part in t.removals
    ensures !s.Free? && (s.Inactive? ==> part.size <= s.rss) && s.lsn <= part.r && part.r in handed
    ensures Fits(Removed(s, part.pid, part.r, part.size), t.(removals := t.removals - multiset{part}), last, handed)
  {
    if s.Active? { RemovedActive(s, t, part); } else { RemovedSettled(s, t, part); }
    RemovedDated(s, t, part, last, handed);
  }

  lemma DeactivatedFits(s: Segment, t: Tally, last: map<PageId, nat>, handed: set<nat>)
    requires Fits(s, t, last, handed) && s.Active? && Closed(t, s.lsn)
    ensures s.deferredRss <= s.rss && Fits(Deactivated(s), t, last, handed)
  {
    DeactivatedCounts(s, t);
  }

  lemma DrainedFits(s: Segment, t: Tally, last: map<PageId, nat>, handed: set<nat>)
    requires Fits(s, t, last, handed) && s.Inactive?
    ensures Fits(Drained(s), t, last, handed)
  {
    DrainedCounts(s, t);
  }
}
