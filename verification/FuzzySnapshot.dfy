/** Snapshots taken page by page while the page cache runs, and what recovery makes of them. */
module FuzzySnapshot {
  import opened Base
  import opened PageLog
  import opened PageCas

  // ---------------------------------------------------------------------------------
  // Replaying records onto a page table
  // ---------------------------------------------------------------------------------

  function Lookup(pt: seq<PageState>, pid: PageId): PageState {
    if pid < |pt| then pt[pid] else Uninitialized
  }

  /** The records of one page with LSNs from `from` on. */
  function Own(rs: seq<Rec>, pid: PageId, from: nat): (own: seq<Rec>)
    ensures forall r :: r in own <==> r in rs && r.pid == pid && from <= r.item.lsn
  {
    if rs == [] then [] else
    var own, last := Own(rs[..|rs| - 1], pid, from), rs[|rs| - 1];
    assert rs == rs[..|rs| - 1] + [last];
    if last.pid == pid && from <= last.item.lsn then own + [last] else own
  }

  /** `PageState::push`; the caller has a page with a base. */
  method Push(s: PageState, item: Item) returns (t: PageState)
    requires s.Present?
    ensures t == if LastLsn(s) < item.lsn then Present(s.base, s.frags + [item]) else s
  {
    t := s;
    if (if s.frags != [] then s.frags[|s.frags| - 1].lsn else s.base.lsn) < item.lsn {
      t := Present(s.base, s.frags + [item]);
    }
  }

  /** `Snapshot::apply`. */
  method Apply(pt: seq<PageState>, r: Rec) returns (pt': seq<PageState>)
    ensures forall q: PageId :: Lookup(pt', q) == if q == r.pid then StateAfter(Lookup(pt, q), r) else Lookup(pt, q)
  {
    pt' := pt;
    var pushed := false;
    if |pt| <= r.pid {
      pt' := pt + seq(r.pid + 1 - |pt|, _ => Uninitialized);
      pushed := true;
    }
    match r.kind {
      case Replace(_, _) => pt' := pt'[r.pid := Present(r.item, [])];
      case Link(_) =>
        if pt'[r.pid].Present? {
          var t := Push(pt'[r.pid], r.item);
          pt' := pt'[r.pid := t];
        } else if pushed {
          pt' := pt'[..|pt'| - 1];
        }
      case Free => pt' := pt'[r.pid := FreeAt(r.item)];
    }
  }

  /** The replay loop of `advance_snapshot`. */
  method Advance(pt: seq<PageState>, rs: seq<Rec>, from: nat) returns (pt': seq<PageState>)
    ensures forall q: PageId :: Lookup(pt', q) == Replayed(Lookup(pt, q), Own(rs, q, from))
  {
    pt' := pt;
    for k := 0 to |rs|
      invariant forall q: PageId :: Lookup(pt', q) == Replayed(Lookup(pt, q), Own(rs[..k], q, from))
    {
      assert rs[..k + 1][..k] == rs[..k];
      ghost var before := pt';
      if rs[k].item.lsn >= from { pt' := Apply(pt', rs[k]); }
      forall q: PageId ensures Lookup(pt', q) == Replayed(Lookup(pt, q), Own(rs[..k + 1], q, from)) {
        var own := Own(rs[..k], q, from);
        assert (own + [rs[k]])[..|own|] == own;
        assert Lookup(before, q) == Replayed(Lookup(pt, q), own);
      }
    }
    assert rs[..|rs|] == rs;
  }

  lemma {:induction false} OwnIncreasing(rs: seq<Rec>, pid: PageId, from: nat)
    requires Increasing(rs)
    ensures Increasing(Own(rs, pid, from))
  {
    if rs != [] {
      var most, last := rs[..|rs| - 1], rs[|rs| - 1];
      IncreasingSlice(rs, 0, |rs| - 1);
      OwnIncreasing(most, pid, from);
      var own := Own(most, pid, from);
      forall i | 0 <= i < |own| ensures own[i].item.lsn < last.item.lsn {
        assert own[i] in most;
        var j :| 0 <= j < |most| && most[j] == own[i];
        assert Below(rs[j], last);
      }
      if last.pid == pid && from <= last.item.lsn { SwappedIncreasing(own, last); }
    }
  }

  // ---------------------------------------------------------------------------------
  // Capturing pages during a run
  // ---------------------------------------------------------------------------------

  /** `Page::to_page_state`. */
  function ToPageState(p: Page): PageState
    requires p.infos != []
  {
    if IsFree(p) then FreeAt(p.infos[0].item)
    else Present(p.infos[0].item, seq(|p.infos| - 1, i requires 0 <= i < |p.infos| - 1 => p.infos[i + 1].item))
  }

  /** No link can follow a free. */
  lemma {:induction false} FreeThenLinks(apply: Semantics, base: Rec, links: seq<Rec>)
    requires base.kind.Free? && OnlyLinks(links) && links != []
    ensures ContentOf(apply, [base] + links) == None
  {
    var rs := [base] + links;
    assert rs[..|rs| - 1] == [base] + links[..|links| - 1] && rs[|rs| - 1] == links[|links| - 1];
    if |links| > 1 {
      FreeThenLinks(apply, base, links[..|links| - 1]);
    } else {
      assert rs[..|rs| - 1] == [base] && [base][..0] == [];
    }
  }

  /** A page is free when its base is a free. */
  lemma FreeAgrees(apply: Semantics, p: Page)
    requires Tail(p.hist, p.infos) && Truthful(apply, p) && p.infos != []
    ensures IsFree(p) <==> p.hist[|p.hist| - |p.infos|].kind.Free?
  {
    var k := |p.hist| - |p.infos|;
    var base, links := p.hist[k], p.hist[k + 1..];
    ContentNow(apply, p);
    assert p.hist[k..] == [base] + links;
    if base.kind.Free? && links != [] { FreeThenLinks(apply, base, links); }
    FreeIsLast(apply, base, links);
  }

  /** A captured page is what replaying all its records gives. */
  lemma CaptureIsReplay(apply: Semantics, pid: PageId, p: Page)
    requires PageOk(apply, pid, p) && p.infos != []
    ensures ToPageState(p) == Replayed(Uninitialized, p.hist)
  {
    var k := |p.hist| - |p.infos|;
    var links := p.hist[k + 1..];
    FreeAgrees(apply, p);
    ReplayFromBase(Uninitialized, p.hist, k);
    assert p.infos[0].item == p.hist[k].item;
    forall i | 0 <= i < |links| ensures p.infos[i + 1].item == links[i].item {
      assert p.infos[i + 1].item == p.hist[k + (i + 1)].item;
    }
  }

  lemma FreeIsLast(apply: Semantics, base: Rec, links: seq<Rec>)
    requires OnlyLinks(links)
    ensures ContentOf(apply, [base] + links) == Some(Vacant) <==> base.kind.Free? && links == []
  {
    var rs := [base] + links;
    assert rs[|rs| - 1] == if links == [] then base else links[|links| - 1];
    assert links == [] ==> rs == [base];
  }

  function HistAt(s: State, pid: PageId): seq<Rec> {
    if pid in s.pages then s.pages[pid].hist else []
  }

  /** What a step adds to a page is not stable. */
  lemma StepAddsUnstable(apply: Semantics, s: State, st: Step, pid: PageId)
    requires Inv(apply, s) && Enabled(apply, s, st)
    ensures var s' := After(apply, s, st);
      && s.stable <= s'.stable
      && (HistAt(s', pid) == HistAt(s, pid)
          || exists r :: HistAt(s', pid) == HistAt(s, pid) + [r] && s.stable <= r.item.lsn)
  {
    if st.Swap? && s.pages[s.ops[st.t].pid].version == s.ops[st.t].view.version && s.ops[st.t].pid == pid {
      var op := s.ops[st.t];
      WinnerSawCurrent(apply, s, st.t);
      assert OpInv(apply, s, st.t) && EntryInv(s, op.phase.item.lsn);
      assert HistAt(After(apply, s, st), pid) == HistAt(s, pid) + [Rec(op.pid, op.phase.item, Written(op))];
    }
  }

  /** What a page gets after moment i is not below the stable LSN of that moment. */
  lemma {:induction false} LaterIsUnstable(apply: Semantics, states: seq<State>, steps: seq<Step>, i: nat, j: nat,
                                           pid: PageId)
    requires Run(apply, states, steps) && i <= j < |states|
    ensures states[i].stable <= states[j].stable && HistAt(states[i], pid) <= HistAt(states[j], pid)
    ensures forall k :: |HistAt(states[i], pid)| <= k < |HistAt(states[j], pid)| ==>
            states[i].stable <= HistAt(states[j], pid)[k].item.lsn
    decreases j
  {
    if i < j {
      LaterIsUnstable(apply, states, steps, i, j - 1, pid);
      RunInv(apply, states, steps, j - 1);
      assert Moves(apply, states[j - 1], steps[j - 1], states[j]);
      StepAddsUnstable(apply, states[j - 1], steps[j - 1], pid);
    }
  }

  // ---------------------------------------------------------------------------------
  // Recovery
  // ---------------------------------------------------------------------------------

  /** Recovery finds every completed record below `end`, and nothing there is unfinished. */
  ghost predicate Recovered(s: State, end: nat, rs: seq<Rec>) {
    && Increasing(rs)
    && (forall l :: l in s.log && l < end ==> s.log[l].status.Done? || s.log[l].status.Canceled?)
    && (forall r :: r in rs <==> r.item.lsn in s.log && s.log[r.item.lsn] == Entry(r, Done) && r.item.lsn < end)
  }

  /** The records that the log still has: freed segments have taken others with them, but none
      that a page needs and the snapshot does not have. */
  ghost predicate StillHas(all: seq<Rec>, kept: seq<Rec>, from: nat) {
    && Increasing(kept) && (forall r :: r in kept ==> r in all)
    && (forall r :: r in all && from <= r.item.lsn && Needed(Own(all, r.pid, 0), r) ==> r in kept)
  }

  /** The snapshot: every page that existed when the stable LSN was read, at moment a, is
      captured at a moment of its own, later on, and the file is written only when the captured
      records are below `end`. */
  ghost predicate Snapshot(states: seq<State>, a: nat, z: nat, captures: map<PageId, nat>, end: nat,
                           pt: seq<PageState>) {
    && a <= z < |states| && states[a].pages.Keys <= captures.Keys
    && (forall pid :: pid in captures ==>
          a <= captures[pid] <= z && Captured(states[captures[pid]], pid, end, Lookup(pt, pid)))
    && (forall pid: PageId :: pid !in captures ==> Lookup(pt, pid) == Uninitialized)
  }

  ghost predicate Captured(s: State, pid: PageId, end: nat, state: PageState) {
    && pid in s.pages && s.pages[pid].infos != [] && state == ToPageState(s.pages[pid])
    && AllBelow(s.pages[pid].hist, end)
  }

  lemma PrefixBelow(h: seq<Rec>, end: nat) returns (n: nat)
    requires Increasing(h)
    ensures n <= |h| && forall i :: 0 <= i < |h| ==> (h[i].item.lsn < end <==> i < n)
  {
    n := |h|;
    while n > 0 && h[n - 1].item.lsn >= end
      invariant n <= |h| && forall i :: n <= i < |h| ==> h[i].item.lsn >= end
    {
      n := n - 1;
    }
    forall i | 0 <= i < n ensures h[i].item.lsn < end { IndexAfter(h, i, n - 1); }
  }

  /** The recovered records of a page are the first of its records. */
  lemma RecoveredHist(apply: Semantics, s: State, end: nat, rs: seq<Rec>, pid: PageId) returns (n: nat)
    requires Inv(apply, s) && Recovered(s, end, rs)
    ensures n <= |HistAt(s, pid)| && Own(rs, pid, 0) == HistAt(s, pid)[..n] && Increasing(HistAt(s, pid))
    ensures forall i :: 0 <= i < |HistAt(s, pid)| ==> (HistAt(s, pid)[i].item.lsn < end <==> i < n)
  {
    var h := HistAt(s, pid);
    if pid in s.pages { assert PageInv(apply, s, pid) && Logged(s, pid); }
    n := PrefixBelow(h, end);
    OwnIncreasing(rs, pid, 0);
    IncreasingSlice(h, 0, n);
    var g := h[..n];
    assert h[0..n] == g;
    forall r ensures r in Own(rs, pid, 0) <==> r in g {
      if r in Own(rs, pid, 0) {
        assert EntryInv(s, r.item.lsn);
        var i :| 0 <= i < |h| && h[i] == r;
        assert g[i] == r;
      }
      if r in g {
        var i :| 0 <= i < |g| && g[i] == r;
        assert h[i] == r && r.item.lsn in s.log && s.log[r.item.lsn].rec == r;
        assert EntryInv(s, r.item.lsn);
      }
    }
    SameMembers(Own(rs, pid, 0), g);
  }

  /** Replaying the remaining records onto the snapshot gives every page the state that
      replaying the whole log from nothing gives it. */
  lemma SnapshotIsExact(apply: Semantics, states: seq<State>, steps: seq<Step>, a: nat, z: nat,
                        captures: map<PageId, nat>,
                        end: nat, pt: seq<PageState>, all: seq<Rec>, kept: seq<Rec>, pid: PageId)
    requires Run(apply, states, steps) && Snapshot(states, a, z, captures, end, pt)
    requires Recovered(states[z], end, all) && StillHas(all, kept, states[a].stable)
    ensures Replayed(Lookup(pt, pid), Own(kept, pid, states[a].stable)) == Replayed(Uninitialized, Own(all, pid, 0))
  {
    var from := states[a].stable;
    RunInv(apply, states, steps, z);
    var n := RecoveredHist(apply, states[z], end, all, pid);
    var h := HistAt(states[z], pid)[..n];
    assert HistAt(states[z], pid)[0..n] == h;
    IncreasingSlice(HistAt(states[z], pid), 0, n);
    var c := CapturedPart(apply, states, steps, a, z, captures, end, pt, pid, n);
    OwnIncreasing(kept, pid, from);
    assert Keeps(h, Own(kept, pid, from), from);
    FuzzyPage(h, c, Own(kept, pid, from), from);
  }

  /** A captured page is the replay of a first part of its recovered records, and the rest is
      not below the stable LSN that the snapshot starts from. */
  lemma CapturedPart(apply: Semantics, states: seq<State>, steps: seq<Step>, a: nat, z: nat, captures: map<PageId, nat>,
                     end: nat, pt: seq<PageState>, pid: PageId, n: nat) returns (c: nat)
    requires Run(apply, states, steps) && Snapshot(states, a, z, captures, end, pt)
    requires n <= |HistAt(states[z], pid)| && Increasing(HistAt(states[z], pid))
    requires forall i :: 0 <= i < |HistAt(states[z], pid)| ==> (HistAt(states[z], pid)[i].item.lsn < end <==> i < n)
    ensures c <= n && Lookup(pt, pid) == Replayed(Uninitialized, HistAt(states[z], pid)[..n][..c])
    ensures forall i :: c <= i < n ==> states[a].stable <= HistAt(states[z], pid)[i].item.lsn
  {
    var h := HistAt(states[z], pid);
    if pid in captures {
      var m := captures[pid];
      assert Captured(states[m], pid, end, Lookup(pt, pid));
      RunInv(apply, states, steps, m);
      assert PageInv(apply, states[m], pid);
      var p := states[m].pages[pid];
      CaptureIsReplay(apply, pid, p);
      LaterIsUnstable(apply, states, steps, a, m, pid);
      LaterIsUnstable(apply, states, steps, m, z, pid);
      c := |p.hist|;
      assert c > 0 ==> p.hist[c - 1] == h[c - 1];
      assert h[..n][..c] == p.hist;
    } else {
      LaterIsUnstable(apply, states, steps, a, z, pid);
      c := 0;
      assert h[..n][..0] == [];
    }
  }
}
