/** Pages in memory and their records in the log, changed by any number of threads. Every load,
    reservation and compare-and-swap is one step. A page value carries a version that every
    successful swap changes, which stands for the pointer that the swap compares. */
module PageCas {
  import opened Base
  import opened PageLog

  datatype Info = Info(item: Item, ts: nat)

  /** What memory holds of a page that is not paged out. */
  datatype Update = Vacated | Node(core: Core, gens: nat)

  /** The last three fields are history: all records the page ever got, its contents at every
      timestamp, and the operation that ended each timestamp. */
  datatype Page = Page(version: nat, update: Option<Update>, infos: seq<Info>, hist: seq<Rec>, past: seq<Content>,
                       winners: seq<nat>)

  /** A log record: reserved by an operation, won by it in the swap, completed, or canceled. */
  datatype Status = Open(owner: nat) | Won(owner: nat) | Done | Canceled

  datatype Entry = Entry(rec: Rec, status: Status)

  datatype Job = Linking(link: bytes, made: Core, gens: nat) | Replacing(update: Update) | Rewriting | Moving

  datatype Phase = Viewed | Reserved(item: Item) | Installed(item: Item)

  datatype Op = Op(pid: PageId, view: Page, job: Job, phase: Phase)

  datatype State = State(pages: map<PageId, Page>, log: map<nat, Entry>, next: nat, stable: nat, ops: map<nat, Op>)

  /** `Page::ts`. */
  function Ts(p: Page): nat {
    if p.infos == [] then 0 else p.infos[|p.infos| - 1].ts
  }

  /** `Page::is_free`. */
  predicate IsFree(p: Page) {
    p.update == Some(Vacated) || p.infos == []
  }

  function Meaning(u: Update): Content {
    match u
    case Vacated => Vacant
    case Node(core, _) => Held(core)
  }

  const MAX_GENS: nat := 255

  /** With this many fragments `link` replaces the page instead. */
  const PAGE_CONSOLIDATION_THRESHOLD: nat := 10

  function Bumped(u: Update): Update {
    match u
    case Vacated => Vacated
    case Node(core, gens) => Node(core, if gens < MAX_GENS then gens + 1 else gens)
  }

  function KindOf(u: Update): Kind {
    match u
    case Vacated => Free
    case Node(core, gens) => Replace(core, gens)
  }

  predicate Startable(apply: Semantics, view: Page, job: Job) {
    match job
    case Linking(link, made, _) =>
      && view.update.Some? && view.update.value.Node? && apply(view.update.value.core, link) == Some(made)
      && |view.infos| < PAGE_CONSOLIDATION_THRESHOLD
    case Replacing(_) => true
    case Rewriting => view.update.Some?
    case Moving => |view.infos| == 1 && view.hist != [] && view.hist[|view.hist| - 1].kind.Replace?
  }

  /** What an operation writes to the log. */
  function Written(op: Op): Kind {
    match op.job
    case Linking(link, _, _) => Link(link)
    case Replacing(u) => KindOf(u)
    case Rewriting => if op.view.update.Some? then KindOf(Bumped(op.view.update.value)) else Free
    case Moving => if op.view.hist != [] then op.view.hist[|op.view.hist| - 1].kind else Free
  }

  /** Rewrites and pointer moves keep the timestamp. */
  predicate Changes(job: Job) {
    job.Linking? || job.Replacing?
  }

  function NewUpdate(op: Op): Option<Update> {
    match op.job
    case Linking(_, made, gens) => Some(Node(made, gens))
    case Replacing(u) => Some(u)
    case Rewriting => if op.view.update.Some? then Some(Bumped(op.view.update.value)) else None
    case Moving => op.view.update
  }

  /** The page that a successful swap installs. */
  function Swapped(op: Op, t: nat, item: Item): Page {
    var p := op.view;
    var ts := if Changes(op.job) then Ts(p) + 1 else Ts(p);
    var u := NewUpdate(op);
    Page(p.version + 1, u,
         if op.job.Linking? then p.infos + [Info(item, ts)] else [Info(item, ts)],
         p.hist + [Rec(op.pid, item, Written(op))],
         if Changes(op.job) then p.past + [if u.Some? then Meaning(u.value) else Absent] else p.past,
         if Changes(op.job) then p.winners + [t] else p.winners)
  }

  datatype Step =
    | Allocate(pid: PageId)
    | Start(t: nat, pid: PageId, job: Job)
    | Reserve(t: nat, ptr: nat, size: nat, skip: nat)
    | Swap(t: nat)
    | Complete(t: nat)
    | PageOut(pid: PageId)
    | PageIn(pid: PageId, gens: nat)
    | Stabilize(to: nat)

  /** The records that `get` pulls to page a page in. */
  function Pulled(log: map<nat, Entry>, infos: seq<Info>): seq<Rec>
    requires forall i :: 0 <= i < |infos| ==> infos[i].item.lsn in log
  {
    seq(|infos|, i requires 0 <= i < |infos| => log[infos[i].item.lsn].rec)
  }

  ghost predicate CanPull(apply: Semantics, log: map<nat, Entry>, infos: seq<Info>) {
    && (forall i :: 0 <= i < |infos| ==> infos[i].item.lsn in log)
    && var c := ContentOf(apply, Pulled(log, infos));
    && c.Some? && c.value.Held?
  }

  ghost predicate Enabled(apply: Semantics, s: State, st: Step) {
    match st
    case Allocate(pid) => pid !in s.pages
    case Start(t, pid, job) => t !in s.ops && pid in s.pages && Startable(apply, s.pages[pid], job)
    case Reserve(t, _, _, _) => t in s.ops && s.ops[t].phase.Viewed?
    case Swap(t) => t in s.ops && s.ops[t].phase.Reserved? && s.ops[t].pid in s.pages
        && s.ops[t].phase.item.lsn in s.log
    case Complete(t) => t in s.ops && s.ops[t].phase.Installed? && s.ops[t].phase.item.lsn in s.log
    case PageOut(pid) => pid in s.pages && !IsFree(s.pages[pid])
    case PageIn(pid, _) => pid in s.pages && !IsFree(s.pages[pid]) && s.pages[pid].update.None?
        && CanPull(apply, s.log, s.pages[pid].infos)
    case Stabilize(to) =>
      && s.stable <= to <= s.next
      && forall l :: l in s.log && l < to ==> s.log[l].status.Done? || s.log[l].status.Canceled?
  }

  /** A failed swap is retried on the current page if only its place has changed. */
  predicate Retries(op: Op, p: Page) {
    Ts(p) == Ts(op.view) && Changes(op.job)
  }

  ghost function After(apply: Semantics, s: State, st: Step): State
    requires Enabled(apply, s, st)
  {
    match st
    case Allocate(pid) => s.(pages := s.pages[pid := Page(0, None, [], [], [Absent], [])])
    case Start(t, pid, job) => s.(ops := s.ops[t := Op(pid, s.pages[pid], job, Viewed)])
    case Reserve(t, ptr, size, skip) =>
      var op := s.ops[t];
      var item := Item(s.next + skip, ptr, size);
      s.(ops := s.ops[t := op.(phase := Reserved(item))], next := s.next + skip + 1,
         log := s.log[s.next + skip := Entry(Rec(op.pid, item, Written(op)), Open(t))])
    case Swap(t) =>
      var op := s.ops[t];
      var l := op.phase.item.lsn;
      var p := s.pages[op.pid];
      if p.version == op.view.version then
        s.(ops := s.ops[t := op.(phase := Installed(op.phase.item))], log := s.log[l := s.log[l].(status := Won(t))],
           pages := s.pages[op.pid := Swapped(op, t, op.phase.item)])
      else
        s.(ops := if Retries(op, p) then s.ops[t := op.(phase := Viewed, view := p)] else s.ops - {t},
           log := s.log[l := s.log[l].(status := Canceled)])
    case Complete(t) =>
      var l := s.ops[t].phase.item.lsn;
      s.(ops := s.ops - {t}, log := s.log[l := s.log[l].(status := Done)])
    case PageOut(pid) =>
      var p := s.pages[pid];
      s.(pages := s.pages[pid := p.(version := p.version + 1, update := None)])
    case PageIn(pid, gens) =>
      var p := s.pages[pid];
      var c := ContentOf(apply, Pulled(s.log, p.infos));
      s.(pages := s.pages[pid := p.(version := p.version + 1, update := Some(Node(c.value.core, gens)))])
    case Stabilize(to) => s.(stable := to)
  }

  // ---------------------------------------------------------------------------------
  // Invariants
  // ---------------------------------------------------------------------------------

  ghost predicate OwnRecords(pid: PageId, hist: seq<Rec>) {
    forall i {:trigger hist[i]} :: 0 <= i < |hist| ==> hist[i].pid == pid
  }

  /** The fragments are the records from the last base on. */
  ghost predicate Tail(hist: seq<Rec>, infos: seq<Info>) {
    && |infos| <= |hist| && (hist == [] <==> infos == [])
    && (infos != [] ==>
          var k := |hist| - |infos|;
          && !hist[k].kind.Link? && OnlyLinks(hist[k + 1..])
          && (forall i {:trigger infos[i]} :: 0 <= i < |infos| ==> infos[i].item == hist[k + i].item))
  }

  ghost predicate Truthful(apply: Semantics, p: Page) {
    && |p.past| == Ts(p) + 1 && |p.winners| == Ts(p)
    && ContentOf(apply, p.hist) == Some(p.past[Ts(p)])
    && (match p.update
        case None => p.infos == [] || p.past[Ts(p)].Held?
        case Some(u) => p.infos != [] && Meaning(u) == p.past[Ts(p)])
  }

  ghost predicate PageOk(apply: Semantics, pid: PageId, p: Page) {
    && Increasing(p.hist) && OwnRecords(pid, p.hist) && Tail(p.hist, p.infos) && Truthful(apply, p)
    && |p.infos| <= PAGE_CONSOLIDATION_THRESHOLD
  }

  /** What an operation knows of the page it looked at. */
  ghost predicate JobOk(apply: Semantics, view: Page, job: Job)
    requires |view.past| == Ts(view) + 1
  {
    match job
    case Linking(link, made, _) =>
      && view.past[Ts(view)].Held? && apply(view.past[Ts(view)].core, link) == Some(made)
      && |view.infos| < PAGE_CONSOLIDATION_THRESHOLD
    case Replacing(_) => true
    case Rewriting => view.update.Some?
    case Moving => |view.infos| == 1 && view.hist != [] && view.hist[|view.hist| - 1].kind.Replace?
  }

  ghost predicate AllBelow(rs: seq<Rec>, l: nat) {
    forall i {:trigger rs[i]} :: 0 <= i < |rs| ==> rs[i].item.lsn < l
  }

  /** A page that was current before p. */
  ghost predicate Earlier(view: Page, p: Page) {
    && view.version <= p.version && (view.version == p.version ==> view == p)
    && view.past <= p.past && view.winners <= p.winners && view.hist <= p.hist
    && (Ts(view) == Ts(p) ==> |p.infos| <= |view.infos| || |p.infos| == 1)
  }

  lemma EarlierTransitive(apply: Semantics, a: Page, b: Page, c: Page)
    requires Earlier(a, b) && Earlier(b, c) && Truthful(apply, a) && Truthful(apply, b) && Truthful(apply, c)
    ensures Earlier(a, c)
  {
    assert |a.past| <= |b.past| <= |c.past|;
  }

  ghost predicate PageInv(apply: Semantics, s: State, pid: PageId)
    requires pid in s.pages
  {
    PageOk(apply, pid, s.pages[pid])
  }

  ghost predicate OpInv(apply: Semantics, s: State, t: nat)
    requires t in s.ops
  {
    var op := s.ops[t];
    && op.pid in s.pages && PageOk(apply, op.pid, op.view) && JobOk(apply, op.view, op.job)
    && (!op.phase.Installed? ==> Earlier(op.view, s.pages[op.pid]))
    && (op.phase.Reserved? ==>
          var l := op.phase.item.lsn;
          l in s.log && s.log[l] == Entry(Rec(op.pid, op.phase.item, Written(op)), Open(t))
              && AllBelow(op.view.hist, l))
    && (op.phase.Installed? ==> op.phase.item.lsn in s.log && s.log[op.phase.item.lsn].status == Won(t))
  }

  ghost predicate EntryInv(s: State, l: nat)
    requires l in s.log
  {
    var e := s.log[l];
    && l < s.next && e.rec.item.lsn == l && e.rec.pid in s.pages
    && (e.status.Won? || e.status.Done? <==> e.rec in s.pages[e.rec.pid].hist)
    && (e.status.Open? ==> e.status.owner in s.ops && s.ops[e.status.owner].phase == Reserved(e.rec.item))
    && (e.status.Won? ==> e.status.owner in s.ops && s.ops[e.status.owner].phase == Installed(e.rec.item))
    && (l < s.stable ==> e.status.Done? || e.status.Canceled?)
  }

  /** The page's records are in the log. */
  ghost predicate Logged(s: State, pid: PageId)
    requires pid in s.pages
  {
    forall i {:trigger s.pages[pid].hist[i]} :: 0 <= i < |s.pages[pid].hist| ==>
      var r := s.pages[pid].hist[i];
      r.item.lsn in s.log && s.log[r.item.lsn].rec == r
  }

  ghost predicate PagesInv(apply: Semantics, s: State) {
    && (forall pid {:trigger PageInv(apply, s, pid)} :: pid in s.pages ==> PageInv(apply, s, pid))
    && (forall pid {:trigger Logged(s, pid)} :: pid in s.pages ==> Logged(s, pid))
  }

  ghost predicate OpsInv(apply: Semantics, s: State) {
    forall t {:trigger OpInv(apply, s, t)} :: t in s.ops ==> OpInv(apply, s, t)
  }

  ghost predicate LogInv(s: State) {
    forall l {:trigger EntryInv(s, l)} :: l in s.log ==> EntryInv(s, l)
  }

  ghost predicate Inv(apply: Semantics, s: State) {
    s.stable <= s.next && PagesInv(apply, s) && OpsInv(apply, s) && LogInv(s)
  }

  // ---------------------------------------------------------------------------------
  // One page
  // ---------------------------------------------------------------------------------

  lemma SwappedIncreasing(h: seq<Rec>, r: Rec)
    requires Increasing(h) && AllBelow(h, r.item.lsn)
    ensures Increasing(h + [r])
  {
    var g := h + [r];
    forall i, j | 0 <= i < j < |g| ensures Below(g[i], g[j]) {
      if j < |h| { assert Below(h[i], h[j]); } else { assert g[i] == h[i]; }
    }
  }

  lemma TailPush(hist: seq<Rec>, infos: seq<Info>, r: Rec, info: Info)
    requires Tail(hist, infos) && infos != [] && r.kind.Link? && info.item == r.item
    ensures Tail(hist + [r], infos + [info])
  {
    var k := |hist| - |infos|;
    assert (hist + [r])[k + 1..] == hist[k + 1..] + [r];
    forall i | 0 <= i < |infos + [info]| ensures (infos + [info])[i].item == (hist + [r])[k + i].item {
      assert i < |infos| ==> (infos + [info])[i] == infos[i];
    }
  }

  /** The content a page's fragments stand for, at its own timestamp. */
  lemma ContentNow(apply: Semantics, p: Page)
    requires Tail(p.hist, p.infos) && Truthful(apply, p) && p.infos != []
    ensures ContentOf(apply, p.hist[|p.hist| - |p.infos|..]) == Some(p.past[Ts(p)])
  {
    ContentFromBase(apply, p.hist, |p.hist| - |p.infos|);
  }

  lemma SwappedTruthful(apply: Semantics, op: Op, t: nat, item: Item)
    requires Tail(op.view.hist, op.view.infos) && Truthful(apply, op.view) && JobOk(apply, op.view, op.job)
    ensures op.job.Linking? ==> op.view.infos != []
    ensures !op.job.Linking? ==> !Written(op).Link?
    ensures Truthful(apply, Swapped(op, t, item))
  {
    var p, q := op.view, Swapped(op, t, item);
    assert q.hist[..|q.hist| - 1] == p.hist;
    assert p.hist == [] ==> p.past[Ts(p)] == Absent;
    if op.job.Moving? {
      assert ContentOf(apply, p.hist) == ContentAfter(apply, ContentOf(apply, p.hist[..|p.hist| - 1]),
             p.hist[|p.hist| - 1]);
    }
  }

  lemma SwappedOk(apply: Semantics, op: Op, t: nat, item: Item)
    requires PageOk(apply, op.pid, op.view) && JobOk(apply, op.view, op.job) && AllBelow(op.view.hist, item.lsn)
    ensures PageOk(apply, op.pid, Swapped(op, t, item)) && Earlier(op.view, Swapped(op, t, item))
  {
    SwappedIncreasing(op.view.hist, Rec(op.pid, item, Written(op)));
    SwappedTruthful(apply, op, t, item);
    if op.job.Linking? {
      TailPush(op.view.hist, op.view.infos, Rec(op.pid, item, Written(op)), Info(item, Ts(op.view) + 1));
    }
  }

  // ---------------------------------------------------------------------------------
  // Every step keeps the invariants
  // ---------------------------------------------------------------------------------

  lemma AllocateKeeps(apply: Semantics, s: State, pid: PageId)
    requires Inv(apply, s) && pid !in s.pages
    ensures Inv(apply, After(apply, s, Allocate(pid)))
  {
    var s' := After(apply, s, Allocate(pid));
    forall q | q in s'.pages ensures PageInv(apply, s', q) && Logged(s', q) {
      assert q != pid ==> PageInv(apply, s, q) && Logged(s, q);
    }
    forall t | t in s'.ops ensures OpInv(apply, s', t) { assert OpInv(apply, s, t); }
    forall l | l in s'.log ensures EntryInv(s', l) { assert EntryInv(s, l); }
  }

  /** A step that changes no page and no record. */
  lemma PagesStay(apply: Semantics, s: State, s': State)
    requires PagesInv(apply, s) && s'.pages == s.pages
    requires forall l :: l in s.log ==> l in s'.log && s'.log[l].rec == s.log[l].rec
    ensures PagesInv(apply, s')
  {
    forall q | q in s'.pages ensures PageInv(apply, s', q) && Logged(s', q) {
      assert PageInv(apply, s, q) && Logged(s, q);
    }
  }

  lemma StartKeeps(apply: Semantics, s: State, t: nat, pid: PageId, job: Job)
    requires Inv(apply, s) && Enabled(apply, s, Start(t, pid, job))
    ensures Inv(apply, After(apply, s, Start(t, pid, job)))
  {
    var s' := After(apply, s, Start(t, pid, job));
    PagesStay(apply, s, s');
    assert PageInv(apply, s, pid);
    forall u | u in s'.ops ensures OpInv(apply, s', u) { assert u != t ==> OpInv(apply, s, u); }
    forall l | l in s'.log ensures EntryInv(s', l) { assert EntryInv(s, l); }
  }

  /** All records so far are below the next LSN. */
  lemma HistBelowNext(s: State, pid: PageId)
    requires pid in s.pages && Logged(s, pid) && LogInv(s)
    ensures AllBelow(s.pages[pid].hist, s.next)
  {
    forall i | 0 <= i < |s.pages[pid].hist| ensures s.pages[pid].hist[i].item.lsn < s.next {
      assert EntryInv(s, s.pages[pid].hist[i].item.lsn);
    }
  }

  /** A new LSN is above everything in the log and in the page the operation looked at. */
  lemma NewLsn(apply: Semantics, s: State, t: nat, at: nat)
    requires Inv(apply, s) && t in s.ops && s.ops[t].phase.Viewed? && s.next <= at
    ensures at !in s.log && AllBelow(s.ops[t].view.hist, at) && s.ops[t].pid in s.pages
            && AllBelow(s.pages[s.ops[t].pid].hist, at)
  {
    var op := s.ops[t];
    assert OpInv(apply, s, t) && Logged(s, op.pid);
    assert at in s.log ==> EntryInv(s, at);
    HistBelowNext(s, op.pid);
    assert forall i :: 0 <= i < |op.view.hist| ==> op.view.hist[i] == s.pages[op.pid].hist[i];
  }

  /** Operation t moves on from op, and its log entry at l changes. */
  ghost predicate MovesOn(s: State, s': State, t: nat, l: nat) {
    && l in s'.log && s'.log == s.log[l := s'.log[l]] && s'.ops - {t} == s.ops - {t}
    && s'.stable == s.stable && s.next <= s'.next
    && (l in s.log ==> s'.log[l].rec == s.log[l].rec && (s.log[l].status == Open(t) || s.log[l].status == Won(t)))
  }

  lemma PagesMoveOn(apply: Semantics, s: State, s': State, t: nat, l: nat)
    requires PagesInv(apply, s) && MovesOn(s, s', t, l) && s'.pages == s.pages
    requires forall pid: PageId :: pid in s.pages ==> AllBelow(s.pages[pid].hist, l) || l in s.log
    ensures PagesInv(apply, s')
  {
    forall q | q in s'.pages ensures PageInv(apply, s', q) && Logged(s', q) {
      assert PageInv(apply, s, q) && Logged(s, q);
    }
  }

  lemma OpsMoveOn(apply: Semantics, s: State, s': State, t: nat, l: nat)
    requires OpsInv(apply, s) && MovesOn(s, s', t, l) && s'.pages == s.pages && (l !in s.log ==> s.next <= l)
    requires t in s'.ops ==> OpInv(apply, s', t)
    ensures OpsInv(apply, s')
  {
    forall u | u in s'.ops ensures OpInv(apply, s', u) {
      if u != t {
        assert u in s'.ops - {t} && (s'.ops - {t})[u] == (s.ops - {t})[u];
        assert OpInv(apply, s, u);
      }
    }
  }

  lemma LogMovesOn(s: State, s': State, t: nat, l: nat)
    requires LogInv(s) && MovesOn(s, s', t, l) && s'.pages == s.pages && EntryInv(s', l)
    requires t in s.ops ==> !(s.ops[t].phase.Reserved? || s.ops[t].phase.Installed?) || s.ops[t].phase.item.lsn == l
    ensures LogInv(s')
  {
    forall m | m in s'.log ensures EntryInv(s', m) {
      if m != l {
        assert EntryInv(s, m);
        assert forall u :: u != t && u in s.ops ==> u in s.ops - {t} && u in s'.ops - {t};
        assert forall u :: u in s'.ops - {t} ==> (s'.ops - {t})[u] == (s.ops - {t})[u];
      }
    }
  }

  lemma ReserveKeeps(apply: Semantics, s: State, t: nat, ptr: nat, size: nat, skip: nat)
    requires Inv(apply, s) && Enabled(apply, s, Reserve(t, ptr, size, skip))
    ensures Inv(apply, After(apply, s, Reserve(t, ptr, size, skip)))
  {
    var s' := After(apply, s, Reserve(t, ptr, size, skip));
    var at := s.next + skip;
    NewLsn(apply, s, t, at);
    assert OpInv(apply, s, t);
    forall pid: PageId | pid in s.pages ensures AllBelow(s.pages[pid].hist, at) {
      assert Logged(s, pid);
      HistBelowNext(s, pid);
    }
    PagesMoveOn(apply, s, s', t, at);
    OpsMoveOn(apply, s, s', t, at);
    LogMovesOn(s, s', t, at);
  }

  lemma CompleteKeeps(apply: Semantics, s: State, t: nat)
    requires Inv(apply, s) && Enabled(apply, s, Complete(t))
    ensures Inv(apply, After(apply, s, Complete(t)))
  {
    var s' := After(apply, s, Complete(t));
    assert OpInv(apply, s, t);
    PagesStay(apply, s, s');
    forall u | u in s'.ops ensures OpInv(apply, s', u) { assert OpInv(apply, s, u); }
    forall l | l in s'.log ensures EntryInv(s', l) { assert EntryInv(s, l); }
  }

  /** Paging out or in changes the version only. */
  lemma PagedKeeps(apply: Semantics, s: State, s': State, pid: PageId, update: Option<Update>)
    requires Inv(apply, s) && pid in s.pages
    requires var p := s.pages[pid]; s' == s.(pages := s.pages[pid := p.(version := p.version + 1, update := update)])
    requires PageOk(apply, pid, s'.pages[pid])
    ensures Inv(apply, s')
  {
    forall q | q in s'.pages ensures PageInv(apply, s', q) && Logged(s', q) {
      assert PageInv(apply, s, q) && Logged(s, q);
    }
    forall u | u in s'.ops ensures OpInv(apply, s', u) {
      assert OpInv(apply, s, u);
      PagedKeepsOp(apply, s, s', pid, u);
    }
    forall l | l in s'.log ensures EntryInv(s', l) { assert EntryInv(s, l); }
  }

  lemma PagedKeepsOp(apply: Semantics, s: State, s': State, pid: PageId, u: nat)
    requires pid in s.pages && u in s.ops && OpInv(apply, s, u) && s'.ops == s.ops && s'.log == s.log
    requires forall q :: q in s.pages && q != pid ==> q in s'.pages && s'.pages[q] == s.pages[q]
    requires pid in s'.pages
    requires var p, q := s.pages[pid], s'.pages[pid];
      && q.version == p.version + 1 && q.infos == p.infos && q.hist == p.hist && q.past == p.past
      && q.winners == p.winners
    ensures OpInv(apply, s', u)
  {
    assert s.ops[u].pid == pid && !s.ops[u].phase.Installed? ==> Earlier(s.ops[u].view, s.pages[pid]);
  }

  /** The records that paging in pulls are the page's fragments, and they replay without a
      panic to what the page holds at its timestamp. */
  lemma PullMatches(apply: Semantics, s: State, pid: PageId)
    requires Inv(apply, s) && pid in s.pages && s.pages[pid].infos != []
    ensures var p := s.pages[pid];
      && |p.past| == Ts(p) + 1 && |p.infos| <= |p.hist|
      && (forall i :: 0 <= i < |p.infos| ==> p.infos[i].item.lsn in s.log)
      && Pulled(s.log, p.infos) == p.hist[|p.hist| - |p.infos|..]
      && ContentOf(apply, Pulled(s.log, p.infos)) == Some(p.past[Ts(p)])
  {
    assert PageInv(apply, s, pid) && Logged(s, pid);
    PulledAreFragments(s, pid);
    ContentNow(apply, s.pages[pid]);
  }

  lemma PulledAreFragments(s: State, pid: PageId)
    requires pid in s.pages && Tail(s.pages[pid].hist, s.pages[pid].infos) && Logged(s, pid)
    ensures var p := s.pages[pid];
      && (forall i :: 0 <= i < |p.infos| ==> p.infos[i].item.lsn in s.log)
      && Pulled(s.log, p.infos) == p.hist[|p.hist| - |p.infos|..]
  {
    var p := s.pages[pid];
    var k := |p.hist| - |p.infos|;
    forall i | 0 <= i < |p.infos| ensures p.infos[i].item.lsn in s.log
        && s.log[p.infos[i].item.lsn].rec == p.hist[k + i] {
      assert p.infos[i].item == p.hist[k + i].item;
    }
  }

  lemma StabilizeKeeps(apply: Semantics, s: State, to: nat)
    requires Inv(apply, s) && Enabled(apply, s, Stabilize(to))
    ensures Inv(apply, After(apply, s, Stabilize(to)))
  {
    var s' := After(apply, s, Stabilize(to));
    PagesStay(apply, s, s');
    forall u | u in s'.ops ensures OpInv(apply, s', u) { assert OpInv(apply, s, u); }
    forall l | l in s'.log ensures EntryInv(s', l) { assert EntryInv(s, l); }
  }

  /** Two swaps cannot both win on one page value: the winner saw the current page. */
  lemma WinnerSawCurrent(apply: Semantics, s: State, t: nat)
    requires Inv(apply, s) && Enabled(apply, s, Swap(t)) && s.pages[s.ops[t].pid].version == s.ops[t].view.version
    ensures var op := s.ops[t];
      && s.pages[op.pid] == op.view && PageOk(apply, op.pid, Swapped(op, t, op.phase.item))
      && Earlier(op.view, Swapped(op, t, op.phase.item)) && AllBelow(op.view.hist, op.phase.item.lsn)
  {
    assert OpInv(apply, s, t);
    SwappedOk(apply, s.ops[t], t, s.ops[t].phase.item);
  }

  /** Page pid grows by record r. */
  ghost predicate Grows(s: State, s': State, pid: PageId, r: Rec) {
    && pid in s.pages && pid in s'.pages && s'.pages == s.pages[pid := s'.pages[pid]]
    && s'.pages[pid].hist == s.pages[pid].hist + [r] && Earlier(s.pages[pid], s'.pages[pid])
    && s'.pages[pid].version > s.pages[pid].version
  }

  lemma PagesGrow(apply: Semantics, s: State, s': State, pid: PageId, r: Rec)
    requires PagesInv(apply, s) && Grows(s, s', pid, r) && PageOk(apply, pid, s'.pages[pid])
    requires r.item.lsn in s.log && s.log[r.item.lsn].rec == r
    requires r.item.lsn in s'.log && s'.log == s.log[r.item.lsn := s'.log[r.item.lsn]] && s'.log[r.item.lsn].rec == r
    ensures PagesInv(apply, s')
  {
    forall q | q in s'.pages ensures PageInv(apply, s', q) && Logged(s', q) {
      assert PageInv(apply, s, q) && Logged(s, q);
      assert forall i :: 0 <= i < |s.pages[pid].hist| ==> s'.pages[pid].hist[i] == s.pages[pid].hist[i];
    }
  }

  lemma OpGrows(apply: Semantics, s: State, s': State, pid: PageId, r: Rec, t: nat, u: nat)
    requires u in s.ops && u != t && u in s'.ops && s'.ops[u] == s.ops[u] && OpInv(apply, s, u) && Grows(s, s', pid, r)
    requires Truthful(apply, s.pages[pid]) && Truthful(apply, s'.pages[pid])
    requires r.item.lsn in s.log && s.log[r.item.lsn].status == Open(t)
    requires r.item.lsn in s'.log && s'.log == s.log[r.item.lsn := s'.log[r.item.lsn]]
    ensures OpInv(apply, s', u)
  {
    var op := s.ops[u];
    if op.pid == pid && !op.phase.Installed? { EarlierTransitive(apply, op.view, s.pages[pid], s'.pages[pid]); }
  }

  lemma EntryGrows(s: State, s': State, pid: PageId, r: Rec, t: nat, l: nat)
    requires l in s.log && l in s'.log && l != r.item.lsn && s'.log[l] == s.log[l] && EntryInv(s, l)
             && Grows(s, s', pid, r)
    requires t in s.ops && t in s'.ops && s'.ops == s.ops[t := s'.ops[t]] && s.ops[t].phase == Reserved(r.item)
             && s'.stable == s.stable && s'.next == s.next
    ensures EntryInv(s', l)
  {
    assert s.log[l].rec in s'.pages[pid].hist <==> s.log[l].rec in s.pages[pid].hist || s.log[l].rec == r;
  }

  /** The winner and its record. */
  lemma WinnerInstalled(apply: Semantics, s: State, t: nat)
    requires Inv(apply, s) && Enabled(apply, s, Swap(t)) && s.pages[s.ops[t].pid].version == s.ops[t].view.version
    ensures var s', op := After(apply, s, Swap(t)), s.ops[t];
      var r := Rec(op.pid, op.phase.item, Written(op));
      && r.item.lsn in s.log && s.log[r.item.lsn] == Entry(r, Open(t)) && t in s'.ops
      && Grows(s, s', op.pid, r) && PageOk(apply, op.pid, s'.pages[op.pid]) && OpInv(apply, s', t)
            && EntryInv(s', r.item.lsn)
  {
    WinnerSawCurrent(apply, s, t);
    assert OpInv(apply, s, t) && EntryInv(s, s.ops[t].phase.item.lsn);
  }

  lemma SwapWins(apply: Semantics, s: State, t: nat)
    requires Inv(apply, s) && Enabled(apply, s, Swap(t)) && s.pages[s.ops[t].pid].version == s.ops[t].view.version
    ensures Inv(apply, After(apply, s, Swap(t)))
  {
    var s', op := After(apply, s, Swap(t)), s.ops[t];
    var r := Rec(op.pid, op.phase.item, Written(op));
    WinnerInstalled(apply, s, t);
    RestGrows(apply, s, s', op.pid, r, t);
  }

  lemma RestGrows(apply: Semantics, s: State, s': State, pid: PageId, r: Rec, t: nat)
    requires Inv(apply, s) && Grows(s, s', pid, r) && PageOk(apply, pid, s'.pages[pid])
    requires r.item.lsn in s.log && s.log[r.item.lsn] == Entry(r, Open(t))
             && s'.log == s.log[r.item.lsn := Entry(r, Won(t))]
    requires t in s.ops && s.ops[t].phase == Reserved(r.item) && t in s'.ops && s'.ops == s.ops[t := s'.ops[t]]
    requires s'.stable == s.stable && s'.next == s.next && OpInv(apply, s', t) && EntryInv(s', r.item.lsn)
    ensures Inv(apply, s')
  {
    PagesGrow(apply, s, s', pid, r);
    forall u | u in s'.ops ensures OpInv(apply, s', u) {
      if u != t {
        assert OpInv(apply, s, u) && PageInv(apply, s, pid);
        OpGrows(apply, s, s', pid, r, t, u);
      }
    }
    forall l | l in s'.log ensures EntryInv(s', l) {
      if l != r.item.lsn {
        assert EntryInv(s, l);
        EntryGrows(s, s', pid, r, t, l);
      }
    }
  }

  lemma SwapFails(apply: Semantics, s: State, t: nat)
    requires Inv(apply, s) && Enabled(apply, s, Swap(t)) && s.pages[s.ops[t].pid].version != s.ops[t].view.version
    ensures Inv(apply, After(apply, s, Swap(t)))
  {
    var s' := After(apply, s, Swap(t));
    var op := s.ops[t];
    var p := s.pages[op.pid];
    var l := op.phase.item.lsn;
    assert OpInv(apply, s, t) && PageInv(apply, s, op.pid) && EntryInv(s, l);
    if Retries(op, p) { RetryIsSound(apply, op, p); }
    assert s'.ops - {t} == s.ops - {t};
    PagesMoveOn(apply, s, s', t, l);
    OpsMoveOn(apply, s, s', t, l);
    LogMovesOn(s, s', t, l);
  }

  /** A link made for the page at one timestamp fits every later page with that timestamp. */
  lemma RetryIsSound(apply: Semantics, op: Op, p: Page)
    requires PageOk(apply, op.pid, op.view) && PageOk(apply, op.pid, p) && Earlier(op.view, p) && Retries(op, p)
    requires JobOk(apply, op.view, op.job)
    ensures JobOk(apply, p, op.job)
  {
    assert op.view.past == p.past;
  }

  lemma PageOutKeeps(apply: Semantics, s: State, pid: PageId)
    requires Inv(apply, s) && Enabled(apply, s, PageOut(pid))
    ensures Inv(apply, After(apply, s, PageOut(pid)))
  {
    assert PageInv(apply, s, pid);
    PagedKeeps(apply, s, After(apply, s, PageOut(pid)), pid, None);
  }

  lemma PageInKeeps(apply: Semantics, s: State, pid: PageId, gens: nat)
    requires Inv(apply, s) && Enabled(apply, s, PageIn(pid, gens))
    ensures Inv(apply, After(apply, s, PageIn(pid, gens)))
  {
    var s' := After(apply, s, PageIn(pid, gens));
    assert PageInv(apply, s, pid);
    PullMatches(apply, s, pid);
    PagedKeeps(apply, s, s', pid, s'.pages[pid].update);
  }

  lemma StepKeepsInv(apply: Semantics, s: State, st: Step)
    requires Inv(apply, s) && Enabled(apply, s, st)
    ensures Inv(apply, After(apply, s, st))
  {
    match st
    case Allocate(pid) => AllocateKeeps(apply, s, pid);
    case Start(t, pid, job) => StartKeeps(apply, s, t, pid, job);
    case Reserve(t, ptr, size, skip) => ReserveKeeps(apply, s, t, ptr, size, skip);
    case Swap(t) =>
      if s.pages[s.ops[t].pid].version == s.ops[t].view.version {
        SwapWins(apply, s, t);
      } else {
        SwapFails(apply, s, t);
      }
    case Complete(t) => CompleteKeeps(apply, s, t);
    case PageOut(pid) => PageOutKeeps(apply, s, pid);
    case PageIn(pid, gens) => PageInKeeps(apply, s, pid, gens);
    case Stabilize(to) => StabilizeKeeps(apply, s, to);
  }

  // ---------------------------------------------------------------------------------
  // Whole runs
  // ---------------------------------------------------------------------------------

  ghost predicate Run(apply: Semantics, states: seq<State>, steps: seq<Step>) {
    && |states| == |steps| + 1 && states[0] == State(map[], map[], 0, 0, map[])
    && (forall i, j {:trigger Moves(apply, states[i], steps[i], states[j])} :: 0 <= i && j == i + 1 < |states| ==>
          Moves(apply, states[i], steps[i], states[j]))
  }

  ghost predicate Moves(apply: Semantics, s: State, st: Step, s': State) {
    Enabled(apply, s, st) && s' == After(apply, s, st)
  }

  lemma {:induction false} RunInv(apply: Semantics, states: seq<State>, steps: seq<Step>, i: nat)
    requires Run(apply, states, steps) && i < |states|
    ensures Inv(apply, states[i])
  {
    if i > 0 {
      RunInv(apply, states, steps, i - 1);
      assert Moves(apply, states[i - 1], steps[i - 1], states[i]);
      StepKeepsInv(apply, states[i - 1], steps[i - 1]);
    }
  }

  /** Memory and log agree at every moment of a run: the page's fragments replay to the node in
      memory, up to the counter of rewrites, a page that was paged out can be read back, and a
      page never has more than ten fragments. */
  lemma MemoryMatchesLog(apply: Semantics, states: seq<State>, steps: seq<Step>, i: nat, pid: PageId)
    requires Run(apply, states, steps) && i < |states| && pid in states[i].pages && states[i].pages[pid].infos != []
    ensures var s, p := states[i], states[i].pages[pid];
      && (forall k :: 0 <= k < |p.infos| ==> p.infos[k].item.lsn in s.log)
      && (p.update.Some? ==> ContentOf(apply, Pulled(s.log, p.infos)) == Some(Meaning(p.update.value)))
      && (p.update.None? ==> CanPull(apply, s.log, p.infos))
      && |p.infos| <= PAGE_CONSOLIDATION_THRESHOLD
  {
    RunInv(apply, states, steps, i);
    assert PageInv(apply, states[i], pid);
    PullMatches(apply, states[i], pid);
  }

  lemma StepKeepsHistory(apply: Semantics, s: State, st: Step, pid: PageId)
    requires Inv(apply, s) && Enabled(apply, s, st) && pid in s.pages
    ensures var s' := After(apply, s, st); pid in s'.pages && Earlier(s.pages[pid], s'.pages[pid])
  {
    if st.Swap? && s.pages[s.ops[st.t].pid].version == s.ops[st.t].view.version { WinnerSawCurrent(apply, s, st.t); }
  }

  lemma {:induction false} RunKeepsHistory(apply: Semantics, states: seq<State>, steps: seq<Step>, i: nat, j: nat,
                                           pid: PageId)
    requires Run(apply, states, steps) && i <= j < |states| && pid in states[i].pages
    ensures pid in states[j].pages && Earlier(states[i].pages[pid], states[j].pages[pid])
    decreases j
  {
    if i < j {
      RunKeepsHistory(apply, states, steps, i, j - 1, pid);
      RunInv(apply, states, steps, j - 1);
      assert Moves(apply, states[j - 1], steps[j - 1], states[j]);
      StepKeepsHistory(apply, states[j - 1], steps[j - 1], pid);
      RunInv(apply, states, steps, i);
      RunInv(apply, states, steps, j);
      assert PageInv(apply, states[i], pid) && PageInv(apply, states[j - 1], pid) && PageInv(apply, states[j], pid);
      EarlierTransitive(apply, states[i].pages[pid], states[j - 1].pages[pid], states[j].pages[pid]);
    }
  }

  /** At any two moments of a run, a page with the same timestamp holds the same. */
  lemma EqualStampsEqualContents(apply: Semantics, states: seq<State>, steps: seq<Step>, i: nat, j: nat, pid: PageId)
    requires Run(apply, states, steps) && i <= j < |states| && pid in states[i].pages && pid in states[j].pages
    requires states[i].pages[pid].infos != [] && Ts(states[i].pages[pid]) == Ts(states[j].pages[pid])
    ensures var p, q := states[i].pages[pid], states[j].pages[pid];
      && q.infos != []
      && (forall k :: 0 <= k < |p.infos| ==> p.infos[k].item.lsn in states[i].log)
      && (forall k :: 0 <= k < |q.infos| ==> q.infos[k].item.lsn in states[j].log)
      && ContentOf(apply, Pulled(states[i].log, p.infos)) == ContentOf(apply, Pulled(states[j].log, q.infos))
  {
    RunInv(apply, states, steps, i);
    RunInv(apply, states, steps, j);
    RunKeepsHistory(apply, states, steps, i, j, pid);
    assert PageInv(apply, states[i], pid) && PageInv(apply, states[j], pid);
    PullMatches(apply, states[i], pid);
    PullMatches(apply, states[j], pid);
  }

  /** The step is a swap by which an update of page pid, based on timestamp ts, succeeds. */
  ghost predicate Succeeds(s: State, st: Step, pid: PageId, ts: nat) {
    && st.Swap? && st.t in s.ops && s.ops[st.t].pid == pid && pid in s.pages && Changes(s.ops[st.t].job)
    && s.pages[pid].version == s.ops[st.t].view.version && Ts(s.ops[st.t].view) == ts
  }

  /** Of the updates based on one timestamp of a page, at most one succeeds. */
  lemma OneWinner(apply: Semantics, states: seq<State>, steps: seq<Step>, i: nat, j: nat, pid: PageId, ts: nat)
    requires Run(apply, states, steps) && i < |steps| && j < |steps|
    requires Succeeds(states[i], steps[i], pid, ts) && Succeeds(states[j], steps[j], pid, ts)
    ensures i == j
  {
    if i < j {
      WinEndsStamp(apply, states, steps, i, j, pid, ts);
    } else if j < i {
      WinEndsStamp(apply, states, steps, j, i, pid, ts);
    }
  }

  lemma WinEndsStamp(apply: Semantics, states: seq<State>, steps: seq<Step>, i: nat, j: nat, pid: PageId, ts: nat)
    requires Run(apply, states, steps) && i < j < |steps| && Succeeds(states[i], steps[i], pid, ts)
    ensures !Succeeds(states[j], steps[j], pid, ts)
  {
    RunInv(apply, states, steps, i);
    RunInv(apply, states, steps, j);
    RunInv(apply, states, steps, i + 1);
    assert Moves(apply, states[i], steps[i], states[i + 1]) && Moves(apply, states[j], steps[j], states[j + 1]);
    WinRaisesStamp(states[i], steps[i], apply, pid, ts);
    RunKeepsHistory(apply, states, steps, i + 1, j, pid);
    StampsRise(apply, states[i + 1], states[j], pid);
    if Succeeds(states[j], steps[j], pid, ts) { WinnerSawCurrent(apply, states[j], steps[j].t); }
  }

  lemma WinRaisesStamp(s: State, st: Step, apply: Semantics, pid: PageId, ts: nat)
    requires Enabled(apply, s, st) && Succeeds(s, st, pid, ts)
    ensures pid in After(apply, s, st).pages && Ts(After(apply, s, st).pages[pid]) == ts + 1
  {
  }

  lemma StampsRise(apply: Semantics, s: State, s': State, pid: PageId)
    requires PagesInv(apply, s) && PagesInv(apply, s') && pid in s.pages && pid in s'.pages
    requires Earlier(s.pages[pid], s'.pages[pid])
    ensures Ts(s.pages[pid]) <= Ts(s'.pages[pid])
  {
    assert PageInv(apply, s, pid) && PageInv(apply, s', pid);
  }
}
