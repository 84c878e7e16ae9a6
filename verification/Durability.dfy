/** The store over any number of crashes: a record that was stable once is never lost. */
module Durability {
  import opened Base
  import opened Stability
  import opened WriteLog
  import opened LogIterator
  import opened Recovery
  import opened Replay
  import opened WriteLogRuns
  import opened Crashes

  /** The snapshot that the process started from, with its stable LSN, and the log that the
      process is writing. */
  datatype Store = Store(snap: seq<Entry>, stable: Option<nat>, log: Log)

  ghost predicate StoreStart(s: Store) {
    && s.snap == [] && s.stable == None
    && exists size: nat, lid: nat :: size >= 256 && At(size, lid, 0) && s.log == FreshAt(size, 0, lid)
  }

  ghost predicate Crash(s: Store, s': Store)
    requires |s.log.bufs| > 0
  {
    exists n: nat, tip :: n <= |s.log.items| && CrashTo(s, n, tip, s')
  }

  /** Recovery replays the first n items; the new process goes on at `tip`. */
  ghost predicate CrashTo(s: Store, n: nat, tip: Tip, s': Store)
    requires |s.log.bufs| > 0 && n <= |s.log.items|
  {
    && RecoversTo(CrashImage(s.log), s.log.track.published, n, Records(s.log.items, 0, n))
    && TipAfter(CrashImage(s.log), n, tip)
    && s'.snap == s.snap + Newer(Records(s.log.items, 0, n), From(s.stable))
    && s'.stable == Stored(s.stable, tip)
    && Restarted(s.log, n, tip, s'.log)
  }

  ghost predicate StoreStep(s: Store, s': Store)
    requires |s.log.bufs| > 0
  {
    || (s'.snap == s.snap && s'.stable == s.stable && WriteLog.Step(s.log, s'.log))
    || Crash(s, s')
  }

  /** How many items begin at or before x. */
  function UpTo(items: seq<Item>, x: Lsn): (n: nat)
    ensures n <= |items| && (0 < n ==> items[n - 1].lsn <= x) && (forall i :: n <= i < |items| ==> x < items[i].lsn)
  {
    if items == [] || items[|items| - 1].lsn <= x then |items| else UpTo(items[..|items| - 1], x)
  }

  /** The records that are stable. */
  function Committed(s: Store): seq<Entry> {
    s.snap + Newer(Records(s.log.items, 0, UpTo(s.log.items, s.log.track.published)), From(s.stable))
  }

  /** The snapshot is not ahead of the log, and a process that goes on in a segment does not
      begin where a segment begins. */
  ghost predicate Snapped(s: Store)
    requires |s.log.bufs| > 0
  {
    && (s.stable.None? ==> s.snap == []) && From(s.stable) <= s.log.bufs[0].lsn
    && (s.log.bufs[0].first > 0 ==> s.log.bufs[0].base > 0)
  }

  ghost predicate StoreInv(s: Store) {
    Inv(s.log) && Snapped(s)
  }

  // ---------------------------------------------------------------------------------
  // Records and prefixes
  // ---------------------------------------------------------------------------------

  lemma {:induction false} NewerAppend(a: seq<Entry>, b: seq<Entry>, from: nat)
    ensures Newer(a + b, from) == Newer(a, from) + Newer(b, from)
  {
    if b == [] {
      assert a + b == a;
    } else {
      assert (a + b)[..|a + b| - 1] == a + b[..|b| - 1];
      NewerAppend(a, b[..|b| - 1], from);
    }
  }

  lemma {:induction false} NewerPrefix(items: seq<Item>, a: nat, b: nat, from: nat)
    requires a <= b <= |items|
    ensures Newer(Records(items, 0, a), from) <= Newer(Records(items, 0, b), from)
    decreases b - a
  {
    if a < b {
      NewerPrefix(items, a, b - 1, from);
      NewerAppend(Records(items, 0, b - 1), RecordIn(items[b - 1]), from);
    }
  }

  lemma {:induction false} SameRecords(items: seq<Item>, items': seq<Item>, n: nat)
    requires n <= |items| && n <= |items'| && forall i :: 0 <= i < n ==> items'[i] == items[i]
    ensures Records(items', 0, n) == Records(items, 0, n)
  {
    if n > 0 {
      SameRecords(items, items', n - 1);
    }
  }

  lemma {:induction false} AllOld(items: seq<Item>, n: nat, from: nat)
    requires n <= |items| && forall i :: 0 <= i < n ==> items[i].lsn < from || !items[i].kind.Record?
    ensures Newer(Records(items, 0, n), from) == []
  {
    if n > 0 {
      AllOld(items, n - 1, from);
      NewerAppend(Records(items, 0, n - 1), RecordIn(items[n - 1]), from);
    }
  }

  // ---------------------------------------------------------------------------------
  // Every step keeps the committed records
  // ---------------------------------------------------------------------------------

  /** The first n items are the same. */
  ghost predicate SameItems(items: seq<Item>, items': seq<Item>, n: nat) {
    n <= |items| && n <= |items'| && forall i :: 0 <= i < n ==> items'[i] == items[i]
  }

  /** A step of the write path changes no finished item and no process start. */
  lemma StepKeepsFinished(s: Log, s': Log, n: nat)
    requires |s.bufs| > 0 && WriteLog.Step(s, s') && n <= |s.items| && forall i :: 0 <= i < n ==>
             !InFlight(s.items[i].kind)
    ensures SameItems(s.items, s'.items, n) && |s'.bufs| > 0
    ensures var a, b := s.bufs[0], s'.bufs[0]; b.lsn == a.lsn && b.first == a.first && b.base == a.base
  {
  }

  lemma StableIsFinished(s: Log, n: nat)
    requires LaidOut(s.size, s.items) && BufferChain(s) && DiskInv(s) && Sound(s.track) && TrackInv(s)
    requires n == UpTo(s.items, s.track.published)
    ensures forall i :: 0 <= i < n ==> !InFlight(s.items[i].kind)
  {
    forall i | 0 <= i < n ensures !InFlight(s.items[i].kind) {
      LsnsIncrease(s.size, s.items, i, n - 1);
      StableItemIsFinished(s, i);
    }
  }

  lemma StableItemIsFinished(s: Log, i: nat)
    requires LaidOut(s.size, s.items) && BufferChain(s) && DiskInv(s) && Sound(s.track) && TrackInv(s)
    requires i < |s.items| && s.items[i].lsn <= s.track.published
    ensures !InFlight(s.items[i].kind)
  {
    StableIsOnDisk(s, i);
  }

  lemma CommittedGrows(s: Store, s': Store)
    requires s'.snap == s.snap && s'.stable == s.stable
    requires SameItems(s.log.items, s'.log.items, UpTo(s.log.items, s.log.track.published))
             && s.log.track.published <= s'.log.track.published
    ensures Committed(s) <= Committed(s')
  {
    var n := UpTo(s.log.items, s.log.track.published);
    var n' := UpTo(s'.log.items, s'.log.track.published);
    SameRecords(s.log.items, s'.log.items, n);
    NewerPrefix(s'.log.items, n, n', From(s.stable));
  }

  lemma WriteKeepsCommitted(s: Store, s': Store)
    requires StoreInv(s) && s'.snap == s.snap && s'.stable == s.stable && WriteLog.Step(s.log, s'.log)
    ensures StoreInv(s') && Committed(s) <= Committed(s')
  {
    var n := UpTo(s.log.items, s.log.track.published);
    StableIsFinished(s.log, n);
    StepKeepsFinished(s.log, s'.log, n);
    StepKeepsInv(s.log, s'.log);
    CommittedGrows(s, s');
  }

  /** What was stable is among the recovered records. */
  lemma RecoveredHoldsStable(s: Log, n: nat, from: nat)
    requires LaidOut(s.size, s.items) && n <= |s.items|
    requires RecoversTo(CrashImage(s), s.track.published, n, Records(s.items, 0, n))
    ensures Newer(Records(s.items, 0, UpTo(s.items, s.track.published)), from) <= Newer(Records(s.items, 0, n), from)
  {
    var u := UpTo(s.items, s.track.published);
    if u <= n {
      NewerPrefix(s.items, u, n, from);
    } else {
      forall i | n <= i < u ensures !s.items[i].kind.Record? {
        LsnsIncrease(s.size, s.items, i, u - 1);
      }
      NoRecords(s.items, 0, n, u);
    }
  }

  /** The log holds no record from `from` on. */
  ghost predicate NothingNewer(s: Log, from: nat) {
    forall i :: 0 <= i < |s.items| ==> s.items[i].lsn < from || !s.items[i].kind.Record?
  }

  lemma ResumeIsGood(s: Log, n: nat, lsn: nat, s': Log)
    requires EndsInv(s) && |s.bufs| > 0 && TrackInv(s) && WellFormed(CrashImage(s)) && n <= |s.items|
    requires RecoversTo(CrashImage(s), s.track.published, n, Records(s.items, 0, n))
    requires TipAfter(CrashImage(s), n, InSegment(lsn)) && ResumesAt(CrashImage(s), n, lsn, s')
    ensures Start(s') && NothingNewer(s', lsn) && s'.bufs[0].lsn == lsn
    ensures s'.bufs[0].first > 0 ==> s'.bufs[0].base > 0
  {
    var im := CrashImage(s);
    var g: nat, offset: nat :| ResumesIn(im, n, lsn, g, offset, s');
    SuffixLaidOut(im, g, n);
    ResumedStarts(s, n, g, offset);
    AllBelowEnd(s'.size, s'.items);
  }

  lemma AllBelowEnd(size: nat, items: seq<Item>)
    requires LaidOut(size, items)
    ensures forall i :: 0 <= i < |items| ==> items[i].lsn < End(items)
  {
    forall i | 0 <= i < |items| ensures items[i].lsn < End(items) {
      LsnsIncrease(size, items, i, |items| - 1);
      assert Placed(size, items[i]);
    }
  }

  /** The new process starts in a good state that holds no record newer than its snapshot, and
      its snapshot is not ahead of it. */
  lemma RestartIsGood(s: Log, stable: Option<nat>, n: nat, tip: Tip, s': Log)
    requires Inv(s) && n <= |s.items| && RecoversTo(CrashImage(s), s.track.published, n, Records(s.items, 0, n))
    requires TipAfter(CrashImage(s), n, tip) && Restarted(s, n, tip, s') && From(stable) <= s.bufs[0].lsn
    ensures Start(s') && NothingNewer(s', From(Stored(stable, tip)))
    ensures From(Stored(stable, tip)) <= s'.bufs[0].lsn && (s'.bufs[0].first > 0 ==> s'.bufs[0].base > 0)
  {
    if tip.InSegment? {
      ResumeIsGood(s, n, tip.lsn, s');
    } else if tip.AtSnapshot? {
      SnapshotAtBoundary(s);
      FreshIsGood(s, s.bufs[0].lsn, s', From(stable));
    } else {
      FreshIsGood(s, tip.lsn, s', tip.stored);
    }
  }

  lemma FreshIsGood(s: Log, lsn: nat, s': Log, from: nat)
    requires s.size >= 256 && At(s.size, lsn, 0)
    requires exists lid: nat :: At(s.size, lid, 0) && s' == FreshAt(s.size, lsn, lid)
    ensures Start(s') && NothingNewer(s', from) && s'.bufs[0].lsn == lsn && s'.bufs[0].first == 0
  {
    var lid: nat :| At(s.size, lid, 0) && s' == FreshAt(s.size, lsn, lid);
    FreshStarts(s.size, lsn, lid);
  }

  /** When recovery reads nothing, the process had begun in a fresh segment. */
  lemma SnapshotAtBoundary(s: Log)
    requires Inv(s) && RecoversTo(CrashImage(s), s.track.published, 0, Records(s.items, 0, 0))
    ensures s.bufs[0].first == 0 && At(s.size, s.bufs[0].lsn, 0)
  {
    var b := s.bufs[0];
    assert BeginsAt(s.items, b);
    if 0 < b.first {
      if b.first < |s.items| { LsnsIncrease(s.size, s.items, 0, b.first); }
    }
  }

  lemma RecoveredIsCommitted(s: Store, n: nat, s': Store)
    requires LaidOut(s.log.size, s.log.items) && n <= |s.log.items|
    requires RecoversTo(CrashImage(s.log), s.log.track.published, n, Records(s.log.items, 0, n))
    requires s'.snap == s.snap + Newer(Records(s.log.items, 0, n), From(s.stable))
    requires NothingNewer(s'.log, From(s'.stable))
    ensures Committed(s) <= Committed(s')
  {
    RecoveredHoldsStable(s.log, n, From(s.stable));
    AllOld(s'.log.items, UpTo(s'.log.items, s'.log.track.published), From(s'.stable));
  }

  lemma CrashKeepsCommitted(s: Store, s': Store)
    requires StoreInv(s) && Crash(s, s')
    ensures StoreInv(s') && Committed(s) <= Committed(s')
  {
    var n: nat, tip :| n <= |s.log.items| && CrashTo(s, n, tip, s');
    RestartIsGood(s.log, s.stable, n, tip, s'.log);
    StartInv(s'.log);
    RecoveredIsCommitted(s, n, s');
  }

  lemma StepKeepsCommitted(s: Store, s': Store)
    requires StoreInv(s) && StoreStep(s, s')
    ensures StoreInv(s') && Committed(s) <= Committed(s')
  {
    if Crash(s, s') {
      CrashKeepsCommitted(s, s');
    } else {
      WriteKeepsCommitted(s, s');
    }
  }

  ghost predicate StoreRun(ss: seq<Store>) {
    && |ss| > 0 && StoreStart(ss[0])
    && (forall i :: 0 <= i < |ss| ==> |ss[i].log.bufs| > 0)
    && (forall i, j :: 0 <= i && j == i + 1 < |ss| ==> StoreStep(ss[i], ss[j]))
  }

  lemma StoreStartInv(s: Store)
    requires StoreStart(s)
    ensures StoreInv(s)
  {
    var size: nat, lid: nat :| size >= 256 && At(size, lid, 0) && s.log == FreshAt(size, 0, lid);
    FreshStarts(size, 0, lid);
    StartInv(s.log);
  }

  /** In every run, with a crash at any point and any number of them, the records that were
      stable at one time are a prefix of those that are stable at any later time. */
  lemma {:induction false} StableIsNeverLost(ss: seq<Store>, m: nat, n: nat)
    requires StoreRun(ss) && m <= n < |ss|
    ensures StoreInv(ss[n]) && Committed(ss[m]) <= Committed(ss[n])
    decreases n
  {
    if n == 0 {
      StoreStartInv(ss[0]);
    } else {
      StableIsNeverLost(ss, if m < n then m else m - 1, n - 1);
      StepKeepsCommitted(ss[n - 1], ss[n]);
    }
  }

  // ---------------------------------------------------------------------------------
  // Coordinates of the buffers
  // ---------------------------------------------------------------------------------

  /** The buffer whose reported interval holds x. */
  lemma {:induction false} ExtentOf(s: Log, x: Lsn, k: nat) returns (j: nat)
    requires LaidOut(s.size, s.items) && BufferChain(s) && 0 < k < |s.bufs| && s.bufs[0].lsn <= x < s.bufs[k].lsn
    ensures j < k && Within(Extent(s.bufs[j]), x)
  {
    assert Succeeds(s.bufs[k - 1], s.bufs[k]);
    if s.bufs[k - 1].lsn <= x {
      j := k - 1;
    } else {
      j := ExtentOf(s, x, k - 1);
    }
  }

  /** In every run, buffers end with their segment, LSN and file offset agree modulo the
      segment size, and the intervals passed to `mark_interval` tile the LSN space from the
      process start to the current buffer: each place is in exactly one. */
  lemma BuffersTile(ss: seq<Store>, n: nat, x: Lsn) returns (j: nat)
    requires StoreRun(ss) && n < |ss|
    requires ss[n].log.bufs[0].lsn <= x < Current(ss[n].log).lsn
    ensures var s := ss[n].log;
            && s.size > 0
            && (forall h :: 0 <= h < |s.bufs| ==> s.bufs[h].base + s.bufs[h].capacity == s.size)
            && (forall h :: 0 <= h < |s.bufs| ==> s.bufs[h].lsn % s.size == s.bufs[h].offset % s.size == s.bufs[h].base)
            && j < |s.bufs| - 1 && Within(Extent(s.bufs[j]), x)
            && (forall h :: 0 <= h < |s.bufs| - 1 && h != j ==> !Within(Extent(s.bufs[h]), x))
  {
    var s := ss[n].log;
    StableIsNeverLost(ss, 0, n);
    j := ExtentOf(s, x, |s.bufs| - 1);
    forall h | 0 <= h < |s.bufs| - 1 && h != j ensures !Within(Extent(s.bufs[h]), x) {
      Disjoint(s, h, j);
    }
    assert forall h :: 0 <= h < |s.bufs| ==> Sized(s.size, s.bufs[h]);
  }

  // ---------------------------------------------------------------------------------
  // Every crash has a recovery
  // ---------------------------------------------------------------------------------

  /** The header of the segment in which the first n items end. */
  lemma SegmentOf(im: Image, n: nat, lsn: nat) returns (g: nat)
    requires WellFormed(im) && TipAfter(im, n, InSegment(lsn))
    ensures g < n && IsHeader(im, g) && im.items[g].lsn == lsn / im.size * im.size
  {
    var l := lsn / im.size * im.size;
    assert lsn == l + lsn % im.size;
    assert Placed(im.size, im.items[0]);
    LsnOrder(im, 0, n);
    FloorBounds(im.size, im.items[0].lsn, lsn);
    if n < |im.items| { LsnOrder(im, n, |im.items|); }
    HeaderAtMultiple(im, l, 0);
    g :| IsHeader(im, g) && im.items[g].lsn == l;
    if n < g { LsnOrder(im, n, g); }
  }

  lemma AtOffset(size: nat, lsn: nat, offset: nat)
    requires size > 0 && offset == lsn % size
    ensures At(size, offset, offset)
  {
  }

  lemma ResumeExists(im: Image, n: nat, lsn: nat) returns (s': Log)
    requires WellFormed(im) && TipAfter(im, n, InSegment(lsn))
    ensures ResumesAt(im, n, lsn, s')
  {
    var g := SegmentOf(im, n, lsn);
    SuffixLaidOut(im, g, n);
    var offset := lsn % im.size;
    AtOffset(im.size, lsn, offset);
    s' := ResumeAt(im, g, n, offset);
    assert ResumesIn(im, n, lsn, g, offset, s');
  }

  /** The new process can start wherever recovery says. */
  lemma RestartExists(s: Log, n: nat, tip: Tip) returns (s': Log)
    requires |s.bufs| > 0 && WellFormed(CrashImage(s)) && TipAfter(CrashImage(s), n, tip)
    ensures Restarted(s, n, tip, s')
  {
    if tip.InSegment? {
      s' := ResumeExists(CrashImage(s), n, tip.lsn);
    } else {
      assert At(s.size, 0, 0);
      s' := FreshAt(s.size, if tip.AtSnapshot? then s.bufs[0].lsn else tip.lsn, 0);
    }
  }

  /** Whatever recovery reads reaches at least to where the process began to write. */
  lemma RecoveredIsFarEnough(s: Log, n: nat)
    requires Inv(s) && n <= |s.items| && RecoversTo(CrashImage(s), s.track.published, n, Records(s.items, 0, n))
    requires 0 < n && (s.bufs[0].first > 0 ==> s.bufs[0].base > 0)
    ensures s.bufs[0].lsn <= LsnAt(CrashImage(s), n)
  {
    var b, im := s.bufs[0], CrashImage(s);
    assert BeginsAt(s.items, b);
    assert |s.bufs| > 1 ==> Precedes(b, Current(s));
    if b.first == 0 {
      LsnOrder(im, 0, n);
    } else {
      LastIsReplayed(s);
      if b.first < n { LsnOrder(im, b.first, n); }
    }
  }

  /** The last item before the process began is a message or a header, and it is stable. */
  lemma LastIsReplayed(s: Log)
    requires LaidOut(s.size, s.items) && BufferChain(s) && Sound(s.track) && TrackInv(s)
    requires 0 < s.bufs[0].first && s.bufs[0].base > 0
    ensures s.bufs[0].first <= |s.items|
    ensures var it := s.items[s.bufs[0].first - 1]; !it.kind.Pad? && it.lsn <= s.track.published
    ensures LsnAt(CrashImage(s), s.bufs[0].first) == s.bufs[0].lsn
  {
    var b := s.bufs[0];
    assert BeginsAt(s.items, b);
    assert |s.bufs| > 1 ==> Precedes(b, Current(s));
    var it := s.items[b.first - 1];
    assert Placed(s.size, it);
    assert b.first < |s.items| ==> Follows(s.size, it, s.items[b.first]);
  }

  /** What recovery computes is a step of the store. */
  lemma CrashExists(s: Store, n: nat, r: Recovered) returns (s': Store)
    requires StoreInv(s) && n <= |s.log.items| && WellFormed(CrashImage(s.log))
    requires TipAfter(CrashImage(s.log), n, r.tip) && r.stable == Stored(s.stable, r.tip)
    requires RecoversTo(CrashImage(s.log), s.log.track.published, n, Records(s.log.items, 0, n))
    requires r.entries == s.snap + Newer(Records(s.log.items, 0, n), From(s.stable))
    ensures CrashTo(s, n, r.tip, s') && s'.snap == r.entries && s'.stable == r.stable && |s'.log.bufs| > 0
  {
    var log := RestartExists(s.log, n, r.tip);
    RestartIsGood(s.log, s.stable, n, r.tip, log);
    s' := Store(r.entries, r.stable, log);
  }

  /** Recovery can run after a crash at any point of any run: it never finds the snapshot or the
      log corrupted, and what it computes is the snapshot and the tip of the run's next state. */
  method RecoverAfterCrash(ghost ss: seq<Store>, im: Image, snap: seq<Entry>, stable: Option<nat>)
    returns (r: Result<Recovered>, ghost n: nat, ghost s': Store)
    requires StoreRun(ss)
    requires var s := ss[|ss| - 1]; im == CrashImage(s.log) && snap == s.snap && stable == s.stable
    ensures r.Ok? && n <= |ss[|ss| - 1].log.items| && CrashTo(ss[|ss| - 1], n, r.value.tip, s')
    ensures s'.snap == r.value.entries && s'.stable == r.value.stable
    ensures |s'.log.bufs| > 0 && StoreRun(ss + [s'])
  {
    ghost var s := ss[|ss| - 1];
    RunIsDurable(ss);
    r, n := Recover(im, snap, stable, s.log.track.published);
    if n > 0 { SnapshotIsNotAhead(s, n); }
    s' := CrashExists(s, n, r.value);
    RunGoesOn(ss, s', n, r.value.tip);
  }

  lemma SnapshotIsNotAhead(s: Store, n: nat)
    requires StoreInv(s) && 0 < n <= |s.log.items| && WellFormed(CrashImage(s.log))
    requires RecoversTo(CrashImage(s.log), s.log.track.published, n, Records(s.log.items, 0, n))
    ensures From(s.stable) <= StoredLsn(s.log.size, LsnAt(CrashImage(s.log), n))
  {
    RecoveredIsFarEnough(s.log, n);
    StoredIsLater(s.log.size, LsnAt(CrashImage(s.log), n));
  }

  lemma StoredIsLater(size: nat, lsn: nat)
    requires size > 0
    ensures lsn <= StoredLsn(size, lsn)
  {
    assert lsn == lsn / size * size + lsn % size;
  }

  lemma RunIsDurable(ss: seq<Store>)
    requires StoreRun(ss)
    ensures var s := ss[|ss| - 1];
      StoreInv(s) && Durable(CrashImage(s.log), s.log.track.published) && WellFormed(CrashImage(s.log))
  {
    StableIsNeverLost(ss, 0, |ss| - 1);
    CrashIsDurable(ss[|ss| - 1].log);
  }

  lemma RunGoesOn(ss: seq<Store>, s': Store, n: nat, tip: Tip)
    requires StoreRun(ss) && n <= |ss[|ss| - 1].log.items| && CrashTo(ss[|ss| - 1], n, tip, s') && |s'.log.bufs| > 0
    ensures StoreRun(ss + [s'])
  {
    var tt := ss + [s'];
    forall i, j | 0 <= i && j == i + 1 < |tt| ensures StoreStep(tt[i], tt[j]) {
      if j < |ss| { assert StoreStep(ss[i], ss[j]); }
    }
  }
}
