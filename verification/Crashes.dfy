/** Whole runs: the write path, crashes at any point, recovery, and the write path again. */
module Crashes {
  import opened Base
  import opened Stability
  import opened WriteLog
  import opened LogIterator
  import opened Recovery
  import opened Replay
  import opened WriteLogRuns

  function CrashImage(s: Log): Image {
    Image(s.size, s.items, s.disk)
  }

  lemma StableManifest(s: Log, i: nat)
    requires LaidOut(s.size, s.items) && BufferChain(s) && Sound(s.track) && TrackInv(s) && BatchInv(s)
    requires i < |s.items| && s.items[i].kind.Manifest? && s.items[i].lsn <= s.track.published
    ensures s.items[i].kind.last <= s.track.published
  {
  }

  /** Of two batches the later one, if unstable, begins after the other's end. */
  lemma BatchesApart(s: Log, i: nat, j: nat)
    requires LaidOut(s.size, s.items) && BufferChain(s) && Sound(s.track) && TrackInv(s) && BatchInv(s)
    requires i < j < |s.items| && s.items[i].kind.Manifest? && s.items[j].kind.Manifest?
             && s.track.published < s.items[j].lsn
    ensures s.items[i].kind.last < s.items[j].lsn
  {
    LsnsIncrease(s.size, s.items, i, j);
    assert BeginsAt(s.items, s.bufs[0]);
    if j < s.bufs[0].first {
      if s.bufs[0].first < |s.items| { LsnsIncrease(s.size, s.items, j, s.bufs[0].first); }
    } else if i < s.bufs[0].first {
      LsnsIncrease(s.size, s.items, s.bufs[0].first, j);
    }
  }

  /** Whatever a crash leaves on disk can be recovered. */
  lemma CrashIsDurable(s: Log)
    requires Inv(s)
    ensures Durable(CrashImage(s), s.track.published)
  {
    StartIsInLog(s);
    StableIsDurable(s);
    forall i, j | 0 <= i < j < |s.items| && s.items[i].kind.Manifest? && s.items[j].kind.Manifest?
        && s.track.published < s.items[j].lsn
      ensures s.items[i].kind.last < s.items[j].lsn
    {
      BatchesApart(s, i, j);
    }
  }

  lemma StartIsInLog(s: Log)
    requires LaidOut(s.size, s.items) && BufferChain(s) && DiskInv(s) && Sound(s.track) && TrackInv(s)
    ensures s.items[0].lsn - 1 <= s.track.published < End(s.items)
  {
    PublishedBelowEnd(s);
    assert BeginsAt(s.items, s.bufs[0]);
    LsnsIncrease(s.size, s.items, 0, |s.items| - 1);
    if 0 < s.bufs[0].first < |s.items| { LsnsIncrease(s.size, s.items, 0, s.bufs[0].first); }
  }

  /** What is stable can be read, and no stable batch reaches beyond it. */
  lemma StableIsDurable(s: Log)
    requires Inv(s)
    ensures forall i :: 0 <= i < |s.items| && s.items[i].lsn <= s.track.published ==> Readable(CrashImage(s), i)
    ensures forall i :: 0 <= i < |s.items| && s.items[i].kind.Manifest? && s.items[i].lsn <= s.track.published ==>
              s.items[i].kind.last <= s.track.published
  {
    var im := CrashImage(s);
    forall i | 0 <= i < |s.items| && s.items[i].lsn <= s.track.published ensures Readable(im, i) {
      StableIsOnDisk(s, i);
    }
    forall i | 0 <= i < |s.items| && s.items[i].kind.Manifest? && s.items[i].lsn <= s.track.published
      ensures s.items[i].kind.last <= s.track.published
    {
      StableManifest(s, i);
    }
  }

  // ---------------------------------------------------------------------------------
  // Starting again
  // ---------------------------------------------------------------------------------

  /** `IoBufs::start` in a fresh segment at file offset `lid`. */
  function FreshAt(size: nat, lsn: nat, lid: nat): Log {
    Log(size, [Item(lsn, 0, SEG_HEADER_LEN, SegHeader(lsn - 1))],
        [IoBuf(0, lid, lsn, size, SEG_HEADER_LEN, false, false, 0)],
        {}, {}, Begin(lsn - 1), None, lsn - 1)
  }

  predicate OnDisk(im: Image, g: nat, i: nat) {
    g + i in im.disk
  }

  /** `IoBufs::start` in the middle of the segment that begins with item g: the rest of
      the segment was overwritten, and earlier segments are in the snapshot. */
  function ResumeAt(im: Image, g: nat, n: nat, offset: nat): Log
    requires g < n <= |im.items| && NextOff(im.size, im.items[g..n]) <= im.size
  {
    var items := im.items[g..n];
    var base := NextOff(im.size, items);
    Log(im.size, items, [IoBuf(base, offset, End(items), im.size - base, 0, false, false, |items|)],
        set i: nat | i < n - g && OnDisk(im, g, i), {}, Begin(End(items) - 1), None, End(items) - 1)
  }

  ghost predicate ResumesIn(im: Image, n: nat, lsn: nat, g: nat, offset: nat, s': Log) {
    && g < n <= |im.items| && IsHeader(im, g) && im.size > 0 && im.items[g].lsn == lsn / im.size * im.size
    && NextOff(im.size, im.items[g..n]) <= im.size && At(im.size, offset, lsn % im.size)
    && s' == ResumeAt(im, g, n, offset)
  }

  ghost predicate ResumesAt(im: Image, n: nat, lsn: nat, s': Log) {
    exists g: nat, offset: nat :: ResumesIn(im, n, lsn, g, offset, s')
  }

  ghost predicate Restarted(s: Log, n: nat, tip: Tip, s': Log)
    requires |s.bufs| > 0
  {
    match tip
    case AtSnapshot => exists lid: nat :: At(s.size, lid, 0) && s' == FreshAt(s.size, s.bufs[0].lsn, lid)
    case FreshSegment(_, lsn) => exists lid: nat :: At(s.size, lid, 0) && s' == FreshAt(s.size, lsn, lid)
    case InSegment(lsn) => ResumesAt(CrashImage(s), n, lsn, s')
  }

  lemma FreshStarts(size: nat, lsn: nat, lid: nat)
    requires size >= 256 && At(size, lsn, 0) && At(size, lid, 0)
    ensures Start(FreshAt(size, lsn, lid))
  {
  }

  /** The suffix of a well-formed log that begins with a segment header is one. */
  lemma SuffixLaidOut(im: Image, g: nat, n: nat)
    requires WellFormed(im) && IsHeader(im, g) && g < n <= |im.items|
    ensures LaidOut(im.size, im.items[g..n]) && End(im.items[g..n]) == LsnAt(im, n)
    ensures n < |im.items| ==> NextOff(im.size, im.items[g..n]) == im.items[n].off
    ensures At(im.size, LsnAt(im, n), NextOff(im.size, im.items[g..n]))
  {
    var items := im.items[g..n];
    assert forall i :: 0 <= i < |items| ==> items[i] == im.items[g + i];
    forall i, j | 0 <= i && j == i + 1 < |items| ensures Follows(im.size, items[i], items[j]) {
      assert Follows(im.size, im.items[g + i], im.items[g + j]);
    }
    assert n < |im.items| ==> Follows(im.size, im.items[n - 1], im.items[n]);
    assert Placed(im.size, im.items[n - 1]);
    Advance(im.size, im.items[n - 1].lsn, im.items[n - 1].off, im.items[n - 1].len);
  }

  lemma SuffixEndsMessage(im: Image, g: nat, n: nat, m: nat)
    requires WellFormed(im) && g <= m < n <= |im.items| && im.items[m].kind.Manifest?
    requires EndsMessage(im.items, im.items[m].kind.last) && im.items[m].lsn <= im.items[m].kind.last < LsnAt(im, n)
    ensures EndsMessage(im.items[g..n], im.items[m].kind.last)
  {
    var k :| 0 <= k < |im.items| && IsMessage(im.items[k].kind)
        && im.items[k].lsn + im.items[k].len - 1 == im.items[m].kind.last;
    if k < m { LsnOrder(im, k, m); }
    if n < k { LsnOrder(im, n, k); }
    assert Placed(im.size, im.items[k]);
    assert im.items[g..n][k - g] == im.items[k];
  }

  /** No batch of the replayed prefix reaches beyond it. */
  lemma ResumedManifests(s: Log, n: nat, g: nat, items: seq<Item>)
    requires EndsInv(s) && WellFormed(CrashImage(s)) && g < n <= |s.items| && items == s.items[g..n]
    requires End(items) == LsnAt(CrashImage(s), n)
    requires forall m :: 0 <= m < n && s.items[m].kind.Manifest? ==> s.items[m].kind.last < LsnAt(CrashImage(s), n)
    ensures forall i :: 0 <= i < |items| && items[i].kind.Manifest? ==>
              items[i].lsn <= items[i].kind.last < End(items) && EndsMessage(items, items[i].kind.last)
  {
    forall i | 0 <= i < |items| && items[i].kind.Manifest?
      ensures items[i].lsn <= items[i].kind.last < End(items) && EndsMessage(items, items[i].kind.last)
    {
      assert items[i] == s.items[g + i];
      SuffixEndsMessage(CrashImage(s), g, n, g + i);
    }
  }

  /** Every replayed item is on disk and finished. */
  lemma ResumedItems(s: Log, n: nat, g: nat, items: seq<Item>, disk: set<nat>)
    requires |s.bufs| > 0 && TrackInv(s) && WellFormed(CrashImage(s)) && g < n <= |s.items|
    requires items == s.items[g..n] && disk == set i: nat | i < n - g && OnDisk(CrashImage(s), g, i)
    requires forall i :: 0 <= i < n ==> Readable(CrashImage(s), i) && !InFlight(s.items[i].kind)
    ensures forall i :: 0 <= i < |items| ==> (i in disk || RedZone(items[i])) && !InFlight(items[i].kind)
    ensures forall i :: 0 <= i < |items| ==> At(s.size, items[i].lsn, items[i].off)
    ensures forall i :: 0 <= i < |items| && items[i].kind.SegHeader? ==> items[i].kind.maxStable < items[i].lsn
  {
    forall i | 0 <= i < |items|
      ensures (i in disk || RedZone(items[i])) && !InFlight(items[i].kind) && At(s.size, items[i].lsn, items[i].off)
      ensures items[i].kind.SegHeader? ==> items[i].kind.maxStable < items[i].lsn
    {
      assert items[i] == s.items[g + i] && Readable(CrashImage(s), g + i) && !InFlight(s.items[g + i].kind);
    }
  }

  lemma ResumedStarts(s: Log, n: nat, g: nat, offset: nat)
    requires EndsInv(s) && |s.bufs| > 0 && TrackInv(s) && WellFormed(CrashImage(s)) && g < n <= |s.items|
             && IsHeader(CrashImage(s), g)
    requires RecoversTo(CrashImage(s), s.track.published, n, Records(s.items, 0, n))
    requires 0 < NextOff(s.size, s.items[g..n]) && At(s.size, offset, NextOff(s.size, s.items[g..n]))
    ensures Start(ResumeAt(CrashImage(s), g, n, offset))
  {
    var im := CrashImage(s);
    var s' := ResumeAt(im, g, n, offset);
    SuffixLaidOut(im, g, n);
    ResumedManifests(s, n, g, s'.items);
    ResumedItems(s, n, g, s'.items, s'.disk);
  }
}
