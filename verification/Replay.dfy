/** The second stage of recovery: replay the log up to the end that the first stage found. */
module Replay {
  import opened Base
  import opened WriteLog
  import opened LogIterator
  import opened Recovery

  /** Every item that begins at or before `end` can be read. */
  ghost predicate ReadableUpTo(im: Image, end: Lsn) {
    forall i :: 0 <= i < |im.items| && im.items[i].lsn <= end ==> Readable(im, i)
  }

  /** No segment is missing at or below the published stable LSN. */
  lemma MissingIsUnstable(im: Image, published: Lsn, missing: nat)
    requires Durable(im, published) && At(im.size, missing, 0) && im.items[0].lsn <= missing
             && !HeaderOnDisk(im, missing)
    ensures published < missing
  {
    if missing <= published {
      HeaderAtMultiple(im, missing, 0);
    }
  }

  /** A stable segment is within reach of the first stage. */
  lemma StableHeaderReached(im: Image, published: Lsn, ordering: seq<nat>, start: nat, tail: seq<nat>,
                            missing: Option<nat>, h: nat)
    requires Durable(im, published) && ListsHeaders(im, ordering) && IsHeader(im, start)
    requires ConnectedTail(im, ordering, im.items[start].lsn, tail, missing)
    requires IsHeader(im, h) && start <= h && im.items[h].lsn <= published
    ensures !Unreachable(im, missing, tail, h)
  {
    if start < h { LsnOrder(im, start, h); }
    if 0 < start { LsnOrder(im, 0, start); }
    assert Readable(im, h) && HeaderOnDisk(im, im.items[h].lsn);
    if missing.Some? { MissingIsUnstable(im, published, missing.value); }
  }

  /** The first stage stops beyond everything stable. */
  lemma StableIsScanned(im: Image, published: Lsn, ordering: seq<nat>, start: nat, tail: seq<nat>,
                        missing: Option<nat>, n: nat, end: Lsn, i: nat)
    requires Durable(im, published) && ListsHeaders(im, ordering)
             && TailScanned(im, ordering, start, tail, missing, n, end)
    requires i < |im.items| && !im.items[i].kind.Pad? && im.items[i].lsn <= published
    ensures i < n
  {
    if n <= i {
      if n < i { LsnOrder(im, n, i); }
      if 0 < start { LsnOrder(im, 0, start); }
      if missing.Some? { MissingIsUnstable(im, published, missing.value); }
      var h := NextHeader(im, n);
      if Boundary(im, n) {
        NextHeaderIsHeader(im, n);
        if h < i { LsnOrder(im, h, i); }
        StableHeaderReached(im, published, ordering, start, tail, missing, h);
      }
    }
  }

  lemma StableBelowEnd(im: Image, published: Lsn, ordering: seq<nat>, start: nat, tail: seq<nat>,
                       missing: Option<nat>, n: nat, end: Lsn, i: nat)
    requires Durable(im, published) && ListsHeaders(im, ordering)
             && TailScanned(im, ordering, start, tail, missing, n, end)
    requires start == 0 || im.items[start].lsn <= published
    requires i < |im.items| && !im.items[i].kind.Pad? && im.items[i].lsn <= published
    ensures im.items[i].lsn + im.items[i].len - 1 <= end
  {
    StableIsScanned(im, published, ordering, start, tail, missing, n, end, i);
    LsnOrder(im, i, n);
    if start != 0 {
      StableIsScanned(im, published, ordering, start, tail, missing, n, end, start);
    }
  }

  lemma BelowEndIsReadable(im: Image, published: Lsn, ordering: seq<nat>, start: nat, tail: seq<nat>,
                           missing: Option<nat>, n: nat, end: Lsn)
    requires Durable(im, published) && TailScanned(im, ordering, start, tail, missing, n, end)
    requires start == 0 || im.items[start].lsn <= published
    ensures ReadableUpTo(im, end) && end < End(im.items)
  {
    if n < |im.items| { LsnOrder(im, n, |im.items|); }
    forall i | 0 <= i < |im.items| && im.items[i].lsn <= end ensures Readable(im, i) {
      if i < start {
        LsnOrder(im, i, start);
      } else if i < n {
        assert Passed(im, missing, i);
      } else if n < i {
        LsnOrder(im, n, i);
      }
    }
  }

  lemma OrderingGapless(im: Image, ordering: seq<nat>, end: Lsn)
    requires WellFormed(im) && ListsHeaders(im, ordering) && ReadableUpTo(im, end)
    ensures Gapless(im, Some(end), 0, ordering)
    ensures forall l :: l in ordering ==> HeaderOnDisk(im, l) && im.items[0].lsn <= l
  {
    forall g: nat, h: nat | g <= h && IsHeader(im, g) && IsHeader(im, h) && im.items[h].lsn in ordering
        && !Exceeds(Some(end), im.items[h].lsn)
      ensures im.items[g].lsn in ordering
    {
      if g < h { LsnOrder(im, g, h); }
      assert HeaderOnDisk(im, im.items[g].lsn);
    }
    forall l | l in ordering ensures im.items[0].lsn <= l {
      var h: nat :| IsHeader(im, h) && h in im.disk && im.items[h].lsn == l;
      if 0 < h { LsnOrder(im, 0, h); }
    }
  }

  /** What the second stage has found when it stops before item n. */
  ghost predicate Replayed(im: Image, ordering: seq<nat>, end: Lsn, n: nat) {
    && ListsHeaders(im, ordering) && ReadableUpTo(im, end)
    && AllPassed(im, Some(end), 0, n)
    && Stopped(im, Some(end), ordering, n)
  }

  /** Where the second stage stops, only items after `end` or of a later torn batch are
      left out. */
  lemma StopIsPastEnd(im: Image, ordering: seq<nat>, end: Lsn, n: nat, i: nat)
    requires WellFormed(im) && Replayed(im, ordering, end, n)
    requires n <= i < |im.items| && !im.items[i].kind.Pad? && !Torn(im, Some(end), n)
    ensures end < im.items[i].lsn
  {
    if n < i { LsnOrder(im, n, i); }
    if Boundary(im, n) {
      var h := NextHeader(im, n);
      NextHeaderIsHeader(im, n);
      if h < i { LsnOrder(im, h, i); }
      if im.items[h].lsn <= end {
        assert Readable(im, h) && HeaderOnDisk(im, im.items[h].lsn);
      }
    }
  }

  /** Everything stable ends at or before `end`. */
  ghost predicate StableUpTo(im: Image, published: Lsn, end: Lsn) {
    forall k :: 0 <= k < |im.items| && !im.items[k].kind.Pad? && im.items[k].lsn <= published ==>
      im.items[k].lsn + im.items[k].len - 1 <= end
  }

  /** Only an unstable batch is torn. */
  lemma TornIsUnstable(im: Image, published: Lsn, end: Lsn, n: nat)
    requires Durable(im, published) && StableUpTo(im, published, end) && n < |im.items| && Torn(im, Some(end), n)
    ensures published < im.items[n].lsn
  {
  }

  /** Each batch is recovered entirely or not at all. */
  lemma BatchesAreWhole(im: Image, published: Lsn, ordering: seq<nat>, end: Lsn, n: nat, m: nat)
    requires Durable(im, published) && Replayed(im, ordering, end, n) && StableUpTo(im, published, end)
    requires m < n && im.items[m].kind.Manifest?
    ensures im.items[m].kind.last < LsnAt(im, n)
  {
    assert Passed(im, Some(end), m);
    var last := im.items[m].kind.last;
    var k :| 0 <= k < |im.items| && IsMessage(im.items[k].kind) && im.items[k].lsn + im.items[k].len - 1 == last;
    if k < n {
      LsnOrder(im, k, n);
    } else if Torn(im, Some(end), n) {
      TornIsUnstable(im, published, end, n);
    } else {
      assert Placed(im.size, im.items[k]);
      StopIsPastEnd(im, ordering, end, n, k);
    }
  }

  /** Everything at or below the published stable LSN is recovered. */
  lemma StableIsReplayed(im: Image, published: Lsn, ordering: seq<nat>, end: Lsn, n: nat, i: nat)
    requires Durable(im, published) && Replayed(im, ordering, end, n) && StableUpTo(im, published, end)
    requires i < |im.items| && !im.items[i].kind.Pad? && im.items[i].lsn <= published
    ensures i < n
  {
    if n <= i {
      if n < i { LsnOrder(im, n, i); }
      assert Placed(im.size, im.items[i]);
      if Torn(im, Some(end), n) {
        TornIsUnstable(im, published, end, n);
      } else {
        StopIsPastEnd(im, ordering, end, n, i);
      }
    }
  }

  lemma RecoveredPrefix(im: Image, published: Lsn, ordering: seq<nat>, end: Lsn, n: nat)
    requires Durable(im, published) && Replayed(im, ordering, end, n) && StableUpTo(im, published, end)
    ensures RecoversTo(im, published, n, Records(im.items, 0, n))
  {
    forall i | 0 <= i < n ensures Readable(im, i) && !InFlight(im.items[i].kind) {
      assert Passed(im, Some(end), i);
    }
    forall i | 0 <= i < |im.items| && !im.items[i].kind.Pad? && im.items[i].lsn <= published ensures i < n {
      StableIsReplayed(im, published, ordering, end, n, i);
    }
    forall m | 0 <= m < n && im.items[m].kind.Manifest? ensures im.items[m].kind.last < LsnAt(im, n) {
      BatchesAreWhole(im, published, ordering, end, n, m);
    }
  }

  /** The stable LSN that `advance_snapshot` stores when the iteration ended at lsn. */
  function StoredLsn(size: nat, lsn: nat): nat
    requires size > 0
  {
    if lsn % size + MAX_MSG_HEADER_LEN >= size then lsn / size * size + size else lsn
  }

  /** Where the next process begins to write: in the segment that was being written, in a
      fresh segment, or, when nothing was read, where the last snapshot says. */
  datatype Tip = InSegment(lsn: nat) | FreshSegment(stored: nat, lsn: nat) | AtSnapshot

  ghost predicate TipAfter(im: Image, n: nat, tip: Tip) {
    && im.size > 0 && |im.items| > 0 && n <= |im.items|
    && (tip.AtSnapshot? <==> n == 0)
    && (tip.FreshSegment? ==>
          At(im.size, tip.lsn, 0) && LsnAt(im, n) <= tip.stored == StoredLsn(im.size, LsnAt(im, n)) <= tip.lsn)
    && (tip.InSegment? ==>
          && tip.lsn == LsnAt(im, n) == StoredLsn(im.size, LsnAt(im, n))
          && tip.lsn % im.size >= SEG_HEADER_LEN && tip.lsn % im.size + MAX_MSG_HEADER_LEN < im.size)
  }

  /** The snapshot's stable LSN afterwards. */
  function Stored(stable: Option<nat>, tip: Tip): Option<nat> {
    match tip
    case AtSnapshot => stable
    case FreshSegment(stored, _) => Some(stored)
    case InSegment(lsn) => Some(lsn)
  }

  /** What `advance_snapshot` asks of the iterator: it stopped behind a segment's header, or
      between two segments. */
  predicate Monotonic(size: nat, lsn: nat, inSegment: bool)
    requires size > 0
  {
    lsn % size >= SEG_HEADER_LEN || (lsn % size == 0 && !inSegment)
  }

  lemma IteratorIsMonotonic(c: Scan)
    requires ValidScan(c) && !c.lost && c.cur.Some?
    requires c.base.Some? ==> ValidEntryOffset(c.cur.value, c.im.size)
    ensures Monotonic(c.im.size, c.cur.value, c.base.Some?) && 0 < c.cur.value
  {
    var it := c.im.items[c.at - 1];
    assert Placed(c.im.size, it);
    assert c.at < |c.im.items| ==> Follows(c.im.size, it, c.im.items[c.at]) && Placed(c.im.size, c.im.items[c.at]);
    Advance(c.im.size, it.lsn, it.off, it.len);
  }

  /** The coordinates that `advance_snapshot` stores and `recovered_coords` returns. */
  method RecoveredTip(size: nat, lsn: nat, inSegment: bool) returns (tip: Tip)
    requires size > MAX_MSG_HEADER_LEN && Monotonic(size, lsn, inSegment)
    ensures tip.InSegment? ==> tip.lsn == lsn == StoredLsn(size, lsn) && lsn % size + MAX_MSG_HEADER_LEN < size
    ensures tip.InSegment? ==> lsn % size >= SEG_HEADER_LEN
    ensures tip.FreshSegment? ==> At(size, tip.lsn, 0) && lsn <= tip.stored == StoredLsn(size, lsn) <= tip.lsn
    ensures !tip.AtSnapshot?
  {
    DivModUnique(size, lsn / size, 0);
    DivModUnique(size, lsn / size + 1, 0);
    assert lsn == lsn / size * size + lsn % size;
    assert (lsn / size + 1) * size == lsn / size * size + size;
    if lsn % size + MAX_MSG_HEADER_LEN >= size {
      return FreshSegment(lsn / size * size + size, lsn / size * size + size);
    } else if inSegment {
      return InSegment(lsn);
    } else {
      return FreshSegment(lsn, (lsn / size + if lsn % size == 0 then 0 else 1) * size);
    }
  }

  /** The entries that the snapshot does not hold yet. */
  function Newer(es: seq<Entry>, from: nat): seq<Entry> {
    if es == [] then []
    else Newer(es[..|es| - 1], from) + if es[|es| - 1].lsn < from then [] else [es[|es| - 1]]
  }

  /** What recovery computes: the snapshot's entries and stable LSN, and where to write on. */
  datatype Recovered = Recovered(entries: seq<Entry>, stable: Option<nat>, tip: Tip)

  function From(stable: Option<nat>): nat {
    if stable.Some? then stable.value else 0
  }

  /** `read_snapshot_or_default`: build the new snapshot from the last one and the log. Of the
      corruption errors, only that of a snapshot ahead of the log can occur, and it does
      exactly when the new stable LSN would be below the old one. */
  method Recover(im: Image, snap: seq<Entry>, stable: Option<nat>, ghost published: Lsn)
    returns (r: Result<Recovered>, ghost n: nat)
    requires Durable(im, published) && (stable.None? ==> snap == [])
    ensures n <= |im.items| && RecoversTo(im, published, n, Records(im.items, 0, n))
    ensures r.Err? <==> 0 < n && stable.Some? && StoredLsn(im.size, LsnAt(im, n)) < stable.value
    ensures r.Ok? ==> TipAfter(im, n, r.value.tip) && r.value.stable == Stored(stable, r.value.tip)
    ensures r.Ok? ==> r.value.entries == snap + Newer(Records(im.items, 0, n), From(stable))
  {
    var ordering, maxStable := ScanHeaders(im);
    var end, start, tail, missing, n1 := EndOfTail(im, ordering, maxStable, published);
    StageOne(im, published, ordering, start, tail, missing, n1, end);
    OrderingGapless(im, ordering, end);
    var iter := new LogIter(im, ordering, Some(end), true, 0);
    ghost var c0 := iter.View();
    var out := Drain(iter);
    n := iter.at;
    ReplayDrained(c0, iter.View(), out, end, ordering);
    RecoveredPrefix(im, published, ordering, end, n);
    var entries := Apply(snap, out, From(stable));
    r := Advanced(im, iter.curLsn, iter.segmentBase.Some?, entries, stable, iter.View(), n);
  }

  /** The end of `advance_snapshot`. */
  method Advanced(im: Image, cur: Option<nat>, inSegment: bool, entries: seq<Entry>, stable: Option<nat>, ghost c: Scan,
                  ghost n: nat)
    returns (r: Result<Recovered>)
    requires ValidScan(c) && c.im == im && c.cur == cur && c.base.Some? == inSegment && !c.lost && c.at == n
    requires inSegment ==> cur.Some? && ValidEntryOffset(cur.value, im.size)
    requires (cur.None? <==> n == 0) && (n == 0 && stable.None? ==> entries == [])
    ensures r.Err? <==> 0 < n && stable.Some? && StoredLsn(im.size, LsnAt(im, n)) < stable.value
    ensures r.Ok? ==> r.value.entries == entries && TipAfter(im, n, r.value.tip)
    ensures r.Ok? ==> r.value.stable == Stored(stable, r.value.tip)
  {
    if cur.Some? { IteratorIsMonotonic(c); }
    var noProgress := cur.None? || cur.value <= From(stable);
    if noProgress && stable.None? {
      assert entries == [] && n == 0;      // the default snapshot
      return Ok(Recovered(entries, stable, AtSnapshot));
    } else if cur.None? {
      return Ok(Recovered(entries, stable, AtSnapshot));
    }
    var tip := RecoveredTip(im.size, cur.value, inSegment);
    var stored := StoredLsn(im.size, cur.value);
    if stored < From(stable) {
      return Err;
    }
    return Ok(Recovered(entries, Some(stored), tip));
  }

  lemma StageOne(im: Image, published: Lsn, ordering: seq<nat>, start: nat, tail: seq<nat>, missing: Option<nat>,
                 n: nat, end: Lsn)
    requires Durable(im, published) && ListsHeaders(im, ordering)
             && TailScanned(im, ordering, start, tail, missing, n, end)
    requires start == 0 || im.items[start].lsn <= published
    ensures ReadableUpTo(im, end) && end < End(im.items) && StableUpTo(im, published, end)
  {
    BelowEndIsReadable(im, published, ordering, start, tail, missing, n, end);
    forall k | 0 <= k < |im.items| && !im.items[k].kind.Pad? && im.items[k].lsn <= published
      ensures im.items[k].lsn + im.items[k].len - 1 <= end
    {
      StableBelowEnd(im, published, ordering, start, tail, missing, n, end, k);
    }
  }

  /** The second stage never meets a corrupted message, so it loses nothing. */
  lemma ReplayDrained(c0: Scan, c: Scan, out: seq<Entry>, end: Lsn, ordering: seq<nat>)
    requires Drained(c0, c, out) && c0.at == c0.start == 0 && c0.max == Some(end) && c0.all == ordering
    requires ReadableUpTo(c0.im, end) && end < End(c0.im.items) && ListsHeaders(c0.im, ordering)
    requires !c.lost ==> Stopped(c.im, c.max, c.all, c.at)
    ensures Replayed(c0.im, ordering, end, c.at) && out == Records(c0.im.items, 0, c.at)
    ensures !c.lost && (c.cur.None? <==> c.at == 0)
    ensures c.cur.Some? ==> c.cur.value == LsnAt(c.im, c.at)
  {
  }

  method Apply(snap: seq<Entry>, es: seq<Entry>, from: nat) returns (r: seq<Entry>)
    ensures r == snap + Newer(es, from)
  {
    r := snap;
    for i := 0 to |es|
      invariant r == snap + Newer(es[..i], from)
    {
      assert es[..i + 1][..i] == es[..i];
      if es[i].lsn >= from {
        r := r + [es[i]];
      }
    }
    assert es[..|es|] == es;
  }
}
