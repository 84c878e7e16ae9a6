/** What every step of the write path keeps, hence what holds in every reachable state. */
module WriteLogRuns {
  import opened Base
  import opened Stability
  import opened WriteLog

  /** `IoBufs::start`: a process begins either in a fresh segment, whose header it stores,
      or in the middle of the recovered segment. */
  ghost predicate FreshStart(s: Log) {
    && s.size >= 256 && |s.items| == 1 && |s.bufs| == 1
    && var b := s.bufs[0];
    && b == IoBuf(0, b.offset, b.lsn, s.size, SEG_HEADER_LEN, false, false, 0)
    && At(s.size, b.lsn, 0) && At(s.size, b.offset, 0)
    && s.items[0] == Item(b.lsn, 0, SEG_HEADER_LEN, SegHeader(b.lsn - 1))
    && s.disk == {}
  }

  ghost predicate ResumedStart(s: Log) {
    && LaidOut(s.size, s.items) && |s.bufs| == 1
    && var b := s.bufs[0];
    && b == IoBuf(NextOff(s.size, s.items), b.offset, End(s.items), b.capacity, 0, false, false, |s.items|)
    && At(s.size, b.offset, b.base) && b.base + b.capacity == s.size && b.base > 0
    && (forall i :: 0 <= i < |s.items| ==> At(s.size, s.items[i].lsn, s.items[i].off))
    && (forall i :: i in s.disk ==> i < |s.items|)
    && (forall i :: 0 <= i < |s.items| ==> i in s.disk || RedZone(s.items[i]))
    && (forall i :: 0 <= i < |s.items| ==> !InFlight(s.items[i].kind))
    && (forall i :: 0 <= i < |s.items| && s.items[i].kind.Manifest? ==>
          s.items[i].lsn <= s.items[i].kind.last < b.lsn && EndsMessage(s.items, s.items[i].kind.last))
    && (forall i :: 0 <= i < |s.items| && s.items[i].kind.SegHeader? ==> s.items[i].kind.maxStable < s.items[i].lsn)
  }

  ghost predicate Start(s: Log) {
    && (FreshStart(s) || ResumedStart(s))
    && s.track == Begin(s.bufs[0].lsn - 1)
    && s.reported == {} && s.batch == None && s.maxReserved == s.bufs[0].lsn - 1
  }

  // ---------------------------------------------------------------------------------
  // Layout of the items
  // ---------------------------------------------------------------------------------

  lemma {:induction false} LsnsIncrease(size: nat, items: seq<Item>, i: nat, j: nat)
    requires LaidOut(size, items) && i <= j < |items|
    ensures i < j ==> items[i].lsn + items[i].len <= items[j].lsn
    decreases j - i
  {
    if i < j {
      LsnsIncrease(size, items, i, j - 1);
      assert Follows(size, items[j - 1], items[j]);
    }
  }

  lemma AppendLaidOut(size: nat, items: seq<Item>, it: Item)
    requires LaidOut(size, items) && it.lsn == End(items) && it.off == NextOff(size, items) && Placed(size, it)
    ensures LaidOut(size, items + [it]) && End(items + [it]) == it.lsn + it.len
  {
  }

  lemma RelabelLaidOut(size: nat, items: seq<Item>, i: nat, k: Kind)
    requires LaidOut(size, items) && i < |items| && IsMessage(items[i].kind) && IsMessage(k)
    ensures LaidOut(size, items[i := items[i].(kind := k)]) && End(items[i := items[i].(kind := k)]) == End(items)
  {
  }

  // ---------------------------------------------------------------------------------
  // Frames: what a step keeps because it leaves the reported buffers alone
  // ---------------------------------------------------------------------------------

  /** s' has the same sealed buffers and the same tracker as s. */
  ghost predicate SameReports(s: Log, s': Log) {
    && s'.size == s.size > 0 && 0 < |s.bufs| <= |s'.bufs|
    && s'.track == s.track && s'.reported == s.reported
    && (forall j :: j in s.reported ==> j < |s.bufs| - 1)
    && (forall j :: 0 <= j < |s.bufs| - 1 ==> s'.bufs[j] == s.bufs[j])
    && s'.bufs[0].lsn == s.bufs[0].lsn && s'.bufs[0].first == s.bufs[0].first
    && |s.items| <= |s'.items|
  }

  lemma TrackFrame(s: Log, s': Log)
    requires SameReports(s, s') && TrackInv(s)
    requires forall i :: 0 <= i < |s'.items| && s'.items[i].kind.SegHeader? ==>
               s'.items[i].kind.maxStable <= s.track.published && s'.items[i].kind.maxStable < s'.items[i].lsn
    ensures TrackInv(s')
  {
    forall k | 0 <= k < |s'.track.reported|
      ensures Reported(s', s'.track.reported[k])
    {
      assert Reported(s, s.track.reported[k]);
      var j :| j in s.reported && j < |s.bufs| && s.track.reported[k] == Extent(s.bufs[j]);
      assert s'.bufs[j] == s.bufs[j];
    }
  }

  lemma DiskFrame(s: Log, s': Log)
    requires SameReports(s, s') && DiskInv(s) && s'.disk == s.disk
    requires forall i :: 0 <= i < |s.items| && !InFlight(s.items[i].kind) ==> s'.items[i] == s.items[i]
    requires forall i :: 0 <= i < |s.items| && InFlight(s.items[i].kind) ==> !RedZone(s.items[i])
    requires forall j :: 0 <= j < |s.bufs| - 1 ==> LastOf(s', j) == LastOf(s, j)
    requires Current(s).first <= Current(s').first && s.bufs[0].first <= |s.items|
    ensures DiskInv(s')
  {
    forall j, i: nat | j in s'.reported && j < |s'.bufs| && InBuffer(s', j, i) ensures i in s'.disk {
      assert InBuffer(s, j, i);
    }
    forall i | 0 <= i < s'.bufs[0].first && i < |s'.items| ensures i in s'.disk || RedZone(s'.items[i]) {
      assert i in s.disk || RedZone(s.items[i]);
    }
  }

  /** The messages of `items` are still messages, at the same places, in `items'`. */
  ghost predicate KeepsMessages(items: seq<Item>, items': seq<Item>) {
    && |items| <= |items'|
    && (forall i :: 0 <= i < |items| && IsMessage(items[i].kind) ==>
          IsMessage(items'[i].kind) && items'[i].lsn == items[i].lsn && items'[i].len == items[i].len)
  }

  lemma EndsFrame(items: seq<Item>, items': seq<Item>)
    requires KeepsMessages(items, items')
    ensures forall x :: EndsMessage(items, x) ==> EndsMessage(items', x)
  {
    forall x | EndsMessage(items, x) ensures EndsMessage(items', x) {
      var k :| 0 <= k < |items| && IsMessage(items[k].kind) && items[k].lsn + items[k].len - 1 == x;
      assert IsMessage(items'[k].kind) && items'[k].lsn + items'[k].len - 1 == x;
    }
  }

  lemma EndsStay(s: Log, s': Log)
    requires EndsInv(s) && s'.items == s.items && s'.maxReserved == s.maxReserved && s'.track.start == s.track.start
    ensures EndsInv(s')
  {
  }

  // ---------------------------------------------------------------------------------
  // Every step keeps the invariant
  // ---------------------------------------------------------------------------------

  lemma StartInv(s: Log)
    requires Start(s)
    ensures Inv(s)
  {
    BeginSound(s.bufs[0].lsn - 1);
    StartChain(s);
    StartRest(s);
  }

  lemma StartChain(s: Log)
    requires FreshStart(s) || ResumedStart(s)
    ensures LaidOut(s.size, s.items) && BufferChain(s) && Aligned(s)
  {
    if FreshStart(s) {
      assert Placed(s.size, s.items[0]);
    } else {
      var last := s.items[|s.items| - 1];
      Advance(s.size, last.lsn, last.off, last.len);
    }
  }

  lemma StartRest(s: Log)
    requires Start(s) && LaidOut(s.size, s.items)
    ensures DiskInv(s) && TrackInv(s) && BatchInv(s) && EndsInv(s)
  {
    forall i | 0 <= i < |s.items| ensures s.items[i].lsn + s.items[i].len <= End(s.items) {
      LsnsIncrease(s.size, s.items, i, |s.items| - 1);
    }
  }

  lemma ReserveChain(s: Log, len: nat)
    requires LaidOut(s.size, s.items) && BufferChain(s) && CanReserve(s, len)
    ensures LaidOut(s.size, Reserve(s, len).items) && BufferChain(Reserve(s, len))
  {
    var b := Current(s);
    AppendLaidOut(s.size, s.items, Item(b.lsn + b.used, b.base + b.used, len, Open));
  }

  lemma ReserveAligned(s: Log, len: nat)
    requires |s.items| > 0 && BufferChain(s) && Aligned(s) && CanReserve(s, len)
    ensures Aligned(Reserve(s, len))
  {
    Advance(s.size, Current(s).lsn, Current(s).base, Current(s).used);
  }

  lemma ReserveBatchInv(s: Log, len: nat)
    requires |s.items| > 0 && BufferChain(s) && BatchInv(s) && CanReserve(s, len)
    ensures BatchInv(Reserve(s, len))
  {
    var s' := Reserve(s, len);
    assert End(s'.items) == End(s.items) + len;
  }

  lemma ReserveEndsInv(s: Log, len: nat)
    requires |s.bufs| > 0 && EndsInv(s) && CanReserve(s, len)
    ensures EndsInv(Reserve(s, len))
  {
    var s' := Reserve(s, len);
    EndsFrame(s.items, s'.items);
    var it := s'.items[|s.items|];
    assert IsMessage(it.kind) && it.lsn + it.len - 1 == s'.maxReserved;
  }

  lemma ReserveKeepsReports(s: Log, len: nat)
    requires BufferChain(s) && DiskInv(s) && TrackInv(s) && s.size > 0 && CanReserve(s, len)
    ensures DiskInv(Reserve(s, len)) && TrackInv(Reserve(s, len))
  {
    TrackFrame(s, Reserve(s, len));
    DiskFrame(s, Reserve(s, len));
  }

  lemma ReserveKeepsInv(s: Log, len: nat)
    requires Inv(s) && CanReserve(s, len)
    ensures Inv(Reserve(s, len))
  {
    ReserveChain(s, len);
    ReserveAligned(s, len);
    ReserveBatchInv(s, len);
    ReserveEndsInv(s, len);
    ReserveKeepsReports(s, len);
  }

  lemma BeginBatchBatchInv(s: Log, len: nat)
    requires BufferChain(s) && BatchInv(s) && CanBeginBatch(s, len)
    requires forall l :: l in s.track.ever ==> l < s.track.ever[l]
    ensures BatchInv(BeginBatch(s, len))
  {
    ReserveBatchInv(s, len);
    assert BeginBatch(s, len).items[|s.items|].lsn == End(s.items);
  }

  lemma BeginBatchKeepsInv(s: Log, len: nat)
    requires Inv(s) && CanBeginBatch(s, len)
    ensures Inv(BeginBatch(s, len))
  {
    ReserveKeepsInv(s, len);
    BeginBatchBatchInv(s, len);
    SameButBatch(Reserve(s, len), BeginBatch(s, len));
  }

  lemma SameButBatch(s: Log, s': Log)
    requires |s.bufs| > 0 && DiskInv(s) && TrackInv(s) && EndsInv(s) && s' == s.(batch := s'.batch)
    ensures DiskInv(s') && TrackInv(s') && EndsInv(s')
  {
    forall j, i: nat | j in s'.reported && j < |s'.bufs| && InBuffer(s', j, i) ensures i in s'.disk {
      assert InBuffer(s, j, i);
    }
    forall k | 0 <= k < |s'.track.reported| ensures Reported(s', s'.track.reported[k]) {
      assert Reported(s, s.track.reported[k]);
    }
  }

  /** Everything at or below the stable LSN is on disk. */
  lemma StableIsOnDisk(s: Log, i: nat)
    requires LaidOut(s.size, s.items) && BufferChain(s) && DiskInv(s) && Sound(s.track) && TrackInv(s)
    requires i < |s.items| && s.items[i].lsn <= s.track.now.stable
    ensures i in s.disk || RedZone(s.items[i])
  {
    var x := s.items[i].lsn;
    if s.bufs[0].first <= i {
      LsnsIncrease(s.size, s.items, s.bufs[0].first, i);
      assert BeginsAt(s.items, s.bufs[0]);
      assert Covered(s.track.now, x);
      assert InSome(s.track.reported, x);
      var k :| 0 <= k < |s.track.reported| && Within(s.track.reported[k], x);
      assert Reported(s, s.track.reported[k]);
      var j :| j in s.reported && j < |s.bufs| && s.track.reported[k] == Extent(s.bufs[j]);
      InExtentInBuffer(s, j, i);
    }
  }

  lemma InExtentInBuffer(s: Log, j: nat, i: nat)
    requires LaidOut(s.size, s.items) && BufferChain(s)
    requires j < |s.bufs| - 1 && i < |s.items| && Within(Extent(s.bufs[j]), s.items[i].lsn)
    ensures InBuffer(s, j, i)
  {
    var b, c := s.bufs[j], s.bufs[j + 1];
    assert Succeeds(b, c) && Precedes(b, c) && BeginsAt(s.items, b) && BeginsAt(s.items, c);
    assert j + 1 < |s.bufs| - 1 ==> Precedes(c, Current(s));
    if i < b.first {
      LsnsIncrease(s.size, s.items, i, b.first);
    } else if c.first <= i {
      LsnsIncrease(s.size, s.items, c.first, i);
    }
  }

  /** The assertion of `mark_batch`: the batch's own open reservation keeps its buffer
      unwritten, so the stable LSN is below the batch. */
  lemma MarkBatchAllowed(s: Log)
    requires Inv(s) && CanPeg(s)
    ensures BatchStep(s.track, s.items[s.batch.value].lsn, s.maxReserved, Peg(s).track)
  {
    var m := s.batch.value;
    if s.items[m].lsn <= s.track.now.stable {
      StableIsOnDisk(s, m);
    }
  }

  lemma Gap(p: nat, q: nat, size: nat)
    requires size > 0
    ensures q < p ==> q * size + size <= p * size
  {
    if q < p {
      Scaled(p - q, size);
      assert (p - q) * size == p * size - q * size;
    }
  }

  lemma QuotientsRise(a: nat, b: nat, size: nat)
    requires a <= b && size > 0
    ensures a / size <= b / size
  {
    var p, q := a / size, b / size;
    assert a == p * size + a % size && b == q * size + b % size;
    Gap(p, q, size);
  }

  /** An open reservation holds the log back: the stable LSN is below it, so the last segment that
      `stabilize` takes for complete is before the one with the reservation. */
  lemma OpenHoldsBack(s: Log, i: nat)
    requires Inv(s) && i < |s.items| && InFlight(s.items[i].kind)
    ensures s.track.published <= s.track.now.stable < s.items[i].lsn
    ensures 0 <= s.track.published ==> s.track.published / s.size - 1 < s.items[i].lsn / s.size
  {
    if s.items[i].lsn <= s.track.now.stable {
      StableIsOnDisk(s, i);
    }
    if 0 <= s.track.published {
      QuotientsRise(s.track.published, s.items[i].lsn, s.size);
    }
  }

  lemma PegEndsInv(s: Log)
    requires |s.items| > 0 && |s.bufs| > 0 && EndsInv(s) && BatchInv(s) && CanPeg(s)
    requires s.track.start < s.items[s.batch.value].lsn
    ensures EndsInv(Peg(s))
  {
    EndsFrame(s.items, Peg(s).items);
  }

  lemma PegKeepsInv(s: Log)
    requires Inv(s) && CanPeg(s)
    ensures Inv(Peg(s))
  {
    var m := s.batch.value;
    var s' := Peg(s);
    MarkBatchAllowed(s);
    BatchKeepsSound(s.track, s.items[m].lsn, s.maxReserved, s'.track);
    RelabelLaidOut(s.size, s.items, m, Pegged(s.maxReserved));
    RelabelKeepsChain(s, s', m, Pegged(s.maxReserved));
    RelabelKeepsReports(s, s', m, Pegged(s.maxReserved));
    PegBatchInv(s);
    PegEndsInv(s);
  }

  /** s' differs from s in the label of message m, which is still in flight. */
  ghost predicate Relabeled(s: Log, s': Log, m: nat, k: Kind) {
    && m < |s.items| && InFlight(s.items[m].kind) && IsMessage(k)
    && s'.items == s.items[m := s.items[m].(kind := k)]
    && s' == s.(items := s'.items, track := s'.track, batch := s'.batch)
    && s'.track.reported == s.track.reported && s'.track.start == s.track.start
    && s'.track.published == s.track.published
  }

  lemma RelabelKeepsChain(s: Log, s': Log, m: nat, k: Kind)
    requires BufferChain(s) && Aligned(s) && Relabeled(s, s', m, k)
    ensures BufferChain(s') && Aligned(s')
  {
    assert forall j :: 0 <= j < |s.bufs| ==> BeginsAt(s.items, s.bufs[j]);
  }

  lemma RelabelKeepsReports(s: Log, s': Log, m: nat, k: Kind)
    requires BufferChain(s) && DiskInv(s) && TrackInv(s) && Relabeled(s, s', m, k)
    ensures DiskInv(s') && TrackInv(s')
  {
    forall j, i: nat | j in s'.reported && j < |s'.bufs| && InBuffer(s', j, i) ensures i in s'.disk {
      assert InBuffer(s, j, i);
    }
    forall k | 0 <= k < |s'.track.reported| ensures Reported(s', s'.track.reported[k]) {
      assert Reported(s, s.track.reported[k]);
    }
  }

  lemma PegBatchInv(s: Log)
    requires LaidOut(s.size, s.items) && |s.bufs| > 0 && BatchInv(s) && CanPeg(s)
    ensures BatchInv(Peg(s))
  {
    var m := s.batch.value;
    var s' := Peg(s);
    forall i | 0 <= i < |s.items| && i != m ensures s.items[i].lsn != s.items[m].lsn {
      LsnsIncrease(s.size, s.items, if i < m then i else m, if i < m then m else i);
    }
  }

  lemma FinishKeepsInv(s: Log, i: nat, k: Kind)
    requires Inv(s) && CanFinish(s, i, k)
    ensures Inv(Finish(s, i, k))
  {
    RelabelLaidOut(s.size, s.items, i, k);
    RelabelKeepsChain(s, Finish(s, i, k), i, k);
    RelabelKeepsReports(s, Finish(s, i, k), i, k);
    FinishBatchInv(s, i, k);
    FinishEndsInv(s, i, k);
  }

  lemma FinishEndsInv(s: Log, i: nat, k: Kind)
    requires EndsInv(s) && CanFinish(s, i, k)
    ensures EndsInv(Finish(s, i, k))
  {
    EndsFrame(s.items, Finish(s, i, k).items);
  }

  lemma FinishBatchInv(s: Log, i: nat, k: Kind)
    requires |s.items| > 0 && |s.bufs| > 0 && BatchInv(s) && CanFinish(s, i, k)
    requires End(Finish(s, i, k).items) == End(s.items)
    ensures BatchInv(Finish(s, i, k))
  {
  }

  lemma SealPartialChain(s: Log)
    requires LaidOut(s.size, s.items) && BufferChain(s) && Aligned(s) && CanSealPartial(s)
    ensures BufferChain(SealPartial(s)) && Aligned(SealPartial(s))
  {
    var b := Current(s);
    Advance(s.size, b.lsn, b.base, b.used);
    Advance(s.size, b.offset, b.base, b.used);
  }

  lemma SealPartialKeepsInv(s: Log)
    requires Inv(s) && CanSealPartial(s)
    ensures Inv(SealPartial(s))
  {
    SealPartialChain(s);
    SealPartialKeepsReports(s);
    EndsStay(s, SealPartial(s));
  }

  lemma SealPartialKeepsReports(s: Log)
    requires BufferChain(s) && DiskInv(s) && TrackInv(s) && s.size > 0 && CanSealPartial(s)
    ensures DiskInv(SealPartial(s)) && TrackInv(SealPartial(s))
  {
    DiskFrame(s, SealPartial(s));
    TrackFrame(s, SealPartial(s));
  }

  /** The published stable LSN lies within the log. */
  lemma PublishedBelowEnd(s: Log)
    requires LaidOut(s.size, s.items) && BufferChain(s) && DiskInv(s) && Sound(s.track) && TrackInv(s)
    ensures s.track.published < Current(s).lsn <= End(s.items)
  {
    var x := s.track.now.stable;
    if s.track.start < x {
      assert Covered(s.track.now, x);
      var k :| 0 <= k < |s.track.reported| && Within(s.track.reported[k], x);
      assert Reported(s, s.track.reported[k]);
      var j :| j in s.reported && j < |s.bufs| && s.track.reported[k] == Extent(s.bufs[j]);
      assert Precedes(s.bufs[j], Current(s));
    } else {
      assert |s.bufs| > 1 ==> Precedes(s.bufs[0], Current(s));
    }
  }

  lemma SealMaxedLayout(s: Log, lid: nat)
    requires LaidOut(s.size, s.items) && BufferChain(s) && CanSealMaxed(s, lid)
    ensures LaidOut(s.size, SealMaxed(s, lid).items)
  {
    var b := Current(s);
    var header := Item(b.lsn + b.capacity, 0, SEG_HEADER_LEN, SegHeader(s.track.published));
    if b.capacity > b.used {
      AppendLaidOut(s.size, s.items, Padding(b)[0]);
      AppendLaidOut(s.size, s.items + Padding(b), header);
    } else {
      AppendLaidOut(s.size, s.items, header);
      assert s.items + [] == s.items;
    }
  }

  lemma SealMaxedChain(s: Log, lid: nat)
    requires LaidOut(s.size, s.items) && BufferChain(s) && CanSealMaxed(s, lid)
    ensures BufferChain(SealMaxed(s, lid))
  {
    var s' := SealMaxed(s, lid);
    assert forall j :: 0 <= j < |s.bufs| ==> BeginsAt(s.items, s.bufs[j]) && s.bufs[j].first <= |s.items|;
  }

  lemma SealMaxedAligned(s: Log, lid: nat)
    requires LaidOut(s.size, s.items) && BufferChain(s) && Aligned(s) && CanSealMaxed(s, lid)
    ensures Aligned(SealMaxed(s, lid))
  {
    var b := Current(s);
    Advance(s.size, b.lsn, b.base, b.used);
    Advance(s.size, b.lsn, b.base, b.capacity);
  }

  lemma SealMaxedBatchInv(s: Log, lid: nat)
    requires LaidOut(s.size, s.items) && BufferChain(s) && BatchInv(s) && CanSealMaxed(s, lid)
    ensures BatchInv(SealMaxed(s, lid))
  {
    var s' := SealMaxed(s, lid);
    assert End(s.items) < End(s'.items);
  }

  lemma SealMaxedTrackInv(s: Log, lid: nat)
    requires LaidOut(s.size, s.items) && BufferChain(s) && DiskInv(s) && Sound(s.track) && TrackInv(s)
             && CanSealMaxed(s, lid)
    ensures TrackInv(SealMaxed(s, lid))
  {
    PublishedBelowEnd(s);
    TrackFrame(s, SealMaxed(s, lid));
  }

  lemma SealMaxedEndsInv(s: Log, lid: nat)
    requires |s.bufs| > 0 && EndsInv(s) && CanSealMaxed(s, lid)
    ensures EndsInv(SealMaxed(s, lid))
  {
    EndsFrame(s.items, SealMaxed(s, lid).items);
  }

  lemma SealMaxedDiskInv(s: Log, lid: nat)
    requires BufferChain(s) && DiskInv(s) && CanSealMaxed(s, lid) && SameReports(s, SealMaxed(s, lid))
    ensures DiskInv(SealMaxed(s, lid))
  {
    DiskFrame(s, SealMaxed(s, lid));
  }

  lemma SealMaxedKeepsInv(s: Log, lid: nat)
    requires Inv(s) && CanSealMaxed(s, lid)
    ensures Inv(SealMaxed(s, lid))
  {
    SealMaxedLayout(s, lid);
    SealMaxedChain(s, lid);
    SealMaxedAligned(s, lid);
    SealMaxedBatchInv(s, lid);
    SealMaxedTrackInv(s, lid);
    SealMaxedEndsInv(s, lid);
    SealMaxedDiskInv(s, lid);
  }

  /** The next LSN that `maybe_seal_and_write_iobuf` computes for a full buffer, and the
      length that `write_to_log` computes for it, are the ones of the model. */
  lemma RolledLsn(s: Log)
    requires Inv(s)
    ensures forall j :: 0 <= j < |s.bufs| ==>
              (s.bufs[j].lsn / s.size + 1) * s.size == s.bufs[j].lsn + s.bufs[j].capacity
  {
    forall j | 0 <= j < |s.bufs| ensures (s.bufs[j].lsn / s.size + 1) * s.size == s.bufs[j].lsn + s.bufs[j].capacity {
      Advance(s.size, s.bufs[j].lsn, s.bufs[j].base, s.bufs[j].capacity);
    }
  }

  lemma WriteKeepsDiskInv(s: Log, j: nat, i: nat)
    requires |s.items| > 0 && BufferChain(s) && DiskInv(s) && CanWrite(s, j, i)
    ensures DiskInv(Write(s, i))
  {
    var s' := Write(s, i);
    assert j + 1 < |s.bufs| - 1 ==> Precedes(s.bufs[j + 1], Current(s));
    forall h, k: nat | h in s'.reported && h < |s'.bufs| && InBuffer(s', h, k) ensures k in s'.disk {
      assert InBuffer(s, h, k);
    }
  }

  lemma WriteKeepsInv(s: Log, j: nat, i: nat)
    requires Inv(s) && CanWrite(s, j, i)
    ensures Inv(Write(s, i))
  {
    WriteKeepsDiskInv(s, j, i);
    WriteKeepsTrackInv(s, i);
    EndsStay(s, Write(s, i));
  }

  lemma WriteKeepsTrackInv(s: Log, i: nat)
    requires |s.bufs| > 0 && TrackInv(s)
    ensures TrackInv(Write(s, i))
  {
    forall k | 0 <= k < |s.track.reported| ensures Reported(Write(s, i), s.track.reported[k]) {
      assert Reported(s, s.track.reported[k]);
    }
  }

  lemma Disjoint(s: Log, h: nat, j: nat)
    requires |s.items| > 0 && BufferChain(s) && h < |s.bufs| && j < |s.bufs| && h != j
    ensures Apart(Extent(s.bufs[h]), Extent(s.bufs[j]))
  {
    assert Precedes(s.bufs[if h < j then h else j], s.bufs[if h < j then j else h]);
  }

  /** A finished buffer is reported once, and its extent was not covered before. */
  lemma ReportIsFresh(s: Log, j: nat)
    requires LaidOut(s.size, s.items) && BufferChain(s) && DiskInv(s) && Sound(s.track) && TrackInv(s)
    requires j < |s.bufs| - 1 && j !in s.reported
    ensures s.track.start < Extent(s.bufs[j]).0 <= Extent(s.bufs[j]).1
    ensures forall x :: Within(Extent(s.bufs[j]), x) ==> !Covered(s.track.now, x)
  {
    assert Succeeds(s.bufs[j], s.bufs[j + 1]) && Sized(s.size, s.bufs[j]);
    assert 0 < j ==> Precedes(s.bufs[0], s.bufs[j]);
    forall x | Within(Extent(s.bufs[j]), x) ensures !Covered(s.track.now, x) {
      if InSome(s.track.reported, x) {
        var k :| 0 <= k < |s.track.reported| && Within(s.track.reported[k], x);
        assert Reported(s, s.track.reported[k]);
        var h :| h in s.reported && h < |s.bufs| && s.track.reported[k] == Extent(s.bufs[h]);
        Disjoint(s, h, j);
      }
    }
  }

  lemma ReportKeepsDiskInv(s: Log, j: nat, s': Log)
    requires |s.items| > 0 && BufferChain(s) && DiskInv(s) && ReportStep(s, j, s')
    ensures DiskInv(s')
  {
    forall h, k: nat | h in s'.reported && h < |s'.bufs| && InBuffer(s', h, k) ensures k in s'.disk {
      assert InBuffer(s, h, k);
    }
  }

  lemma ReportKeepsInv(s: Log, j: nat, s': Log)
    requires Inv(s) && ReportStep(s, j, s')
    ensures Inv(s') && s.track.published <= s'.track.published
  {
    FsyncKeepsSound(s.track, Extent(s.bufs[j]), s'.track);
    ReportKeepsDiskInv(s, j, s');
    ReportKeepsTrackInv(s, j, s');
    EndsStay(s, s');
  }

  lemma ReportKeepsTrackInv(s: Log, j: nat, s': Log)
    requires |s.bufs| > 0 && TrackInv(s) && ReportStep(s, j, s') && s.track.published <= s'.track.published
    ensures TrackInv(s')
  {
    forall k | 0 <= k < |s'.track.reported| ensures Reported(s', s'.track.reported[k]) {
      if k < |s.track.reported| {
        assert Reported(s, s.track.reported[k]);
      } else {
        assert s'.track.reported[k] == Extent(s'.bufs[j]);
      }
    }
  }

  /** A reservation is made, pegged or finished. */
  ghost predicate ItemStep(s: Log, s': Log)
    requires |s.bufs| > 0
  {
    || (exists len :: CanReserve(s, len) && s' == Reserve(s, len))
    || (exists len :: CanBeginBatch(s, len) && s' == BeginBatch(s, len))
    || (CanPeg(s) && s' == Peg(s))
    || (exists i, k :: CanFinish(s, i, k) && s' == Finish(s, i, k))
  }

  lemma ItemStepKeepsInv(s: Log, s': Log)
    requires Inv(s) && ItemStep(s, s')
    ensures Inv(s') && s.track.published == s'.track.published
  {
    if len :| CanReserve(s, len) && s' == Reserve(s, len) {
      ReserveKeepsInv(s, len);
    } else if len :| CanBeginBatch(s, len) && s' == BeginBatch(s, len) {
      BeginBatchKeepsInv(s, len);
    } else if CanPeg(s) && s' == Peg(s) {
      PegKeepsInv(s);
    } else {
      var i, k :| CanFinish(s, i, k) && s' == Finish(s, i, k);
      FinishKeepsInv(s, i, k);
    }
  }

  lemma StepKeepsInv(s: Log, s': Log)
    requires Inv(s) && WriteLog.Step(s, s')
    ensures Inv(s') && s.track.published <= s'.track.published
  {
    if ItemStep(s, s') {
      ItemStepKeepsInv(s, s');
    } else if CanSealPartial(s) && s' == SealPartial(s) {
      SealPartialKeepsInv(s);
    } else if lid :| CanSealMaxed(s, lid) && s' == SealMaxed(s, lid) {
      SealMaxedKeepsInv(s, lid);
    } else if j, i :| CanWrite(s, j, i) && s' == Write(s, i) {
      WriteKeepsInv(s, j, i);
    } else {
      var j :| ReportStep(s, j, s');
      ReportKeepsInv(s, j, s');
    }
  }
}
