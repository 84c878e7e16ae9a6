/** Recovery: find the end of the contiguous log, then replay up to it, cutting torn
    batches. */
module Recovery {
  import opened Base
  import opened WriteLog
  import opened LogIterator

  /** What the write path guarantees about a crash: everything at or below the published
      stable LSN can be read, no batch is open across it, and no segment header recorded a
      later one. */
  ghost predicate Durable(im: Image, published: Lsn) {
    && WellFormed(im)
    && im.items[0].lsn - 1 <= published < End(im.items)
    && (forall i :: 0 <= i < |im.items| && im.items[i].lsn <= published ==> Readable(im, i))
    && (forall i :: 0 <= i < |im.items| && im.items[i].kind.SegHeader? ==> im.items[i].kind.maxStable <= published)
    && (forall i :: 0 <= i < |im.items| && im.items[i].kind.Manifest? ==>
          && EndsMessage(im.items, im.items[i].kind.last)
          && (im.items[i].lsn <= published ==> im.items[i].kind.last <= published))
    && (forall i, j ::
          && 0 <= i < j < |im.items| && im.items[i].kind.Manifest? && im.items[j].kind.Manifest?
          && published < im.items[j].lsn ==>
          im.items[i].kind.last < im.items[j].lsn)
  }

  function RecordIn(it: Item): seq<Entry> {
    if it.kind.Record? then [Entry(it.lsn, it.kind.payload)] else []
  }

  /** The records among items [a, b). */
  function Records(items: seq<Item>, a: nat, b: nat): seq<Entry>
    requires b <= |items|
  {
    if b <= a then [] else Records(items, a, b - 1) + RecordIn(items[b - 1])
  }

  /** `out` is exactly what recovery promises: the records of a prefix of the log that can
      be read, that holds everything at or below the published stable LSN, and that holds
      each batch entirely or not at all: a batch is the messages from its manifest to
      `last`, and no batch whose manifest is in the prefix reaches beyond it. */
  ghost predicate RecoversTo(im: Image, published: Lsn, n: nat, out: seq<Entry>) {
    && 0 < |im.items| && n <= |im.items|
    && out == Records(im.items, 0, n)
    && (forall i :: 0 <= i < n ==> Readable(im, i) && !InFlight(im.items[i].kind))
    && (forall i :: 0 <= i < |im.items| && !im.items[i].kind.Pad? && im.items[i].lsn <= published ==> i < n)
    && (forall m :: 0 <= m < n && im.items[m].kind.Manifest? ==> im.items[m].kind.last < LsnAt(im, n))
  }

  // ---------------------------------------------------------------------------------
  // Segment headers
  // ---------------------------------------------------------------------------------

  ghost predicate ListsHeaders(im: Image, ordering: seq<nat>) {
    Ascending(ordering) && forall l :: l in ordering <==> HeaderOnDisk(im, l)
  }

  /** `scan_segment_headers_and_tail`: the segments on disk in LSN order and the highest
      stable LSN that their headers recorded. */
  method ScanHeaders(im: Image) returns (ordering: seq<nat>, maxStable: Lsn)
    requires WellFormed(im)
    ensures ListsHeaders(im, ordering)
    ensures maxStable >= im.items[0].lsn
    ensures || maxStable == im.items[0].lsn
            || exists h: nat :: IsHeader(im, h) && h in im.disk && maxStable == im.items[h].kind.maxStable
    ensures forall h: nat :: IsHeader(im, h) && h in im.disk ==> im.items[h].kind.maxStable <= maxStable
  {
    ordering := [];
    maxStable := im.items[0].lsn;
    for n := 0 to |im.items|
      invariant Ascending(ordering)
      invariant forall l :: l in ordering ==>
        exists h: nat :: h < n && IsHeader(im, h) && h in im.disk && im.items[h].lsn == l
      invariant forall h: nat :: h < n && IsHeader(im, h) && h in im.disk ==> im.items[h].lsn in ordering
      invariant forall k :: 0 <= k < |ordering| && n < |im.items| ==> ordering[k] < im.items[n].lsn
      invariant maxStable >= im.items[0].lsn
      invariant || maxStable == im.items[0].lsn
                || exists h: nat :: IsHeader(im, h) && h in im.disk && maxStable == im.items[h].kind.maxStable
      invariant forall h: nat :: h < n && IsHeader(im, h) && h in im.disk ==> im.items[h].kind.maxStable <= maxStable
    {
      if n + 1 < |im.items| { LsnOrder(im, n, n + 1); }
      if im.items[n].kind.SegHeader? && n in im.disk {
        assert IsHeader(im, n);
        ordering := ordering + [im.items[n].lsn];
        if maxStable < im.items[n].kind.maxStable {
          maxStable := im.items[n].kind.maxStable;
        }
      }
    }
  }

  lemma MultipleGap(size: nat, a: nat, b: nat)
    requires At(size, a, 0) && At(size, b, 0) && a <= b < a + size
    ensures a == b
  {
    Advance(size, a, 0, b - a);
  }

  /** The segments from `lowest` on that follow each other without a gap, and the first one
      that is missing below another. */
  ghost predicate ConnectedTail(im: Image, ordering: seq<nat>, lowest: nat, tail: seq<nat>, missing: Option<nat>) {
    && Ascending(tail)
    && (forall l :: l in tail ==> l in ordering && lowest <= l)
    && (forall g: nat, h: nat :: IsHeader(im, g) && IsHeader(im, h) && lowest <= im.items[g].lsn <= im.items[h].lsn
          && im.items[h].lsn in tail
          ==> im.items[g].lsn in tail)
    && (missing.Some? ==>
          && lowest <= missing.value && At(im.size, missing.value, 0) && !HeaderOnDisk(im, missing.value)
          && (forall l :: l in tail ==> l < missing.value)
          && (forall g: nat :: IsHeader(im, g) && lowest <= im.items[g].lsn < missing.value ==>
                im.items[g].lsn in tail))
    && (missing.None? ==> forall l :: l in ordering && lowest <= l ==> l in tail)
  }

  /** Progress of collecting the tail: every segment in [lowest, expected) is in it. */
  ghost predicate TailSoFar(im: Image, ordering: seq<nat>, lowest: nat, k: nat, expected: nat, tail: seq<nat>) {
    && k <= |ordering| && lowest <= expected && At(im.size, expected, 0)
    && Ascending(tail)
    && (forall l :: l in tail ==> l in ordering && lowest <= l < expected)
    && (forall i :: 0 <= i < k ==> ordering[i] < lowest || ordering[i] in tail)
    && (forall g: nat :: IsHeader(im, g) && lowest <= im.items[g].lsn < expected ==> im.items[g].lsn in tail)
  }

  lemma TailGrows(im: Image, ordering: seq<nat>, lowest: nat, k: nat, expected: nat, tail: seq<nat>)
    requires WellFormed(im) && TailSoFar(im, ordering, lowest, k, expected, tail)
    requires k < |ordering| && ordering[k] == expected
    ensures TailSoFar(im, ordering, lowest, k + 1, expected + im.size, tail + [expected])
  {
    forall g: nat | IsHeader(im, g) && lowest <= im.items[g].lsn < expected + im.size
      ensures im.items[g].lsn in tail + [expected]
    {
      if expected <= im.items[g].lsn {
        assert Placed(im.size, im.items[g]);
        MultipleGap(im.size, expected, im.items[g].lsn);
      }
    }
    Advance(im.size, expected, 0, im.size);
    assert forall i :: 0 <= i < |tail| ==> tail[i] in tail;
  }

  lemma ExpectedIsMissing(im: Image, ordering: seq<nat>, lowest: nat, k: nat, expected: nat, tail: seq<nat>)
    requires ListsHeaders(im, ordering) && TailSoFar(im, ordering, lowest, k, expected, tail)
    requires k < |ordering| && lowest <= ordering[k] != expected
    requires forall l :: l in tail ==> l < ordering[k]
    ensures !HeaderOnDisk(im, expected)
  {
    assert ordering[k] in ordering;
    var g: nat :| IsHeader(im, g) && g in im.disk && im.items[g].lsn == ordering[k];
    assert expected < ordering[k];
    forall i | 0 <= i < |ordering| ensures ordering[i] != expected {
      assert i < k ==> ordering[i] < lowest || ordering[i] in tail;
      assert k < i ==> ordering[k] < ordering[i];
    }
  }

  lemma TailConnected(im: Image, ordering: seq<nat>, lowest: nat, k: nat, expected: nat, tail: seq<nat>)
    requires TailSoFar(im, ordering, lowest, k, expected, tail)
    requires k < |ordering| ==> !HeaderOnDisk(im, expected)
    ensures ConnectedTail(im, ordering, lowest, tail, if k < |ordering| then Some(expected) else None)
  {
  }

  method FirstAtLeast(ordering: seq<nat>, lowest: nat) returns (k: nat)
    requires Ascending(ordering)
    ensures k <= |ordering| && forall i :: 0 <= i < |ordering| ==> (ordering[i] < lowest <==> i < k)
  {
    k := 0;
    while k < |ordering| && ordering[k] < lowest
      invariant 0 <= k <= |ordering|
      invariant forall i :: 0 <= i < k ==> ordering[i] < lowest
    {
      k := k + 1;
    }
  }

  method LogicalTail(im: Image, ordering: seq<nat>, lowest: nat) returns (tail: seq<nat>, missing: Option<nat>)
    requires WellFormed(im) && ListsHeaders(im, ordering) && At(im.size, lowest, 0)
    ensures ConnectedTail(im, ordering, lowest, tail, missing)
  {
    var k := FirstAtLeast(ordering, lowest);
    var expected: nat := lowest;
    tail := [];
    while k < |ordering|
      invariant TailSoFar(im, ordering, lowest, k, expected, tail)
      invariant forall i :: 0 <= i < |tail| ==> tail[i] in ordering[..k]
      invariant forall i :: k <= i < |ordering| ==> lowest <= ordering[i]
    {
      if ordering[k] != expected {
        ExpectedIsMissing(im, ordering, lowest, k, expected, tail);
        TailConnected(im, ordering, lowest, k, expected, tail);
        return tail, Some(expected);
      }
      TailGrows(im, ordering, lowest, k, expected, tail);
      tail := tail + [expected];
      expected := expected + im.size;
      k := k + 1;
    }
    TailConnected(im, ordering, lowest, k, expected, tail);
    return tail, None;
  }

  // ---------------------------------------------------------------------------------
  // First stage: the end of the contiguous log
  // ---------------------------------------------------------------------------------

  ghost predicate AllPassed(im: Image, max: Option<Lsn>, a: nat, b: nat) {
    a <= b <= |im.items| && forall i :: a <= i < b ==> Passed(im, max, i)
  }

  /** What the first stage has found when it stops before item n. */
  ghost predicate TailScanned(im: Image, ordering: seq<nat>, start: nat, tail: seq<nat>, missing: Option<nat>, n: nat,
                              end: Lsn) {
    && IsHeader(im, start) && start <= n <= |im.items|
    && ConnectedTail(im, ordering, im.items[start].lsn, tail, missing)
    && AllPassed(im, missing, start, n)
    && Stopped(im, missing, tail, n)
    && end == if n == start then -1 else LsnAt(im, n) - 1
  }

  lemma {:induction false} HeaderAtMultiple(im: Image, l: nat, i: nat)
    requires WellFormed(im) && At(im.size, l, 0) && i < |im.items| && im.items[i].lsn <= l < End(im.items)
    ensures exists h: nat :: IsHeader(im, h) && im.items[h].lsn == l
    decreases |im.items| - i
  {
    var it := im.items[i];
    assert Placed(im.size, it);
    if l < it.lsn + it.len {
      Advance(im.size, it.lsn, it.off, l - it.lsn);
      assert IsHeader(im, i);
    } else {
      assert Follows(im.size, it, im.items[i + 1]);
      HeaderAtMultiple(im, l, i + 1);
    }
  }

  lemma FloorBounds(size: nat, a: nat, m: nat)
    requires At(size, a, 0) && a <= m
    ensures At(size, m / size * size, 0) && a <= m / size * size <= m
  {
    DivModUnique(size, m / size, 0);
    var f := m / size * size;
    if f < a {
      MultipleGap(size, f, a);
    }
  }

  /** The segment that the unstable tail starts with. */
  lemma TailStart(im: Image, published: Lsn, maxStable: nat) returns (start: nat)
    requires Durable(im, published)
    requires im.items[0].lsn <= maxStable && (maxStable == im.items[0].lsn || maxStable <= published)
    ensures At(im.size, maxStable / im.size * im.size, 0)
    ensures IsHeader(im, start) && im.items[start].lsn == maxStable / im.size * im.size
    ensures start == 0 || im.items[start].lsn <= published
  {
    var lowest := maxStable / im.size * im.size;
    assert Placed(im.size, im.items[0]);
    FloorBounds(im.size, im.items[0].lsn, maxStable);
    if lowest == im.items[0].lsn {
      start := 0;
    } else {
      HeaderAtMultiple(im, lowest, 0);
      start :| IsHeader(im, start) && im.items[start].lsn == lowest;
    }
  }

  lemma {:induction false} NoRecords(items: seq<Item>, a: nat, b: nat, c: nat)
    requires a <= b <= c <= |items| && forall i :: b <= i < c ==> !items[i].kind.Record?
    ensures Records(items, a, c) == Records(items, a, b)
    decreases c - b
  {
    if b < c {
      NoRecords(items, a, b, c - 1);
    }
  }

  lemma RecordsYielded(im: Image, max: Option<Lsn>, a: nat, b: nat, c: nat, r: Entry)
    requires a <= b < c <= |im.items| && AllPassed(im, max, a, b) && Skipped(im, max, b, c - 1)
    requires c - 1 in im.disk && RecordIn(im.items[c - 1]) == [r]
    ensures Records(im.items, a, c) == Records(im.items, a, b) + [r]
    ensures AllPassed(im, max, a, c)
  {
    NoRecords(im.items, a, b, c - 1);
  }

  /** From c0 the iteration has reached c and returned `out`. */
  ghost predicate Drained(c0: Scan, c: Scan, out: seq<Entry>) {
    && ValidScan(c)
    && c == c0.(segments := c.segments, base := c.base, cur := c.cur, at := c.at, lost := c.lost)
    && (c.lost ==> c.lastStage && Hole(c.im, c.max, c0.at))
    && (!c.lost ==> AllPassed(c.im, c.max, c0.at, c.at) && out == Records(c.im.items, c0.at, c.at))
  }

  lemma DrainGoesOn(c0: Scan, c: Scan, out: seq<Entry>, c': Scan, r: Entry)
    requires Drained(c0, c, out) && Yields(c, c', r) && c0.at <= c.at
    ensures Drained(c0, c', out + [r])
  {
    if !c'.lost {
      RecordsYielded(c.im, c.max, c0.at, c.at, c'.at, r);
    }
  }

  lemma DrainEnds(c0: Scan, c: Scan, out: seq<Entry>, c': Scan)
    requires Drained(c0, c, out) && Scanned(c, c') && c0.at <= c.at
    ensures Drained(c0, c', out)
  {
    if !c'.lost {
      NoRecords(c.im.items, c0.at, c.at, c'.at);
    }
  }

  /** Run an iterator to completion, collecting the records. */
  method Drain(iter: LogIter) returns (out: seq<Entry>)
    requires ValidScan(iter.View()) && Solid(iter.View()) && !iter.lost && iter.at == iter.start
    modifies iter
    ensures Drained(old(iter.View()), iter.View(), out)
    ensures !iter.lost ==> Stopped(iter.im, iter.maxLsn, iter.all, iter.at)
    ensures iter.segmentBase.Some? ==> iter.curLsn.Some? && ValidEntryOffset(iter.curLsn.value, iter.im.size)
  {
    ghost var c0 := iter.View();
    out := [];
    while true
      invariant Drained(c0, iter.View(), out)
      decreases |iter.segments|, if iter.curLsn.Some? then End(iter.im.items) - iter.curLsn.value else 0
    {
      ghost var c := iter.View();
      var r := iter.Next();
      if r.None? {
        DrainEnds(c0, c, out, iter.View());
        return;
      }
      DrainGoesOn(c0, c, out, iter.View(), r.value);
      out := out + [r.value];
    }
  }

  /** `check_contiguity_in_unstable_tail`. */
  method EndOfTail(im: Image, ordering: seq<nat>, maxStable: nat, ghost published: Lsn)
    returns (end: Lsn, ghost start: nat, ghost tail: seq<nat>, ghost missing: Option<nat>, ghost n: nat)
    requires Durable(im, published) && ListsHeaders(im, ordering)
    requires im.items[0].lsn <= maxStable && (maxStable == im.items[0].lsn || maxStable <= published)
    ensures TailScanned(im, ordering, start, tail, missing, n, end)
    ensures start == 0 || im.items[start].lsn <= published
  {
    start := TailStart(im, published, maxStable);
    var lowest := maxStable / im.size * im.size;
    var t, m := LogicalTail(im, ordering, lowest);
    TailGapless(im, ordering, start, t, m);
    var iter := new LogIter(im, t, m, false, start);
    ghost var c0 := iter.View();
    var out := Drain(iter);
    TailDrained(c0, iter.View(), out);
    return (if iter.curLsn.Some? then iter.curLsn.value else 0) - 1, start, t, m, iter.at;
  }

  lemma TailDrained(c0: Scan, c: Scan, out: seq<Entry>)
    requires Drained(c0, c, out) && !c.lastStage && c0.at == c0.start
    ensures !c.lost && AllPassed(c.im, c.max, c.start, c.at)
    ensures (c.cur.None? ==> c.at == c.start) && (c.cur.Some? ==> c.cur.value == LsnAt(c.im, c.at))
    ensures IsHeader(c.im, c.start) && c.start <= c.at <= |c.im.items|
  {
  }

  lemma TailGapless(im: Image, ordering: seq<nat>, start: nat, tail: seq<nat>, missing: Option<nat>)
    requires WellFormed(im) && ListsHeaders(im, ordering) && IsHeader(im, start)
    requires ConnectedTail(im, ordering, im.items[start].lsn, tail, missing)
    ensures Gapless(im, missing, start, tail)
    ensures forall l :: l in tail ==> HeaderOnDisk(im, l) && im.items[start].lsn <= l
  {
    forall g: nat, h: nat | start <= g <= h && IsHeader(im, g) && IsHeader(im, h) && im.items[h].lsn in tail
      ensures im.items[g].lsn in tail
    {
      if start < g { LsnOrder(im, start, g); }
      if g < h { LsnOrder(im, g, h); }
    }
  }
}
