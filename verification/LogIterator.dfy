/** Reading the log back: `LogIter` over what a crash left on disk. */
module LogIterator {
  import opened Base
  import opened WriteLog

  /** The log as it was written, and which of its items are on disk. */
  datatype Image = Image(size: nat, items: seq<Item>, disk: set<nat>)

  ghost predicate WellFormed(im: Image) {
    && LaidOut(im.size, im.items)
    && (forall i :: 0 <= i < |im.items| ==> At(im.size, im.items[i].lsn, im.items[i].off))
    && (forall i :: i in im.disk ==> i < |im.items| && !InFlight(im.items[i].kind))
  }

  predicate Readable(im: Image, i: nat)
    requires i < |im.items|
  {
    i in im.disk || RedZone(im.items[i])
  }

  function LsnAt(im: Image, i: nat): nat
    requires i <= |im.items| && |im.items| > 0
  {
    if i < |im.items| then im.items[i].lsn else End(im.items)
  }

  lemma {:induction false} LsnOrder(im: Image, i: nat, j: nat)
    requires LaidOut(im.size, im.items) && i < j <= |im.items|
    ensures im.items[i].lsn + im.items[i].len <= LsnAt(im, j)
    decreases j - i
  {
    if j > i + 1 {
      LsnOrder(im, i, j - 1);
      assert j < |im.items| ==> Follows(im.size, im.items[j - 1], im.items[j]);
    } else {
      assert j < |im.items| ==> Follows(im.size, im.items[i], im.items[j]);
    }
  }

  /** A record of the log: what replay applies. */
  datatype Entry = Entry(lsn: nat, payload: nat)

  /** `read_message`: a message that is not completely on disk reads as corrupted. */
  datatype LogRead = Inline(payload: nat, len: nat) | BatchManifest(last: Lsn, len: nat) | CanceledRead(len: nat)
      | Cap | Corrupted

  function Lookup(items: seq<Item>, lsn: nat): (r: Option<nat>)
    ensures r.Some? ==> r.value < |items| && items[r.value].lsn == lsn
    ensures r.None? ==> forall i :: 0 <= i < |items| ==> items[i].lsn != lsn
  {
    if items == [] then None
    else if items[|items| - 1].lsn == lsn then Some(|items| - 1)
    else Lookup(items[..|items| - 1], lsn)
  }

  function ReadMessage(im: Image, lsn: nat): LogRead {
    match Lookup(im.items, lsn)
    case None => Corrupted
    case Some(i) =>
      if i !in im.disk then Corrupted
      else
        match im.items[i].kind
        case Record(payload) => Inline(payload, im.items[i].len)
        case Manifest(last) => BatchManifest(last, im.items[i].len)
        case Canceled => CanceledRead(im.items[i].len)
        case Pad => Cap
        case _ => Corrupted
  }

  lemma LookupFinds(im: Image, i: nat)
    requires LaidOut(im.size, im.items) && i < |im.items|
    ensures Lookup(im.items, im.items[i].lsn) == Some(i)
  {
    var r := Lookup(im.items, im.items[i].lsn);
    if r.value < i {
      LsnOrder(im, r.value, i);
    } else if i < r.value {
      LsnOrder(im, i, r.value);
    }
  }

  predicate ValidEntryOffset(lid: nat, size: nat)
    requires size > 0
  {
    SEG_HEADER_LEN <= lid % size <= size - MAX_MSG_HEADER_LEN
  }

  // ---------------------------------------------------------------------------------
  // What a scan may pass, and where it stops
  // ---------------------------------------------------------------------------------

  predicate Exceeds(max: Option<Lsn>, x: Lsn) {
    max.Some? && max.value < x
  }

  predicate Torn(im: Image, max: Option<Lsn>, i: nat)
    requires i < |im.items|
  {
    im.items[i].kind.Manifest? && Exceeds(max, im.items[i].kind.last)
  }

  predicate Passed(im: Image, max: Option<Lsn>, i: nat)
    requires i < |im.items|
  {
    Readable(im, i) && !Torn(im, max, i)
  }

  /** Items [a, b) are passed and yield no record. */
  ghost predicate Skipped(im: Image, max: Option<Lsn>, a: nat, b: nat) {
    && a <= b <= |im.items|
    && (forall i :: a <= i < b ==> Passed(im, max, i) && !im.items[i].kind.Record?)
  }

  predicate Unreachable(im: Image, max: Option<Lsn>, all: seq<nat>, h: nat) {
    h >= |im.items| || im.items[h].lsn !in all || Exceeds(max, im.items[h].lsn)
  }

  predicate Stopped(im: Image, max: Option<Lsn>, all: seq<nat>, i: nat) {
    || i >= |im.items|
    || !Readable(im, i)
    || Torn(im, max, i)
    || Exceeds(max, im.items[i].lsn)
    || (im.items[i].kind.Pad? && Unreachable(im, max, all, i + 1))
    || (im.items[i].kind.SegHeader? && Unreachable(im, max, all, i))
  }

  /** From item a on, something within reach of the scan cannot be read. */
  ghost predicate Hole(im: Image, max: Option<Lsn>, a: nat)
    requires |im.items| > 0
  {
    || !Exceeds(max, End(im.items))
    || exists i :: a <= i < |im.items| && !Readable(im, i) && !Exceeds(max, im.items[i].lsn)
  }

  /** Between two segments: the scan needs the next segment header. */
  predicate Boundary(im: Image, i: nat) {
    i >= |im.items| || im.items[i].kind.Pad? || im.items[i].kind.SegHeader?
  }

  function NextHeader(im: Image, i: nat): nat {
    if i < |im.items| && im.items[i].kind.Pad? then i + 1 else i
  }

  ghost predicate IsHeader(im: Image, h: nat) {
    h < |im.items| && im.items[h].kind.SegHeader?
  }

  ghost predicate HeaderOnDisk(im: Image, l: nat) {
    exists h: nat :: IsHeader(im, h) && h in im.disk && im.items[h].lsn == l
  }

  /** The segments to scan leave out no segment below one that may be reached. */
  ghost predicate Gapless(im: Image, max: Option<Lsn>, start: nat, all: seq<nat>) {
    forall g: nat, h: nat ::
      && start <= g <= h && IsHeader(im, g) && IsHeader(im, h)
      && im.items[h].lsn in all && !Exceeds(max, im.items[h].lsn) ==>
      im.items[g].lsn in all
  }

  predicate Ascending(s: seq<nat>) {
    forall i, j :: 0 <= i < j < |s| ==> s[i] < s[j]
  }

  // ---------------------------------------------------------------------------------
  // The state of an iteration
  // ---------------------------------------------------------------------------------

  /** The fields of `LogIter`, with what the proof adds: the header index where the scan
      starts, the segments it was given, the index of the item at `cur`, and whether a
      corrupted message was skipped in the last stage. */
  datatype Scan = Scan(im: Image, lastStage: bool, max: Option<Lsn>, start: nat, all: seq<nat>,
                       segments: seq<nat>, base: Option<nat>, cur: Option<nat>, at: nat, lost: bool)

  ghost predicate Tracking(c: Scan)
    requires |c.im.items| > 0 && c.start <= c.at <= |c.im.items|
  {
    && (forall h: nat :: IsHeader(c.im, h) ==>
          (c.im.items[h].lsn in c.segments <==> c.at <= h && c.im.items[h].lsn in c.all))
    && (c.cur.Some? ==> c.start < c.at && c.cur.value == LsnAt(c.im, c.at))
    && (c.cur.Some? && c.base.Some? ==> c.base.value == c.im.items[c.at - 1].lsn - c.im.items[c.at - 1].off)
    && (c.base.None? && c.cur.Some? ==> Between(c))
  }

  ghost predicate Between(c: Scan) {
    && Boundary(c.im, c.at)
    && (c.at < |c.im.items| && c.im.items[c.at].kind.Pad? ==> Readable(c.im, c.at))
  }

  ghost predicate ValidScan(c: Scan) {
    && WellFormed(c.im)
    && c.start <= c.at <= |c.im.items| && IsHeader(c.im, c.start)
    && Ascending(c.segments)
    && (forall l :: l in c.segments ==> HeaderOnDisk(c.im, l) && l in c.all)
    && (forall l :: l in c.all ==> c.im.items[c.start].lsn <= l)
    && (c.base.Some? ==> c.cur.Some?)
    && (c.cur.Some? ==> c.cur.value <= End(c.im.items))
    && (c.cur.None? ==> c.at == c.start && !c.lost)
    && (!c.lost ==> Tracking(c))
  }

  ghost predicate Solid(c: Scan) {
    Gapless(c.im, c.max, c.start, c.all)
  }

  lemma NextHeaderIsHeader(im: Image, i: nat)
    requires WellFormed(im) && Boundary(im, i) && NextHeader(im, i) < |im.items|
    ensures IsHeader(im, NextHeader(im, i))
  {
    var e := NextHeader(im, i);
    if e == i + 1 {
      assert Follows(im.size, im.items[i], im.items[e]) && Placed(im.size, im.items[e]) && Placed(im.size, im.items[i]);
    }
  }

  /** The first segment left is the one the scan needs next. */
  lemma FirstSegment(c: Scan)
    requires ValidScan(c) && Solid(c) && !c.lost && c.base.None? && c.segments != [] && !Exceeds(c.max, c.segments[0])
    ensures var e := NextHeader(c.im, c.at);
            IsHeader(c.im, e) && e in c.im.disk && c.im.items[e].lsn == c.segments[0]
  {
    var l := c.segments[0];
    assert l in c.segments;
    var h: nat :| IsHeader(c.im, h) && h in c.im.disk && c.im.items[h].lsn == l;
    var e := NextHeader(c.im, c.at);
    NextHeaderIsHeader(c.im, c.at);
    if e < h {
      LsnOrder(c.im, e, h);
    }
  }

  lemma OutOfReach(c: Scan)
    requires ValidScan(c) && !c.lost && c.base.None? && (c.segments == [] || Exceeds(c.max, c.segments[0]))
    ensures Unreachable(c.im, c.max, c.all, NextHeader(c.im, c.at))
  {
    var e := NextHeader(c.im, c.at);
    if e < |c.im.items| && c.im.items[e].lsn in c.all {
      NextHeaderIsHeader(c.im, c.at);
      assert c.im.items[e].lsn in c.segments;
    }
  }

  ghost function Loaded(c: Scan): Scan
    requires c.segments != []
  {
    c.(segments := c.segments[1..], base := Some(c.segments[0]), cur := Some(c.segments[0] + SEG_HEADER_LEN),
       at := if c.lost then c.at else NextHeader(c.im, c.at) + 1)
  }

  /** Behind header e, the segments left are those behind e. */
  lemma RestOfSegments(im: Image, segments: seq<nat>, all: seq<nat>, at: nat, e: nat, h: nat)
    requires LaidOut(im.size, im.items) && e < |im.items| && h < |im.items| && at <= e && (h < e ==> h < at)
    requires segments != [] && Ascending(segments) && im.items[e].lsn == segments[0]
    requires im.items[h].lsn in segments <==> at <= h && im.items[h].lsn in all
    ensures im.items[h].lsn in segments[1..] <==> e + 1 <= h && im.items[h].lsn in all
  {
    if e < h { LsnOrder(im, e, h); }
    assert segments == [segments[0]] + segments[1..];
  }

  lemma LoadedPlace(c: Scan, e: nat)
    requires LaidOut(c.im.size, c.im.items) && IsHeader(c.im, e)
    ensures LsnAt(c.im, e + 1) == c.im.items[e].lsn + SEG_HEADER_LEN && c.im.items[e].off == 0
  {
    assert Placed(c.im.size, c.im.items[e]);
    assert e + 1 < |c.im.items| ==> Follows(c.im.size, c.im.items[e], c.im.items[e + 1]);
  }

  lemma LoadedTracking(c: Scan)
    requires ValidScan(c) && Solid(c) && !c.lost && c.base.None? && c.segments != [] && !Exceeds(c.max, c.segments[0])
    ensures var c' := Loaded(c);
            c'.at <= |c.im.items| && Tracking(c') && Skipped(c.im, c.max, c.at, c'.at)
  {
    var e := NextHeader(c.im, c.at);
    FirstSegment(c);
    forall h: nat | IsHeader(c.im, h)
      ensures c.im.items[h].lsn in c.segments[1..] <==> e + 1 <= h && c.im.items[h].lsn in c.all
    {
      RestOfSegments(c.im, c.segments, c.all, c.at, e, h);
    }
    LoadedPlace(c, e);
  }

  lemma LoadedEntry(im: Image, l: nat)
    requires WellFormed(im) && HeaderOnDisk(im, l)
    ensures l + SEG_HEADER_LEN <= End(im.items) && ValidEntryOffset(l + SEG_HEADER_LEN, im.size)
  {
    var h: nat :| IsHeader(im, h) && h in im.disk && im.items[h].lsn == l;
    LsnOrder(im, h, |im.items|);
    assert Placed(im.size, im.items[h]);
    Advance(im.size, l, 0, SEG_HEADER_LEN);
  }

  lemma RestIsAscending(segments: seq<nat>)
    requires segments != [] && Ascending(segments)
    ensures Ascending(segments[1..]) && forall l :: l in segments[1..] ==> l in segments
  {
  }

  lemma LoadedValid(c: Scan)
    requires ValidScan(c) && Solid(c) && c.base.None? && c.segments != [] && !Exceeds(c.max, c.segments[0])
    ensures ValidScan(Loaded(c)) && ValidEntryOffset(Loaded(c).cur.value, c.im.size)
  {
    assert c.segments[0] in c.segments;
    LoadedEntry(c.im, c.segments[0]);
    RestIsAscending(c.segments);
    if !c.lost {
      LoadedTracking(c);
    }
  }

  /** What is read at a place where a message can begin. */
  lemma EntryRead(c: Scan)
    requires ValidScan(c) && !c.lost && c.base.Some? && ValidEntryOffset(c.cur.value, c.im.size)
    ensures c.at == |c.im.items| ==> ReadMessage(c.im, c.cur.value) == Corrupted
    ensures c.at < |c.im.items| ==>
      && !c.im.items[c.at].kind.SegHeader? && !RedZone(c.im.items[c.at])
      && Lookup(c.im.items, c.cur.value) == Some(c.at)
      && c.base.value == c.im.items[c.at].lsn - c.im.items[c.at].off
      && LsnAt(c.im, c.at + 1) == c.cur.value + c.im.items[c.at].len
  {
    var items := c.im.items;
    if c.at < |items| {
      LookupFinds(c.im, c.at);
      assert Placed(c.im.size, items[c.at]) && Follows(c.im.size, items[c.at - 1], items[c.at])
             && Placed(c.im.size, items[c.at - 1]);
      assert c.at + 1 < |items| ==> Follows(c.im.size, items[c.at], items[c.at + 1]);
    } else {
      forall i | 0 <= i < |items| ensures items[i].lsn != c.cur.value {
        LsnOrder(c.im, i, |items|);
      }
    }
  }

  /** The scan moves over the message at `cur`. */
  ghost function Moved(c: Scan, len: nat): Scan
    requires c.cur.Some?
  {
    c.(cur := Some(c.cur.value + len), at := if c.lost then c.at else c.at + 1)
  }

  lemma MovedValid(c: Scan)
    requires ValidScan(c) && c.base.Some? && ValidEntryOffset(c.cur.value, c.im.size)
    requires var m := ReadMessage(c.im, c.cur.value); m.Inline? || m.BatchManifest? || m.CanceledRead?
    ensures var m := ReadMessage(c.im, c.cur.value);
            m.len > 0 && ValidScan(Moved(c, m.len))
    ensures !c.lost ==> c.at in c.im.disk && Lookup(c.im.items, c.cur.value) == Some(c.at)
  {
    var i := Lookup(c.im.items, c.cur.value).value;
    LsnOrder(c.im, i, |c.im.items|);
    assert Placed(c.im.size, c.im.items[i]);
    if !c.lost {
      EntryRead(c);
    }
  }

  /** c is reached from c0 without returning a record. */
  ghost predicate Scanned(c0: Scan, c: Scan) {
    && ValidScan(c)
    && c == c0.(segments := c.segments, base := c.base, cur := c.cur, at := c.at, lost := c.lost)
    && (c.lost && !c0.lost ==> c.lastStage && Hole(c.im, c.max, c0.at))
    && (!c.lost ==> !c0.lost && Skipped(c.im, c.max, c0.at, c.at))
  }

  /** c is reached from c0 by returning the record just before it. */
  ghost predicate Yields(c0: Scan, c: Scan, r: Entry) {
    && ValidScan(c)
    && c == c0.(segments := c.segments, base := c.base, cur := c.cur, at := c.at, lost := c.lost)
    && (c.lost && !c0.lost ==> c.lastStage && Hole(c.im, c.max, c0.at))
    && (!c.lost ==> && !c0.lost && c0.at < c.at && Skipped(c.im, c.max, c0.at, c.at - 1)
                    && c.at - 1 in c.im.disk && c.im.items[c.at - 1].lsn == r.lsn
                          && c.im.items[c.at - 1].kind == Record(r.payload))
  }

  /** No message can begin here: the scan is between two segments. */
  lemma InvalidEntry(c0: Scan, c: Scan)
    requires Scanned(c0, c)
    requires c.cur.Some? ==> !ValidEntryOffset(c.cur.value, c.im.size)
    ensures Scanned(c0, c.(base := None))
  {
    assert c.at < |c.im.items| ==> Placed(c.im.size, c.im.items[c.at]);
  }

  lemma LoadedScanned(c0: Scan, c: Scan)
    requires Scanned(c0, c) && Solid(c) && c.base.None? && c.segments != [] && !Exceeds(c.max, c.segments[0])
    ensures Scanned(c0, Loaded(c)) && ValidEntryOffset(Loaded(c).cur.value, c.im.size)
  {
    LoadedValid(c);
    if !c.lost { LoadedTracking(c); }
  }

  lemma MovedScanned(c0: Scan, c: Scan)
    requires Scanned(c0, c) && c.base.Some? && ValidEntryOffset(c.cur.value, c.im.size)
    requires var m := ReadMessage(c.im, c.cur.value); m.CanceledRead? || (m.BatchManifest? && !Exceeds(c.max, m.last))
    ensures ReadMessage(c.im, c.cur.value).len > 0 && Scanned(c0, Moved(c, ReadMessage(c.im, c.cur.value).len))
  {
    MovedValid(c);
  }

  lemma MovedYields(c0: Scan, c: Scan)
    requires Scanned(c0, c) && c.base.Some? && ValidEntryOffset(c.cur.value, c.im.size)
    requires ReadMessage(c.im, c.cur.value).Inline?
    ensures var m := ReadMessage(c.im, c.cur.value);
            m.len > 0 && Yields(c0, Moved(c, m.len), Entry(c.cur.value, m.payload))
  {
    MovedValid(c);
  }

  lemma CapScanned(c0: Scan, c: Scan)
    requires Scanned(c0, c) && c.base.Some? && ValidEntryOffset(c.cur.value, c.im.size)
    requires ReadMessage(c.im, c.cur.value) == Cap
    ensures Scanned(c0, c.(base := None))
  {
    if !c.lost { EntryRead(c); }
  }

  /** Where the scan returns None. */
  lemma ScanStops(c: Scan)
    requires ValidScan(c) && !c.lost
    requires if c.base.None? then c.segments == [] || Exceeds(c.max, c.segments[0])
             else || Exceeds(c.max, c.cur.value)
                  || (ValidEntryOffset(c.cur.value, c.im.size) &&
                      var m := ReadMessage(c.im, c.cur.value);
                      m.Corrupted? || (m.BatchManifest? && Exceeds(c.max, m.last)))
    ensures Stopped(c.im, c.max, c.all, c.at)
  {
    if c.base.None? {
      OutOfReach(c);
    } else if !Exceeds(c.max, c.cur.value) {
      EntryRead(c);
    }
  }

  lemma CorruptedScanned(c0: Scan, c: Scan)
    requires Scanned(c0, c) && c.base.Some? && ValidEntryOffset(c.cur.value, c.im.size) && c.lastStage
    requires !Exceeds(c.max, c.cur.value) && ReadMessage(c.im, c.cur.value) == Corrupted
    ensures Scanned(c0, c.(base := None, lost := true))
  {
    if !c.lost {
      EntryRead(c);
      assert c.at < |c.im.items| ==> !Readable(c.im, c.at);
    }
  }

  /** Less of the log is left to scan. */
  ghost predicate Smaller(c0: Scan, c: Scan) {
    || |c.segments| < |c0.segments|
    || (|c.segments| == |c0.segments| && c0.cur.Some? && c.cur.Some? && c0.cur.value < c.cur.value)
  }

  ghost predicate LeavesSegment(c0: Scan, c: Scan) {
    c.segments == c0.segments && c.cur == c0.cur && c0.base.Some? && c.base.None?
  }

  ghost predicate Ended(c: Scan) {
    c.base.Some? && c.im.size > 0 ==> c.cur.Some? && ValidEntryOffset(c.cur.value, c.im.size)
  }

  class LogIter {
    const im: Image
    const lastStage: bool
    const maxLsn: Option<Lsn>
    var segments: seq<nat>
    var segmentBase: Option<nat>
    var curLsn: Option<nat>
    ghost const start: nat
    ghost const all: seq<nat>
    ghost var at: nat
    ghost var lost: bool

    ghost function View(): Scan
      reads this
    {
      Scan(im, lastStage, maxLsn, start, all, segments, segmentBase, curLsn, at, lost)
    }

    constructor (im: Image, segments: seq<nat>, maxLsn: Option<Lsn>, lastStage: bool, ghost start: nat)
      requires WellFormed(im) && IsHeader(im, start) && Ascending(segments)
      requires forall l :: l in segments ==> HeaderOnDisk(im, l) && im.items[start].lsn <= l
      requires Gapless(im, maxLsn, start, segments)
      ensures ValidScan(View()) && Solid(View())
      ensures View() == Scan(im, lastStage, maxLsn, start, segments, segments, None, None, start, false)
    {
      this.im, this.segments, this.maxLsn, this.lastStage := im, segments, maxLsn, lastStage;
      this.segmentBase, this.curLsn := None, None;
      this.start, this.all, this.at, this.lost := start, segments, start, false;
      new;
      forall h: nat | IsHeader(im, h) && im.items[h].lsn in all ensures start <= h {
        if h < start { LsnOrder(im, h, start); }
      }
    }

    method ReadSegment() returns (ok: bool)
      modifies this
      ensures ok <==> old(segments) != [] && !Exceeds(maxLsn, old(segments)[0])
      ensures View() == if ok then Loaded(old(View())) else old(View())
    {
      if segments == [] || Exceeds(maxLsn, segments[0]) {
        return false;
      }
      var lsn := segments[0];
      at := if lost then at else NextHeader(im, at) + 1;
      curLsn := Some(lsn + SEG_HEADER_LEN);
      segmentBase := Some(lsn);
      segments := segments[1..];
      return true;
    }

    /** Move over the message at `curLsn`. */
    method Move(len: nat)
      requires curLsn.Some?
      modifies this`curLsn, this`at
      ensures View() == Moved(old(View()), len)
    {
      curLsn := Some(curLsn.value + len);
      at := if lost then at else at + 1;
    }

    /** Read the message at `curLsn`: either go on, or return a record or nothing. */
    method ReadEntry(ghost c0: Scan, ghost c: Scan) returns (more: bool, out: Option<Entry>, ghost c': Scan)
      requires View() == c && Scanned(c0, c) && c.base.Some? && ValidEntryOffset(c.cur.value, c.im.size)
      modifies this`segmentBase, this`curLsn, this`at, this`lost
      ensures View() == c'
      ensures more || out.None? ==> Scanned(c0, c')
      ensures more ==> c'.cur.Some? && (c'.cur.value > c.cur.value || (c'.cur == c.cur && c'.base.None?))
      ensures !more && out.None? ==> c' == c && (!c.lost ==> Stopped(c.im, c.max, c.all, c.at))
      ensures !more && out.Some? ==> Yields(c0, c', out.value) && c'.cur.Some? && c'.cur.value > c.cur.value
    {
      var m := ReadMessage(im, curLsn.value);
      if Exceeds(maxLsn, curLsn.value) || (m.BatchManifest? && Exceeds(maxLsn, m.last))
          || (m.Corrupted? && !lastStage) {
        if !lost { ScanStops(c); }
        return false, None, c;
      }
      if m.Inline? {
        MovedYields(c0, c);
        out := Some(Entry(curLsn.value, m.payload));
        Move(m.len);
        return false, out, Moved(c, m.len);
      }
      if m.BatchManifest? || m.CanceledRead? {
        MovedScanned(c0, c);
        Move(m.len);
        return true, None, Moved(c, m.len);
      }
      segmentBase := None;
      if m.Cap? {
        CapScanned(c0, c);
        return true, None, c.(base := None);
      }
      CorruptedScanned(c0, c);
      lost := true;
      return true, None, c.(base := None, lost := true);
    }

    /** Where no message can begin, the scan leaves its segment. */
    method LeaveSegment(ghost c0: Scan, ghost c: Scan) returns (ghost c': Scan)
      requires View() == c && Scanned(c0, c)
      modifies this`segmentBase
      ensures View() == c' && Scanned(c0, c') && (c' == c || c' == c.(base := None))
      ensures segmentBase.Some? ==> curLsn.Some? && ValidEntryOffset(curLsn.value, im.size)
    {
      if ValidEntryOffset(if curLsn.Some? then curLsn.value else 0, im.size) {
        return c;
      }
      InvalidEntry(c0, c);
      segmentBase := None;
      return c.(base := None);
    }

    /** Load the next segment. */
    method EnterSegment(ghost c0: Scan, ghost c: Scan) returns (ok: bool, ghost c': Scan)
      requires View() == c && Scanned(c0, c) && Solid(c) && c.base.None?
      modifies this
      ensures View() == c' && Scanned(c0, c')
      ensures ok ==> c'.base.Some? && ValidEntryOffset(c'.cur.value, c.im.size) && |c'.segments| < |c.segments|
      ensures !ok ==> c' == c && (!c.lost ==> Stopped(c.im, c.max, c.all, c.at))
    {
      ok := ReadSegment();
      if ok {
        LoadedScanned(c0, c);
        return true, Loaded(c);
      }
      if !lost { ScanStops(c); }
      return false, c;
    }

    /** Make sure that the scan is inside a segment, where a message can begin. */
    method SeekEntry(ghost c0: Scan, ghost c: Scan) returns (ok: bool, ghost c': Scan)
      requires View() == c && Scanned(c0, c) && Solid(c)
      modifies this
      ensures View() == c' && Scanned(c0, c')
      ensures ok ==> c'.base.Some? && ValidEntryOffset(c'.cur.value, c.im.size)
      ensures ok ==> c' == c || |c'.segments| < |c.segments|
      ensures !ok ==> c'.base.None? && (!c'.lost ==> Stopped(c.im, c.max, c.all, c'.at))
    {
      c' := LeaveSegment(c0, c);
      if segmentBase.Some? {
        return true, c';
      }
      ok, c' := EnterSegment(c0, c');
    }

    /** One round of the loop of `next`. */
    method Round(ghost c0: Scan, ghost c: Scan) returns (more: bool, out: Option<Entry>, ghost c': Scan)
      requires View() == c && Scanned(c0, c) && Solid(c)
      modifies this
      ensures View() == c'
      ensures more ==> Scanned(c0, c') && (Smaller(c, c') || LeavesSegment(c, c'))
      ensures !more && out.None? ==> Scanned(c0, c') && Ended(c') && (!c'.lost ==> Stopped(im, maxLsn, all, c'.at))
      ensures !more && out.Some? ==> Yields(c0, c', out.value) && Smaller(c, c')
    {
      ghost var d: Scan;
      more, d := SeekEntry(c0, c);
      if !more {
        return false, None, d;
      }
      more, out, c' := ReadEntry(c0, d);
    }

    method Next() returns (out: Option<Entry>)
      requires ValidScan(View()) && Solid(View())
      modifies this
      ensures out.None? ==> Scanned(old(View()), View()) && (!lost ==> Stopped(im, maxLsn, all, at))
      ensures out.None? && segmentBase.Some? ==> curLsn.Some? && ValidEntryOffset(curLsn.value, im.size)
      ensures out.Some? ==> Yields(old(View()), View(), out.value) && Smaller(old(View()), View())
    {
      ghost var c0 := View();
      ghost var c := c0;
      while true
        invariant View() == c && Scanned(c0, c)
        invariant Smaller(c0, c) || (c.segments == c0.segments && c.cur == c0.cur)
        decreases |segments|, if curLsn.Some? then End(im.items) - curLsn.value else 0,
                  if segmentBase.Some? then 1 else 0
      {
        var more: bool;
        more, out, c := Round(c0, c);
        if !more {
          return;
        }
      }
    }
  }
}
