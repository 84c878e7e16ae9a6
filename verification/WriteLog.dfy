/** The log write path as a machine over its atomic steps: reservations claim space in the
    current buffer, buffers are sealed and replaced, their contents reach the disk in any
    order, and each finished buffer is reported to the stability intervals. */
module WriteLog {
  import opened Base
  import opened Stability

  /** What stands at a place of the log. A reservation is Open until it is completed or
      aborted; a batch manifest is Pegged between marking the batch and completing it. */
  datatype Kind =
    | SegHeader(maxStable: Lsn)
    | Open
    | Pegged(last: Lsn)
    | Record(payload: nat)
    | Canceled
    | Manifest(last: Lsn)
    | Pad

  /** `off` is the item's place in its segment. */
  datatype Item = Item(lsn: nat, off: nat, len: nat, kind: Kind)

  /** `IoBuf`; `first` is the index of the first item that lies in the buffer. */
  datatype IoBuf = IoBuf(base: nat, offset: nat, lsn: nat, capacity: nat, used: nat, sealed: bool, maxed: bool,
      first: nat)

  datatype Log = Log(
    size: nat,             // segment_size
    items: seq<Item>,      // the log in LSN order
    bufs: seq<IoBuf>,      // every buffer of this process, the current one last
    disk: set<nat>,        // indices of the items that are on disk
    reported: set<nat>,    // indices of the buffers passed to mark_interval
    track: Tracker,        // stability intervals and the published stable LSN
    batch: Option<nat>,    // index of the manifest of the open batch
    maxReserved: Lsn)

  // ---------------------------------------------------------------------------------
  // Positions
  // ---------------------------------------------------------------------------------

  /** pos lies `off` bytes into its segment (of the log or of the file). */
  predicate At(size: nat, pos: nat, off: nat) {
    size > 0 && off < size && pos % size == off
  }

  lemma Advance(size: nat, pos: nat, off: nat, len: nat)
    requires At(size, pos, off) && off + len <= size
    ensures At(size, pos + len, if off + len == size then 0 else off + len)
    ensures (pos / size + 1) * size == pos - off + size
  {
    var q := pos / size;
    assert pos == q * size + off;
    assert (q + 1) * size == q * size + size;
    if off + len < size {
      DivModUnique(size, q, off + len);
    } else {
      DivModUnique(size, q + 1, 0);
    }
  }

  predicate InFlight(k: Kind) {
    k.Open? || k.Pegged?
  }

  predicate IsMessage(k: Kind) {
    !k.SegHeader? && !k.Pad?
  }

  /** A segment starts with its header; messages start outside the red zone; a pad fills
      the segment up. */
  predicate Placed(size: nat, it: Item) {
    && it.len > 0 && it.off + it.len <= size
    && (it.kind.SegHeader? <==> it.off == 0)
    && (it.off == 0 ==> it.len == SEG_HEADER_LEN)
    && (it.off != 0 ==> SEG_HEADER_LEN <= it.off)
    && (IsMessage(it.kind) ==> it.off + MAX_MSG_HEADER_LEN <= size)
    && (it.kind.Pad? ==> it.off + it.len == size)
  }

  /** Padding too short to hold a message header is never read. */
  predicate RedZone(it: Item) {
    it.kind.Pad? && it.len < MAX_MSG_HEADER_LEN
  }

  /** The items lie side by side. */
  predicate Contiguous(size: nat, items: seq<Item>) {
    forall i, j :: 0 <= i && j == i + 1 < |items| ==> Follows(size, items[i], items[j])
  }

  predicate Follows(size: nat, a: Item, b: Item) {
    && b.lsn == a.lsn + a.len
    && b.off == if a.off + a.len == size then 0 else a.off + a.len
  }

  predicate LaidOut(size: nat, items: seq<Item>) {
    && size >= 256 && |items| > 0
    && items[0].kind.SegHeader?
    && Contiguous(size, items)
    && (forall i :: 0 <= i < |items| ==> Placed(size, items[i]))
  }

  function End(items: seq<Item>): nat
    requires |items| > 0
  {
    items[|items| - 1].lsn + items[|items| - 1].len
  }

  /** Where the next item lies in its segment. */
  function NextOff(size: nat, items: seq<Item>): nat
    requires |items| > 0
  {
    var last := items[|items| - 1];
    if last.off + last.len == size then 0 else last.off + last.len
  }

  // ---------------------------------------------------------------------------------
  // Buffers
  // ---------------------------------------------------------------------------------

  function Current(s: Log): IoBuf
    requires |s.bufs| > 0
  {
    s.bufs[|s.bufs| - 1]
  }

  /** The length that `write_to_log` reports for a buffer: a full buffer is reported up to
      the beginning of the next segment. */
  function CompleteLen(b: IoBuf): nat {
    if b.maxed then b.capacity else b.used
  }

  function Extent(b: IoBuf): Interval {
    (b.lsn, b.lsn + CompleteLen(b) - 1)
  }

  /** One past the last item of buffer j. */
  function LastOf(s: Log, j: nat): nat
    requires j < |s.bufs|
  {
    if j == |s.bufs| - 1 then |s.items| else s.bufs[j + 1].first
  }

  ghost predicate InBuffer(s: Log, j: nat, i: nat)
    requires j < |s.bufs|
  {
    s.bufs[j].first <= i < LastOf(s, j)
  }

  predicate Sized(size: nat, b: IoBuf) {
    && b.base + b.capacity == size
    && b.used <= b.capacity && b.capacity > 0
    && SEG_HEADER_LEN <= b.base + b.used
    && (b.sealed && !b.maxed ==> 0 < b.used && b.capacity - b.used >= MAX_MSG_HEADER_LEN)
  }

  /** LSN and file offset agree modulo the segment size. */
  predicate AllAt(size: nat, items: seq<Item>, bufs: seq<IoBuf>) {
    && (forall j :: 0 <= j < |bufs| ==> At(size, bufs[j].lsn, bufs[j].base) && At(size, bufs[j].offset, bufs[j].base))
    && (forall i :: 0 <= i < |items| ==> At(size, items[i].lsn, items[i].off))
  }

  predicate Aligned(s: Log) {
    AllAt(s.size, s.items, s.bufs)
  }

  /** b is the buffer opened when a was sealed. */
  predicate Succeeds(a: IoBuf, b: IoBuf) {
    a.sealed && b.lsn == a.lsn + CompleteLen(a)
  }

  predicate Precedes(a: IoBuf, b: IoBuf) {
    a.first < b.first && a.lsn + CompleteLen(a) <= b.lsn
  }

  predicate Chained(size: nat, items: seq<Item>, bufs: seq<IoBuf>) {
    && |items| > 0 && |bufs| > 0
    && (forall j :: 0 <= j < |bufs| ==> Sized(size, bufs[j]))
    && (forall j, k :: 0 <= j && k == j + 1 < |bufs| ==> Succeeds(bufs[j], bufs[k]))
    && (forall j, k :: 0 <= j < k < |bufs| ==> Precedes(bufs[j], bufs[k]))
    && (forall j :: 0 <= j < |bufs| ==> BeginsAt(items, bufs[j]))
    && var b := bufs[|bufs| - 1];
    && !b.sealed && !b.maxed && b.first <= |items|
    && (b.first == |items| <==> b.used == 0)
    && b.lsn + b.used == End(items)
    && NextOff(size, items) == if b.used == b.capacity then 0 else b.base + b.used
  }

  predicate BufferChain(s: Log) {
    Chained(s.size, s.items, s.bufs)
  }

  predicate BeginsAt(items: seq<Item>, b: IoBuf) {
    b.first < |items| ==> items[b.first].lsn == b.lsn && items[b.first].off == b.base
  }

  // ---------------------------------------------------------------------------------
  // Invariants
  // ---------------------------------------------------------------------------------

  ghost predicate DiskInv(s: Log)
    requires |s.bufs| > 0
  {
    && (forall i :: i in s.disk ==> i < |s.items| && !InFlight(s.items[i].kind))
    && (forall i :: 0 <= i < s.bufs[0].first && i < |s.items| ==> i in s.disk || RedZone(s.items[i]))
    && (forall i :: i in s.disk && s.bufs[0].first <= i ==> i < Current(s).first)
    && (forall j, i :: j in s.reported && j < |s.bufs| && InBuffer(s, j, i) ==> i in s.disk)
    && (forall j :: j in s.reported ==> j < |s.bufs| - 1)
  }

  ghost predicate Reported(s: Log, iv: Interval) {
    exists j :: j in s.reported && j < |s.bufs| && iv == Extent(s.bufs[j])
  }

  ghost predicate TrackInv(s: Log)
    requires |s.bufs| > 0
  {
    && s.track.start == s.bufs[0].lsn - 1
    && (forall k :: 0 <= k < |s.track.reported| ==> Reported(s, s.track.reported[k]))
    && (forall i :: 0 <= i < |s.items| && s.items[i].kind.SegHeader? ==>
          s.items[i].kind.maxStable <= s.track.published && s.items[i].kind.maxStable < s.items[i].lsn)
  }

  /** x is the last byte of some message. */
  ghost predicate EndsMessage(items: seq<Item>, x: Lsn) {
    exists k :: 0 <= k < |items| && IsMessage(items[k].kind) && items[k].lsn + items[k].len - 1 == x
  }

  ghost predicate EndsInv(s: Log) {
    && (s.maxReserved == s.track.start || EndsMessage(s.items, s.maxReserved))
    && (forall i :: 0 <= i < |s.items| && (s.items[i].kind.Manifest? || s.items[i].kind.Pegged?) ==>
          s.items[i].lsn <= s.items[i].kind.last && EndsMessage(s.items, s.items[i].kind.last))
  }

  ghost predicate BatchInv(s: Log)
    requires |s.bufs| > 0 && |s.items| > 0
  {
    && s.maxReserved < End(s.items)
    && s.track.start < s.bufs[0].lsn
    && (forall i :: 0 <= i < |s.items| && IsMessage(s.items[i].kind) ==>
          s.items[i].lsn + s.items[i].len - 1 <= s.maxReserved)
    && (forall i :: 0 <= i < |s.items| && (s.items[i].kind.Manifest? || s.items[i].kind.Pegged?) ==>
          if i < s.bufs[0].first then s.items[i].kind.last < s.bufs[0].lsn
          else s.items[i].lsn in s.track.ever && s.track.ever[s.items[i].lsn] == s.items[i].kind.last)
    && (forall l :: l in s.track.ever ==> s.track.ever[l] < End(s.items))
    && (s.batch.Some? ==>
          && s.bufs[0].first <= s.batch.value < |s.items|
          && InFlight(s.items[s.batch.value].kind) && s.items[s.batch.value].len > 1
          && (forall l :: l in s.track.ever && l != s.items[s.batch.value].lsn ==>
                s.track.ever[l] < s.items[s.batch.value].lsn)
          && (s.items[s.batch.value].kind.Open? ==> s.items[s.batch.value].lsn !in s.track.ever))
  }

  ghost predicate Inv(s: Log) {
    && LaidOut(s.size, s.items)
    && BufferChain(s)
    && Aligned(s)
    && DiskInv(s)
    && Sound(s.track)
    && TrackInv(s)
    && BatchInv(s)
    && EndsInv(s)
  }

  // ---------------------------------------------------------------------------------
  // Steps
  // ---------------------------------------------------------------------------------

  /** `reserve_inner` claims `len` bytes of the current buffer: they fit, and they do not
      begin in the red zone. */
  predicate CanReserve(s: Log, len: nat)
    requires |s.bufs| > 0
  {
    var b := Current(s);
    0 < len && b.used + len <= b.capacity && b.capacity - b.used >= MAX_MSG_HEADER_LEN
  }

  function Reserve(s: Log, len: nat): Log
    requires |s.bufs| > 0 && CanReserve(s, len)
  {
    var b := Current(s);
    s.(items := s.items + [Item(b.lsn + b.used, b.base + b.used, len, Open)],
       bufs := s.bufs[|s.bufs| - 1 := b.(used := b.used + len)],
       maxReserved := b.lsn + b.used + len - 1)
  }

  /** `pin_log`: the manifest of a new batch. No other batch is open: the caller holds the
      write protector. A manifest is longer than one byte. */
  predicate CanBeginBatch(s: Log, len: nat)
    requires |s.bufs| > 0
  {
    CanReserve(s, len) && s.batch == None && len > 1
  }

  function BeginBatch(s: Log, len: nat): Log
    requires |s.bufs| > 0 && CanBeginBatch(s, len)
  {
    Reserve(s, len).(batch := Some(|s.items|))
  }

  /** `mark_writebatch` up to and including `mark_batch`: the batch reaches up to the last
      byte reserved so far. */
  predicate CanPeg(s: Log) {
    s.batch.Some? && s.batch.value < |s.items| && s.items[s.batch.value].kind.Open?
  }

  function Peg(s: Log): Log
    requires CanPeg(s)
  {
    var m := s.batch.value;
    var now := s.track.now.(batches := s.track.now.batches[s.items[m].lsn := s.maxReserved]);
    s.(items := s.items[m := s.items[m].(kind := Pegged(s.maxReserved))],
       track := s.track.(now := now, ever := s.track.ever[s.items[m].lsn := s.maxReserved]))
  }

  /** `Reservation::flush`: an open reservation becomes a record or a canceled message; a
      pegged manifest is completed, which ends the batch. */
  predicate CanFinish(s: Log, i: nat, k: Kind) {
    && i < |s.items|
    && match s.items[i].kind
       case Open => (k.Record? && s.batch != Some(i)) || k == Canceled
       case Pegged(last) => k == Manifest(last)
       case _ => false
  }

  function Finish(s: Log, i: nat, k: Kind): Log
    requires CanFinish(s, i, k)
  {
    s.(items := s.items[i := s.items[i].(kind := k)],
       batch := if s.batch == Some(i) then None else s.batch)
  }

  /** `maybe_seal_and_write_iobuf` with room for another message left: the next buffer
      continues in the same segment. */
  predicate CanSealPartial(s: Log)
    requires |s.bufs| > 0
  {
    Current(s).used > 0 && Current(s).capacity - Current(s).used >= MAX_MSG_HEADER_LEN
  }

  function SealPartial(s: Log): Log
    requires |s.bufs| > 0 && CanSealPartial(s)
  {
    var b := Current(s);
    var next := IoBuf(b.base + b.used, b.offset + b.used, b.lsn + b.used, b.capacity - b.used, 0, false, false,
        |s.items|);
    s.(bufs := s.bufs[|s.bufs| - 1 := b.(sealed := true)] + [next])
  }

  /** `maybe_seal_and_write_iobuf` on a full buffer: `lid` is what `SegmentAccountant::next`
      returns, and the new segment's header records the stable LSN published so far. */
  predicate CanSealMaxed(s: Log, lid: nat)
    requires |s.bufs| > 0
  {
    At(s.size, lid, 0)
  }

  function Padding(b: IoBuf): seq<Item> {
    if b.capacity > b.used then [Item(b.lsn + b.used, b.base + b.used, b.capacity - b.used, Pad)] else []
  }

  function SealMaxed(s: Log, lid: nat): Log
    requires |s.bufs| > 0 && CanSealMaxed(s, lid)
  {
    var b := Current(s);
    var lsn := b.lsn + b.capacity;
    var items := s.items + Padding(b);
    var next := IoBuf(0, lid, lsn, s.size, SEG_HEADER_LEN, false, false, |items|);
    s.(items := items + [Item(lsn, 0, SEG_HEADER_LEN, SegHeader(s.track.published))],
       bufs := s.bufs[|s.bufs| - 1 := b.(sealed := true, maxed := true)] + [next])
  }

  /** A buffer is handed to `write_to_log` when it is sealed and no reservation in it is
      open. Its bytes reach the disk in any order, so a crash may tear the buffer. */
  ghost predicate Handed(s: Log, j: nat) {
    && j < |s.bufs| && s.bufs[j].sealed
    && (forall i: nat :: InBuffer(s, j, i) && i < |s.items| ==> !InFlight(s.items[i].kind))
  }

  ghost predicate CanWrite(s: Log, j: nat, i: nat) {
    Handed(s, j) && InBuffer(s, j, i) && i < |s.items|
  }

  function Write(s: Log, i: nat): Log {
    s.(disk := s.disk + {i})
  }

  /** `mark_interval`, after the whole buffer is on disk. */
  ghost predicate ReportStep(s: Log, j: nat, s': Log)
  {
    && Handed(s, j) && j !in s.reported
    && (forall i: nat :: InBuffer(s, j, i) ==> i in s.disk)
    && FsyncStep(s.track, Extent(s.bufs[j]), s'.track)
    && s' == s.(reported := s.reported + {j}, track := s'.track)
  }

  ghost predicate Step(s: Log, s': Log)
    requires |s.bufs| > 0
  {
    || (exists len :: CanReserve(s, len) && s' == Reserve(s, len))
    || (exists len :: CanBeginBatch(s, len) && s' == BeginBatch(s, len))
    || (CanPeg(s) && s' == Peg(s))
    || (exists i, k :: CanFinish(s, i, k) && s' == Finish(s, i, k))
    || (CanSealPartial(s) && s' == SealPartial(s))
    || (exists lid :: CanSealMaxed(s, lid) && s' == SealMaxed(s, lid))
    || (exists j, i :: CanWrite(s, j, i) && s' == Write(s, i))
    || (exists j :: ReportStep(s, j, s'))
  }
}
