/** The composite formats, and that each of them reads back what it wrote. */
module Formats {
  import opened Base
  import opened Varint
  import opened Serialization

  // ---------------------------------------------------------------------------------
  // Page states
  // ---------------------------------------------------------------------------------

  /** An LSN, a disk pointer and a size. */
  datatype Frag = Frag(lsn: int, ptr: DiskPtr, size: nat)

  datatype PageState = Present(base: Frag, frags: seq<Frag>) | Free(lsn: int, ptr: DiskPtr) | Uninitialized

  predicate IsFrag(f: Frag) {
    IsI64(f.lsn) && IsPtr(f.ptr) && f.size < U64_LIMIT
  }

  function FragSize(f: Frag): nat {
    8 + PtrSize(f.ptr) + Size(f.size)
  }

  function WriteFrag(k: Ints, f: Frag): bytes {
    k.i64.write(f.lsn) + (WritePtr(k, f.ptr) + k.u64.write(f.size))
  }

  function ReadFrag(k: Ints, b: bytes): Option<Parsed<Frag>> {
    match k.i64.read(b)
    case None => None
    case Some(p) =>
      match ReadPtr(k, p.rest)
      case None => None
      case Some(q) =>
        match k.u64.read(q.rest)
        case None => None
        case Some(r) => Some(Parsed(Frag(p.value, q.value, r.value), r.rest))
  }

  lemma FragBack(k: Ints, f: Frag, rest: bytes)
    requires Sound(k) && IsFrag(f)
    ensures ReadFrag(k, WriteFrag(k, f) + rest) == Some(Parsed(f, rest)) && |WriteFrag(k, f)| == FragSize(f)
  {
    var last := k.u64.write(f.size) + rest;
    var tail := WritePtr(k, f.ptr) + last;
    assert WriteFrag(k, f) + rest == k.i64.write(f.lsn) + tail;
    I64Back(k, f.lsn, tail);
    PtrBack(k, f.ptr, last);
    U64Back(k, f.size, rest);
  }

  function FragFormat(k: Ints): Format<Frag> {
    Format((f: Frag) => WriteFrag(k, f), (b: bytes) => ReadFrag(k, b))
  }

  /** The states that can be written: the list of fragments is counted in one byte. */
  predicate IsPage(s: PageState) {
    match s
    case Present(base, frags) => IsFrag(base) && |frags| <= 255 && forall i :: 0 <= i < |frags| ==> IsFrag(frags[i])
    case Free(lsn, ptr) => IsI64(lsn) && IsPtr(ptr)
    case Uninitialized => false
  }

  function SumSizes(frags: seq<Frag>): nat {
    if frags == [] then 0 else SumSizes(frags[..|frags| - 1]) + FragSize(frags[|frags| - 1])
  }

  function PageSize(s: PageState): nat {
    match s
    case Present(base, frags) => 1 + FragSize(base) + SumSizes(frags)
    case Free(_, ptr) => 1 + 8 + PtrSize(ptr)
    case Uninitialized => 0
  }

  /** The first byte is one more than the number of fragments, in 8 bits. */
  function WritePage(k: Ints, s: PageState): bytes
    requires IsPage(s)
  {
    match s
    case Present(base, frags) => [(1 + |frags|) % 256] + (WriteFrag(k, base) + WriteAll(FragFormat(k), frags))
    case Free(lsn, ptr) => [0] + (k.i64.write(lsn) + WritePtr(k, ptr))
  }

  function ReadFree(k: Ints, b: bytes): Option<Parsed<PageState>> {
    match k.i64.read(b)
    case None => None
    case Some(p) =>
      match ReadPtr(k, p.rest)
      case None => None
      case Some(q) => Some(Parsed(Free(p.value, q.value), q.rest))
  }

  function ReadPresent(k: Ints, b: bytes, count: nat): Option<Parsed<PageState>> {
    match ReadFrag(k, b)
    case None => None
    case Some(p) =>
      match ReadAll(FragFormat(k), p.rest, count)
      case None => None
      case Some(q) => Some(Parsed(Present(p.value, q.value), q.rest))
  }

  function ReadPage(k: Ints, b: bytes): Option<Parsed<PageState>> {
    if b == [] then None
    else if b[0] == 0 then ReadFree(k, b[1..])
    else ReadPresent(k, b[1..], b[0] - 1)
  }

  lemma FragsAreLawful(k: Ints, frags: seq<Frag>)
    requires Sound(k) && forall i :: 0 <= i < |frags| ==> IsFrag(frags[i])
    ensures forall i :: 0 <= i < |frags| ==> Lawful(FragFormat(k), frags[i])
  {
    forall i | 0 <= i < |frags| ensures Lawful(FragFormat(k), frags[i]) {
      forall rest: bytes ensures GoesBack(FragFormat(k), frags[i], rest) { FragBack(k, frags[i], rest); }
    }
  }

  lemma FreeBack(k: Ints, lsn: int, ptr: DiskPtr, rest: bytes)
    requires Sound(k) && IsI64(lsn) && IsPtr(ptr)
    ensures ReadFree(k, k.i64.write(lsn) + WritePtr(k, ptr) + rest) == Some(Parsed(Free(lsn, ptr), rest))
    ensures |k.i64.write(lsn) + WritePtr(k, ptr)| == 8 + PtrSize(ptr)
  {
    var tail := WritePtr(k, ptr) + rest;
    assert k.i64.write(lsn) + WritePtr(k, ptr) + rest == k.i64.write(lsn) + tail;
    I64Back(k, lsn, tail);
    PtrBack(k, ptr, rest);
  }

  lemma PresentBack(k: Ints, base: Frag, frags: seq<Frag>, rest: bytes)
    requires Sound(k) && IsFrag(base) && forall i :: 0 <= i < |frags| ==> IsFrag(frags[i])
    ensures ReadPresent(k, WriteFrag(k, base) + WriteAll(FragFormat(k), frags) + rest, |frags|) ==
            Some(Parsed(Present(base, frags), rest))
  {
    var tail := WriteAll(FragFormat(k), frags) + rest;
    assert WriteFrag(k, base) + WriteAll(FragFormat(k), frags) + rest == WriteFrag(k, base) + tail;
    FragBack(k, base, tail);
    FragsAreLawful(k, frags);
    AllBack(FragFormat(k), frags, rest);
  }

  /** What follows the first byte. */
  function PageBody(k: Ints, s: PageState): bytes
    requires IsPage(s)
  {
    match s
    case Present(base, frags) => WriteFrag(k, base) + WriteAll(FragFormat(k), frags)
    case Free(lsn, ptr) => k.i64.write(lsn) + WritePtr(k, ptr)
  }

  function FirstByte(s: PageState): byte
    requires IsPage(s)
  {
    if s.Free? then 0 else (1 + |s.frags|) % 256
  }

  lemma Behind(first: byte, body: bytes, rest: bytes)
    ensures var b := [first] + body + rest; b != [] && b[0] == first && b[1..] == body + rest
  {}

  lemma PageParts(k: Ints, s: PageState, rest: bytes)
    requires IsPage(s)
    ensures var b := WritePage(k, s) + rest;
      b != [] && b[1..] == PageBody(k, s) + rest && b[0] == FirstByte(s)
  {
    Behind(FirstByte(s), PageBody(k, s), rest);
  }

  /** The count of up to 254 fragments is in the first byte. */
  lemma CountFits(s: PageState)
    requires IsPage(s) && s.Present? && |s.frags| <= 254
    ensures FirstByte(s) == 1 + |s.frags|
  {}

  lemma FirstByteSays(k: Ints, b: bytes, body: bytes)
    requires b != [] && b[1..] == body
    ensures b[0] == 0 ==> ReadPage(k, b) == ReadFree(k, body)
    ensures b[0] == 0 && ReadPage(k, b).Some? ==> ReadPage(k, b).value.value.Free?
    ensures b[0] != 0 ==> ReadPage(k, b) == ReadPresent(k, body, b[0] - 1)
  {}

  lemma PresentReads(k: Ints, b: bytes, body: bytes, n: nat)
    requires b != [] && b[1..] == body && b[0] == 1 + n
    ensures ReadPage(k, b) == ReadPresent(k, body, n)
  {}

  lemma PresentPageBack(k: Ints, s: PageState, b: bytes, rest: bytes)
    requires Sound(k) && IsPage(s) && s.Present? && |s.frags| <= 254 && b == WritePage(k, s) + rest
    ensures ReadPage(k, b) == Some(Parsed(s, rest))
  {
    PageParts(k, s, rest);
    CountFits(s);
    PresentReads(k, b, PageBody(k, s) + rest, |s.frags|);
    PresentBack(k, s.base, s.frags, rest);
  }

  lemma FreePageBack(k: Ints, s: PageState, b: bytes, rest: bytes)
    requires Sound(k) && IsPage(s) && s.Free? && b == WritePage(k, s) + rest
    ensures ReadPage(k, b) == Some(Parsed(s, rest))
  {
    PageParts(k, s, rest);
    FirstByteSays(k, b, PageBody(k, s) + rest);
    FreeBack(k, s.lsn, s.ptr, rest);
  }

  /** With 255 fragments the count wraps to 0, and what is read is a free page. */
  lemma FullPageIsLost(k: Ints, s: PageState, b: bytes, rest: bytes)
    requires IsPage(s) && s.Present? && |s.frags| == 255 && b == WritePage(k, s) + rest
    ensures ReadPage(k, b).Some? ==> ReadPage(k, b).value.value.Free?
  {
    PageParts(k, s, rest);
    FirstByteSays(k, b, PageBody(k, s) + rest);
  }

  /** A page state reads back exactly when it has at most 254 fragments. */
  lemma PageBack(k: Ints, s: PageState, rest: bytes)
    requires Sound(k) && IsPage(s)
    ensures ReadPage(k, WritePage(k, s) + rest) == Some(Parsed(s, rest)) <==> (s.Present? ==> |s.frags| <= 254)
  {
    var b := WritePage(k, s) + rest;
    if s.Free? {
      FreePageBack(k, s, b, rest);
    } else if |s.frags| <= 254 {
      PresentPageBack(k, s, b, rest);
    } else {
      FullPageIsLost(k, s, b, rest);
    }
  }

  lemma {:induction false} FragsSize(k: Ints, frags: seq<Frag>)
    requires Sound(k) && forall i :: 0 <= i < |frags| ==> IsFrag(frags[i])
    ensures |WriteAll(FragFormat(k), frags)| == SumSizes(frags)
  {
    if frags != [] {
      FragsSize(k, frags[..|frags| - 1]);
      FragBack(k, frags[|frags| - 1], []);
    }
  }

  lemma PageSizeIsExact(k: Ints, s: PageState)
    requires Sound(k) && IsPage(s)
    ensures |WritePage(k, s)| == PageSize(s)
  {
    match s
    case Present(base, frags) =>
      FragBack(k, base, []);
      FragsSize(k, frags);
    case Free(lsn, ptr) => FreeBack(k, lsn, ptr, []);
  }

  // ---------------------------------------------------------------------------------
  // Snapshots
  // ---------------------------------------------------------------------------------

  datatype Snapshot = Snapshot(stableLsn: Option<int>, activeSegment: Option<nat>, pt: seq<PageState>)

  predicate Storable(s: PageState) {
    IsPage(s) && (s.Present? ==> |s.frags| <= 254)
  }

  predicate IsSnapshot(s: Snapshot) {
    IsOptI64(s.stableLsn) && IsOptU64(s.activeSegment) && |s.pt| < U64_LIMIT && forall i :: 0 <= i < |s.pt| ==>
        Storable(s.pt[i])
  }

  function PageFormat(k: Ints): Format<PageState> {
    Format((s: PageState) => if IsPage(s) then WritePage(k, s) else [], (b: bytes) => ReadPage(k, b))
  }

  function WritePages(k: Ints, pt: seq<PageState>): bytes {
    k.u64.write(|pt|) + WriteAll(PageFormat(k), pt)
  }

  function ReadPages(k: Ints, b: bytes): Option<Parsed<seq<PageState>>> {
    match k.u64.read(b)
    case None => None
    case Some(n) => ReadAll(PageFormat(k), n.rest, n.value)
  }

  function WriteSnapshot(k: Ints, s: Snapshot): bytes {
    k.i64.write(ShiftI64(s.stableLsn)) + (k.u64.write(Shift(s.activeSegment)) + WritePages(k, s.pt))
  }

  function ReadSnapshot(k: Ints, b: bytes): Option<Parsed<Snapshot>> {
    match k.i64.read(b)
    case None => None
    case Some(p) =>
      match k.u64.read(p.rest)
      case None => None
      case Some(q) =>
        match ReadPages(k, q.rest)
        case None => None
        case Some(r) => Some(Parsed(Snapshot(UnshiftI64(p.value), Unshift(q.value), r.value), r.rest))
  }

  lemma PagesAreLawful(k: Ints, pt: seq<PageState>)
    requires Sound(k) && forall i :: 0 <= i < |pt| ==> Storable(pt[i])
    ensures forall i :: 0 <= i < |pt| ==> Lawful(PageFormat(k), pt[i])
  {
    forall i | 0 <= i < |pt| ensures Lawful(PageFormat(k), pt[i]) {
      forall rest: bytes ensures GoesBack(PageFormat(k), pt[i], rest) { PageBack(k, pt[i], rest); }
    }
  }

  lemma PagesBack(k: Ints, pt: seq<PageState>, rest: bytes)
    requires Sound(k) && |pt| < U64_LIMIT && forall i :: 0 <= i < |pt| ==> Storable(pt[i])
    ensures ReadPages(k, WritePages(k, pt) + rest) == Some(Parsed(pt, rest))
  {
    var pages := WriteAll(PageFormat(k), pt) + rest;
    assert WritePages(k, pt) + rest == k.u64.write(|pt|) + pages;
    U64Back(k, |pt|, pages);
    PagesAreLawful(k, pt);
    AllBack(PageFormat(k), pt, rest);
  }

  lemma SnapshotBack(k: Ints, s: Snapshot, rest: bytes)
    requires Sound(k) && IsSnapshot(s)
    ensures ReadSnapshot(k, WriteSnapshot(k, s) + rest) == Some(Parsed(s, rest))
  {
    ShiftsBack(s.activeSegment, s.stableLsn);
    var pages := WritePages(k, s.pt) + rest;
    var active := k.u64.write(Shift(s.activeSegment)) + pages;
    assert WriteSnapshot(k, s) + rest == k.i64.write(ShiftI64(s.stableLsn)) + active;
    I64Back(k, ShiftI64(s.stableLsn), active);
    U64Back(k, Shift(s.activeSegment), pages);
    PagesBack(k, s.pt, rest);
  }

  function SumPages(pt: seq<PageState>): nat {
    if pt == [] then 0 else SumPages(pt[..|pt| - 1]) + PageSize(pt[|pt| - 1])
  }

  function SnapshotSize(s: Snapshot): nat {
    8 + Size(Shift(s.activeSegment)) + Size(|s.pt|) + SumPages(s.pt)
  }

  lemma {:induction false} PagesSize(k: Ints, pt: seq<PageState>)
    requires Sound(k) && forall i :: 0 <= i < |pt| ==> Storable(pt[i])
    ensures |WriteAll(PageFormat(k), pt)| == SumPages(pt)
  {
    if pt != [] {
      PagesSize(k, pt[..|pt| - 1]);
      PageSizeIsExact(k, pt[|pt| - 1]);
    }
  }

  lemma SnapshotSizeIsExact(k: Ints, s: Snapshot)
    requires Sound(k) && IsSnapshot(s)
    ensures |WriteSnapshot(k, s)| == SnapshotSize(s)
  {
    ShiftsBack(s.activeSegment, s.stableLsn);
    I64Back(k, ShiftI64(s.stableLsn), []);
    U64Back(k, Shift(s.activeSegment), []);
    U64Back(k, |s.pt|, []);
    PagesSize(k, s.pt);
  }

  // ---------------------------------------------------------------------------------
  // Links
  // ---------------------------------------------------------------------------------

  datatype Link =
    | Set(key: bytes, value: bytes)
    | Replace(index: nat, value: bytes)
    | Del(index: nat)
    | ParentMergeIntention(pid: nat)
    | ParentMergeConfirm
    | ChildMergeCap

  predicate IsLink(l: Link) {
    match l
    case Set(key, value) => |key| < U64_LIMIT && |value| < U64_LIMIT
    case Replace(index, value) => index < U64_LIMIT && |value| < U64_LIMIT
    case Del(index) => index < U64_LIMIT
    case ParentMergeIntention(pid) => pid < U64_LIMIT
    case ParentMergeConfirm => true
    case ChildMergeCap => true
  }

  function LinkSize(l: Link): nat {
    match l
    case Set(key, value) => 1 + Size(|key|) + Size(|value|) + |key| + |value|
    case Replace(index, value) => 1 + Size(index) + Size(|value|) + |value|
    case Del(index) => 1 + Size(index)
    case ParentMergeIntention(pid) => 1 + Size(pid)
    case ParentMergeConfirm => 1
    case ChildMergeCap => 1
  }

  function WriteLink(k: Ints, l: Link): bytes {
    match l
    case Set(key, value) => [0] + (WriteBytes(k, key) + WriteBytes(k, value))
    case Replace(index, value) => [5] + (k.u64.write(index) + WriteBytes(k, value))
    case Del(index) => [1] + k.u64.write(index)
    case ParentMergeIntention(pid) => [2] + k.u64.write(pid)
    case ParentMergeConfirm => [3]
    case ChildMergeCap => [4]
  }

  function ReadLinkBody(k: Ints, kind: byte, b: bytes): Option<Parsed<Link>> {
    if kind == 0 then
      match ReadBytes(k, b)
      case None => None
      case Some(p) =>
        match ReadBytes(k, p.rest)
        case None => None
        case Some(q) => Some(Parsed(Set(p.value, q.value), q.rest))
    else if kind == 5 then
      match k.u64.read(b)
      case None => None
      case Some(p) =>
        match ReadBytes(k, p.rest)
        case None => None
        case Some(q) => Some(Parsed(Replace(p.value, q.value), q.rest))
    else if kind == 1 then
      match k.u64.read(b)
      case None => None
      case Some(p) => Some(Parsed(Del(p.value), p.rest))
    else if kind == 2 then
      match k.u64.read(b)
      case None => None
      case Some(p) => Some(Parsed(ParentMergeIntention(p.value), p.rest))
    else if kind == 3 then Some(Parsed(ParentMergeConfirm, b))
    else if kind == 4 then Some(Parsed(ChildMergeCap, b))
    else None
  }

  function ReadLink(k: Ints, b: bytes): Option<Parsed<Link>> {
    if b == [] then None else ReadLinkBody(k, b[0], b[1..])
  }

  lemma SetBack(k: Ints, key: bytes, value: bytes, rest: bytes)
    requires Sound(k) && IsLink(Set(key, value))
    ensures ReadLink(k, WriteLink(k, Set(key, value)) + rest) == Some(Parsed(Set(key, value), rest))
    ensures |WriteLink(k, Set(key, value))| == LinkSize(Set(key, value))
  {
    var tail := WriteBytes(k, value) + rest;
    assert (WriteLink(k, Set(key, value)) + rest)[1..] == WriteBytes(k, key) + tail;
    BytesBack(k, key, tail);
    BytesBack(k, value, rest);
  }

  lemma ReplaceBack(k: Ints, index: nat, value: bytes, rest: bytes)
    requires Sound(k) && IsLink(Replace(index, value))
    ensures ReadLink(k, WriteLink(k, Replace(index, value)) + rest) == Some(Parsed(Replace(index, value), rest))
    ensures |WriteLink(k, Replace(index, value))| == LinkSize(Replace(index, value))
  {
    var tail := WriteBytes(k, value) + rest;
    assert (WriteLink(k, Replace(index, value)) + rest)[1..] == k.u64.write(index) + tail;
    U64Back(k, index, tail);
    BytesBack(k, value, rest);
  }

  lemma ShortLinkBack(k: Ints, l: Link, rest: bytes)
    requires Sound(k) && IsLink(l) && !l.Set? && !l.Replace?
    ensures ReadLink(k, WriteLink(k, l) + rest) == Some(Parsed(l, rest)) && |WriteLink(k, l)| == LinkSize(l)
  {
    var b := WriteLink(k, l) + rest;
    match l
    case Del(index) =>
      assert b[1..] == k.u64.write(index) + rest;
      U64Back(k, index, rest);
    case ParentMergeIntention(pid) =>
      assert b[1..] == k.u64.write(pid) + rest;
      U64Back(k, pid, rest);
    case ParentMergeConfirm => assert b[1..] == rest;
    case ChildMergeCap => assert b[1..] == rest;
  }

  lemma LinkBack(k: Ints, l: Link, rest: bytes)
    requires Sound(k) && IsLink(l)
    ensures ReadLink(k, WriteLink(k, l) + rest) == Some(Parsed(l, rest)) && |WriteLink(k, l)| == LinkSize(l)
  {
    match l
    case Set(key, value) => SetBack(k, key, value, rest);
    case Replace(index, value) => ReplaceBack(k, index, value, rest);
    case _ => ShortLinkBack(k, l, rest);
  }

  // ---------------------------------------------------------------------------------
  // Message headers
  // ---------------------------------------------------------------------------------

  datatype MessageKind = Corrupted | Canceled | Cap | BatchManifest | FreeMessage | Counter | InlineMeta | HeapMeta
                       | InlineNode | HeapNode | InlineLink | HeapLink

  function KindByte(m: MessageKind): byte {
    match m
    case Corrupted => 0 case Canceled => 1 case Cap => 2 case BatchManifest => 3
    case FreeMessage => 4 case Counter => 5 case InlineMeta => 6 case HeapMeta => 7
    case InlineNode => 8 case HeapNode => 9 case InlineLink => 10 case HeapLink => 11
  }

  function KindFrom(b: byte): MessageKind {
    if b == 1 then Canceled else if b == 2 then Cap else if b == 3 then BatchManifest
    else if b == 4 then FreeMessage else if b == 5 then Counter else if b == 6 then InlineMeta
    else if b == 7 then HeapMeta else if b == 8 then InlineNode else if b == 9 then HeapNode
    else if b == 10 then InlineLink else if b == 11 then HeapLink else Corrupted
  }

  datatype MessageHeader = MessageHeader(crc32: nat, kind: MessageKind, len: nat, segmentNumber: nat, pid: nat)

  predicate IsHeader(h: MessageHeader) {
    h.crc32 < U32_LIMIT && h.len < U64_LIMIT && h.segmentNumber < U64_LIMIT && h.pid < U64_LIMIT
  }

  function HeaderSize(h: MessageHeader): nat {
    4 + 1 + Size(h.len) + Size(h.segmentNumber) + Size(h.pid)
  }

  function WriteHeader(k: Ints, h: MessageHeader): bytes {
    k.u32.write(h.crc32) + ([KindByte(h.kind)]
        + (k.u64.write(h.len) + (k.u64.write(h.segmentNumber) + k.u64.write(h.pid))))
  }

  function ReadTail(k: Ints, crc32: nat, kind: MessageKind, b: bytes): Option<Parsed<MessageHeader>> {
    match k.u64.read(b)
    case None => None
    case Some(len) =>
      match k.u64.read(len.rest)
      case None => None
      case Some(seg) =>
        match k.u64.read(seg.rest)
        case None => None
        case Some(pid) => Some(Parsed(MessageHeader(crc32, kind, len.value, seg.value, pid.value), pid.rest))
  }

  function ReadHeader(k: Ints, b: bytes): Option<Parsed<MessageHeader>> {
    match k.u32.read(b)
    case None => None
    case Some(crc) => if crc.rest == [] then None else ReadTail(k, crc.value, KindFrom(crc.rest[0]), crc.rest[1..])
  }

  lemma TailBack(k: Ints, h: MessageHeader, rest: bytes)
    requires Sound(k) && IsHeader(h)
    ensures var b := k.u64.write(h.len) + (k.u64.write(h.segmentNumber) + k.u64.write(h.pid));
      ReadTail(k, h.crc32, h.kind, b + rest) == Some(Parsed(h, rest)) && |b| == HeaderSize(h) - 5
  {
    var last := k.u64.write(h.pid) + rest;
    var tail := k.u64.write(h.segmentNumber) + last;
    assert k.u64.write(h.len) + (k.u64.write(h.segmentNumber) + k.u64.write(h.pid)) + rest == k.u64.write(h.len) + tail;
    U64Back(k, h.len, tail);
    U64Back(k, h.segmentNumber, last);
    U64Back(k, h.pid, rest);
  }

  /** A message header reads back, and always fits the space that the log leaves for one. */
  lemma HeaderBack(k: Ints, h: MessageHeader, rest: bytes)
    requires Sound(k) && IsHeader(h)
    ensures ReadHeader(k, WriteHeader(k, h) + rest) == Some(Parsed(h, rest))
    ensures |WriteHeader(k, h)| == HeaderSize(h) <= MAX_MSG_HEADER_LEN
  {
    var body := k.u64.write(h.len) + (k.u64.write(h.segmentNumber) + k.u64.write(h.pid));
    var tail := [KindByte(h.kind)] + (body + rest);
    assert SoundU32(k, h.crc32);
    Back(k.u32, h.crc32, tail);
    assert WriteHeader(k, h) + rest == k.u32.write(h.crc32) + tail;
    assert tail[1..] == body + rest;
    TailBack(k, h, rest);
  }

  // ---------------------------------------------------------------------------------
  // The meta page
  // ---------------------------------------------------------------------------------

  datatype Pair = Pair(name: bytes, pid: nat)

  type Meta = map<bytes, nat>

  predicate IsPair(p: Pair) {
    |p.name| < U64_LIMIT && p.pid < U64_LIMIT
  }

  /** The pairs list the map, each name once; a BTreeMap lists them by name. */
  ghost predicate Lists(pairs: seq<Pair>, m: Meta) {
    && (forall i, j {:trigger pairs[i], pairs[j]} :: 0 <= i < j < |pairs| ==> pairs[i].name != pairs[j].name)
    && (forall i {:trigger pairs[i]} :: 0 <= i < |pairs| ==> pairs[i].name in m && m[pairs[i].name] == pairs[i].pid)
    && (forall name :: name in m ==> exists i :: 0 <= i < |pairs| && pairs[i].name == name)
  }

  function WritePair(k: Ints, p: Pair): bytes {
    WriteBytes(k, p.name) + k.u64.write(p.pid)
  }

  function ReadPair(k: Ints, b: bytes): Option<Parsed<Pair>> {
    match ReadBytes(k, b)
    case None => None
    case Some(p) =>
      match k.u64.read(p.rest)
      case None => None
      case Some(q) => Some(Parsed(Pair(p.value, q.value), q.rest))
  }

  lemma PairBack(k: Ints, p: Pair, rest: bytes)
    requires Sound(k) && IsPair(p)
    ensures ReadPair(k, WritePair(k, p) + rest) == Some(Parsed(p, rest))
            && |WritePair(k, p)| == Size(|p.name|) + |p.name| + Size(p.pid)
  {
    var tail := k.u64.write(p.pid) + rest;
    assert WritePair(k, p) + rest == WriteBytes(k, p.name) + tail;
    BytesBack(k, p.name, tail);
    U64Back(k, p.pid, rest);
  }

  function PairFormat(k: Ints): Format<Pair> {
    Format((p: Pair) => WritePair(k, p), (b: bytes) => ReadPair(k, b))
  }

  function Collected(pairs: seq<Pair>): Meta {
    if pairs == [] then map[] else Collected(pairs[..|pairs| - 1])[pairs[|pairs| - 1].name := pairs[|pairs| - 1].pid]
  }

  function WriteMeta(k: Ints, pairs: seq<Pair>): bytes {
    k.u64.write(|pairs|) + WriteAll(PairFormat(k), pairs)
  }

  function ReadMeta(k: Ints, b: bytes): Option<Parsed<Meta>> {
    match k.u64.read(b)
    case None => None
    case Some(n) =>
      match ReadAll(PairFormat(k), n.rest, n.value)
      case None => None
      case Some(r) => Some(Parsed(Collected(r.value), r.rest))
  }

  lemma {:induction false} CollectedAt(pairs: seq<Pair>, i: nat)
    requires i < |pairs| && forall j :: i < j < |pairs| ==> pairs[j].name != pairs[i].name
    ensures pairs[i].name in Collected(pairs) && Collected(pairs)[pairs[i].name] == pairs[i].pid
  {
    if i < |pairs| - 1 { CollectedAt(pairs[..|pairs| - 1], i); }
  }

  lemma {:induction false} CollectedFrom(pairs: seq<Pair>, name: bytes)
    requires name in Collected(pairs)
    ensures exists i :: 0 <= i < |pairs| && pairs[i].name == name
  {
    var most := pairs[..|pairs| - 1];
    if pairs[|pairs| - 1].name != name {
      CollectedFrom(most, name);
      var i :| 0 <= i < |most| && most[i].name == name;
      assert pairs[i].name == name;
    }
  }

  /** Collecting the pairs in any order gives the map. */
  lemma CollectedIsMap(pairs: seq<Pair>, m: Meta)
    requires Lists(pairs, m)
    ensures Collected(pairs) == m
  {
    forall name | name in m ensures name in Collected(pairs) && Collected(pairs)[name] == m[name] {
      var i :| 0 <= i < |pairs| && pairs[i].name == name;
      CollectedAt(pairs, i);
    }
    forall name | name in Collected(pairs) ensures name in m {
      CollectedFrom(pairs, name);
    }
    assert Collected(pairs).Keys == m.Keys;
  }

  lemma MetaBack(k: Ints, m: Meta, pairs: seq<Pair>, rest: bytes)
    requires Sound(k) && Lists(pairs, m) && |pairs| < U64_LIMIT && forall i :: 0 <= i < |pairs| ==> IsPair(pairs[i])
    ensures ReadMeta(k, WriteMeta(k, pairs) + rest) == Some(Parsed(m, rest))
  {
    var tail := WriteAll(PairFormat(k), pairs) + rest;
    assert WriteMeta(k, pairs) + rest == k.u64.write(|pairs|) + tail;
    U64Back(k, |pairs|, tail);
    forall i | 0 <= i < |pairs| ensures Lawful(PairFormat(k), pairs[i]) {
      forall rest: bytes ensures GoesBack(PairFormat(k), pairs[i], rest) { PairBack(k, pairs[i], rest); }
    }
    AllBack(PairFormat(k), pairs, rest);
    CollectedIsMap(pairs, m);
  }

  function SumPairs(pairs: seq<Pair>): nat {
    if pairs == [] then 0 else
    var p := pairs[|pairs| - 1];
    SumPairs(pairs[..|pairs| - 1]) + Size(|p.name|) + |p.name| + Size(p.pid)
  }

  lemma {:induction false} PairsSize(k: Ints, pairs: seq<Pair>)
    requires Sound(k) && forall i :: 0 <= i < |pairs| ==> IsPair(pairs[i])
    ensures |WriteAll(PairFormat(k), pairs)| == SumPairs(pairs)
  {
    if pairs != [] {
      PairsSize(k, pairs[..|pairs| - 1]);
      PairBack(k, pairs[|pairs| - 1], []);
    }
  }

  lemma MetaSizeIsExact(k: Ints, pairs: seq<Pair>)
    requires Sound(k) && |pairs| < U64_LIMIT && forall i :: 0 <= i < |pairs| ==> IsPair(pairs[i])
    ensures |WriteMeta(k, pairs)| == Size(|pairs|) + SumPairs(pairs)
  {
    U64Back(k, |pairs|, []);
    PairsSize(k, pairs);
  }

  // ---------------------------------------------------------------------------------
  // With the integer formats of the source
  // ---------------------------------------------------------------------------------

  lemma RecordsGoBack(l: Link, p: DiskPtr, h: MessageHeader, rest: bytes)
    requires IsLink(l) && IsPtr(p) && IsHeader(h)
    ensures ReadLink(INTS, WriteLink(INTS, l) + rest) == Some(Parsed(l, rest)) && |WriteLink(INTS, l)| == LinkSize(l)
    ensures ReadPtr(INTS, WritePtr(INTS, p) + rest) == Some(Parsed(p, rest)) && |WritePtr(INTS, p)| == PtrSize(p)
    ensures ReadHeader(INTS, WriteHeader(INTS, h) + rest) == Some(Parsed(h, rest))
            && |WriteHeader(INTS, h)| <= MAX_MSG_HEADER_LEN
  {
    IntsAreSound();
    LinkBack(INTS, l, rest);
    PtrBack(INTS, p, rest);
    HeaderBack(INTS, h, rest);
  }

  lemma TablesGoBack(s: Snapshot, m: Meta, pairs: seq<Pair>, rest: bytes)
    requires IsSnapshot(s) && Lists(pairs, m) && |pairs| < U64_LIMIT && forall i :: 0 <= i < |pairs| ==>
             IsPair(pairs[i])
    ensures ReadSnapshot(INTS, WriteSnapshot(INTS, s) + rest) == Some(Parsed(s, rest))
            && |WriteSnapshot(INTS, s)| == SnapshotSize(s)
    ensures ReadMeta(INTS, WriteMeta(INTS, pairs) + rest) == Some(Parsed(m, rest))
    ensures |WriteMeta(INTS, pairs)| == Size(|pairs|) + SumPairs(pairs)
  {
    IntsAreSound();
    SnapshotBack(INTS, s, rest);
    SnapshotSizeIsExact(INTS, s);
    MetaBack(INTS, m, pairs, rest);
    MetaSizeIsExact(INTS, pairs);
  }

  /** A page with 255 fragments that does not read back. The page cache itself never lets a page
      have more than ten (PageCas.MemoryMatchesLog). */
  lemma FullPageExample() returns (s: PageState)
    ensures IsPage(s) && ReadPage(INTS, WritePage(INTS, s)) != Some(Parsed(s, []))
  {
    var f := Frag(0, Inline(0), 0);
    s := Present(f, seq(255, _ => f));
    IntsAreSound();
    PageBack(INTS, s, []);
    assert WritePage(INTS, s) + [] == WritePage(INTS, s);
  }
}
