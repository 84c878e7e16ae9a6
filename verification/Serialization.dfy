/** The byte formats of links, disk pointers, page states, snapshots, message headers and the
    meta page. Reading returns what is left of the buffer; None is an error or a panic. */
module Serialization {
  import opened Base
  import opened Varint

  datatype Parsed<T> = Parsed(value: T, rest: bytes)

  /** How to write and read one kind of item. */
  datatype Format<!T> = Format(write: T -> bytes, read: bytes -> Option<Parsed<T>>)

  ghost predicate GoesBack<T>(f: Format<T>, x: T, rest: bytes) {
    f.write(x) != [] && f.read(f.write(x) + rest) == Some(Parsed(x, rest))
  }

  /** Reading x where it was written gives x and whatever follows it. */
  ghost predicate Lawful<T>(f: Format<T>, x: T) {
    forall rest: bytes {:trigger GoesBack(f, x, rest)} :: GoesBack(f, x, rest)
  }

  lemma Back<T>(f: Format<T>, x: T, rest: bytes)
    requires Lawful(f, x)
    ensures f.write(x) != [] && f.read(f.write(x) + rest) == Some(Parsed(x, rest))
  {
    assert GoesBack(f, x, rest);
  }

  // ---------------------------------------------------------------------------------
  // Integers
  // ---------------------------------------------------------------------------------

  const I64_LIMIT: int := 0x8000_0000_0000_0000
  const U32_LIMIT: int := 0x1_0000_0000

  predicate IsI64(i: int) {
    -I64_LIMIT <= i < I64_LIMIT
  }

  function ReadVar(b: bytes): Option<Parsed<nat>> {
    match Decode(b)
    case None => None
    case Some(d) => Some(Parsed(d.value, b[d.len..]))
  }

  function ReadLe(b: bytes, k: nat): Option<Parsed<nat>> {
    if |b| < k then None else Some(Parsed(FromLe(b[..k]), b[k..]))
  }

  /** Two's complement. */
  function Unsigned(i: int): nat
    requires IsI64(i)
  {
    if i < 0 then i + U64_LIMIT else i
  }

  function ReadSigned(b: bytes): Option<Parsed<int>> {
    match ReadLe(b, 8)
    case None => None
    case Some(p) => Some(Parsed(if p.value < I64_LIMIT then p.value else p.value - U64_LIMIT, p.rest))
  }

  /** The integer formats that all others are made of. */
  datatype Ints = Ints(u64: Format<nat>, fixed64: Format<nat>, i64: Format<int>, u32: Format<nat>)

  const INTS := Ints(
    Format((n: nat) => if n < U64_LIMIT then Encode(n) else [], (b: bytes) => ReadVar(b)),
    Format((n: nat) => Le(n, 8), (b: bytes) => ReadLe(b, 8)),
    Format((i: int) => if IsI64(i) then Le(Unsigned(i), 8) else [], (b: bytes) => ReadSigned(b)),
    Format((n: nat) => Le(n, 4), (b: bytes) => ReadLe(b, 4)))

  ghost predicate SoundU64(k: Ints, n: nat) {
    Lawful(k.u64, n) && Lawful(k.fixed64, n) && |k.u64.write(n)| == Size(n) && |k.fixed64.write(n)| == 8
  }

  ghost predicate SoundI64(k: Ints, i: int) {
    Lawful(k.i64, i) && |k.i64.write(i)| == 8
  }

  ghost predicate SoundU32(k: Ints, n: nat) {
    Lawful(k.u32, n) && |k.u32.write(n)| == 4
  }

  ghost predicate Sound(k: Ints) {
    && (forall n {:trigger SoundU64(k, n)} :: 0 <= n < U64_LIMIT ==> SoundU64(k, n))
    && (forall i {:trigger SoundI64(k, i)} :: IsI64(i) ==> SoundI64(k, i))
    && (forall n {:trigger SoundU32(k, n)} :: 0 <= n < U32_LIMIT ==> SoundU32(k, n))
  }

  lemma VarBack(n: nat, rest: bytes)
    requires n < U64_LIMIT
    ensures ReadVar(Encode(n) + rest) == Some(Parsed(n, rest))
  {
    VarintRoundTrip(n, rest);
    assert (Encode(n) + rest)[Size(n)..] == rest;
  }

  lemma LeBack(n: nat, k: nat, rest: bytes)
    requires n < Pow256(k)
    ensures ReadLe(Le(n, k) + rest, k) == Some(Parsed(n, rest))
  {
    LeRoundTrip(n, k);
    assert (Le(n, k) + rest)[..k] == Le(n, k);
  }

  /** The integer formats of the source are sound. */
  lemma IntsAreSound()
    ensures Sound(INTS)
  {
    PowFits();
    forall n: nat | n < U64_LIMIT ensures SoundU64(INTS, n) {
      forall rest: bytes ensures GoesBack(INTS.u64, n, rest) { VarBack(n, rest); }
      forall rest: bytes ensures GoesBack(INTS.fixed64, n, rest) { LeBack(n, 8, rest); }
    }
    forall i: int | IsI64(i) ensures SoundI64(INTS, i) {
      forall rest: bytes ensures GoesBack(INTS.i64, i, rest) { LeBack(Unsigned(i), 8, rest); }
    }
    forall n: nat | n < U32_LIMIT ensures SoundU32(INTS, n) {
      forall rest: bytes ensures GoesBack(INTS.u32, n, rest) { LeBack(n, 4, rest); }
    }
  }

  lemma U64Back(k: Ints, n: nat, rest: bytes)
    requires Sound(k) && n < U64_LIMIT
    ensures k.u64.read(k.u64.write(n) + rest) == Some(Parsed(n, rest)) && |k.u64.write(n)| == Size(n)
  {
    assert SoundU64(k, n);
    Back(k.u64, n, rest);
  }

  lemma I64Back(k: Ints, i: int, rest: bytes)
    requires Sound(k) && IsI64(i)
    ensures k.i64.read(k.i64.write(i) + rest) == Some(Parsed(i, rest)) && |k.i64.write(i)| == 8
  {
    assert SoundI64(k, i);
    Back(k.i64, i, rest);
  }

  // ---------------------------------------------------------------------------------
  // Byte strings and options
  // ---------------------------------------------------------------------------------

  function WriteBytes(k: Ints, v: bytes): bytes {
    k.u64.write(|v|) + v
  }

  function ReadBytes(k: Ints, b: bytes): Option<Parsed<bytes>> {
    match k.u64.read(b)
    case None => None
    case Some(p) => if |p.rest| < p.value then None else Some(Parsed(p.rest[..p.value], p.rest[p.value..]))
  }

  lemma BytesBack(k: Ints, v: bytes, rest: bytes)
    requires Sound(k) && |v| < U64_LIMIT
    ensures ReadBytes(k, WriteBytes(k, v) + rest) == Some(Parsed(v, rest)) && |WriteBytes(k, v)| == Size(|v|) + |v|
  {
    U64Back(k, |v|, v + rest);
    assert WriteBytes(k, v) + rest == k.u64.write(|v|) + (v + rest);
    assert (v + rest)[..|v|] == v && (v + rest)[|v|..] == rest;
  }

  /** An Option<u64> is stored one higher. */
  predicate IsOptU64(o: Option<nat>) {
    o.Some? ==> o.value + 1 < U64_LIMIT
  }

  function Shift(o: Option<nat>): nat {
    if o.Some? then o.value + 1 else 0
  }

  function Unshift(n: nat): Option<nat> {
    if n == 0 then None else Some(n - 1)
  }

  /** An Option<i64> is stored one higher unless it is negative. */
  predicate IsOptI64(o: Option<int>) {
    o.Some? ==> -I64_LIMIT <= o.value && o.value + 1 < I64_LIMIT
  }

  function ShiftI64(o: Option<int>): int {
    if o.None? then 0 else if o.value < 0 then o.value else o.value + 1
  }

  function UnshiftI64(i: int): Option<int> {
    if i == 0 then None else if i < 0 then Some(i) else Some(i - 1)
  }

  /** Shifting loses nothing, and stays in range exactly below the maximum value. */
  lemma ShiftsBack(o: Option<nat>, p: Option<int>)
    ensures Unshift(Shift(o)) == o && UnshiftI64(ShiftI64(p)) == p
    ensures IsOptU64(o) <==> Shift(o) < U64_LIMIT
    ensures IsOptI64(p) <==> IsI64(ShiftI64(p))
  {}

  // ---------------------------------------------------------------------------------
  // Disk pointers
  // ---------------------------------------------------------------------------------

  datatype HeapId = HeapId(location: nat, originalLsn: int)

  datatype DiskPtr = Inline(offset: nat) | Heap(lid: Option<nat>, heapId: HeapId)

  /** A log offset next to a heap ID is never 0: it is an Option<NonZeroU64>. */
  predicate IsPtr(p: DiskPtr) {
    match p
    case Inline(offset) => offset < U64_LIMIT
    case Heap(lid, h) => (lid.Some? ==> 0 < lid.value < U64_LIMIT) && h.location < U64_LIMIT && IsI64(h.originalLsn)
  }

  function Lid(p: DiskPtr): nat {
    if p.Inline? then p.offset else if p.lid.Some? then p.lid.value else 0
  }

  function PtrSize(p: DiskPtr): nat {
    match p
    case Inline(offset) => 1 + Size(offset)
    case Heap(_, _) => 1 + Size(Lid(p)) + 16
  }

  function WriteHeapId(k: Ints, h: HeapId): bytes {
    k.fixed64.write(h.location) + k.i64.write(h.originalLsn)
  }

  function WritePtr(k: Ints, p: DiskPtr): bytes {
    match p
    case Inline(offset) => [0] + k.u64.write(offset)
    case Heap(_, h) => [1] + (k.u64.write(Lid(p)) + WriteHeapId(k, h))
  }

  function ReadHeapId(k: Ints, b: bytes): Option<Parsed<HeapId>> {
    match k.fixed64.read(b)
    case None => None
    case Some(p) =>
      match k.i64.read(p.rest)
      case None => None
      case Some(q) => Some(Parsed(HeapId(p.value, q.value), q.rest))
  }

  function ReadPtr(k: Ints, b: bytes): Option<Parsed<DiskPtr>> {
    if |b| < 2 then None
    else if b[0] == 0 then
      match k.u64.read(b[1..])
      case None => None
      case Some(p) => Some(Parsed(Inline(p.value), p.rest))
    else if b[0] == 1 then
      match k.u64.read(b[1..])
      case None => None
      case Some(p) =>
        match ReadHeapId(k, p.rest)
        case None => None
        case Some(q) => Some(Parsed(Heap(if p.value == 0 then None else Some(p.value), q.value), q.rest))
    else None
  }

  lemma HeapIdBack(k: Ints, h: HeapId, rest: bytes)
    requires Sound(k) && h.location < U64_LIMIT && IsI64(h.originalLsn)
    ensures ReadHeapId(k, WriteHeapId(k, h) + rest) == Some(Parsed(h, rest)) && |WriteHeapId(k, h)| == 16
  {
    var tail := k.i64.write(h.originalLsn) + rest;
    assert SoundU64(k, h.location);
    Back(k.fixed64, h.location, tail);
    assert WriteHeapId(k, h) + rest == k.fixed64.write(h.location) + tail;
    I64Back(k, h.originalLsn, rest);
  }

  lemma PtrBack(k: Ints, p: DiskPtr, rest: bytes)
    requires Sound(k) && IsPtr(p)
    ensures ReadPtr(k, WritePtr(k, p) + rest) == Some(Parsed(p, rest)) && |WritePtr(k, p)| == PtrSize(p)
  {
    var b := WritePtr(k, p) + rest;
    match p
    case Inline(offset) =>
      assert b[1..] == k.u64.write(offset) + rest;
      U64Back(k, offset, rest);
    case Heap(_, h) =>
      var tail := WriteHeapId(k, h) + rest;
      assert b[1..] == k.u64.write(Lid(p)) + tail;
      U64Back(k, Lid(p), tail);
      HeapIdBack(k, h, rest);
  }

  // ---------------------------------------------------------------------------------
  // Sequences
  // ---------------------------------------------------------------------------------

  function WriteAll<T>(f: Format<T>, xs: seq<T>): bytes {
    if xs == [] then [] else WriteAll(f, xs[..|xs| - 1]) + f.write(xs[|xs| - 1])
  }

  /** `deserialize_bounded_sequence`: at most `bound` items, fewer if the buffer runs out. */
  function ReadAll<T>(f: Format<T>, b: bytes, bound: nat): Option<Parsed<seq<T>>>
    decreases bound
  {
    if bound == 0 || b == [] then Some(Parsed([], b)) else
    match f.read(b)
    case None => None
    case Some(p) =>
      match ReadAll(f, p.rest, bound - 1)
      case None => None
      case Some(q) => Some(Parsed([p.value] + q.value, q.rest))
  }

  lemma {:induction false} WriteAllFirst<T>(f: Format<T>, xs: seq<T>)
    requires xs != []
    ensures WriteAll(f, xs) == f.write(xs[0]) + WriteAll(f, xs[1..])
  {
    if |xs| > 1 {
      var most := xs[..|xs| - 1];
      WriteAllFirst(f, most);
      assert most[1..] == xs[1..][..|xs| - 2];
    } else {
      assert xs[..0] == [] && xs[1..] == [];
    }
  }

  lemma {:induction false} AllBack<T>(f: Format<T>, xs: seq<T>, rest: bytes)
    requires forall i :: 0 <= i < |xs| ==> Lawful(f, xs[i])
    ensures ReadAll(f, WriteAll(f, xs) + rest, |xs|) == Some(Parsed(xs, rest))
  {
    if xs == [] {
      assert WriteAll(f, xs) + rest == rest;
    } else {
      WriteAllFirst(f, xs);
      var tail := WriteAll(f, xs[1..]) + rest;
      Back(f, xs[0], tail);
      assert WriteAll(f, xs) + rest == f.write(xs[0]) + tail;
      AllBack(f, xs[1..], rest);
      assert [xs[0]] + xs[1..] == xs;
    }
  }

  /** The writing loops. */
  method SerializeSequence<T>(f: Format<T>, xs: seq<T>) returns (b: bytes)
    ensures b == WriteAll(f, xs)
  {
    b := [];
    for k := 0 to |xs|
      invariant b == WriteAll(f, xs[..k])
    {
      assert xs[..k + 1][..k] == xs[..k];
      b := b + f.write(xs[k]);
    }
    assert xs[..|xs|] == xs;
  }

  function Prepended<T>(xs: seq<T>, r: Option<Parsed<seq<T>>>): Option<Parsed<seq<T>>> {
    match r
    case None => None
    case Some(q) => Some(Parsed(xs + q.value, q.rest))
  }

  /** `ConsumeSequence`, collected. */
  method DeserializeSequence<T>(f: Format<T>, b: bytes, bound: nat) returns (r: Option<Parsed<seq<T>>>)
    ensures r == ReadAll(f, b, bound)
  {
    var xs, left, rest := [], bound, b;
    ghost var all := ReadAll(f, b, bound);
    assert all.Some? ==> [] + all.value.value == all.value.value;
    while left != 0 && rest != []
      invariant ReadAll(f, b, bound) == Prepended(xs, ReadAll(f, rest, left))
    {
      var p := f.read(rest);
      if p.None? { return None; }
      ghost var more := ReadAll(f, p.value.rest, left - 1);
      assert more.Some? ==> xs + ([p.value.value] + more.value.value) == xs + [p.value.value] + more.value.value;
      xs, rest, left := xs + [p.value.value], p.value.rest, left - 1;
    }
    assert xs + [] == xs;
    return Some(Parsed(xs, rest));
  }
}
