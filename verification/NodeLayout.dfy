/** The byte layouts of a node: an offset table, fixed-size or varint-prefixed keys, and
    fixed-size or varint-prefixed values. */
module NodeLayout {
  import opened Base
  import opened Varint
  import opened Places

  datatype KV = KV(key: bytes, value: bytes)

  /** The header's fields that describe the layout; `len` is the number of bytes behind the
      header: the low key, the high key and the data. */
  datatype Header = Header(loLen: nat, hiLen: nat, fixedKey: Option<nat>, fixedValue: Option<nat>,
                           children: nat, prefixLen: nat, offsetBytes: nat, isIndex: bool, next: Option<PageId>,
                               len: nat)

  datatype Node = Node(h: Header, buf: bytes)

  const HEADER_SIZE := 64

  // ---------------------------------------------------------------------------------
  // Areas
  // ---------------------------------------------------------------------------------

  /** Where the data begins behind the low and the high key. */
  function DataAt(h: Header): nat {
    h.loLen + h.hiLen
  }

  function KeysAt(h: Header): nat {
    DataAt(h) + Times(h.children, h.offsetBytes)
  }

  /** The size of all fixed-size keys or values. */
  function FixedLen(fixed: Option<nat>, count: nat): nat {
    if fixed.Some? then Times(count, fixed.value) else 0
  }

  /** Where the varint-prefixed parts of the items begin. */
  function SlotsAt(h: Header): nat {
    KeysAt(h) + FixedLen(h.fixedKey, h.children)
  }

  function ValuesAt(h: Header): int {
    h.len - FixedLen(h.fixedValue, h.children)
  }

  predicate Sized(fixed: Option<nat>, t: bytes) {
    |t| < U64_LIMIT && (fixed.Some? ==> fixed.value == |t| > 0)
  }

  predicate ItemFits(h: Header, it: KV) {
    Sized(h.fixedKey, it.key) && Sized(h.fixedValue, it.value)
  }

  /** How integers are written in front of variable-length items. */
  datatype Codec = Codec(encode: nat -> bytes, decode: bytes -> Option<Decoded>) {

    /** A written integer, followed by anything, reads back. */
    ghost predicate Good() {
      forall n: nat, rest {:trigger decode(encode(n) + rest)} :: n < U64_LIMIT ==>
          decode(encode(n) + rest) == Some(Decoded(n, |encode(n)|))
    }

    /** No integer is written as nothing. */
    ghost predicate NonEmpty() {
      forall n: nat {:trigger encode(n)} :: n < U64_LIMIT ==> |encode(n)| > 0
    }

    function Size(n: nat): nat {
      |encode(n)|
    }

    function Prefixed(t: bytes): (r: bytes)
      ensures |r| == Size(|t|) + |t|
    {
      encode(|t|) + t
    }

    // -------------------------------------------------------------------------------
    // Reading
    // -------------------------------------------------------------------------------

    /** Where a varint-prefixed item that begins at `at` has its payload, and how long. */
    function PayloadAt(b: bytes, at: nat): Option<(nat, nat)> {
      if at <= |b| then
        match decode(b[at..])
        case None => None
        case Some(d) => Some((at + d.len, d.value))
      else None
    }

    function Payload(b: bytes, at: Option<nat>): Option<bytes> {
      if at.None? then None
      else
        match PayloadAt(b, at.value)
        case None => None
        case Some((p, len)) => Slice(b, p, len)
    }

    lemma PayloadReads(b: bytes, at: nat, t: bytes)
      requires Good() && |t| < U64_LIMIT && Region(b, at, Prefixed(t))
      ensures PayloadAt(b, at) == Some((at + Size(|t|), |t|)) && Payload(b, Some(at)) == Some(t)
    {
      var rest := t + b[at + |Prefixed(t)|..];
      assert b[at..] == b[at..at + |Prefixed(t)|] + b[at + |Prefixed(t)|..];
      assert b[at..] == encode(|t|) + rest;
      assert decode(encode(|t|) + rest) == Some(Decoded(|t|, Size(|t|)));
      RegionPart(b, at, Prefixed(t), Size(|t|), |Prefixed(t)|);
      assert Prefixed(t)[Size(|t|)..|Prefixed(t)|] == t;
    }

    function Offset(h: Header, b: bytes, i: nat): Option<nat> {
      match Slice(b, DataAt(h) + Times(i, h.offsetBytes), h.offsetBytes)
      case None => None
      case Some(e) => Some(FromLe(e))
    }

    function SlotAt(h: Header, b: bytes, i: nat): Option<nat> {
      match Offset(h, b, i)
      case None => None
      case Some(off) => Some(SlotsAt(h) + off)
    }

    /** `index_key`; None where it would panic. */
    function IndexKey(n: Node, i: nat): Option<bytes> {
      if n.h.fixedKey.Some? then Slice(n.buf, KeysAt(n.h) + Times(i, n.h.fixedKey.value), n.h.fixedKey.value)
      else Payload(n.buf, SlotAt(n.h, n.buf, i))
    }

    /** Where the value of item i begins in its slot: after the key, if the key is there. */
    function ValueSlotAt(h: Header, b: bytes, i: nat): Option<nat> {
      if h.fixedKey.Some? || SlotAt(h, b, i).None? then SlotAt(h, b, i)
      else
        match PayloadAt(b, SlotAt(h, b, i).value)
        case None => None
        case Some((p, len)) => Some(p + len)
    }

    /** `index_value`; None where it would panic. */
    function IndexValue(n: Node, i: nat): Option<bytes> {
      if n.h.fixedValue.Some? then Slice(n.buf, ValuesAt(n.h) + Times(i, n.h.fixedValue.value), n.h.fixedValue.value)
      else Payload(n.buf, ValueSlotAt(n.h, n.buf, i))
    }

    function Lo(n: Node): Option<bytes> {
      Slice(n.buf, 0, n.h.loLen)
    }

    /** `hi`: an empty high key reads as none. */
    function Hi(n: Node): Option<bytes> {
      if n.h.hiLen == 0 then None else Slice(n.buf, n.h.loLen, n.h.hiLen)
    }

    // -------------------------------------------------------------------------------
    // What a node encodes
    // -------------------------------------------------------------------------------

    function PartLen(fixed: Option<nat>, t: bytes): nat {
      if fixed.Some? then 0 else Size(|t|) + |t|
    }

    /** The size of an item's slot: its varint-prefixed parts. */
    function SlotLen(h: Header, it: KV): nat {
      PartLen(h.fixedKey, it.key) + PartLen(h.fixedValue, it.value)
    }

    function Lens(h: Header, items: seq<KV>): seq<nat> {
      seq(|items|, i requires 0 <= i < |items| => SlotLen(h, items[i]))
    }

    /** Where the slot of item i begins, relative to the first slot. */
    function Off(h: Header, items: seq<KV>, i: nat): nat
      requires i <= |items|
    {
      Sum(Lens(h, items), i)
    }

    predicate OffFits(h: Header, items: seq<KV>, i: nat)
      requires i <= |items|
    {
      Off(h, items, i) < Pow256(h.offsetBytes)
    }

    ghost predicate Fits(h: Header, items: seq<KV>) {
      && h.children == |items|
      && (h.offsetBytes == 0 ==> h.fixedKey.Some? && h.fixedValue.Some?)
      && h.offsetBytes <= 6 && (h.fixedKey.Some? ==> h.fixedKey.value > 0)
            && (h.fixedValue.Some? ==> h.fixedValue.value > 0)
      && (forall i {:trigger ItemFits(h, items[i])} :: 0 <= i < |items| ==> ItemFits(h, items[i]))
      && (forall i {:trigger OffFits(h, items, i)} :: 0 <= i < |items| ==> OffFits(h, items, i))
      && SlotsAt(h) + Off(h, items, |items|) <= ValuesAt(h)
    }

    function EntrySpot(h: Header, off: nat, i: nat): Spot {
      Spot(DataAt(h) + Times(i, h.offsetBytes), Le(off, h.offsetBytes))
    }

    function KeySpot(h: Header, off: nat, key: bytes, i: nat): Spot {
      if h.fixedKey.Some? then Spot(KeysAt(h) + Times(i, h.fixedKey.value), key)
          else Spot(SlotsAt(h) + off, Prefixed(key))
    }

    function ValueSpot(h: Header, off: nat, it: KV, i: nat): Spot {
      if h.fixedValue.Some? then Spot(ValuesAt(h) + Times(i, h.fixedValue.value), it.value)
      else Spot(SlotsAt(h) + off + PartLen(h.fixedKey, it.key), Prefixed(it.value))
    }

    /** The places of item i. */
    ghost predicate SpotsAre(h: Header, items: seq<KV>, pl: Plan, i: nat)
      requires i < |items| && |pl.entries| == |items| && |pl.keys| == |items| && |pl.values| == |items|
    {
      var off := Off(h, items, i);
      pl.entries[i] == EntrySpot(h, off, i) && pl.keys[i] == KeySpot(h, off, items[i].key, i)
          && pl.values[i] == ValueSpot(h, off, items[i], i)
    }

    /** The plan of a node with this header and these items. */
    ghost predicate Planned(h: Header, items: seq<KV>, pl: Plan) {
      && Fits(h, items) && Sound(pl) && pl.len == h.len && |pl.bounds| == DataAt(h)
      && |pl.entries| == |items| && |pl.keys| == |items| && |pl.values| == |items|
      && (forall i {:trigger SpotsAre(h, items, pl, i)} :: 0 <= i < |items| ==> SpotsAre(h, items, pl, i))
    }

    ghost predicate EncodesAs(n: Node, lo: bytes, hi: bytes, items: seq<KV>, pl: Plan) {
      && n.h.loLen == |lo| && n.h.hiLen == |hi| && pl.bounds == lo + hi
      && Planned(n.h, items, pl) && Full(pl, n.buf)
    }

    /** The node holds exactly these bounds and items. */
    ghost predicate Encodes(n: Node, lo: bytes, hi: bytes, items: seq<KV>) {
      exists pl :: EncodesAs(n, lo, hi, items, pl)
    }

    lemma OffsetReads(h: Header, b: bytes, i: nat, off: nat)
      requires In(b, EntrySpot(h, off, i)) && off < Pow256(h.offsetBytes)
      ensures Offset(h, b, i) == Some(off) && SlotAt(h, b, i) == Some(SlotsAt(h) + off)
    {
      LeRoundTrip(off, h.offsetBytes);
    }

    lemma KeyReads(n: Node, i: nat, off: nat, key: bytes)
      requires Good() && Sized(n.h.fixedKey, key) && SlotAt(n.h, n.buf, i) == Some(SlotsAt(n.h) + off)
               && In(n.buf, KeySpot(n.h, off, key, i))
      ensures IndexKey(n, i) == Some(key) && ValueSlotAt(n.h, n.buf, i) ==
              Some(SlotsAt(n.h) + off + PartLen(n.h.fixedKey, key))
    {
      if n.h.fixedKey.None? {
        PayloadReads(n.buf, SlotsAt(n.h) + off, key);
      }
    }

    lemma ValueReads(n: Node, i: nat, off: nat, it: KV)
      requires Good() && Sized(n.h.fixedValue, it.value)
               && ValueSlotAt(n.h, n.buf, i) == Some(SlotsAt(n.h) + off + PartLen(n.h.fixedKey, it.key))
      requires In(n.buf, ValueSpot(n.h, off, it, i))
      ensures IndexValue(n, i) == Some(it.value)
    {
      if n.h.fixedValue.None? {
        PayloadReads(n.buf, SlotsAt(n.h) + off + PartLen(n.h.fixedKey, it.key), it.value);
      }
    }

    lemma ItemReads(n: Node, i: nat, off: nat, it: KV)
      requires Good() && off < Pow256(n.h.offsetBytes) && ItemFits(n.h, it)
      requires In(n.buf, EntrySpot(n.h, off, i)) && In(n.buf, KeySpot(n.h, off, it.key, i))
               && In(n.buf, ValueSpot(n.h, off, it, i))
      ensures IndexKey(n, i) == Some(it.key) && IndexValue(n, i) == Some(it.value) && Offset(n.h, n.buf, i) == Some(off)
    {
      OffsetReads(n.h, n.buf, i, off);
      KeyReads(n, i, off, it.key);
      ValueReads(n, i, off, it);
    }

    lemma PlaceReads(n: Node, lo: bytes, hi: bytes, items: seq<KV>, pl: Plan, i: nat)
      requires Good() && EncodesAs(n, lo, hi, items, pl) && i < |items|
      ensures IndexKey(n, i) == Some(items[i].key) && IndexValue(n, i) == Some(items[i].value)
      ensures Offset(n.h, n.buf, i) == Some(Off(n.h, items, i))
    {
      assert SpotsAre(n.h, items, pl, i);
      assert In(n.buf, Spots(pl, Entry)[i]) && In(n.buf, Spots(pl, Key)[i]) && In(n.buf, Spots(pl, Value)[i]);
      assert OffFits(n.h, items, i) && ItemFits(n.h, items[i]);
      ItemReads(n, i, Off(n.h, items, i), items[i]);
    }

    /** In all four layouts every item reads back. */
    lemma ReadsBack(n: Node, lo: bytes, hi: bytes, items: seq<KV>, i: nat)
      requires Good() && Encodes(n, lo, hi, items) && i < |items|
      ensures IndexKey(n, i) == Some(items[i].key) && IndexValue(n, i) == Some(items[i].value)
    {
      var pl :| EncodesAs(n, lo, hi, items, pl);
      PlaceReads(n, lo, hi, items, pl, i);
    }

    lemma BoundsReadBack(n: Node, lo: bytes, hi: bytes, items: seq<KV>)
      requires Encodes(n, lo, hi, items)
      ensures Lo(n) == Some(lo) && Hi(n) == if hi == [] then None else Some(hi)
      ensures n.h.children == |items|
    {
      var pl :| EncodesAs(n, lo, hi, items, pl);
      RegionPart(n.buf, 0, lo + hi, 0, |lo|);
      RegionPart(n.buf, 0, lo + hi, |lo|, |lo + hi|);
      assert (lo + hi)[0..|lo|] == lo && (lo + hi)[|lo|..|lo + hi|] == hi;
    }
  }

  /** The codec of the source. */
  const VARINT := Codec((n: nat) => if n < U64_LIMIT then Encode(n) else [], (b: bytes) => Decode(b))

  lemma VarintIsGood()
    ensures VARINT.Good() && VARINT.NonEmpty()
  {
    forall n: nat, rest | n < U64_LIMIT ensures VARINT.decode(VARINT.encode(n) + rest) ==
        Some(Decoded(n, |VARINT.encode(n)|)) {
      VarintRoundTrip(n, rest);
    }
  }
}
