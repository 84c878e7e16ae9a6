/** Building a node's bytes: `Node::new`. */
module NodeBuild {
  import opened Base
  import opened Varint
  import opened Places
  import opened NodeLayout

  // ---------------------------------------------------------------------------------
  // Places do not overlap
  // ---------------------------------------------------------------------------------

  lemma OffGap(c: Codec, h: Header, items: seq<KV>, i: nat, j: nat)
    requires i < j <= |items|
    ensures c.Off(h, items, i) + c.SlotLen(h, items[i]) <= c.Off(h, items, j)
  {
    SumGap(c.Lens(h, items), i, j);
  }

  /** The areas are in order. */
  lemma AreasInOrder(c: Codec, h: Header, items: seq<KV>)
    requires c.Fits(h, items)
    ensures DataAt(h) <= KeysAt(h) <= SlotsAt(h) <= SlotsAt(h) + c.Off(h, items, |items|) <= ValuesAt(h) <= h.len
  {
  }

  lemma EntryBounds(c: Codec, h: Header, items: seq<KV>, i: nat)
    requires c.Fits(h, items) && i < |items|
    ensures var s := c.EntrySpot(h, c.Off(h, items, i), i); DataAt(h) <= s.at && s.at + |s.data| <= KeysAt(h)
  {
    TimesGap(i, h.children, h.offsetBytes);
  }

  lemma KeyBounds(c: Codec, h: Header, items: seq<KV>, i: nat)
    requires c.Fits(h, items) && i < |items|
    ensures var off := c.Off(h, items, i);
            var s := c.KeySpot(h, off, items[i].key, i);
            && KeysAt(h) <= s.at && s.at + |s.data| <= ValuesAt(h)
            && (h.fixedKey.Some? ==> s.at + |s.data| <= SlotsAt(h))
            && (h.fixedKey.None? ==> s.at == SlotsAt(h) + off && |s.data| == c.PartLen(h.fixedKey, items[i].key))
  {
    assert ItemFits(h, items[i]);
    OffGap(c, h, items, i, |items|);
    if h.fixedKey.Some? { TimesGap(i, h.children, h.fixedKey.value); }
  }

  lemma ValueBounds(c: Codec, h: Header, items: seq<KV>, i: nat)
    requires c.Fits(h, items) && i < |items|
    ensures var off := c.Off(h, items, i);
            var s := c.ValueSpot(h, off, items[i], i);
            && SlotsAt(h) <= s.at && s.at + |s.data| <= h.len
            && (h.fixedValue.Some? ==> ValuesAt(h) <= s.at)
            && (h.fixedValue.None? ==>
                  && s.at == SlotsAt(h) + off + c.PartLen(h.fixedKey, items[i].key)
                  && s.at + |s.data| == SlotsAt(h) + off + c.SlotLen(h, items[i]) <= ValuesAt(h))
  {
    assert ItemFits(h, items[i]);
    OffGap(c, h, items, i, |items|);
    if h.fixedValue.Some? { TimesGap(i, h.children, h.fixedValue.value); }
  }

  lemma EntriesApart(c: Codec, h: Header, items: seq<KV>, i: nat, j: nat)
    requires c.Fits(h, items) && i < j < |items|
    ensures Apart(c.EntrySpot(h, c.Off(h, items, i), i), c.EntrySpot(h, c.Off(h, items, j), j))
  {
    TimesGap(i, j, h.offsetBytes);
  }

  lemma KeysApart(c: Codec, h: Header, items: seq<KV>, i: nat, j: nat)
    requires c.Fits(h, items) && i < j < |items|
    ensures Apart(c.KeySpot(h, c.Off(h, items, i), items[i].key, i), c.KeySpot(h, c.Off(h, items, j), items[j].key, j))
  {
    assert ItemFits(h, items[i]);
    OffGap(c, h, items, i, j);
    if h.fixedKey.Some? { TimesGap(i, j, h.fixedKey.value); }
  }

  lemma ValuesApart(c: Codec, h: Header, items: seq<KV>, i: nat, j: nat)
    requires c.Fits(h, items) && i < j < |items|
    ensures Apart(c.ValueSpot(h, c.Off(h, items, i), items[i], i), c.ValueSpot(h, c.Off(h, items, j), items[j], j))
  {
    assert ItemFits(h, items[i]);
    OffGap(c, h, items, i, j);
    if h.fixedValue.Some? { TimesGap(i, j, h.fixedValue.value); }
  }

  lemma KeyValueApart(c: Codec, h: Header, items: seq<KV>, i: nat, j: nat)
    requires c.Fits(h, items) && i < |items| && j < |items|
    ensures Apart(c.KeySpot(h, c.Off(h, items, i), items[i].key, i), c.ValueSpot(h, c.Off(h, items, j), items[j], j))
  {
    KeyBounds(c, h, items, i);
    ValueBounds(c, h, items, j);
    if i < j { OffGap(c, h, items, i, j); }
    if j < i { OffGap(c, h, items, j, i); }
  }

  lemma SpotsApart(c: Codec, h: Header, items: seq<KV>, pl: Plan, p: Part, i: nat, q: Part, j: nat)
    requires c.Fits(h, items) && i < |items| && j < |items| && (p != q || i != j)
    requires |pl.entries| == |items| && |pl.keys| == |items| && |pl.values| == |items|
    requires c.SpotsAre(h, items, pl, i) && c.SpotsAre(h, items, pl, j)
    ensures Apart(Spots(pl, p)[i], Spots(pl, q)[j])
  {
    EntryBounds(c, h, items, i);
    EntryBounds(c, h, items, j);
    KeyBounds(c, h, items, i);
    KeyBounds(c, h, items, j);
    ValueBounds(c, h, items, i);
    ValueBounds(c, h, items, j);
    AreasInOrder(c, h, items);
    if p == q {
      var a, b := if i < j then i else j, if i < j then j else i;
      match p
      case Entry => EntriesApart(c, h, items, a, b);
      case Key => KeysApart(c, h, items, a, b);
      case Value => ValuesApart(c, h, items, a, b);
    } else if p == Key && q == Value {
      KeyValueApart(c, h, items, i, j);
    } else if p == Value && q == Key {
      KeyValueApart(c, h, items, j, i);
    }
  }

  lemma SpotInside(c: Codec, h: Header, items: seq<KV>, pl: Plan, p: Part, i: nat)
    requires c.Fits(h, items) && i < |items| && |pl.bounds| == DataAt(h) && pl.len == h.len
    requires |pl.entries| == |items| && |pl.keys| == |items| && |pl.values| == |items| && c.SpotsAre(h, items, pl, i)
    ensures Inside(pl, Spots(pl, p)[i])
  {
    AreasInOrder(c, h, items);
    EntryBounds(c, h, items, i);
    KeyBounds(c, h, items, i);
    ValueBounds(c, h, items, i);
  }

  lemma MakePlan(c: Codec, h: Header, bounds: bytes, items: seq<KV>) returns (pl: Plan)
    requires c.Fits(h, items) && |bounds| == DataAt(h)
    ensures pl.bounds == bounds && c.Planned(h, items, pl)
  {
    pl := Plan(h.len, bounds,
               seq(|items|, i requires 0 <= i < |items| => c.EntrySpot(h, c.Off(h, items, i), i)),
               seq(|items|, i requires 0 <= i < |items| => c.KeySpot(h, c.Off(h, items, i), items[i].key, i)),
               seq(|items|, i requires 0 <= i < |items| => c.ValueSpot(h, c.Off(h, items, i), items[i], i)));
    forall i | 0 <= i < |items| ensures c.SpotsAre(h, items, pl, i) {}
    PlanIsSound(c, h, items, pl);
  }

  lemma PlanIsSound(c: Codec, h: Header, items: seq<KV>, pl: Plan)
    requires c.Fits(h, items) && |pl.bounds| == DataAt(h) && pl.len == h.len
    requires |pl.entries| == |items| && |pl.keys| == |items| && |pl.values| == |items|
    requires forall i {:trigger c.SpotsAre(h, items, pl, i)} :: 0 <= i < |items| ==> c.SpotsAre(h, items, pl, i)
    ensures Sound(pl)
  {
    AreasInOrder(c, h, items);
    forall p, i | 0 <= i < |Spots(pl, p)| ensures Inside(pl, Spots(pl, p)[i]) {
      assert c.SpotsAre(h, items, pl, i);
      SpotInside(c, h, items, pl, p, i);
    }
    forall p, i, q, j | 0 <= i < |Spots(pl, p)| && 0 <= j < |Spots(pl, q)| && (p != q || i != j)
        ensures Apart(Spots(pl, p)[i], Spots(pl, q)[j]) {
      assert c.SpotsAre(h, items, pl, i) && c.SpotsAre(h, items, pl, j);
      SpotsApart(c, h, items, pl, p, i, q, j);
    }
  }

  // ---------------------------------------------------------------------------------
  // The writers that Node::new and stitch share
  // ---------------------------------------------------------------------------------

  method WriteEntry(c: Codec, a: array<byte>, h: Header, ghost items: seq<KV>, ghost pl: Plan, i: nat, off: nat,
                    ghost k: nat, ghost v: nat)
    requires c.Planned(h, items, pl) && Filled(pl, a[..], i, k, v) && i < |items| && off == c.Off(h, items, i)
    modifies a
    ensures Filled(pl, a[..], i + 1, k, v)
  {
    assert c.SpotsAre(h, items, pl, i);
    WriteNext(pl, a[..], i, k, v, Entry);
    CopyInto(a, DataAt(h) + Times(i, h.offsetBytes), Le(off, h.offsetBytes));
  }

  /** An item behind its varint length. */
  method WritePrefixed(c: Codec, a: array<byte>, at: nat, t: bytes)
    requires at + |c.Prefixed(t)| <= a.Length
    modifies a
    ensures a[..] == Splice(old(a[..]), at, c.Prefixed(t))
  {
    CopyInto(a, at, c.encode(|t|));
    CopyInto(a, at + |c.encode(|t|)|, t);
    SpliceTwice(old(a[..]), at, c.encode(|t|), t);
  }

  /** The table entry of item i gives the place of its slot. */
  lemma EntryReads(c: Codec, h: Header, items: seq<KV>, pl: Plan, b: bytes, t: nat, k: nat, v: nat, i: nat)
    requires c.Planned(h, items, pl) && Filled(pl, b, t, k, v) && i < t
    ensures c.SlotAt(h, b, i) == Some(SlotsAt(h) + c.Off(h, items, i))
  {
    assert c.SpotsAre(h, items, pl, i);
    assert In(b, Spots(pl, Entry)[i]);
    assert c.OffFits(h, items, i);
    c.OffsetReads(h, b, i, c.Off(h, items, i));
  }

  /** `key_buf_for_offset_mut`. */
  method KeyPlace(c: Codec, a: array<byte>, h: Header, ghost items: seq<KV>, ghost pl: Plan, i: nat, ghost t: nat,
                  ghost k: nat, ghost v: nat) returns (at: nat)
    requires c.Planned(h, items, pl) && Filled(pl, a[..], t, k, v) && i < t && i < |items|
    ensures at == pl.keys[i].at && pl.keys[i].data ==
            if h.fixedKey.Some? then items[i].key else c.Prefixed(items[i].key)
  {
    assert c.SpotsAre(h, items, pl, i);
    if h.fixedKey.Some? {
      return KeysAt(h) + Times(i, h.fixedKey.value);
    }
    EntryReads(c, h, items, pl, a[..], t, k, v, i);
    return c.SlotAt(h, a[..], i).value;
  }

  method WriteKey(c: Codec, a: array<byte>, h: Header, ghost items: seq<KV>, ghost pl: Plan, i: nat, key: bytes,
                  ghost t: nat, ghost v: nat)
    requires c.Planned(h, items, pl) && Filled(pl, a[..], t, i, v) && i < t && i < |items| && key == items[i].key
    modifies a
    ensures Filled(pl, a[..], t, i + 1, v)
  {
    var at := KeyPlace(c, a, h, items, pl, i, t, i, v);
    WriteNext(pl, a[..], t, i, v, Key);
    WritePart(c, a, at, h.fixedKey, key);
  }

  /** A fixed-size item as it is, or an item behind its varint length. */
  method WritePart(c: Codec, a: array<byte>, at: nat, fixed: Option<nat>, t: bytes)
    requires at + |if fixed.Some? then t else c.Prefixed(t)| <= a.Length
    modifies a
    ensures a[..] == Splice(old(a[..]), at, if fixed.Some? then t else c.Prefixed(t))
  {
    if fixed.Some? {
      CopyInto(a, at, t);
    } else {
      WritePrefixed(c, a, at, t);
    }
  }

  lemma KeySlotReads(c: Codec, h: Header, items: seq<KV>, pl: Plan, b: bytes, t: nat, k: nat, v: nat, i: nat)
    requires c.Good() && c.Planned(h, items, pl) && Filled(pl, b, t, k, v) && i < t && i < k
    ensures c.ValueSlotAt(h, b, i) == Some(SlotsAt(h) + c.Off(h, items, i) + c.PartLen(h.fixedKey, items[i].key))
  {
    EntryReads(c, h, items, pl, b, t, k, v, i);
    assert c.SpotsAre(h, items, pl, i);
    assert In(b, Spots(pl, Key)[i]);
    assert ItemFits(h, items[i]);
    c.KeyReads(Node(h, b), i, c.Off(h, items, i), items[i].key);
  }

  /** `value_buf_for_offset_mut`: the key is parsed to find the place behind it. */
  method ValuePlace(c: Codec, a: array<byte>, h: Header, ghost items: seq<KV>, ghost pl: Plan, i: nat, ghost t: nat,
                    ghost k: nat, ghost v: nat) returns (at: nat)
    requires c.Good() && c.Planned(h, items, pl) && Filled(pl, a[..], t, k, v) && i < t && i < k && i < |items|
    ensures at == pl.values[i].at && pl.values[i].data ==
            if h.fixedValue.Some? then items[i].value else c.Prefixed(items[i].value)
  {
    assert c.SpotsAre(h, items, pl, i);
    if h.fixedValue.Some? {
      return ValuesAt(h) + Times(i, h.fixedValue.value);
    }
    KeySlotReads(c, h, items, pl, a[..], t, k, v, i);
    return c.ValueSlotAt(h, a[..], i).value;
  }

  method WriteValue(c: Codec, a: array<byte>, h: Header, ghost items: seq<KV>, ghost pl: Plan, i: nat, value: bytes,
                    ghost t: nat, ghost k: nat)
    requires c.Good() && c.Planned(h, items, pl) && Filled(pl, a[..], t, k, i) && i < t && i < k && i < |items|
             && value == items[i].value
    modifies a
    ensures Filled(pl, a[..], t, k, i + 1)
  {
    var at := ValuePlace(c, a, h, items, pl, i, t, k, i);
    WriteNext(pl, a[..], t, k, i, Value);
    WritePart(c, a, at, h.fixedValue, value);
  }

  // ---------------------------------------------------------------------------------
  // Node::new
  // ---------------------------------------------------------------------------------

  function KeysOf(items: seq<KV>): seq<bytes> {
    seq(|items|, i requires 0 <= i < |items| => items[i].key)
  }

  function ValuesOf(items: seq<KV>): seq<bytes> {
    seq(|items|, i requires 0 <= i < |items| => items[i].value)
  }

  /** The common length of all items, if they have one and it is not zero. */
  predicate HaveLength(ts: seq<bytes>, fixed: Option<nat>) {
    if fixed.Some? then ts != [] && fixed.value > 0 && forall i :: 0 <= i < |ts| ==> |ts[i]| == fixed.value
    else ts == [] || |ts[0]| == 0 || exists i :: 0 <= i < |ts| && |ts[i]| != |ts[0]|
  }

  method FixedLength(ts: seq<bytes>) returns (fixed: Option<nat>)
    ensures HaveLength(ts, fixed)
  {
    var equal := true;
    for i := 0 to |ts|
      invariant equal ==> forall j :: 0 <= j < i ==> |ts[j]| == |ts[0]|
      invariant !equal ==> exists j :: 0 <= j < i && |ts[j]| != |ts[0]|
    {
      equal := equal && |ts[0]| == |ts[i]|;
    }
    if equal && ts != [] && |ts[0]| > 0 {
      return Some(|ts[0]|);
    }
    return None;
  }

  function StoredLen(c: Codec, fixed: Option<nat>, t: bytes): nat {
    if fixed.Some? then fixed.value else c.Size(|t|) + |t|
  }

  /** The bytes that the first n items take without their table entries. */
  function Stored(c: Codec, fixed: Option<nat>, ts: seq<bytes>, n: nat): nat
    requires n <= |ts|
  {
    if n == 0 then 0 else Stored(c, fixed, ts, n - 1) + StoredLen(c, fixed, ts[n - 1])
  }

  lemma StoredPair(c: Codec, fixed: Option<nat>, ts: seq<bytes>)
    requires |ts| == 2
    ensures Stored(c, fixed, ts, 2) == StoredLen(c, fixed, ts[0]) + StoredLen(c, fixed, ts[1])
  {
    assert Stored(c, fixed, ts, 0) == 0;
    assert Stored(c, fixed, ts, 1) == StoredLen(c, fixed, ts[0]);
  }

  method StorageSize(c: Codec, fixed: Option<nat>, ts: seq<bytes>) returns (size: nat)
    ensures size == Stored(c, fixed, ts, |ts|)
  {
    size := 0;
    for i := 0 to |ts|
      invariant size == Stored(c, fixed, ts, i)
    {
      size := size + if fixed.Some? then fixed.value else c.Size(|ts[i]|) + |ts[i]|;
    }
  }

  lemma {:induction false} StoredIsPlaces(c: Codec, h: Header, items: seq<KV>, n: nat)
    requires n <= |items|
    ensures Stored(c, h.fixedKey, KeysOf(items), n) + Stored(c, h.fixedValue, ValuesOf(items), n)
            == FixedLen(h.fixedKey, n) + FixedLen(h.fixedValue, n) + c.Off(h, items, n)
  {
    if n > 0 {
      StoredIsPlaces(c, h, items, n - 1);
    }
  }

  /** How many bytes an offset needs; the source stops at six. */
  function BytesPerOffset(max: nat): nat
    requires max < 0x1_0000_0000_0000
  {
    if max < 0x100 then 1
    else if max < 0x1_0000 then 2
    else if max < 0x100_0000 then 3
    else if max < 0x1_0000_0000 then 4
    else if max < 0x100_0000_0000 then 5
    else 6
  }

  lemma OffsetsFit(max: nat)
    requires max < 0x1_0000_0000_0000
    ensures max < Pow256(BytesPerOffset(max))
  {
    PowFits();
  }

  function Max(a: nat, b: nat): nat {
    if a < b then b else a
  }

  /** What `Node::new` compares with the offset widths. */
  function MaxStorage(c: Codec, fk: Option<nat>, fv: Option<nat>, items: seq<KV>): nat {
    Stored(c, fk, KeysOf(items), |items|) + Max(Stored(c, fv, ValuesOf(items), |items|), 8) + 6 * |items|
  }

  function Or(hi: Option<bytes>): bytes {
    if hi.Some? then hi.value else []
  }

  lemma {:induction false} NoSlots(c: Codec, h: Header, items: seq<KV>, i: nat)
    requires h.fixedKey.Some? && h.fixedValue.Some? && i <= |items|
    ensures c.Off(h, items, i) == 0
  {
    if i > 0 {
      NoSlots(c, h, items, i - 1);
    }
  }

  /** The layout that `Node::new` chooses for some items. */
  predicate Chosen(c: Codec, h: Header, items: seq<KV>) {
    && HaveLength(KeysOf(items), h.fixedKey) && HaveLength(ValuesOf(items), h.fixedValue) && h.children == |items|
    && MaxStorage(c, h.fixedKey, h.fixedValue, items) < 0x1_0000_0000_0000
    && h.offsetBytes == (if h.fixedKey.Some? && h.fixedValue.Some? then 0
                         else BytesPerOffset(MaxStorage(c, h.fixedKey, h.fixedValue, items)))
    && h.len == DataAt(h) + Times(|items|, h.offsetBytes) + Stored(c, h.fixedKey, KeysOf(items), |items|)
                + Max(Stored(c, h.fixedValue, ValuesOf(items), |items|), 8)
  }

  lemma NewFits(c: Codec, h: Header, items: seq<KV>)
    requires forall i :: 0 <= i < |items| ==> |items[i].key| < U64_LIMIT && |items[i].value| < U64_LIMIT
    requires Chosen(c, h, items)
    ensures c.Fits(h, items)
  {
    StoredIsPlaces(c, h, items, |items|);
    OffsetsFit(MaxStorage(c, h.fixedKey, h.fixedValue, items));
    forall i | 0 <= i < |items| ensures ItemFits(h, items[i]) {
      assert KeysOf(items)[i] == items[i].key && ValuesOf(items)[i] == items[i].value;
    }
    forall i | 0 <= i < |items| ensures c.OffFits(h, items, i) {
      OffGap(c, h, items, i, |items|);
      if h.offsetBytes == 0 { NoSlots(c, h, items, i); }
    }
  }

  method WriteItem(c: Codec, a: array<byte>, h: Header, items: seq<KV>, ghost pl: Plan, i: nat, off: nat)
    requires c.Good() && c.Planned(h, items, pl) && Filled(pl, a[..], i, i, i) && i < |items|
             && off == c.Off(h, items, i)
    modifies a
    ensures Filled(pl, a[..], i + 1, i + 1, i + 1)
  {
    WriteEntry(c, a, h, items, pl, i, off, i, i);
    WriteKey(c, a, h, items, pl, i, items[i].key, i + 1, i);
    WriteValue(c, a, h, items, pl, i, items[i].value, i + 1, i + 1);
  }

  method WriteItems(c: Codec, a: array<byte>, h: Header, items: seq<KV>, ghost pl: Plan)
    requires c.Good() && c.Planned(h, items, pl) && Filled(pl, a[..], 0, 0, 0)
    modifies a
    ensures Full(pl, a[..])
  {
    var off := 0;
    for i := 0 to |items|
      invariant off == c.Off(h, items, i)
      invariant Filled(pl, a[..], i, i, i)
    {
      WriteItem(c, a, h, items, pl, i, off);
      off := off + c.SlotLen(h, items[i]);
    }
  }

  /** The source stops when the items need more than six bytes per offset, and when there are more
      of them than a 16-bit counter can count. */
  ghost predicate Storable(c: Codec, items: seq<KV>) {
    && |items| <= MAX_ITEMS
    && (forall i :: 0 <= i < |items| ==> |items[i].key| < U64_LIMIT && |items[i].value| < U64_LIMIT)
    && (forall fk, fv {:trigger MaxStorage(c, fk, fv, items)} ::
          HaveLength(KeysOf(items), fk) && HaveLength(ValuesOf(items), fv) ==>
              MaxStorage(c, fk, fv, items) < 0x1_0000_0000_0000)
  }

  const MAX_ITEMS: nat := 65535

  /** The layout that `Node::new` chooses. */
  method ChooseLayout(c: Codec, loLen: nat, hiLen: nat, prefixLen: nat, isIndex: bool, next: Option<PageId>,
                      items: seq<KV>) returns (h: Header)
    requires Storable(c, items)
    ensures c.Fits(h, items) && Chosen(c, h, items)
    ensures h.loLen == loLen && h.hiLen == hiLen && h.prefixLen == prefixLen && h.isIndex == isIndex && h.next == next
  {
    var fk := FixedLength(KeysOf(items));
    var fv := FixedLength(ValuesOf(items));
    var keySize := StorageSize(c, fk, KeysOf(items));
    var valueSize := StorageSize(c, fv, ValuesOf(items));
    valueSize := Max(valueSize, 8);
    assert MaxStorage(c, fk, fv, items) == keySize + valueSize + 6 * |items|;
    var offsetBytes := if fk.Some? && fv.Some? then 0 else BytesPerOffset(keySize + valueSize + 6 * |items|);
    var len := loLen + hiLen + Times(|items|, offsetBytes) + keySize + valueSize;
    h := Header(loLen, hiLen, fk, fv, |items|, prefixLen, offsetBytes, isIndex, next, len);
    NewFits(c, h, items);
  }

  /** `Node::new`. */
  method New(c: Codec, lo: bytes, hi: Option<bytes>, prefixLen: nat, isIndex: bool, next: Option<PageId>,
             items: seq<KV>) returns (n: Node)
    requires c.Good() && Storable(c, items)
    ensures c.Encodes(n, lo, Or(hi), items)
    ensures Chosen(c, n.h, items) && n.h.loLen == |lo| && n.h.hiLen == |Or(hi)|
    ensures n.h.prefixLen == prefixLen && n.h.isIndex == isIndex && n.h.next == next
  {
    var h := ChooseLayout(c, |lo|, |Or(hi)|, prefixLen, isIndex, next, items);
    var bounds := lo + Or(hi);
    ghost var pl := MakePlan(c, h, bounds, items);
    var a := new byte[h.len](_ => 0);
    CopyInto(a, 0, bounds);
    NothingWritten(pl, seq(h.len, _ => 0));
    WriteItems(c, a, h, items, pl);
    n := Node(h, a[..]);
    assert c.EncodesAs(n, lo, Or(hi), items, pl);
  }
}
