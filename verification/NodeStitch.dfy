/** `stitch`: insert, replace or remove one item, in place where the layout allows it. */
module NodeStitch {
  import opened Base
  import opened Varint
  import opened Places
  import opened NodeLayout
  import opened NodeBuild

  function One(b: bool): nat {
    if b then 1 else 0
  }

  /** The list edit that `stitch` performs. */
  function Edited(items: seq<KV>, index: nat, item: Option<KV>, replace: bool): seq<KV>
    requires index + One(replace) <= |items|
  {
    items[..index] + (if item.Some? then [item.value] else []) + items[index + One(replace)..]
  }

  lemma EditedSlices(items: seq<KV>, index: nat, item: Option<KV>, replace: bool)
    requires index + One(replace) <= |items|
    ensures var e := Edited(items, index, item, replace);
            var from, to := index + One(replace), index + One(item.Some?);
            && |e| == to + (|items| - from)
            && e[0..0 + index] == items[0..0 + index]
            && e[to..to + (|e| - to)] == items[from..from + (|e| - to)]
            && (item.Some? ==> e[index] == item.value)
  {
    var e := Edited(items, index, item, replace);
    var from, to := index + One(replace), index + One(item.Some?);
    assert |e| == to + (|items| - from);
    assert e[..index] == items[..index] && e[0..0 + index] == e[..index] && items[0..0 + index] == items[..index];
    assert e[to..] == items[from..] && to + (|e| - to) == |e| && from + (|e| - to) == |items|;
  }

  // ---------------------------------------------------------------------------------
  // Offsets
  // ---------------------------------------------------------------------------------

  predicate SameFixed(h: Header, h': Header) {
    h'.fixedKey == h.fixedKey && h'.fixedValue == h.fixedValue && h'.offsetBytes == h.offsetBytes
  }

  /** m equal items further on add equal slots. */
  lemma OffOnward(c: Codec, h: Header, items: seq<KV>, from: nat, h': Header, e: seq<KV>, to: nat, m: nat)
    requires SameFixed(h, h') && from + m <= |items| && to + m <= |e| && e[to..to + m] == items[from..from + m]
    ensures c.Off(h', e, to + m) - c.Off(h', e, to) == c.Off(h, items, from + m) - c.Off(h, items, from)
  {
    var l, l' := c.Lens(h, items), c.Lens(h', e);
    var s, s' := l[from..from + m], l'[to..to + m];
    forall j | 0 <= j < m ensures s'[j] == s[j] {
      assert e[to..to + m][j] == items[from..from + m][j];
    }
    SumOnward(l, from, l', to, m);
  }

  function SlotChange(c: Codec, h: Header, items: seq<KV>, index: nat, item: Option<KV>, replace: bool): int
    requires index + One(replace) <= |items|
  {
    (if item.Some? then c.SlotLen(h, item.value) else 0) - (if replace then c.SlotLen(h, items[index]) else 0)
  }

  /** Offsets up to the edit stay. */
  lemma OffBefore(c: Codec, h: Header, items: seq<KV>, index: nat, item: Option<KV>, replace: bool, h': Header, i: nat)
    requires index + One(replace) <= |items| && SameFixed(h, h') && i <= index
    ensures i <= |Edited(items, index, item, replace)|
            && c.Off(h', Edited(items, index, item, replace), i) == c.Off(h, items, i)
  {
    assert Edited(items, index, item, replace)[0..0 + i] == items[0..0 + i];
    OffOnward(c, h, items, 0, h', Edited(items, index, item, replace), 0, i);
  }

  lemma OffStep(c: Codec, h: Header, items: seq<KV>, i: nat)
    requires i < |items|
    ensures c.Off(h, items, i + 1) == c.Off(h, items, i) + c.SlotLen(h, items[i])
  {
  }

  lemma EditedAfter(items: seq<KV>, index: nat, item: Option<KV>, replace: bool, m: nat)
    requires index + One(replace) + m <= |items|
    ensures var e := Edited(items, index, item, replace);
            var from, to := index + One(replace), index + One(item.Some?);
            to + m <= |e| && e[to..to + m] == items[from..from + m] && (item.Some? ==> e[index] == item.value)
  {
    var mid := if item.Some? then [item.value] else [];
    var e := Edited(items, index, item, replace);
    var from, to := index + One(replace), index + One(item.Some?);
    var tail := items[from..];
    PartsBehind(items[..index], mid, tail);
    assert e == items[..index] + mid + tail && |items[..index]| + |mid| == to;
    assert e[to..] == tail;
    assert e[to..to + m] == e[to..][..m];
    assert tail[..m] == items[from..from + m];
  }

  lemma PartsBehind(a: seq<KV>, b: seq<KV>, d: seq<KV>)
    ensures (a + b + d)[|a| + |b|..] == d
    ensures b != [] ==> (a + b + d)[|a|] == b[0]
  {
  }

  /** The offset right behind the edit. */
  lemma OffBehind(c: Codec, h: Header, items: seq<KV>, index: nat, item: Option<KV>, replace: bool, h': Header)
    requires index + One(replace) <= |items| && SameFixed(h, h')
    ensures var e := Edited(items, index, item, replace);
            && index + One(item.Some?) <= |e|
            && c.Off(h', e, index + One(item.Some?)) == c.Off(h, items, index + One(replace))
                  + SlotChange(c, h, items, index, item, replace)
  {
    OffBefore(c, h, items, index, item, replace, h', index);
    EditedAfter(items, index, item, replace, 0);
    if item.Some? { OffStep(c, h', Edited(items, index, item, replace), index); }
    if replace { OffStep(c, h, items, index); }
  }

  /** Offsets after the edit shift. */
  lemma OffAfter(c: Codec, h: Header, items: seq<KV>, index: nat, item: Option<KV>, replace: bool, h': Header, m: nat)
    requires index + One(replace) + m <= |items| && SameFixed(h, h')
    ensures var e := Edited(items, index, item, replace);
            var from, to := index + One(replace), index + One(item.Some?);
            && to + m <= |e|
            && c.Off(h', e, to + m) == c.Off(h, items, from + m) + SlotChange(c, h, items, index, item, replace)
  {
    OffFromBehind(c, h, items, index, item, replace, h', m);
    OffBehind(c, h, items, index, item, replace, h');
  }

  /** From there on, offsets grow as before. */
  lemma OffFromBehind(c: Codec, h: Header, items: seq<KV>, index: nat, item: Option<KV>, replace: bool, h': Header,
                      m: nat)
    requires index + One(replace) + m <= |items| && SameFixed(h, h')
    ensures var e := Edited(items, index, item, replace);
            var from, to := index + One(replace), index + One(item.Some?);
            && to + m <= |e|
            && c.Off(h', e, to + m) - c.Off(h', e, to) == c.Off(h, items, from + m) - c.Off(h, items, from)
  {
    EditedAfter(items, index, item, replace, m);
    OffOnward(c, h, items, index + One(replace), h', Edited(items, index, item, replace), index + One(item.Some?), m);
  }

  lemma LastOff(c: Codec, h: Header, items: seq<KV>, index: nat, item: Option<KV>, replace: bool, h': Header)
    requires index + One(replace) <= |items| && SameFixed(h, h')
    ensures var e := Edited(items, index, item, replace);
            c.Off(h', e, |e|) == c.Off(h, items, |items|) + SlotChange(c, h, items, index, item, replace)
  {
    OffAfter(c, h, items, index, item, replace, h', |items| - index - One(replace));
  }

  // ---------------------------------------------------------------------------------
  // The new header
  // ---------------------------------------------------------------------------------

  /** What an item adds to the node. */
  function ItemSize(c: Codec, h: Header, it: KV): nat {
    h.offsetBytes + StoredLen(c, h.fixedKey, it.key) + StoredLen(c, h.fixedValue, it.value)
  }

  function StitchedHeader(c: Codec, h: Header, items: seq<KV>, index: nat, item: Option<KV>, replace: bool): Header
    requires index + One(replace) <= |items| == h.children
    requires replace ==> ItemSize(c, h, items[index]) <= h.len
  {
    h.(children := h.children - One(replace) + One(item.Some?),
       len := h.len - (if replace then ItemSize(c, h, items[index]) else 0)
           + if item.Some? then ItemSize(c, h, item.value) else 0)
  }

  /** The fast path is open to an item of the fixed lengths, as long as offsets still fit. */
  ghost predicate Admits(c: Codec, h: Header, it: KV) {
    ItemFits(h, it) && h.len + ItemSize(c, h, it) < Pow256(h.offsetBytes) && h.offsetBytes > 0
  }

  lemma RemovedFitsIn(c: Codec, h: Header, items: seq<KV>, index: nat)
    requires c.Fits(h, items) && index < |items|
    ensures DataAt(h) + ItemSize(c, h, items[index]) <= h.len
  {
    assert ItemFits(h, items[index]);
    TimesGap(index, |items|, h.offsetBytes);
    if h.fixedKey.Some? { TimesGap(index, |items|, h.fixedKey.value); }
    if h.fixedValue.Some? { TimesGap(index, |items|, h.fixedValue.value); }
    OffGap(c, h, items, index, |items|);
  }

  /** What the areas take, besides the slots. */
  function FixedSpace(h: Header, n: nat): nat {
    Times(n, h.offsetBytes) + FixedLen(h.fixedKey, n) + FixedLen(h.fixedValue, n)
  }

  lemma FixedSpaceStep(c: Codec, h: Header, n: nat, it: KV)
    requires ItemFits(h, it)
    ensures FixedSpace(h, n + 1) + c.SlotLen(h, it) == FixedSpace(h, n) + ItemSize(c, h, it)
  {
  }

  /** The areas of the new node fit as tightly as those of the old one. */
  lemma StitchedAreas(c: Codec, h: Header, items: seq<KV>, index: nat, item: Option<KV>, replace: bool)
    requires c.Fits(h, items) && index + One(replace) <= |items|
    requires item.Some? ==> ItemFits(h, item.value)
    requires replace ==> ItemSize(c, h, items[index]) <= h.len
    ensures var h' := StitchedHeader(c, h, items, index, item, replace);
            var e := Edited(items, index, item, replace);
            SlotsAt(h') + c.Off(h', e, |e|) <= ValuesAt(h')
  {
    var h' := StitchedHeader(c, h, items, index, item, replace);
    LastOff(c, h, items, index, item, replace, h');
    StitchedSpace(c, h, items, index, item, replace);
    AreasTake(h);
    AreasTake(h');
  }

  lemma AreasTake(h: Header)
    ensures SlotsAt(h) - ValuesAt(h) == DataAt(h) + FixedSpace(h, h.children) - h.len
  {
  }

  lemma StitchedSpace(c: Codec, h: Header, items: seq<KV>, index: nat, item: Option<KV>, replace: bool)
    requires c.Fits(h, items) && index + One(replace) <= |items| && (item.Some? ==> ItemFits(h, item.value))
    requires replace ==> ItemSize(c, h, items[index]) <= h.len
    ensures var h' := StitchedHeader(c, h, items, index, item, replace);
            FixedSpace(h', h'.children) + SlotChange(c, h, items, index, item, replace) - h'.len ==
                FixedSpace(h, h.children) - h.len
  {
    var n := |items| - One(replace);
    if replace {
      assert ItemFits(h, items[index]);
      FixedSpaceStep(c, h, n, items[index]);
    }
    if item.Some? { FixedSpaceStep(c, h, n, item.value); }
  }

  lemma StitchedOffFits(c: Codec, h: Header, items: seq<KV>, index: nat, item: Option<KV>, replace: bool, i: nat)
    requires c.Fits(h, items) && index + One(replace) <= |items| && (item.None? ==> replace)
    requires item.Some? ==> Admits(c, h, item.value)
    requires replace ==> ItemSize(c, h, items[index]) <= h.len
    requires i < |Edited(items, index, item, replace)|
    ensures c.OffFits(StitchedHeader(c, h, items, index, item, replace), Edited(items, index, item, replace), i)
  {
    var h' := StitchedHeader(c, h, items, index, item, replace);
    var e := Edited(items, index, item, replace);
    if item.Some? {
      StitchedAreas(c, h, items, index, item, replace);
      OffGap(c, h', e, i, |e|);
    } else {
      assert c.OffFits(h, items, if i < index then i else i + 1);
      if i < index {
        OffBefore(c, h, items, index, item, replace, h', i);
      } else {
        OffAfter(c, h, items, index, item, replace, h', i - index);
      }
    }
  }

  lemma StitchedItemFits(c: Codec, h: Header, items: seq<KV>, index: nat, item: Option<KV>, replace: bool, h': Header,
                         i: nat)
    requires c.Fits(h, items) && index + One(replace) <= |items| && (item.Some? ==> ItemFits(h, item.value))
             && SameFixed(h, h')
    requires i < |Edited(items, index, item, replace)|
    ensures ItemFits(h', Edited(items, index, item, replace)[i])
  {
    var j := if i < index then i else if i == index && item.Some? then 0 else i + One(replace) - One(item.Some?);
    assert (i != index || item.None?) ==> ItemFits(h, items[j]);
  }

  lemma StitchedFits(c: Codec, h: Header, items: seq<KV>, index: nat, item: Option<KV>, replace: bool)
    requires c.Fits(h, items) && index + One(replace) <= |items| && (item.None? ==> replace)
    requires item.Some? ==> Admits(c, h, item.value)
    requires replace ==> ItemSize(c, h, items[index]) <= h.len
    ensures c.Fits(StitchedHeader(c, h, items, index, item, replace), Edited(items, index, item, replace))
  {
    var h' := StitchedHeader(c, h, items, index, item, replace);
    var e := Edited(items, index, item, replace);
    StitchedAreas(c, h, items, index, item, replace);
    forall i | 0 <= i < |e| ensures c.OffFits(h', e, i) {
      StitchedOffFits(c, h, items, index, item, replace, i);
    }
    forall i | 0 <= i < |e| ensures ItemFits(h', e[i]) {
      StitchedItemFits(c, h, items, index, item, replace, h', i);
    }
  }

  // ---------------------------------------------------------------------------------
  // Rows
  // ---------------------------------------------------------------------------------

  lemma EntryRow(c: Codec, h: Header, items: seq<KV>, pl: Plan)
    requires c.Planned(h, items, pl)
    ensures Row(pl.entries, DataAt(h), h.offsetBytes)
  {
    forall i | 0 <= i < |items| ensures InRow(pl.entries, DataAt(h), h.offsetBytes, i) {
      assert c.SpotsAre(h, items, pl, i);
    }
  }

  lemma KeyRow(c: Codec, h: Header, items: seq<KV>, pl: Plan)
    requires c.Planned(h, items, pl) && h.fixedKey.Some?
    ensures Row(pl.keys, KeysAt(h), h.fixedKey.value)
  {
    forall i | 0 <= i < |items| ensures InRow(pl.keys, KeysAt(h), h.fixedKey.value, i) {
      assert c.SpotsAre(h, items, pl, i) && ItemFits(h, items[i]);
    }
  }

  lemma ValueRow(c: Codec, h: Header, items: seq<KV>, pl: Plan)
    requires c.Planned(h, items, pl) && h.fixedValue.Some?
    ensures Row(pl.values, ValuesAt(h), h.fixedValue.value)
  {
    forall i | 0 <= i < |items| ensures InRow(pl.values, ValuesAt(h), h.fixedValue.value, i) {
      assert c.SpotsAre(h, items, pl, i) && ItemFits(h, items[i]);
    }
  }

  /** Equal items have equal fixed-size keys and values, wherever they are. */
  lemma SameItems(c: Codec, h: Header, items: seq<KV>, pl: Plan, from: nat, h': Header, e: seq<KV>, pl': Plan,
                  to: nat, m: nat)
    requires c.Planned(h, items, pl) && c.Planned(h', e, pl') && SameFixed(h, h')
    requires from + m <= |items| && to + m <= |e| && e[to..to + m] == items[from..from + m]
    ensures h.fixedKey.Some? ==> SameData(pl.keys, from, pl'.keys, to, m)
    ensures h.fixedValue.Some? ==> SameData(pl.values, from, pl'.values, to, m)
  {
    forall j | 0 <= j < m
      ensures h.fixedKey.Some? ==> SameDatum(pl.keys, from, pl'.keys, to, j)
      ensures h.fixedValue.Some? ==> SameDatum(pl.values, from, pl'.values, to, j)
    {
      assert e[to..to + m][j] == items[from..from + m][j];
      assert c.SpotsAre(h, items, pl, from + j) && c.SpotsAre(h', e, pl', to + j);
    }
  }

  lemma SameEntries(c: Codec, h: Header, items: seq<KV>, pl: Plan, index: nat, item: Option<KV>, replace: bool,
                    h': Header, e: seq<KV>, pl': Plan)
    requires c.Planned(h, items, pl) && c.Planned(h', e, pl') && SameFixed(h, h')
    requires index + One(replace) <= |items| && e == Edited(items, index, item, replace)
    ensures SameData(pl.entries, 0, pl'.entries, 0, index)
  {
    forall j | 0 <= j < index ensures SameDatum(pl.entries, 0, pl'.entries, 0, j) {
      OffBefore(c, h, items, index, item, replace, h', j);
      assert c.SpotsAre(h, items, pl, 0 + j) && c.SpotsAre(h', e, pl', 0 + j);
    }
  }

  // ---------------------------------------------------------------------------------
  // The fast path
  // ---------------------------------------------------------------------------------

  /** The edit at hand: n encodes items by plan pl; the new node shall encode e by pl'. */
  ghost predicate Editing(c: Codec, n: Node, lo: bytes, hi: bytes, items: seq<KV>, pl: Plan, index: nat,
                          item: Option<KV>, replace: bool,
                          h': Header, e: seq<KV>, pl': Plan) {
    && c.EncodesAs(n, lo, hi, items, pl)
    && index + One(replace) <= |items| && e == Edited(items, index, item, replace)
    && c.Planned(h', e, pl') && SameFixed(n.h, h') && DataAt(h') == DataAt(n.h)
  }

  /** The keys of m equal items: as one block if they have a fixed size, one by one if not. */
  method CopyKeys(c: Codec, n: Node, ghost lo: bytes, ghost hi: bytes, ghost items: seq<KV>, ghost pl: Plan, from: nat,
                  a: array<byte>, h': Header, ghost e: seq<KV>, ghost pl': Plan, to: nat, m: nat)
    requires c.Good() && c.EncodesAs(n, lo, hi, items, pl) && c.Planned(h', e, pl') && SameFixed(n.h, h')
    requires from + m <= |items| && to + m <= |e| && e[to..to + m] == items[from..from + m]
    requires Filled(pl', a[..], |e|, to, 0)
    modifies a
    ensures Filled(pl', a[..], |e|, to + m, 0)
  {
    if n.h.fixedKey.Some? {
      SameItems(c, n.h, items, pl, from, h', e, pl', to, m);
      KeyRow(c, n.h, items, pl);
      KeyRow(c, h', e, pl');
      CopyRow(pl, n.buf, KeysAt(n.h), from, pl', a, KeysAt(h'), |e|, to, 0, to, Key, n.h.fixedKey.value, m);
    } else {
      CopyKeysOneByOne(c, n, lo, hi, items, pl, from, a, h', e, pl', to, m);
    }
  }

  method CopyKeysOneByOne(c: Codec, n: Node, ghost lo: bytes, ghost hi: bytes, ghost items: seq<KV>, ghost pl: Plan,
                          from: nat,
                        a: array<byte>, h': Header, ghost e: seq<KV>, ghost pl': Plan, to: nat, m: nat)
    requires c.Good() && c.EncodesAs(n, lo, hi, items, pl) && c.Planned(h', e, pl')
    requires from + m <= |items| && to + m <= |e| && e[to..to + m] == items[from..from + m]
    requires Filled(pl', a[..], |e|, to, 0)
    modifies a
    ensures Filled(pl', a[..], |e|, to + m, 0)
  {
    for j := 0 to m
      invariant Filled(pl', a[..], |e|, to + j, 0)
    {
      assert e[to..to + m][j] == items[from..from + m][j];
      CopyKey(c, n, lo, hi, items, pl, from + j, a, h', e, pl', to + j);
    }
  }

  method CopyKey(c: Codec, n: Node, ghost lo: bytes, ghost hi: bytes, ghost items: seq<KV>, ghost pl: Plan, from: nat,
                 a: array<byte>, h': Header, ghost e: seq<KV>, ghost pl': Plan, to: nat)
    requires c.Good() && c.EncodesAs(n, lo, hi, items, pl) && c.Planned(h', e, pl')
    requires from < |items| && to < |e| && e[to] == items[from] && Filled(pl', a[..], |e|, to, 0)
    modifies a
    ensures Filled(pl', a[..], |e|, to + 1, 0)
  {
    c.PlaceReads(n, lo, hi, items, pl, from);
    WriteKey(c, a, h', e, pl', to, c.IndexKey(n, from).value, |e|, 0);
  }

  method CopyValues(c: Codec, n: Node, ghost lo: bytes, ghost hi: bytes, ghost items: seq<KV>, ghost pl: Plan,
                    from: nat,
                    a: array<byte>, h': Header, ghost e: seq<KV>, ghost pl': Plan, to: nat, m: nat)
    requires c.Good() && c.EncodesAs(n, lo, hi, items, pl) && c.Planned(h', e, pl') && SameFixed(n.h, h')
    requires from + m <= |items| && to + m <= |e| && e[to..to + m] == items[from..from + m]
    requires Filled(pl', a[..], |e|, |e|, to)
    modifies a
    ensures Filled(pl', a[..], |e|, |e|, to + m)
  {
    if n.h.fixedValue.Some? {
      SameItems(c, n.h, items, pl, from, h', e, pl', to, m);
      ValueRow(c, n.h, items, pl);
      ValueRow(c, h', e, pl');
      CopyRow(pl, n.buf, ValuesAt(n.h), from, pl', a, ValuesAt(h'), |e|, |e|, to, to, Value, n.h.fixedValue.value, m);
    } else {
      CopyValuesOneByOne(c, n, lo, hi, items, pl, from, a, h', e, pl', to, m);
    }
  }

  method CopyValuesOneByOne(c: Codec, n: Node, ghost lo: bytes, ghost hi: bytes, ghost items: seq<KV>, ghost pl: Plan,
                            from: nat,
                        a: array<byte>, h': Header, ghost e: seq<KV>, ghost pl': Plan, to: nat, m: nat)
    requires c.Good() && c.EncodesAs(n, lo, hi, items, pl) && c.Planned(h', e, pl')
    requires from + m <= |items| && to + m <= |e| && e[to..to + m] == items[from..from + m]
    requires Filled(pl', a[..], |e|, |e|, to)
    modifies a
    ensures Filled(pl', a[..], |e|, |e|, to + m)
  {
    for j := 0 to m
      invariant Filled(pl', a[..], |e|, |e|, to + j)
    {
      assert e[to..to + m][j] == items[from..from + m][j];
      CopyValue(c, n, lo, hi, items, pl, from + j, a, h', e, pl', to + j);
    }
  }

  method CopyValue(c: Codec, n: Node, ghost lo: bytes, ghost hi: bytes, ghost items: seq<KV>, ghost pl: Plan, from: nat,
                 a: array<byte>, h': Header, ghost e: seq<KV>, ghost pl': Plan, to: nat)
    requires c.Good() && c.EncodesAs(n, lo, hi, items, pl) && c.Planned(h', e, pl')
    requires from < |items| && to < |e| && e[to] == items[from] && Filled(pl', a[..], |e|, |e|, to)
    modifies a
    ensures Filled(pl', a[..], |e|, |e|, to + 1)
  {
    c.PlaceReads(n, lo, hi, items, pl, from);
    WriteValue(c, a, h', e, pl', to, c.IndexValue(n, from).value, |e|, |e|);
  }

  /** The keys up to the edit and the new one. */
  method FirstKeys(c: Codec, n: Node, ghost lo: bytes, ghost hi: bytes, ghost items: seq<KV>, ghost pl: Plan,
                   index: nat, item: Option<KV>, ghost replace: bool,
                   a: array<byte>, h': Header, ghost e: seq<KV>, ghost pl': Plan)
    requires c.Good() && Editing(c, n, lo, hi, items, pl, index, item, replace, h', e, pl')
             && Filled(pl', a[..], |e|, 0, 0)
    modifies a
    ensures Filled(pl', a[..], |e|, index + One(item.Some?), 0)
  {
    EditedSlices(items, index, item, replace);
    CopyKeys(c, n, lo, hi, items, pl, 0, a, h', e, pl', 0, index);
    if item.Some? {
      WriteKey(c, a, h', e, pl', index, item.value.key, |e|, 0);
    }
  }

  /** The keys of the new node: those before the edit, the new one, those after it. */
  method StitchKeys(c: Codec, n: Node, ghost lo: bytes, ghost hi: bytes, ghost items: seq<KV>, ghost pl: Plan,
                    index: nat, item: Option<KV>, replace: bool,
                    a: array<byte>, h': Header, ghost e: seq<KV>, ghost pl': Plan)
    requires c.Good() && Editing(c, n, lo, hi, items, pl, index, item, replace, h', e, pl')
             && Filled(pl', a[..], |e|, 0, 0)
    modifies a
    ensures Filled(pl', a[..], |e|, |e|, 0)
  {
    FirstKeys(c, n, lo, hi, items, pl, index, item, replace, a, h', e, pl');
    EditedSlices(items, index, item, replace);
    var from, to := index + One(replace), index + One(item.Some?);
    CopyKeys(c, n, lo, hi, items, pl, from, a, h', e, pl', to, h'.children - to);
  }

  /** The values up to the edit and the new one. */
  method FirstValues(c: Codec, n: Node, ghost lo: bytes, ghost hi: bytes, ghost items: seq<KV>, ghost pl: Plan,
                     index: nat, item: Option<KV>, ghost replace: bool,
                     a: array<byte>, h': Header, ghost e: seq<KV>, ghost pl': Plan)
    requires c.Good() && Editing(c, n, lo, hi, items, pl, index, item, replace, h', e, pl')
             && Filled(pl', a[..], |e|, |e|, 0)
    modifies a
    ensures Filled(pl', a[..], |e|, |e|, index + One(item.Some?))
  {
    EditedSlices(items, index, item, replace);
    CopyValues(c, n, lo, hi, items, pl, 0, a, h', e, pl', 0, index);
    if item.Some? {
      WriteValue(c, a, h', e, pl', index, item.value.value, |e|, |e|);
    }
  }

  method StitchValues(c: Codec, n: Node, ghost lo: bytes, ghost hi: bytes, ghost items: seq<KV>, ghost pl: Plan,
                      index: nat, item: Option<KV>, replace: bool,
                      a: array<byte>, h': Header, ghost e: seq<KV>, ghost pl': Plan)
    requires c.Good() && Editing(c, n, lo, hi, items, pl, index, item, replace, h', e, pl')
             && Filled(pl', a[..], |e|, |e|, 0)
    modifies a
    ensures Full(pl', a[..])
  {
    FirstValues(c, n, lo, hi, items, pl, index, item, replace, a, h', e, pl');
    EditedSlices(items, index, item, replace);
    var from, to := index + One(replace), index + One(item.Some?);
    CopyValues(c, n, lo, hi, items, pl, from, a, h', e, pl', to, h'.children - to);
  }

  // The table.

  /** Without offsets there is no table to write. */
  lemma NoTable(c: Codec, h: Header, items: seq<KV>, pl: Plan, b: bytes)
    requires c.Planned(h, items, pl) && h.offsetBytes == 0 && Filled(pl, b, 0, 0, 0)
    ensures Filled(pl, b, |items|, 0, 0)
  {
    forall p, i | 0 <= i < Count(p, |items|, 0, 0) && i < |Spots(pl, p)| ensures In(b, Spots(pl, p)[i]) {
      assert c.SpotsAre(h, items, pl, i);
      assert Inside(pl, Spots(pl, p)[i]);
    }
  }

  /** Removing the last item writes one entry more than the table holds, into bytes that
      are written later. */
  lemma StrayEntry(c: Codec, h: Header, items: seq<KV>, pl: Plan, b: bytes, x: bytes)
    requires c.Planned(h, items, pl) && Filled(pl, b, |items|, 0, 0) && KeysAt(h) + |x| <= |b|
    ensures Filled(pl, Splice(b, KeysAt(h), x), |items|, 0, 0)
  {
    var b' := Splice(b, KeysAt(h), x);
    SpliceKeeps(b, KeysAt(h), x, 0, pl.bounds);
    forall p, i | 0 <= i < Count(p, |items|, 0, 0) && i < |Spots(pl, p)| ensures In(b', Spots(pl, p)[i]) {
      assert In(b, Spots(pl, p)[i]) && c.SpotsAre(h, items, pl, i);
      EntryBounds(c, h, items, i);
      SpliceKeeps(b, KeysAt(h), x, pl.entries[i].at, pl.entries[i].data);
    }
  }

  /** The offset for the edited place: right behind the item before it. */
  method NewOffset(c: Codec, n: Node, ghost lo: bytes, ghost hi: bytes, ghost items: seq<KV>, ghost pl: Plan,
                   index: nat) returns (off: nat)
    requires c.Good() && c.EncodesAs(n, lo, hi, items, pl) && index <= |items|
    ensures off == c.Off(n.h, items, index)
  {
    if index == 0 {
      return 0;
    }
    c.PlaceReads(n, lo, hi, items, pl, index - 1);
    OffStep(c, n.h, items, index - 1);
    var key, value := c.IndexKey(n, index - 1).value, c.IndexValue(n, index - 1).value;
    off := c.Offset(n.h, n.buf, index - 1).value + c.SlotLen(n.h, KV(key, value));
  }

  /** Shift the offsets of the items behind the edit. */
  method ShiftOffsets(c: Codec, n: Node, ghost lo: bytes, ghost hi: bytes, ghost items: seq<KV>, ghost pl: Plan,
                      index: nat, item: Option<KV>, replace: bool,
                      a: array<byte>, h': Header, ghost e: seq<KV>, ghost pl': Plan, shift: int)
    requires c.Good() && Editing(c, n, lo, hi, items, pl, index, item, replace, h', e, pl')
    requires shift == SlotChange(c, n.h, items, index, item, replace) && index < |e|
             && Filled(pl', a[..], index + 1, 0, 0)
    modifies a
    ensures Filled(pl', a[..], |e|, 0, 0)
  {
    EditedSlices(items, index, item, replace);
    for i := index + 1 to h'.children
      invariant Filled(pl', a[..], i, 0, 0)
    {
      var j := i + One(replace) - One(item.Some?);
      ShiftedOffset(c, n.h, items, index, item, replace, h', e, i, j);
      c.PlaceReads(n, lo, hi, items, pl, j);
      WriteEntry(c, a, h', e, pl', i, c.Offset(n.h, n.buf, j).value + shift, 0, 0);
    }
  }

  lemma ShiftedOffset(c: Codec, h: Header, items: seq<KV>, index: nat, item: Option<KV>, replace: bool, h': Header,
                      e: seq<KV>, i: nat, j: int)
    requires SameFixed(h, h') && index + One(replace) <= |items| && e == Edited(items, index, item, replace)
    requires index < i < |e| && j == i + One(replace) - One(item.Some?)
    ensures 0 <= j < |items| && c.Off(h', e, i) == c.Off(h, items, j) + SlotChange(c, h, items, index, item, replace)
  {
    OffAfter(c, h, items, index, item, replace, h', i - index - One(item.Some?));
  }

  /** The stray entry of a removal at the end lies past the new node. */
  predicate StrayPast(h': Header, index: nat) {
    h'.offsetBytes > 0 && h'.children > 0 && index == h'.children && KeysAt(h') + h'.offsetBytes > h'.len
  }

  /** The table of the new node. Fails where the stray entry would lie past the node. */
  method StitchTable(c: Codec, n: Node, ghost lo: bytes, ghost hi: bytes, ghost items: seq<KV>, ghost pl: Plan,
                     index: nat, item: Option<KV>, replace: bool,
                     a: array<byte>, h': Header, ghost e: seq<KV>, ghost pl': Plan, shift: int) returns (ok: bool)
    requires c.Good() && Editing(c, n, lo, hi, items, pl, index, item, replace, h', e, pl')
    requires shift == SlotChange(c, n.h, items, index, item, replace) && Filled(pl', a[..], 0, 0, 0)
    modifies a
    ensures ok ==> Filled(pl', a[..], |e|, 0, 0)
    ensures ok <==> !StrayPast(h', index)
  {
    if h'.offsetBytes == 0 {
      NoTable(c, h', e, pl', a[..]);
      return true;
    }
    EditedSlices(items, index, item, replace);
    CopyEntries(c, n, lo, hi, items, pl, index, item, replace, a, h', e, pl');
    if h'.children == 0 {
      return true;
    }
    var off := NewOffset(c, n, lo, hi, items, pl, index);
    if index == h'.children {
      if KeysAt(h') + h'.offsetBytes > a.Length {
        return false;
      }
      StrayEntry(c, h', e, pl', a[..], Le(off, h'.offsetBytes));
      CopyInto(a, DataAt(h') + Times(index, h'.offsetBytes), Le(off, h'.offsetBytes));
    } else {
      OffBefore(c, n.h, items, index, item, replace, h', index);
      WriteEntry(c, a, h', e, pl', index, off, 0, 0);
      ShiftOffsets(c, n, lo, hi, items, pl, index, item, replace, a, h', e, pl', shift);
    }
    return true;
  }

  /** The offsets before the edit are copied. */
  method CopyEntries(c: Codec, n: Node, ghost lo: bytes, ghost hi: bytes, ghost items: seq<KV>, ghost pl: Plan,
                     index: nat, ghost item: Option<KV>, ghost replace: bool,
                     a: array<byte>, h': Header, ghost e: seq<KV>, ghost pl': Plan)
    requires Editing(c, n, lo, hi, items, pl, index, item, replace, h', e, pl') && Filled(pl', a[..], 0, 0, 0)
    modifies a
    ensures Filled(pl', a[..], index, 0, 0)
  {
    SameEntries(c, n.h, items, pl, index, item, replace, h', e, pl');
    EntryRow(c, n.h, items, pl);
    EntryRow(c, h', e, pl');
    CopyRow(pl, n.buf, DataAt(n.h), 0, pl', a, DataAt(h'), 0, 0, 0, 0, Entry, n.h.offsetBytes, index);
  }

  /** The fast path: fill a node of the same layout. */
  method StitchInPlace(c: Codec, n: Node, ghost lo: bytes, ghost hi: bytes, ghost items: seq<KV>, ghost pl: Plan,
                       index: nat, item: Option<KV>, replace: bool)
    returns (r: Result<Node>)
    requires c.Good() && c.EncodesAs(n, lo, hi, items, pl) && index + One(replace) <= |items|
             && (item.None? ==> replace)
    requires item.Some? ==> Admits(c, n.h, item.value)
    requires replace ==> ItemSize(c, n.h, items[index]) <= n.h.len
    ensures r.Ok? ==> r.value.h == StitchedHeader(c, n.h, items, index, item, replace)
    ensures r.Ok? ==> c.Encodes(r.value, lo, hi, Edited(items, index, item, replace))
    ensures r.Err? <==> StrayPast(StitchedHeader(c, n.h, items, index, item, replace), index)
  {
    var h', shift := NewHeader(c, n, lo, hi, items, pl, index, item, replace);
    ghost var e := Edited(items, index, item, replace);
    StitchedFits(c, n.h, items, index, item, replace);
    ghost var pl' := MakePlan(c, h', lo + hi, e);
    var a := new byte[h'.len](_ => 0);
    assert n.buf[..DataAt(n.h)] == lo + hi;
    CopyInto(a, 0, n.buf[..DataAt(n.h)]);
    NothingWritten(pl', seq(h'.len, _ => 0));
    r := StitchParts(c, n, lo, hi, items, pl, index, item, replace, a, h', e, pl', shift);
  }

  method NewHeader(c: Codec, n: Node, ghost lo: bytes, ghost hi: bytes, ghost items: seq<KV>, ghost pl: Plan,
                   index: nat, item: Option<KV>, replace: bool)
    returns (h': Header, shift: int)
    requires c.Good() && c.EncodesAs(n, lo, hi, items, pl) && index + One(replace) <= |items|
    requires replace ==> ItemSize(c, n.h, items[index]) <= n.h.len
    ensures h' == StitchedHeader(c, n.h, items, index, item, replace)
            && shift == SlotChange(c, n.h, items, index, item, replace)
  {
    var was := KV([], []);
    if replace {
      c.PlaceReads(n, lo, hi, items, pl, index);
      was := KV(c.IndexKey(n, index).value, c.IndexValue(n, index).value);
    }
    h' := n.h.(children := n.h.children - One(replace) + One(item.Some?),
               len := n.h.len - (if replace then ItemSize(c, n.h, was) else 0)
                   + if item.Some? then ItemSize(c, n.h, item.value) else 0);
    shift := (if item.Some? then c.SlotLen(n.h, item.value) else 0) - (if replace then c.SlotLen(n.h, was) else 0);
  }

  method StitchParts(c: Codec, n: Node, ghost lo: bytes, ghost hi: bytes, ghost items: seq<KV>, ghost pl: Plan,
                     index: nat, item: Option<KV>, replace: bool,
                     a: array<byte>, h': Header, ghost e: seq<KV>, ghost pl': Plan, shift: int)
                       returns (r: Result<Node>)
    requires c.Good() && Editing(c, n, lo, hi, items, pl, index, item, replace, h', e, pl') && pl'.bounds == lo + hi
    requires h'.loLen == n.h.loLen && h'.hiLen == n.h.hiLen
    requires shift == SlotChange(c, n.h, items, index, item, replace) && Filled(pl', a[..], 0, 0, 0)
    modifies a
    ensures r.Ok? ==> r.value.h == h' && c.Encodes(r.value, lo, hi, e)
    ensures r.Err? <==> StrayPast(h', index)
  {
    var ok := StitchTable(c, n, lo, hi, items, pl, index, item, replace, a, h', e, pl', shift);
    if !ok {
      return Err;
    }
    StitchKeys(c, n, lo, hi, items, pl, index, item, replace, a, h', e, pl');
    StitchValues(c, n, lo, hi, items, pl, index, item, replace, a, h', e, pl');
    r := Ok(Node(h', a[..]));
    assert c.EncodesAs(r.value, lo, hi, e, pl');
  }

  // ---------------------------------------------------------------------------------
  // stitch
  // ---------------------------------------------------------------------------------

  lemma {:induction false} PowGrows(i: nat, j: nat)
    requires i <= j
    ensures Pow256(i) <= Pow256(j)
    decreases j
  {
    if i < j {
      PowGrows(i, j - 1);
    }
  }

  /** What `stitch` compares with the offset widths before an insertion or replacement. */
  function GrownSize(c: Codec, h: Header, it: KV): nat {
    HEADER_SIZE + h.len + c.Size(|it.key|) + |it.key| + c.Size(|it.value|) + |it.value| + 6
  }

  predicate TakesSlowPath(c: Codec, h: Header, it: KV)
    requires GrownSize(c, h, it) < 0x1_0000_0000_0000
  {
    || BytesPerOffset(GrownSize(c, h, it)) > h.offsetBytes
    || (h.fixedKey.Some? && h.fixedKey.value != |it.key|)
    || (h.fixedValue.Some? && h.fixedValue.value != |it.value|)
  }

  lemma FastPathAdmits(c: Codec, h: Header, items: seq<KV>, it: KV)
    requires c.Fits(h, items) && |it.key| < U64_LIMIT && |it.value| < U64_LIMIT
    requires GrownSize(c, h, it) < 0x1_0000_0000_0000 && !TakesSlowPath(c, h, it)
    ensures Admits(c, h, it)
  {
    OffsetsFit(GrownSize(c, h, it));
    PowGrows(BytesPerOffset(GrownSize(c, h, it)), h.offsetBytes);
  }

  /** `iter`, collected. */
  method Items(c: Codec, n: Node, ghost lo: bytes, ghost hi: bytes, ghost items: seq<KV>, from: nat, to: nat)
    returns (r: seq<KV>)
    requires c.Good() && c.Encodes(n, lo, hi, items) && from <= to <= |items|
    ensures r == items[from..to]
  {
    r := [];
    for i := from to to
      invariant r == items[from..i]
    {
      c.ReadsBack(n, lo, hi, items, i);
      r := r + [KV(c.IndexKey(n, i).value, c.IndexValue(n, i).value)];
    }
  }

  /** The slow path: build the node anew from the edited items. */
  method Rebuild(c: Codec, n: Node, ghost lo: bytes, ghost hi: bytes, ghost items: seq<KV>, index: nat, it: KV,
                 replace: bool) returns (r: Node)
    requires c.Good() && c.Encodes(n, lo, hi, items) && index + One(replace) <= |items|
    requires Storable(c, Edited(items, index, Some(it), replace))
    ensures c.Encodes(r, lo, hi, Edited(items, index, Some(it), replace))
    ensures Chosen(c, r.h, Edited(items, index, Some(it), replace))
    ensures r.h.prefixLen == n.h.prefixLen && r.h.isIndex == n.h.isIndex && r.h.next == n.h.next
  {
    c.BoundsReadBack(n, lo, hi, items);
    var before := Items(c, n, lo, hi, items, 0, index);
    var after := Items(c, n, lo, hi, items, index + One(replace), n.h.children);
    assert items[..|items|] == items;
    r := New(c, c.Lo(n).value, c.Hi(n), n.h.prefixLen, n.h.isIndex, n.h.next, before + [it] + after);
  }

  /** `stitch`. Whichever path it takes, the result encodes the edited list; it fails
      exactly where removing the last item writes its table entry past the node. */
  method Stitch(c: Codec, n: Node, ghost lo: bytes, ghost hi: bytes, ghost items: seq<KV>, index: nat,
                item: Option<KV>, replace: bool)
    returns (r: Result<Node>)
    requires c.Good() && c.Encodes(n, lo, hi, items) && index + One(replace) <= |items| && (item.None? ==> replace)
    requires item.Some? ==> Storable(c, Edited(items, index, item, replace))
    requires item.Some? ==> GrownSize(c, n.h, item.value) < 0x1_0000_0000_0000
    ensures r.Ok? ==> c.Encodes(r.value, lo, hi, Edited(items, index, item, replace))
    ensures r.Ok? ==>
      r.value.h.prefixLen == n.h.prefixLen && r.value.h.isIndex == n.h.isIndex && r.value.h.next == n.h.next
    ensures r.Err? ==> item.None?
    ensures n.h.children == |items| && (replace ==> ItemSize(c, n.h, items[index]) <= n.h.len)
    ensures r.Ok? ==> if item.Some? && TakesSlowPath(c, n.h, item.value)
                      then Chosen(c, r.value.h, Edited(items, index, item, replace))
                      else r.value.h == StitchedHeader(c, n.h, items, index, item, replace)
    ensures item.None? ==> (r.Err? <==> StrayPast(StitchedHeader(c, n.h, items, index, item, replace), index))
  {
    ghost var pl :| c.EncodesAs(n, lo, hi, items, pl);
    if replace { RemovedFitsIn(c, n.h, items, index); }
    if item.Some? && TakesSlowPath(c, n.h, item.value) {
      var node := Rebuild(c, n, lo, hi, items, index, item.value, replace);
      return Ok(node);
    }
    if item.Some? {
      EditedSlices(items, index, item, replace);
      FastPathAdmits(c, n.h, items, item.value);
    }
    r := StitchInPlace(c, n, lo, hi, items, pl, index, item, replace);
  }

  /** With one- or two-byte offsets a removal never fails. */
  lemma NarrowNeverStrays(c: Codec, h: Header, items: seq<KV>, index: nat)
    requires c.NonEmpty() && c.Fits(h, items) && index < |items| && h.offsetBytes <= 2
             && ItemSize(c, h, items[index]) <= h.len
    ensures !StrayPast(StitchedHeader(c, h, items, index, None, true), index)
  {
    var h' := StitchedHeader(c, h, items, index, None, true);
    var e := Edited(items, index, None, true);
    StitchedFits(c, h, items, index, None, true);
    if h'.children > 0 {
      assert ItemFits(h', e[0]);
      OffGap(c, h', e, 0, |e|);
      TimesGap(0, h'.children, if h'.fixedKey.Some? then h'.fixedKey.value else 0);
      TimesGap(0, h'.children, if h'.fixedValue.Some? then h'.fixedValue.value else 0);
    }
  }

  /** Two keys and one value of 70000 bytes: `Node::new` gives them three-byte offsets. */
  function WideItems(big: bytes): seq<KV> {
    [KV([], []), KV([0], big)]
  }

  lemma WideSizes(big: bytes)
    requires |big| == 70000
    ensures var ks, vs := KeysOf(WideItems(big)), ValuesOf(WideItems(big));
      && (forall fk {:trigger HaveLength(ks, fk)} :: HaveLength(ks, fk) ==> fk == None)
      && (forall fv {:trigger HaveLength(vs, fv)} :: HaveLength(vs, fv) ==> fv == None)
      && Stored(VARINT, None, ks, 2) == 3 && Stored(VARINT, None, vs, 2) == 70005
  {
    var ks, vs := KeysOf(WideItems(big)), ValuesOf(WideItems(big));
    assert |ks[0]| == 0 && |ks[1]| == 1 && |vs[0]| == 0 && |vs[1]| == 70000;
    assert StoredLen(VARINT, None, ks[0]) == 1 && StoredLen(VARINT, None, ks[1]) == 2;
    assert StoredLen(VARINT, None, vs[0]) == 1 && StoredLen(VARINT, None, vs[1]) == 70004;
    StoredPair(VARINT, None, ks);
    StoredPair(VARINT, None, vs);
  }

  /** With wider offsets it can fail. */
  lemma WideCanStray(h: Header, big: bytes)
    requires |big| == 70000 && Chosen(VARINT, h, WideItems(big)) && h.loLen == 0 && h.hiLen == 0
    ensures h.offsetBytes == 3 && ItemSize(VARINT, h, WideItems(big)[1]) <= h.len
    ensures StrayPast(StitchedHeader(VARINT, h, WideItems(big), 1, None, true), 1)
  {
    WideSizes(big);
    assert h.offsetBytes == 3;
    assert Times(1, 3) == 3 && Times(2, 3) == 6;
    assert ItemSize(VARINT, h, WideItems(big)[1]) == 70009 && h.len == 70014;
  }

  /** The leaf that holds these items, and the failing removal of its last item. */
  method RemoveBig() returns (n: Node, r: Result<Node>)
    ensures r.Err?
  {
    var big: bytes := seq(70000, _ => 0);
    VarintIsGood();
    WideSizes(big);
    n := New(VARINT, [], None, 0, false, None, WideItems(big));
    WideCanStray(n.h, big);
    r := Stitch(VARINT, n, [], [], WideItems(big), 1, None, true);
  }
}
