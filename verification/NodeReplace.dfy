/** `Node::replace`: a value of the same length is written over the old one, any other is
    stitched in. */
module NodeReplace {
  import opened Base
  import opened Varint
  import opened Places
  import opened NodeLayout
  import opened NodeBuild
  import opened NodeStitch

  /** Value i stands in the same place, with other bytes. */
  function Revalued(pl: Plan, i: nat, data: bytes): Plan
    requires i < |pl.values|
  {
    pl.(values := pl.values[i := Spot(pl.values[i].at, data)])
  }

  lemma RevaluedSpot(pl: Plan, i: nat, data: bytes, p: Part, j: nat)
    requires i < |pl.values| && |data| == |pl.values[i].data| && j < |Spots(pl, p)|
    ensures j < |Spots(Revalued(pl, i, data), p)|
    ensures var s, s' := Spots(pl, p)[j], Spots(Revalued(pl, i, data), p)[j];
      s'.at == s.at && |s'.data| == |s.data| && (p != Value || j != i ==> s' == s)
  {
  }

  lemma RevaluedIsSound(pl: Plan, i: nat, data: bytes)
    requires Sound(pl) && i < |pl.values| && |data| == |pl.values[i].data|
    ensures Sound(Revalued(pl, i, data))
  {
    var pl' := Revalued(pl, i, data);
    forall p, j | 0 <= j < |Spots(pl', p)| ensures Inside(pl', Spots(pl', p)[j]) {
      RevaluedSpot(pl, i, data, p, j);
      assert Inside(pl, Spots(pl, p)[j]);
    }
    forall p, j, q, k | 0 <= j < |Spots(pl', p)| && 0 <= k < |Spots(pl', q)| && (p != q || j != k)
      ensures Apart(Spots(pl', p)[j], Spots(pl', q)[k])
    {
      RevaluedSpot(pl, i, data, p, j);
      RevaluedSpot(pl, i, data, q, k);
      assert Apart(Spots(pl, p)[j], Spots(pl, q)[k]);
    }
  }

  /** Writing over value i leaves everything else as it was. */
  lemma RevaluedIsFull(pl: Plan, b: bytes, i: nat, data: bytes)
    requires Sound(pl) && Full(pl, b) && i < |pl.values| && |data| == |pl.values[i].data|
    ensures 0 <= pl.values[i].at && pl.values[i].at + |data| <= |b|
    ensures Full(Revalued(pl, i, data), Splice(b, pl.values[i].at, data))
  {
    var s, pl' := Spots(pl, Value)[i], Revalued(pl, i, data);
    assert Inside(pl, s);
    var b' := Splice(b, s.at, data);
    SpliceSets(b, s.at, data);
    SpliceKeeps(b, s.at, data, 0, pl.bounds);
    forall q, j | 0 <= j < Count(q, |pl'.entries|, |pl'.keys|, |pl'.values|) && j < |Spots(pl', q)|
      ensures In(b', Spots(pl', q)[j])
    {
      if q != Value || j != i {
        RevaluedSpot(pl, i, data, q, j);
        assert In(b, Spots(pl, q)[j]);
        assert Apart(s, Spots(pl, q)[j]);
        SpliceKeeps(b, s.at, data, Spots(pl, q)[j].at, Spots(pl, q)[j].data);
      }
    }
  }

  function WithValue(items: seq<KV>, i: nat, value: bytes): seq<KV>
    requires i < |items|
  {
    items[i := KV(items[i].key, value)]
  }

  lemma SameOffsets(c: Codec, h: Header, items: seq<KV>, i: nat, value: bytes, j: nat)
    requires i < |items| && |value| == |items[i].value| && j <= |items|
    ensures c.Off(h, WithValue(items, i, value), j) == c.Off(h, items, j)
  {
    assert c.Lens(h, WithValue(items, i, value)) == c.Lens(h, items);
  }

  lemma RevaluedFits(c: Codec, h: Header, items: seq<KV>, i: nat, value: bytes)
    requires c.Fits(h, items) && i < |items| && |value| == |items[i].value|
    ensures c.Fits(h, WithValue(items, i, value))
  {
    var e := WithValue(items, i, value);
    SameOffsets(c, h, items, i, value, |items|);
    forall j | 0 <= j < |e| ensures ItemFits(h, e[j]) { assert ItemFits(h, items[j]); }
    forall j | 0 <= j < |e| ensures c.OffFits(h, e, j) {
      assert c.OffFits(h, items, j);
      SameOffsets(c, h, items, i, value, j);
    }
  }

  function ValueData(c: Codec, h: Header, value: bytes): bytes {
    if h.fixedValue.Some? then value else c.Prefixed(value)
  }

  lemma RevaluedIsPlanned(c: Codec, h: Header, items: seq<KV>, pl: Plan, i: nat, value: bytes)
    requires c.Planned(h, items, pl) && i < |items| && |value| == |items[i].value|
    ensures |pl.values[i].data| == |ValueData(c, h, value)|
    ensures c.Planned(h, WithValue(items, i, value), Revalued(pl, i, ValueData(c, h, value)))
  {
    var e, data := WithValue(items, i, value), ValueData(c, h, value);
    assert c.SpotsAre(h, items, pl, i);
    RevaluedFits(c, h, items, i, value);
    RevaluedIsSound(pl, i, data);
    forall j | 0 <= j < |e| ensures c.SpotsAre(h, e, Revalued(pl, i, data), j) {
      assert c.SpotsAre(h, items, pl, j);
      SameOffsets(c, h, items, i, value, j);
    }
  }

  /** Behind an unchanged length, only the payload has to be written. */
  lemma PayloadIsEnough(b: bytes, at: nat, len: bytes, was: bytes, t: bytes)
    requires Region(b, at, len + was) && |t| == |was|
    ensures at + |len| + |t| <= |b| && Splice(b, at + |len|, t) == Splice(b, at, len + t)
  {
    assert b[at..at + |len|] == (len + was)[..|len|] == len;
    assert b[..at + |len|] == b[..at] + len;
  }

  /** Where the value's payload stands. */
  lemma PayloadPlace(c: Codec, n: Node, lo: bytes, hi: bytes, items: seq<KV>, pl: Plan, i: nat, value: bytes, at: nat)
    requires c.Good() && c.EncodesAs(n, lo, hi, items, pl) && i < |items| && |value| == |items[i].value|
    requires at == pl.values[i].at + if n.h.fixedValue.Some? then 0 else c.Size(|value|)
    ensures at + |value| <= |n.buf| && |pl.values[i].data| == |ValueData(c, n.h, value)|
    ensures 0 <= pl.values[i].at && pl.values[i].at + |ValueData(c, n.h, value)| <= |n.buf|
    ensures Splice(n.buf, at, value) == Splice(n.buf, pl.values[i].at, ValueData(c, n.h, value))
  {
    assert c.SpotsAre(n.h, items, pl, i);
    assert In(n.buf, Spots(pl, Value)[i]);
    if n.h.fixedValue.None? {
      PayloadIsEnough(n.buf, pl.values[i].at, c.encode(|value|), items[i].value, value);
    }
  }

  lemma ValueIsAt(c: Codec, n: Node, lo: bytes, hi: bytes, items: seq<KV>, pl: Plan, i: nat)
    requires c.Good() && c.EncodesAs(n, lo, hi, items, pl) && i < |items|
    ensures pl.values[i].at == if n.h.fixedValue.Some? then ValuesAt(n.h) + Times(i, n.h.fixedValue.value)
                               else SlotsAt(n.h) + c.Off(n.h, items, i) + c.PartLen(n.h.fixedKey, items[i].key)
  {
    assert c.SpotsAre(n.h, items, pl, i);
  }

  lemma ValueSlotReads(c: Codec, n: Node, lo: bytes, hi: bytes, items: seq<KV>, pl: Plan, i: nat)
    requires c.Good() && c.EncodesAs(n, lo, hi, items, pl) && i < |items|
    ensures c.ValueSlotAt(n.h, n.buf, i) ==
            Some(SlotsAt(n.h) + c.Off(n.h, items, i) + c.PartLen(n.h.fixedKey, items[i].key))
  {
    var off := c.Off(n.h, items, i);
    assert c.SpotsAre(n.h, items, pl, i) && c.OffFits(n.h, items, i) && ItemFits(n.h, items[i]);
    assert In(n.buf, Spots(pl, Entry)[i]) && In(n.buf, Spots(pl, Key)[i]);
    SlotIsBehindKey(c, n, i, off, items[i].key);
  }

  lemma SlotIsBehindKey(c: Codec, n: Node, i: nat, off: nat, key: bytes)
    requires c.Good() && off < Pow256(n.h.offsetBytes) && Sized(n.h.fixedKey, key)
    requires In(n.buf, c.EntrySpot(n.h, off, i)) && In(n.buf, c.KeySpot(n.h, off, key, i))
    ensures c.ValueSlotAt(n.h, n.buf, i) == Some(SlotsAt(n.h) + off + c.PartLen(n.h.fixedKey, key))
  {
    c.OffsetReads(n.h, n.buf, i, off);
    c.KeyReads(n, i, off, key);
  }

  lemma RevaluedEncodes(c: Codec, n: Node, lo: bytes, hi: bytes, items: seq<KV>, pl: Plan, i: nat, value: bytes,
                        at: nat)
    requires c.Good() && c.EncodesAs(n, lo, hi, items, pl) && i < |items| && |value| == |items[i].value|
    requires at == pl.values[i].at + if n.h.fixedValue.Some? then 0 else c.Size(|value|)
    ensures at + |value| <= |n.buf|
    ensures c.Encodes(Node(n.h, Splice(n.buf, at, value)), lo, hi, WithValue(items, i, value))
  {
    var data := ValueData(c, n.h, value);
    PayloadPlace(c, n, lo, hi, items, pl, i, value, at);
    RevaluedIsPlanned(c, n.h, items, pl, i, value);
    RevaluedIsFull(pl, n.buf, i, data);
    assert c.EncodesAs(Node(n.h, Splice(n.buf, at, value)), lo, hi, WithValue(items, i, value), Revalued(pl, i, data));
  }

  /** The short cut. */
  method ReplaceInPlace(c: Codec, n: Node, ghost lo: bytes, ghost hi: bytes, ghost items: seq<KV>, index: nat,
                        value: bytes) returns (r: Node)
    requires c.Good() && c.Encodes(n, lo, hi, items) && index < |items| && |value| == |items[index].value|
    ensures r.h == n.h && c.Encodes(r, lo, hi, WithValue(items, index, value))
  {
    ghost var pl :| c.EncodesAs(n, lo, hi, items, pl);
    ValueIsAt(c, n, lo, hi, items, pl, index);
    ValueSlotReads(c, n, lo, hi, items, pl, index);
    var at := if n.h.fixedValue.Some? then ValuesAt(n.h) + Times(index, n.h.fixedValue.value)
              else c.ValueSlotAt(n.h, n.buf, index).value + c.Size(|value|);
    RevaluedEncodes(c, n, lo, hi, items, pl, index, value, at);
    var a := new byte[|n.buf|](i requires 0 <= i < |n.buf| => n.buf[i]);
    assert a[..] == n.buf;
    CopyInto(a, at, value);
    r := Node(n.h, a[..]);
  }

  lemma EditedIsWithValue(items: seq<KV>, i: nat, value: bytes)
    requires i < |items|
    ensures Edited(items, i, Some(KV(items[i].key, value)), true) == WithValue(items, i, value)
  {
  }

  /** `replace`: whichever way it takes, the node holds the new value and is otherwise the same. */
  method Replace(c: Codec, n: Node, ghost lo: bytes, ghost hi: bytes, ghost items: seq<KV>, index: nat, value: bytes)
    returns (r: Node)
    requires c.Good() && c.Encodes(n, lo, hi, items) && index < |items|
    requires |value| != |items[index].value| ==>
      Storable(c, WithValue(items, index, value)) && GrownSize(c, n.h, KV(items[index].key, value)) < 0x1_0000_0000_0000
    ensures c.Encodes(r, lo, hi, WithValue(items, index, value))
    ensures r.h.prefixLen == n.h.prefixLen && r.h.isIndex == n.h.isIndex && r.h.next == n.h.next
  {
    c.ReadsBack(n, lo, hi, items, index);
    if |c.IndexValue(n, index).value| == |value| {
      r := ReplaceInPlace(c, n, lo, hi, items, index, value);
      return;
    }
    var item := KV(c.IndexKey(n, index).value, value);
    EditedIsWithValue(items, index, value);
    var s := Stitch(c, n, lo, hi, items, index, Some(item), true);
    r := s.value;
  }
}
