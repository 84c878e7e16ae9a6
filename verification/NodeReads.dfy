/** Reading the offset table with whole machine words. The source reads eight bytes at a table
    entry, however wide the entries are, and masks the rest away. */
module NodeReads {
  import opened Base
  import opened Varint
  import opened Places
  import opened NodeLayout
  import opened NodeBuild
  import opened NodeStitch

  const WORD: nat := 8

  /** `offset`; None where it would read past the node. */
  function RawOffset(h: Header, b: bytes, i: nat): Option<nat> {
    match Slice(b, DataAt(h) + Times(i, h.offsetBytes), WORD)
    case None => None
    case Some(e) => Some(FromLe(e) % Pow256(h.offsetBytes))
  }

  lemma {:induction false} LowBytes(b: bytes, k: nat)
    requires k <= |b|
    ensures FromLe(b) % Pow256(k) == FromLe(b[..k])
  {
    if k > 0 {
      LowBytes(b[1..], k - 1);
      assert b[..k][1..] == b[1..][..k - 1];
      LowDigit(b[0], FromLe(b[1..]), Pow256(k - 1));
    }
  }

  lemma LowDigit(d: nat, x: nat, p: nat)
    requires p > 0 && d < 256
    ensures (d + 256 * x) % (256 * p) == d + 256 * (x % p)
  {
    var q, low := x / p, x % p;
    assert x == q * p + low;
    assert d + 256 * x == q * (256 * p) + (d + 256 * low);
    DivModUnique(256 * p, q, d + 256 * low);
  }

  /** Wherever the word lies inside the node, masking it gives the table entry. */
  lemma RawIsOffset(c: Codec, h: Header, b: bytes, i: nat)
    requires h.offsetBytes <= WORD && DataAt(h) + Times(i, h.offsetBytes) + WORD <= |b|
    ensures RawOffset(h, b, i) == c.Offset(h, b, i) && RawOffset(h, b, i).Some?
  {
    var at := DataAt(h) + Times(i, h.offsetBytes);
    LowBytes(b[at..at + WORD], h.offsetBytes);
    assert b[at..at + WORD][..h.offsetBytes] == b[at..at + h.offsetBytes];
  }

  /** Every entry of the table can be read as a word. */
  ghost predicate ReadsInside(h: Header) {
    h.offsetBytes > 0 ==>
      forall i {:trigger Times(i, h.offsetBytes)} :: 0 <= i < h.children ==>
          DataAt(h) + Times(i, h.offsetBytes) + WORD <= h.len
  }

  /** How many bytes lie behind the table. */
  function Behind(h: Header): int {
    h.len - KeysAt(h)
  }

  /** It is the last entry that decides. */
  lemma LastEntryDecides(h: Header)
    requires h.offsetBytes > 0 && h.children > 0
    ensures ReadsInside(h) <==> WORD <= Behind(h) + h.offsetBytes
  {
    var last := h.children - 1;
    assert Times(h.children, h.offsetBytes) == Times(last, h.offsetBytes) + h.offsetBytes;
    forall i: nat | i < h.children ensures Times(i, h.offsetBytes) <= Times(last, h.offsetBytes) {
      if i < last { TimesGap(i, last, h.offsetBytes); }
    }
  }

  /** `Node::new` keeps eight bytes for the values, so all reads stay inside. */
  lemma NewReadsInside(c: Codec, h: Header, items: seq<KV>)
    requires Chosen(c, h, items)
    ensures ReadsInside(h)
  {
    if h.offsetBytes > 0 && h.children > 0 {
      LastEntryDecides(h);
    }
  }

  /** The bytes of an item behind the table. */
  function ItemData(c: Codec, h: Header, it: KV): nat {
    StoredLen(c, h.fixedKey, it.key) + StoredLen(c, h.fixedValue, it.value)
  }

  /** When an edit leaves enough bytes behind the table; a rebuilt node always has them. */
  ghost predicate LeavesEnough(c: Codec, h: Header, items: seq<KV>, index: nat, item: Option<KV>, replace: bool)
    requires index + One(replace) <= |items| && (item.Some? ==> GrownSize(c, h, item.value) < 0x1_0000_0000_0000)
  {
    || (item.Some? && TakesSlowPath(c, h, item.value))
    || h.offsetBytes == 0 || (item.None? && |items| == 1)
    || (if replace then ItemData(c, h, items[index]) else 0) + WORD <=
         Behind(h) + h.offsetBytes + (if item.Some? then ItemData(c, h, item.value) else 0)
  }

  lemma StitchedBehind(c: Codec, h: Header, items: seq<KV>, index: nat, item: Option<KV>, replace: bool)
    requires index + One(replace) <= |items| == h.children && (replace ==> ItemSize(c, h, items[index]) <= h.len)
    ensures var h' := StitchedHeader(c, h, items, index, item, replace);
      Behind(h') == Behind(h) - (if replace then ItemData(c, h, items[index]) else 0)
                    + if item.Some? then ItemData(c, h, item.value) else 0
  {
    var n := h.children;
    assert Times(n + 1, h.offsetBytes) == Times(n, h.offsetBytes) + h.offsetBytes;
    assert n > 0 ==> Times(n, h.offsetBytes) == Times(n - 1, h.offsetBytes) + h.offsetBytes;
  }

  /** `stitch` leaves a node whose table can be read inside it if and only if the item that goes
      leaves enough bytes behind the table. */
  lemma StitchReadsInside(c: Codec, h: Header, items: seq<KV>, index: nat, item: Option<KV>, replace: bool, h': Header)
    requires index + One(replace) <= |items| == h.children && (replace ==> ItemSize(c, h, items[index]) <= h.len)
    requires (item.None? ==> replace) && (item.Some? ==> GrownSize(c, h, item.value) < 0x1_0000_0000_0000)
    requires if item.Some? && TakesSlowPath(c, h, item.value) then Chosen(c, h', Edited(items, index, item, replace))
             else h' == StitchedHeader(c, h, items, index, item, replace)
    ensures ReadsInside(h') <==> LeavesEnough(c, h, items, index, item, replace)
  {
    if item.Some? && TakesSlowPath(c, h, item.value) {
      NewReadsInside(c, h', Edited(items, index, item, replace));
    } else if h'.offsetBytes > 0 && h'.children > 0 {
      StitchedBehind(c, h, items, index, item, replace);
      LastEntryDecides(h');
    }
  }

  /** An insertion into a node that has items takes nothing away. */
  lemma InsertReadsInside(c: Codec, h: Header, items: seq<KV>, index: nat, it: KV)
    requires index <= |items| == h.children && 0 < |items| && GrownSize(c, h, it) < 0x1_0000_0000_0000 && ReadsInside(h)
    ensures LeavesEnough(c, h, items, index, Some(it), false)
  {
    if h.offsetBytes > 0 { LastEntryDecides(h); }
  }

  // ---------------------------------------------------------------------------------
  // A removal after which the table is read past the node
  // ---------------------------------------------------------------------------------

  /** Two keys and one value of 300 bytes: `Node::new` gives them two-byte offsets. */
  function ShortItems(v: bytes): seq<KV> {
    [KV([], []), KV([0], v)]
  }

  lemma ShortSizes(v: bytes)
    requires |v| == 300
    ensures var ks, vs := KeysOf(ShortItems(v)), ValuesOf(ShortItems(v));
      && (forall fk {:trigger HaveLength(ks, fk)} :: HaveLength(ks, fk) ==> fk == None)
      && (forall fv {:trigger HaveLength(vs, fv)} :: HaveLength(vs, fv) ==> fv == None)
      && Stored(VARINT, None, ks, 2) == 3 && Stored(VARINT, None, vs, 2) == 303
  {
    var ks, vs := KeysOf(ShortItems(v)), ValuesOf(ShortItems(v));
    assert |ks[0]| == 0 && |ks[1]| == 1 && |vs[0]| == 0 && |vs[1]| == 300;
    assert StoredLen(VARINT, None, ks[0]) == 1 && StoredLen(VARINT, None, ks[1]) == 2;
    assert StoredLen(VARINT, None, vs[0]) == 1 && StoredLen(VARINT, None, vs[1]) == 302;
    StoredPair(VARINT, None, ks);
    StoredPair(VARINT, None, vs);
  }

  lemma ShortIsLeft(h: Header, v: bytes)
    requires |v| == 300 && Chosen(VARINT, h, ShortItems(v)) && h.loLen == 0 && h.hiLen == 0
    ensures h.offsetBytes == 2 && h.len == 310 && ItemSize(VARINT, h, ShortItems(v)[1]) == 306
    ensures !LeavesEnough(VARINT, h, ShortItems(v), 1, None, true)
  {
    ShortSizes(v);
    assert h.offsetBytes == 2;
    assert Times(1, 2) == 2 && Times(2, 2) == 4;
    assert ItemData(VARINT, h, ShortItems(v)[1]) == 304;
  }

  lemma EncodedFits(c: Codec, n: Node, lo: bytes, hi: bytes, items: seq<KV>)
    requires c.Encodes(n, lo, hi, items)
    ensures c.Fits(n.h, items) && |n.buf| == n.h.len
  {
  }

  lemma ShortNeverStrays(h: Header, v: bytes)
    requires |v| == 300 && Chosen(VARINT, h, ShortItems(v)) && h.loLen == 0 && h.hiLen == 0
    requires VARINT.NonEmpty() && VARINT.Fits(h, ShortItems(v))
    ensures ItemSize(VARINT, h, ShortItems(v)[1]) <= h.len
    ensures !StrayPast(StitchedHeader(VARINT, h, ShortItems(v), 1, None, true), 1)
  {
    ShortIsLeft(h, v);
    NarrowNeverStrays(VARINT, h, ShortItems(v), 1);
  }

  lemma ShortIsReadPast(h: Header, v: bytes, h': Header, b: bytes)
    requires |v| == 300 && Chosen(VARINT, h, ShortItems(v)) && h.loLen == 0 && h.hiLen == 0
    requires ItemSize(VARINT, h, ShortItems(v)[1]) <= h.len
    requires h' == StitchedHeader(VARINT, h, ShortItems(v), 1, None, true) && |b| == h'.len
    ensures !ReadsInside(h') && RawOffset(h', b, 0) == None
  {
    ShortIsLeft(h, v);
    StitchReadsInside(VARINT, h, ShortItems(v), 1, None, true, h');
  }

  /** The leaf that holds these items is fine. Removing the second one succeeds, and leaves a node
      of four bytes whose one table entry is read past its end. */
  method RemoveShort() returns (n: Node, r: Result<Node>)
    ensures ReadsInside(n.h) && r.Ok? && !ReadsInside(r.value.h) && RawOffset(r.value.h, r.value.buf, 0) == None
  {
    var v: bytes := seq(300, _ => 0);
    var items := ShortItems(v);
    VarintIsGood();
    ShortSizes(v);
    n := New(VARINT, [], None, 0, false, None, items);
    NewReadsInside(VARINT, n.h, items);
    EncodedFits(VARINT, n, [], [], items);
    ShortNeverStrays(n.h, v);
    r := Stitch(VARINT, n, [], [], items, 1, None, true);
    EncodedFits(VARINT, r.value, [], [], Edited(items, 1, None, true));
    ShortIsReadPast(n.h, v, r.value.h, r.value.buf);
  }
}
