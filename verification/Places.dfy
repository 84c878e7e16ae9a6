/** Filling a byte buffer whose parts have fixed, disjoint places. */
module Places {
  import opened Base

  // ---------------------------------------------------------------------------------
  // Arithmetic
  // ---------------------------------------------------------------------------------

  /** i * k, by addition. */
  function Times(i: nat, k: nat): nat {
    if i == 0 then 0 else Times(i - 1, k) + k
  }

  lemma {:induction false} TimesIsProduct(i: nat, k: nat)
    ensures Times(i, k) == i * k
  {
    if i > 0 {
      TimesIsProduct(i - 1, k);
    }
  }

  lemma {:induction false} TimesGap(i: nat, j: nat, k: nat)
    requires i < j
    ensures Times(i, k) + k <= Times(j, k)
    decreases j
  {
    if i + 1 < j {
      TimesGap(i, j - 1, k);
    }
  }

  lemma {:induction false} TimesAdd(i: nat, j: nat, k: nat)
    ensures Times(i + j, k) == Times(i, k) + Times(j, k)
  {
    if j > 0 {
      TimesAdd(i, j - 1, k);
    }
  }

  lemma {:induction false} TimesZero(i: nat)
    ensures Times(i, 0) == 0
  {
    if i > 0 {
      TimesZero(i - 1);
    }
  }

  /** The sum of the first i lengths. */
  function Sum(lens: seq<nat>, i: nat): nat
    requires i <= |lens|
  {
    if i == 0 then 0 else Sum(lens, i - 1) + lens[i - 1]
  }

  lemma {:induction false} SumGap(lens: seq<nat>, i: nat, j: nat)
    requires i < j <= |lens|
    ensures Sum(lens, i) + lens[i] <= Sum(lens, j)
    decreases j
  {
    if i + 1 < j {
      SumGap(lens, i, j - 1);
    }
  }

  /** Equal lengths further on add up equally. */
  lemma {:induction false} SumOnward(lens: seq<nat>, from: nat, lens': seq<nat>, to: nat, m: nat)
    requires from + m <= |lens| && to + m <= |lens'| && lens'[to..to + m] == lens[from..from + m]
    ensures Sum(lens', to + m) - Sum(lens', to) == Sum(lens, from + m) - Sum(lens, from)
  {
    if m > 0 {
      assert lens'[to..to + (m - 1)] == lens'[to..to + m][..m - 1]
             && lens[from..from + (m - 1)] == lens[from..from + m][..m - 1];
      SumOnward(lens, from, lens', to, m - 1);
      assert lens'[to..to + m][m - 1] == lens[from..from + m][m - 1];
    }
  }

  // ---------------------------------------------------------------------------------
  // Bytes
  // ---------------------------------------------------------------------------------

  /** b holds t at position `at`. */
  ghost predicate Region(b: bytes, at: int, t: bytes) {
    0 <= at && at + |t| <= |b| && b[at..at + |t|] == t
  }

  function Splice(b: bytes, at: nat, t: bytes): (r: bytes)
    requires at + |t| <= |b|
    ensures |r| == |b|
  {
    b[..at] + t + b[at + |t|..]
  }

  lemma SpliceSets(b: bytes, at: nat, t: bytes)
    requires at + |t| <= |b|
    ensures Region(Splice(b, at, t), at, t)
  {
  }

  lemma SameSlice(b: bytes, c: bytes, i: nat, j: nat)
    requires i <= j <= |b| && j <= |c| && forall k :: i <= k < j ==> c[k] == b[k]
    ensures c[i..j] == b[i..j]
  {
  }

  lemma SpliceKeeps(b: bytes, at: nat, t: bytes, p: int, u: bytes)
    requires at + |t| <= |b| && Region(b, p, u) && (p + |u| <= at || at + |t| <= p)
    ensures Region(Splice(b, at, t), p, u)
  {
    var r := Splice(b, at, t);
    assert forall i :: p <= i < p + |u| ==> r[i] == b[i];
    SameSlice(b, r, p, p + |u|);
  }

  lemma SpliceTwice(b: bytes, at: nat, s: bytes, t: bytes)
    requires at + |s| + |t| <= |b|
    ensures Splice(Splice(b, at, s), at + |s|, t) == Splice(b, at, s + t)
  {
  }

  lemma SliceOfSlice(b: bytes, p: nat, q: nat, i: nat, j: nat)
    requires p <= q <= |b| && i <= j <= q - p
    ensures b[p..q][i..j] == b[p + i..p + j]
  {
    var u, v := b[p..q][i..j], b[p + i..p + j];
    forall k | 0 <= k < |u| ensures u[k] == v[k] {
      assert b[p..q][i + k] == b[p + i + k];
    }
  }

  lemma RegionPart(b: bytes, at: int, t: bytes, i: nat, j: nat)
    requires Region(b, at, t) && i <= j <= |t|
    ensures Region(b, at + i, t[i..j])
  {
    SliceOfSlice(b, at, at + |t|, i, j);
  }

  lemma RegionOfSlice(b: bytes, p: nat, q: nat, i: nat, t: bytes)
    requires p <= q <= |b| && i + |t| <= q - p && Region(b, p + i, t)
    ensures Region(b[p..q], i, t)
  {
    SliceOfSlice(b, p, q, i, i + |t|);
  }

  /** `copy_from_slice`. */
  method CopyInto(a: array<byte>, at: nat, t: bytes)
    requires at + |t| <= a.Length
    modifies a
    ensures a[..] == Splice(old(a[..]), at, t)
  {
    ghost var was := a[..];
    for i := 0 to |t|
      invariant a[..] == Splice(was, at, t[..i])
    {
      assert Splice(was, at, t[..i + 1]) == Splice(was, at, t[..i])[at + i := t[i]];
      a[at + i] := t[i];
    }
    assert t[..|t|] == t;
  }

  function Slice(b: bytes, at: int, len: nat): Option<bytes> {
    if 0 <= at && at + len <= |b| then Some(b[at..at + len]) else None
  }

  // ---------------------------------------------------------------------------------
  // Plans
  // ---------------------------------------------------------------------------------

  /** The three parts that an item has in a node: its table entry, its key, its value. */
  datatype Part = Entry | Key | Value

  /** What shall stand where. */
  datatype Spot = Spot(at: int, data: bytes)

  /** The places of all parts of all items, behind the node's bounds. */
  datatype Plan = Plan(len: nat, bounds: bytes, entries: seq<Spot>, keys: seq<Spot>, values: seq<Spot>)

  function Spots(pl: Plan, p: Part): seq<Spot> {
    match p
    case Entry => pl.entries
    case Key => pl.keys
    case Value => pl.values
  }

  function Count(p: Part, t: nat, k: nat, v: nat): nat {
    match p
    case Entry => t
    case Key => k
    case Value => v
  }

  ghost predicate Apart(a: Spot, b: Spot) {
    a.at + |a.data| <= b.at || b.at + |b.data| <= a.at
  }

  ghost predicate Inside(pl: Plan, s: Spot) {
    |pl.bounds| <= s.at && s.at + |s.data| <= pl.len
  }

  /** All places lie behind the bounds, and no two overlap. */
  ghost predicate Sound(pl: Plan) {
    && |pl.keys| == |pl.entries| && |pl.values| == |pl.entries| && |pl.bounds| <= pl.len
    && (forall p, i {:trigger Inside(pl, Spots(pl, p)[i])} :: 0 <= i < |Spots(pl, p)| ==> Inside(pl, Spots(pl, p)[i]))
    && (forall p, i, q, j {:trigger Apart(Spots(pl, p)[i], Spots(pl, q)[j])} ::
          0 <= i < |Spots(pl, p)| && 0 <= j < |Spots(pl, q)| && (p != q || i != j) ==>
              Apart(Spots(pl, p)[i], Spots(pl, q)[j]))
  }

  ghost predicate In(b: bytes, s: Spot) {
    Region(b, s.at, s.data)
  }

  /** The bounds and the first t entries, k keys and v values are written. */
  ghost predicate Filled(pl: Plan, b: bytes, t: nat, k: nat, v: nat) {
    && |b| == pl.len && Region(b, 0, pl.bounds)
    && t <= |pl.entries| && k <= |pl.keys| && v <= |pl.values|
    && (forall p, i {:trigger In(b, Spots(pl, p)[i])} :: 0 <= i < Count(p, t, k, v) && i < |Spots(pl, p)| ==>
          In(b, Spots(pl, p)[i]))
  }

  ghost predicate Full(pl: Plan, b: bytes) {
    Filled(pl, b, |pl.entries|, |pl.keys|, |pl.values|)
  }

  lemma NothingWritten(pl: Plan, b: bytes)
    requires |pl.bounds| <= pl.len == |b|
    ensures Filled(pl, Splice(b, 0, pl.bounds), 0, 0, 0)
  {
    SpliceSets(b, 0, pl.bounds);
  }

  function Bump(p: Part, q: Part, n: nat, m: nat): nat {
    if p == q then n + m else n
  }

  /** Writing the next part of kind p keeps everything written so far. */
  lemma WriteNext(pl: Plan, b: bytes, t: nat, k: nat, v: nat, p: Part)
    requires Sound(pl) && Filled(pl, b, t, k, v) && Count(p, t, k, v) < |Spots(pl, p)|
    ensures var s := Spots(pl, p)[Count(p, t, k, v)];
            && 0 <= s.at && s.at + |s.data| <= |b|
            && Filled(pl, Splice(b, s.at, s.data), Bump(p, Entry, t, 1), Bump(p, Key, k, 1), Bump(p, Value, v, 1))
  {
    var i := Count(p, t, k, v);
    var s := Spots(pl, p)[i];
    assert Inside(pl, s);
    var b' := Splice(b, s.at, s.data);
    SpliceSets(b, s.at, s.data);
    SpliceKeeps(b, s.at, s.data, 0, pl.bounds);
    forall q, j | 0 <= j < Count(q, Bump(p, Entry, t, 1), Bump(p, Key, k, 1), Bump(p, Value, v, 1))
        && j < |Spots(pl, q)|
      ensures In(b', Spots(pl, q)[j])
    {
      if q != p || j != i {
        assert In(b, Spots(pl, q)[j]);
        assert Apart(Spots(pl, p)[i], Spots(pl, q)[j]);
        SpliceKeeps(b, s.at, s.data, Spots(pl, q)[j].at, Spots(pl, q)[j].data);
      }
    }
  }

  // ---------------------------------------------------------------------------------
  // Rows of equally wide parts
  // ---------------------------------------------------------------------------------

  /** Parts of width w, side by side from `at` on. */
  ghost predicate Row(spots: seq<Spot>, at: int, w: nat) {
    forall i {:trigger InRow(spots, at, w, i)} :: 0 <= i < |spots| ==> InRow(spots, at, w, i)
  }

  ghost predicate InRow(spots: seq<Spot>, at: int, w: nat, i: nat)
    requires i < |spots|
  {
    spots[i].at == at + Times(i, w) && |spots[i].data| == w
  }

  /** src is the contents of spots [i, i + m) of a row. */
  ghost predicate RowData(spots: seq<Spot>, i: nat, m: nat, w: nat, src: bytes) {
    && i + m <= |spots| && |src| == Times(m, w)
    && (forall j {:trigger HasData(spots, i, w, src, j)} :: 0 <= j < m ==> HasData(spots, i, w, src, j))
  }

  ghost predicate HasData(spots: seq<Spot>, i: nat, w: nat, src: bytes, j: nat)
    requires i + j < |spots|
  {
    Region(src, Times(j, w), spots[i + j].data)
  }

  lemma RowFront(spots: seq<Spot>, at: int, w: nat, i: nat, m: nat, src: bytes)
    requires m > 0 && Row(spots, at, w) && RowData(spots, i, m, w, src)
    ensures Times(m - 1, w) + w == |src| && RowData(spots, i, m - 1, w, src[..Times(m - 1, w)])
    ensures src == src[..Times(m - 1, w)] + spots[i + (m - 1)].data
  {
    var front := src[..Times(m - 1, w)];
    assert HasData(spots, i, w, src, m - 1) && InRow(spots, at, w, i + (m - 1));
    forall j | 0 <= j < m - 1 ensures HasData(spots, i, w, front, j) {
      assert HasData(spots, i, w, src, j) && InRow(spots, at, w, i + j);
      TimesGap(j, m - 1, w);
      SameSlice(src, front, Times(j, w), Times(j, w) + w);
    }
  }

  /** Where spot i + j of a row stands. */
  lemma RowAt(spots: seq<Spot>, at: int, w: nat, i: nat, j: nat, pos: int)
    requires Row(spots, at, w) && i + j < |spots| && pos == at + Times(i, w)
    ensures spots[i + j].at == pos + Times(j, w) && |spots[i + j].data| == w
  {
    assert InRow(spots, at, w, i + j);
    TimesAdd(i, j, w);
  }

  /** Writing m parts of a row at once. */
  lemma {:induction false} WriteMany(pl: Plan, b: bytes, t: nat, k: nat, v: nat, p: Part, at: int, w: nat, m: nat,
                                     src: bytes, pos: int)
    requires Sound(pl) && Filled(pl, b, t, k, v) && Row(Spots(pl, p), at, w)
             && RowData(Spots(pl, p), Count(p, t, k, v), m, w, src) && m > 0
    requires pos == at + Times(Count(p, t, k, v), w)
    ensures 0 <= pos && pos + |src| <= |b|
    ensures Filled(pl, Splice(b, pos, src), Bump(p, Entry, t, m), Bump(p, Key, k, m), Bump(p, Value, v, m))
    decreases m
  {
    var i := Count(p, t, k, v);
    var front, last := src[..Times(m - 1, w)], Spots(pl, p)[i + (m - 1)];
    RowFront(Spots(pl, p), at, w, i, m, src);
    RowAt(Spots(pl, p), at, w, i, m - 1, pos);
    if m == 1 {
      assert front == [];
      WriteOne(pl, b, t, k, v, p, last, src);
    } else {
      WriteMany(pl, b, t, k, v, p, at, w, m - 1, front, pos);
      WriteLast(pl, b, Bump(p, Entry, t, m - 1), Bump(p, Key, k, m - 1), Bump(p, Value, v, m - 1), p, pos, front, last);
    }
  }

  lemma WriteOne(pl: Plan, b: bytes, t: nat, k: nat, v: nat, p: Part, s: Spot, src: bytes)
    requires Sound(pl) && Filled(pl, b, t, k, v) && Count(p, t, k, v) < |Spots(pl, p)|
    requires s == Spots(pl, p)[Count(p, t, k, v)] && src == s.data
    ensures 0 <= s.at && s.at + |src| <= |b|
    ensures Filled(pl, Splice(b, s.at, src), Bump(p, Entry, t, 1), Bump(p, Key, k, 1), Bump(p, Value, v, 1))
  {
    WriteNext(pl, b, t, k, v, p);
  }

  lemma WriteLast(pl: Plan, b: bytes, t: nat, k: nat, v: nat, p: Part, pos: nat, front: bytes, s: Spot)
    requires Sound(pl) && Count(p, t, k, v) < |Spots(pl, p)| && s == Spots(pl, p)[Count(p, t, k, v)]
    requires s.at == pos + |front| <= |b| && Filled(pl, Splice(b, pos, front), t, k, v)
    ensures s.at + |s.data| <= |b|
    ensures Filled(pl, Splice(b, pos, front + s.data), Bump(p, Entry, t, 1), Bump(p, Key, k, 1), Bump(p, Value, v, 1))
  {
    WriteNext(pl, Splice(b, pos, front), t, k, v, p);
    SpliceTwice(b, pos, front, s.data);
  }

  lemma RowBounds(pl: Plan, p: Part, at: int, w: nat, i: nat, m: nat, pos: int)
    requires Sound(pl) && Row(Spots(pl, p), at, w) && i + m <= |Spots(pl, p)| && m > 0 && pos == at + Times(i, w)
    ensures 0 <= pos && pos + Times(m, w) <= pl.len
  {
    assert Inside(pl, Spots(pl, p)[i + 0]) && Inside(pl, Spots(pl, p)[i + (m - 1)]);
    RowAt(Spots(pl, p), at, w, i, 0, pos);
    RowAt(Spots(pl, p), at, w, i, m - 1, pos);
  }

  /** Part of a written row is its contents. */
  lemma RowReads(pl: Plan, b: bytes, p: Part, at: int, w: nat, i: nat, m: nat, pos: nat, src: bytes)
    requires Full(pl, b) && Row(Spots(pl, p), at, w) && i + m <= |Spots(pl, p)|
             && i + m <= Count(p, |pl.entries|, |pl.keys|, |pl.values|)
    requires pos == at + Times(i, w) && pos + Times(m, w) <= |b| && src == b[pos..pos + Times(m, w)]
    ensures RowData(Spots(pl, p), i, m, w, src)
  {
    forall j | 0 <= j < m ensures HasData(Spots(pl, p), i, w, src, j) {
      assert In(b, Spots(pl, p)[i + j]);
      RowAt(Spots(pl, p), at, w, i, j, pos);
      SpotReads(b, pos, m, w, j, Spots(pl, p)[i + j], src);
    }
  }

  lemma SpotReads(b: bytes, pos: nat, m: nat, w: nat, j: nat, s: Spot, src: bytes)
    requires pos + Times(m, w) <= |b| && src == b[pos..pos + Times(m, w)] && j < m
    requires In(b, s) && s.at == pos + Times(j, w) && |s.data| == w
    ensures Region(src, Times(j, w), s.data)
  {
    TimesGap(j, m, w);
    RegionOfSlice(b, pos, pos + Times(m, w), Times(j, w), s.data);
  }

  /** Spots [to, to + m) of one plan hold what spots [from, from + m) of another do. */
  ghost predicate SameData(spots: seq<Spot>, from: nat, spots': seq<Spot>, to: nat, m: nat) {
    && from + m <= |spots| && to + m <= |spots'|
    && (forall j {:trigger SameDatum(spots, from, spots', to, j)} :: 0 <= j < m ==>
          SameDatum(spots, from, spots', to, j))
  }

  ghost predicate SameDatum(spots: seq<Spot>, from: nat, spots': seq<Spot>, to: nat, j: nat)
    requires from + j < |spots| && to + j < |spots'|
  {
    spots'[to + j].data == spots[from + j].data
  }

  lemma SameRowData(spots: seq<Spot>, from: nat, spots': seq<Spot>, to: nat, m: nat, w: nat, src: bytes)
    requires RowData(spots, from, m, w, src) && SameData(spots, from, spots', to, m)
    ensures RowData(spots', to, m, w, src)
  {
    forall j | 0 <= j < m ensures HasData(spots', to, w, src, j) {
      assert HasData(spots, from, w, src, j) && SameDatum(spots, from, spots', to, j);
    }
  }

  /** Copy m parts of a row from the buffer b of one plan to the buffer a of another. */
  method CopyRow(ghost pl: Plan, b: bytes, at: int, from: nat, ghost pl': Plan, a: array<byte>, at': int,
                 ghost t: nat, ghost k: nat, ghost v: nat, to: nat,
                 ghost p: Part, w: nat, m: nat)
    requires Sound(pl) && Full(pl, b) && Row(Spots(pl, p), at, w)
    requires Sound(pl') && Filled(pl', a[..], t, k, v) && Row(Spots(pl', p), at', w) && to == Count(p, t, k, v)
    requires SameData(Spots(pl, p), from, Spots(pl', p), to, m)
    modifies a
    ensures Filled(pl', a[..], Bump(p, Entry, t, m), Bump(p, Key, k, m), Bump(p, Value, v, m))
  {
    if m == 0 {
      return;
    }
    var pos, pos' := at + Times(from, w), at' + Times(to, w);
    RowBounds(pl, p, at, w, from, m, pos);
    var src := b[pos..pos + Times(m, w)];
    RowReads(pl, b, p, at, w, from, m, pos, src);
    SameRowData(Spots(pl, p), from, Spots(pl', p), to, m, w, src);
    WriteMany(pl', a[..], t, k, v, p, at', w, m, src, pos');
    CopyInto(a, pos', src);
  }
}
