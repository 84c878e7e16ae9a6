/** Operations on a node's contents: search, split, merge. Keys are stored without the prefix
    that the node's bounds share. */
module NodeOps {
  import opened Base
  import opened Keys
  import opened NodeLayout

  /** What a node encodes: its bounds, and its items with the first `prefixLen` bytes of
      every key left out. */
  datatype Content = Content(lo: bytes, hi: Option<bytes>, prefixLen: nat, isIndex: bool, next: Option<PageId>,
      items: seq<KV>)

  predicate Below(k: bytes, hi: Option<bytes>) {
    hi.Some? ==> Less(k, hi.value)
  }

  predicate Ordered(items: seq<KV>, i: nat, j: nat)
    requires i < |items| && j < |items|
  {
    Less(items[i].key, items[j].key)
  }

  ghost predicate Sorted(items: seq<KV>) {
    forall i, j {:trigger Ordered(items, i, j)} :: 0 <= i < j < |items| ==> Ordered(items, i, j)
  }

  function Prefix(n: Content): bytes
    requires n.prefixLen <= |n.lo|
  {
    n.lo[..n.prefixLen]
  }

  /** `prefix_decode`. */
  function DecodeKey(n: Content, k: bytes): bytes
    requires n.prefixLen <= |n.lo|
  {
    Prefix(n) + k
  }

  /** Key i lies between the node's bounds. */
  ghost predicate Within(n: Content, i: nat)
    requires n.prefixLen <= |n.lo| && i < |n.items|
  {
    AtMost(n.lo, DecodeKey(n, n.items[i].key)) && Below(DecodeKey(n, n.items[i].key), n.hi)
  }

  ghost predicate WellFormed(n: Content) {
    && n.prefixLen <= 255 && n.prefixLen <= |n.lo|
    && (n.hi.None? ==> n.prefixLen == 0)
    && (n.hi.Some? ==> Less(n.lo, n.hi.value) && n.prefixLen <= |n.hi.value| && n.hi.value[..n.prefixLen] == Prefix(n))
    && Sorted(n.items)
    && (forall i {:trigger Within(n, i)} :: 0 <= i < |n.items| ==> Within(n, i))
    && (n.isIndex ==> n.items != [] && DecodeKey(n, n.items[0].key) == n.lo)
  }

  /** The items with their full keys. */
  function Decoded(n: Content): (r: seq<KV>)
    requires n.prefixLen <= |n.lo|
    ensures |r| == |n.items|
  {
    seq(|n.items|, i requires 0 <= i < |n.items| => KV(DecodeKey(n, n.items[i].key), n.items[i].value))
  }

  // ---------------------------------------------------------------------------------
  // Order
  // ---------------------------------------------------------------------------------

  lemma Transitive(a: bytes, b: bytes, c: bytes)
    ensures Less(a, b) && Less(b, c) ==> Less(a, c)
    ensures Less(a, b) && AtMost(b, c) ==> Less(a, c)
    ensures AtMost(a, b) && Less(b, c) ==> Less(a, c)
    ensures AtMost(a, b) && AtMost(b, c) ==> AtMost(a, c)
  {
    RankIsOrder(a, b);
    RankIsOrder(b, a);
    RankIsOrder(b, c);
    RankIsOrder(c, b);
    RankIsOrder(a, c);
    RankIsOrder(c, a);
  }

  lemma Trichotomy(a: bytes, b: bytes)
    ensures Less(a, b) || Less(b, a) || a == b
    ensures !(Less(a, b) && Less(b, a)) && !Less(a, a)
  {
    RankIsOrder(a, b);
    RankIsOrder(b, a);
    RankIsOrder(a, a);
  }

  /** Putting the same prefix in front of two keys keeps their order. */
  lemma PrefixKeepsOrder(p: bytes, a: bytes, b: bytes)
    ensures Less(p + a, p + b) <==> Less(a, b)
  {
    StripKeepsOrder(p + a, p + b, |p|);
    assert (p + a)[|p|..] == a && (p + b)[|p|..] == b;
    assert (p + a)[..|p|] == p && (p + b)[..|p|] == p;
  }

  // ---------------------------------------------------------------------------------
  // find
  // ---------------------------------------------------------------------------------

  /** Everything before i is below the key, everything from i on is above it. */
  ghost predicate Splits(items: seq<KV>, key: bytes, i: nat) {
    && i <= |items|
    && (forall j :: 0 <= j < i ==> Less(items[j].key, key))
    && (forall j :: i <= j < |items| ==> Less(key, items[j].key))
  }

  lemma SplitsAt(items: seq<KV>, key: bytes, i: nat)
    requires Sorted(items) && i <= |items|
    requires i > 0 ==> Less(items[i - 1].key, key)
    requires i < |items| ==> Less(key, items[i].key)
    ensures Splits(items, key, i)
  {
    forall j | 0 <= j < i ensures Less(items[j].key, key) {
      if j < i - 1 {
        assert Ordered(items, j, i - 1);
        Transitive(items[j].key, items[i - 1].key, key);
      }
    }
    forall j | i <= j < |items| ensures Less(key, items[j].key) {
      if i < j {
        assert Ordered(items, i, j);
        Transitive(key, items[i].key, items[j].key);
      }
    }
  }

  lemma LaterIsGreater(items: seq<KV>, key: bytes, i: nat, j: nat)
    requires Sorted(items) && i <= j < |items| && Less(key, items[i].key)
    ensures Less(key, items[j].key)
  {
    if i < j {
      assert Ordered(items, i, j);
      Transitive(key, items[i].key, items[j].key);
    }
  }

  /** `find`: the index of the key, or the index where it would be inserted. */
  method Find(items: seq<KV>, key: bytes) returns (found: bool, at: nat)
    requires Sorted(items)
    ensures found ==> at < |items| && items[at].key == key
    ensures !found ==> Splits(items, key, at)
  {
    var size := |items|;
    if size == 0 || Less(key, items[0].key) {
      SplitsAt(items, key, 0);
      return false, 0;
    }
    var base := 0;
    while size > 1
      invariant 1 <= size && base + size <= |items|
      invariant !Less(key, items[base].key)
      invariant base + size < |items| ==> Less(key, items[base + size].key)
    {
      var half := size / 2;
      var mid := base + half;
      if Less(key, items[mid].key) {
        if base + (size - half) < |items| {
          LaterIsGreater(items, key, mid, base + (size - half));
        }
      } else {
        base := mid;
      }
      size := size - half;
    }
    Trichotomy(items[base].key, key);
    if items[base].key == key {
      return true, base;
    }
    SplitsAt(items, key, base + 1);
    return false, base + 1;
  }

  // ---------------------------------------------------------------------------------
  // split
  // ---------------------------------------------------------------------------------

  /** The bits that are set, counted from 1. */
  function BitsSet(sketch: seq<bool>): seq<nat> {
    if sketch == [] then []
    else BitsSet(sketch[..|sketch| - 1]) + if sketch[|sketch| - 1] then [|sketch|] else []
  }

  function Added(ns: seq<nat>): nat {
    if ns == [] then 0 else Added(ns[..|ns| - 1]) + ns[|ns| - 1]
  }

  lemma AddedMore(ns: seq<nat>, n: nat)
    ensures Added(ns + [n]) == Added(ns) + n
  {
    assert (ns + [n])[..|ns|] == ns;
  }

  lemma BitsSetMore(sketch: seq<bool>, bit: nat)
    requires bit < |sketch|
    ensures var was, more := BitsSet(sketch[..bit]), BitsSet(sketch[..bit + 1]);
      if sketch[bit] then |more| == |was| + 1 && Added(more) == Added(was) + bit + 1 else more == was
  {
    assert sketch[..bit + 1][..bit] == sketch[..bit];
    if sketch[bit] { AddedMore(BitsSet(sketch[..bit]), bit + 1); }
  }

  method CountBits(sketch: seq<bool>) returns (bits: nat, weighted: nat)
    ensures bits == |BitsSet(sketch)| && weighted == Added(BitsSet(sketch))
  {
    bits, weighted := 0, 0;
    for bit := 0 to |sketch|
      invariant bits == |BitsSet(sketch[..bit])| && weighted == Added(BitsSet(sketch[..bit]))
    {
      BitsSetMore(sketch, bit);
      if sketch[bit] {
        bits := bits + 1;
        weighted := weighted + bit + 1;
      }
    }
    assert sketch[..|sketch|] == sketch;
  }

  /** Where the average activity was, among the children. */
  function Aim(children: nat, bits: nat, weighted: nat): nat
    requires bits > 0
  {
    var average := weighted / bits;
    average * children / 8
  }

  /** The split point lies where the average activity was, kept away from both ends. */
  ghost predicate SplitPoint(children: nat, sketch: seq<bool>, at: nat) {
    var bits := BitsSet(sketch);
    if bits == [] then at == children / 2
    else
      var aim := Aim(children, |bits|, Added(bits));
      1 <= at < children && (1 <= aim < children ==> at == aim) && (aim < 1 ==> at == 1)
      && (children <= aim ==> at == children - 1)
  }

  /** `weighted_split_point`: both halves get at least one item. */
  method WeightedSplitPoint(children: nat, sketch: seq<bool>) returns (at: nat)
    requires children >= 2 && |sketch| == 8
    ensures 1 <= at < children && SplitPoint(children, sketch, at)
  {
    var bits, weighted := CountBits(sketch);
    if bits == 0 {
      return children / 2;
    }
    at := Aim(children, bits, weighted);
    at := if at < children - 1 then at else children - 1;
    at := if at < 1 then 1 else at;
  }

  /** b is greater than a because it differs first at s. */
  lemma LessAt(a: bytes, b: bytes, s: nat)
    requires s <= |a| && s < |b| && a[..s] == b[..s] && (s == |a| || a[s] < b[s])
    ensures Less(a, b)
  {
    StripKeepsOrder(a, b, s);
  }

  lemma DiffersAt(a: bytes, b: bytes)
    requires Less(a, b)
    ensures var s := SharedLen(a, b); s < |b| && (s == |a| || a[s] < b[s])
  {
    StripKeepsOrder(a, b, SharedLen(a, b));
  }

  lemma PrefixAtMost(a: bytes, b: bytes)
    requires |a| <= |b| && b[..|a|] == a
    ensures AtMost(a, b)
  {
    StripKeepsOrder(b, a, |a|);
  }

  /** The separator without the node's prefix: a leaf's is cut right after the first byte
      that tells the two neighbours apart. */
  function Separator(n: Content, at: nat): bytes
    requires 1 <= at < |n.items|
  {
    var left, right := n.items[at - 1].key, n.items[at].key;
    if n.isIndex || SharedLen(right, left) >= |right| then right else right[..SharedLen(right, left) + 1]
  }

  lemma {:induction false} SharedLenSwaps(a: bytes, b: bytes)
    ensures SharedLen(a, b) == SharedLen(b, a)
  {
    if a != [] && b != [] && a[0] == b[0] {
      SharedLenSwaps(a[1..], b[1..]);
    }
  }

  /** The separator lies strictly above every left key and at or below every right key. */
  lemma SeparatorBetween(n: Content, at: nat)
    requires Sorted(n.items) && 1 <= at < |n.items|
    ensures Less(n.items[at - 1].key, Separator(n, at)) && AtMost(Separator(n, at), n.items[at].key)
    ensures SharedLen(n.items[at].key, n.items[at - 1].key) < |n.items[at].key|
  {
    var left, right := n.items[at - 1].key, n.items[at].key;
    assert Ordered(n.items, at - 1, at);
    SharedLenSwaps(left, right);
    DiffersAt(left, right);
    var s := SharedLen(right, left);
    if n.isIndex {
      Trichotomy(right, right);
    } else {
      assert right[..s + 1][..s] == right[..s];
      LessAt(left, right[..s + 1], s);
      PrefixAtMost(right[..s + 1], right);
    }
  }

  /** Items [from, to) of n under the bounds lo and hi, with m more prefix bytes left out. */
  function Rebase(n: Content, from: nat, to: nat, lo: bytes, hi: Option<bytes>, m: nat): Content
    requires from <= to <= |n.items|
  {
    Content(lo, hi, n.prefixLen + m, n.isIndex, n.next,
            seq(to - from, i requires 0 <= i < to - from =>
              KV(if m <= |n.items[from + i].key| then n.items[from + i].key[m..] else [], n.items[from + i].value)))
  }

  /** The bounds lo and hi hold the keys of items [from, to). */
  ghost predicate Bounds(n: Content, from: nat, to: nat, lo: bytes, hi: Option<bytes>)
    requires n.prefixLen <= |n.lo| && from <= to <= |n.items|
  {
    forall i {:trigger n.items[i]} :: from <= i < to ==>
      AtMost(lo, DecodeKey(n, n.items[i].key)) && Below(DecodeKey(n, n.items[i].key), hi)
  }

  /** m more bytes are shared by the bounds lo and hi. */
  ghost predicate Shares(n: Content, lo: bytes, hi: Option<bytes>, m: nat)
    requires n.prefixLen <= |n.lo|
  {
    && n.prefixLen + m <= |lo| && lo[..n.prefixLen] == Prefix(n)
    && (hi.None? ==> n.prefixLen + m == 0)
    && (hi.Some? ==> n.prefixLen + m <= |hi.value| && hi.value[..n.prefixLen + m] == lo[..n.prefixLen + m])
  }

  lemma RebasedKey(n: Content, i: nat, lo: bytes, hi: Option<bytes>, m: nat)
    requires n.prefixLen <= |n.lo| && i < |n.items| && Shares(n, lo, hi, m)
    requires AtMost(lo, DecodeKey(n, n.items[i].key)) && Below(DecodeKey(n, n.items[i].key), hi)
    ensures m <= |n.items[i].key| && lo[..n.prefixLen + m] + n.items[i].key[m..] == DecodeKey(n, n.items[i].key)
  {
    var k, d := n.items[i].key, DecodeKey(n, n.items[i].key);
    if hi.Some? {
      BetweenSharesPrefix(lo, d, hi.value, n.prefixLen + m);
      assert d == d[..n.prefixLen + m] + d[n.prefixLen + m..];
      assert d[n.prefixLen + m..] == k[m..];
    } else {
      assert lo[..0] == [] && k[0..] == k;
    }
  }

  lemma RebaseDecodes(n: Content, from: nat, to: nat, lo: bytes, hi: Option<bytes>, m: nat)
    requires n.prefixLen <= |n.lo| && from <= to <= |n.items| && Bounds(n, from, to, lo, hi) && Shares(n, lo, hi, m)
    ensures Decoded(Rebase(n, from, to, lo, hi, m)) == Decoded(n)[from..to]
  {
    var r := Rebase(n, from, to, lo, hi, m);
    forall i | 0 <= i < to - from ensures Decoded(r)[i] == Decoded(n)[from..to][i] {
      RebasedKey(n, from + i, lo, hi, m);
    }
  }

  /** r is the rebased node. */
  ghost predicate Rebased(n: Content, from: nat, to: nat, lo: bytes, hi: Option<bytes>, m: nat, r: Content)
    requires from <= to <= |n.items|
  {
    && r.lo == lo && r.hi == hi && r.prefixLen == n.prefixLen + m && r.isIndex == n.isIndex
    && |r.items| == to - from
    && (forall i {:trigger r.items[i]} :: 0 <= i < to - from && m <= |n.items[from + i].key| ==>
          r.items[i].key == n.items[from + i].key[m..])
  }

  lemma RebasedPair(n: Content, from: nat, to: nat, lo: bytes, hi: Option<bytes>, m: nat, r: Content, i: nat, j: nat)
    requires n.prefixLen <= |n.lo| && from <= to <= |n.items| && Bounds(n, from, to, lo, hi) && Shares(n, lo, hi, m)
    requires Rebased(n, from, to, lo, hi, m, r) && i < to - from && j < to - from
             && Ordered(n.items, from + i, from + j)
    ensures Ordered(r.items, i, j)
  {
    RebasedKey(n, from + i, lo, hi, m);
    RebasedKey(n, from + j, lo, hi, m);
    PrefixKeepsOrder(lo[..n.prefixLen + m], r.items[i].key, r.items[j].key);
    PrefixKeepsOrder(Prefix(n), n.items[from + i].key, n.items[from + j].key);
  }

  lemma RebasedSorted(n: Content, from: nat, to: nat, lo: bytes, hi: Option<bytes>, m: nat, r: Content)
    requires n.prefixLen <= |n.lo| && from <= to <= |n.items| && Bounds(n, from, to, lo, hi) && Shares(n, lo, hi, m)
    requires Rebased(n, from, to, lo, hi, m, r) && Sorted(n.items)
    ensures Sorted(r.items)
  {
    forall i, j | 0 <= i < j < |r.items| ensures Ordered(r.items, i, j) {
      assert Ordered(n.items, from + i, from + j);
      RebasedPair(n, from, to, lo, hi, m, r, i, j);
    }
  }

  lemma RebasedWellFormed(n: Content, from: nat, to: nat, lo: bytes, hi: Option<bytes>, m: nat, r: Content)
    requires WellFormed(n) && from <= to <= |n.items| && Bounds(n, from, to, lo, hi) && Shares(n, lo, hi, m)
    requires n.prefixLen + m <= 255 && (hi.Some? ==> Less(lo, hi.value)) && Rebased(n, from, to, lo, hi, m, r)
    requires n.isIndex ==> from < to && DecodeKey(n, n.items[from].key) == lo
    ensures WellFormed(r)
  {
    RebasedSorted(n, from, to, lo, hi, m, r);
    forall i | 0 <= i < |r.items| ensures Within(r, i) {
      RebasedWithin(n, from, to, lo, hi, m, r, i);
    }
    if n.isIndex { RebasedKey(n, from, lo, hi, m); }
  }

  lemma RebasedWithin(n: Content, from: nat, to: nat, lo: bytes, hi: Option<bytes>, m: nat, r: Content, i: nat)
    requires n.prefixLen <= |n.lo| && from <= to <= |n.items| && Bounds(n, from, to, lo, hi) && Shares(n, lo, hi, m)
    requires Rebased(n, from, to, lo, hi, m, r) && i < to - from
    ensures Within(r, i)
  {
    RebasedKey(n, from + i, lo, hi, m);
  }

  lemma RebaseWellFormed(n: Content, from: nat, to: nat, lo: bytes, hi: Option<bytes>, m: nat)
    requires WellFormed(n) && from <= to <= |n.items| && Bounds(n, from, to, lo, hi) && Shares(n, lo, hi, m)
    requires n.prefixLen + m <= 255 && (hi.Some? ==> Less(lo, hi.value))
    requires n.isIndex ==> from < to && DecodeKey(n, n.items[from].key) == lo
    ensures WellFormed(Rebase(n, from, to, lo, hi, m))
  {
    RebasedWellFormed(n, from, to, lo, hi, m, Rebase(n, from, to, lo, hi, m));
  }

  function Min(a: int, b: int): int {
    if a < b then a else b
  }

  /** How many more bytes lo and hi share after the first p, as far as the length of a
      prefix fits into one byte. */
  function MorePrefix(lo: bytes, hi: bytes, p: nat): (m: nat)
    requires p <= |lo| && p <= |hi| && p <= 255
  {
    Min(SharedLen(lo[p..], hi[p..]), 255 - p)
  }

  lemma MorePrefixShares(lo: bytes, hi: bytes, p: nat)
    requires p <= |lo| && p <= |hi| && p <= 255 && lo[..p] == hi[..p]
    ensures var m := MorePrefix(lo, hi, p);
            p + m <= |lo| && p + m <= |hi| && lo[..p + m] == hi[..p + m] && p + m <= 255
  {
    var m := MorePrefix(lo, hi, p);
    var s := SharedLen(lo[p..], hi[p..]);
    assert lo[p..][..m] == lo[p..][..s][..m] && hi[p..][..m] == hi[p..][..s][..m];
    assert lo[..p + m] == lo[..p] + lo[p..][..m] && hi[..p + m] == hi[..p] + hi[p..][..m];
  }

  /** `split`; both halves keep the node's `next`, which the caller then overwrites in the
      left half. */
  function SplitAt(n: Content, at: nat): (Content, Content)
    requires WellFormed(n) && 1 <= at < |n.items|
  {
    var key := DecodeKey(n, Separator(n, at));
    var left := Rebase(n, 0, at, n.lo, Some(key), MorePrefix(n.lo, key, n.prefixLen));
    var right := Rebase(n, at, |n.items|, key, n.hi,
        if n.hi.Some? then MorePrefix(key, n.hi.value, n.prefixLen) else 0);
    (left, right)
  }

  /** The separator tells the decoded keys of the two halves apart. */
  lemma SeparatorSplits(n: Content, at: nat)
    requires WellFormed(n) && 1 <= at < |n.items|
    ensures var key := DecodeKey(n, Separator(n, at));
            && Bounds(n, 0, at, n.lo, Some(key)) && Bounds(n, at, |n.items|, key, n.hi)
            && Less(n.lo, key) && Below(key, n.hi)
            && (n.isIndex ==> DecodeKey(n, n.items[at].key) == key)
  {
    var sep := Separator(n, at);
    var key := DecodeKey(n, sep);
    SeparatorBetween(n, at);
    forall i | 0 <= i < at ensures Less(DecodeKey(n, n.items[i].key), key) {
      if i < at - 1 {
        assert Ordered(n.items, i, at - 1);
        Transitive(n.items[i].key, n.items[at - 1].key, sep);
      }
      PrefixKeepsOrder(Prefix(n), n.items[i].key, sep);
    }
    forall i | at <= i < |n.items| ensures AtMost(key, DecodeKey(n, n.items[i].key)) {
      if at < i {
        assert Ordered(n.items, at, i);
        Transitive(sep, n.items[at].key, n.items[i].key);
        Trichotomy(sep, n.items[i].key);
      }
      PrefixKeepsOrder(Prefix(n), n.items[i].key, sep);
    }
    assert Within(n, 0) && Within(n, at);
    Transitive(n.lo, DecodeKey(n, n.items[0].key), key);
    if n.hi.Some? { Transitive(key, DecodeKey(n, n.items[at].key), n.hi.value); }
    forall i | 0 <= i < |n.items| ensures AtMost(n.lo, DecodeKey(n, n.items[i].key))
        && Below(DecodeKey(n, n.items[i].key), n.hi) {
      assert Within(n, i);
    }
  }

  lemma HalvesShare(n: Content, at: nat)
    requires WellFormed(n) && 1 <= at < |n.items|
    ensures var key := DecodeKey(n, Separator(n, at));
            && Shares(n, n.lo, Some(key), MorePrefix(n.lo, key, n.prefixLen))
            && Shares(n, key, n.hi, if n.hi.Some? then MorePrefix(key, n.hi.value, n.prefixLen) else 0)
  {
    var key := DecodeKey(n, Separator(n, at));
    assert key[..n.prefixLen] == Prefix(n);
    MorePrefixShares(n.lo, key, n.prefixLen);
    if n.hi.Some? { MorePrefixShares(key, n.hi.value, n.prefixLen); }
  }

  /** Splitting a well-formed node gives two well-formed nodes that hold its items and meet
      at the separator. */
  lemma SplitIsSound(n: Content, at: nat)
    requires WellFormed(n) && 1 <= at < |n.items|
    ensures var (left, right) := SplitAt(n, at);
            && WellFormed(left) && WellFormed(right)
            && Decoded(left) + Decoded(right) == Decoded(n)
            && left.lo == n.lo && left.hi == Some(right.lo) && right.hi == n.hi && right.next == n.next
            && |left.items| == at
  {
    var (left, right) := SplitAt(n, at);
    LeftIsSound(n, at, left);
    RightIsSound(n, at, right);
    Halves(Decoded(n), at, Decoded(left), Decoded(right));
  }

  lemma Halves(all: seq<KV>, at: nat, left: seq<KV>, right: seq<KV>)
    requires at <= |all| && left == all[..at] && right == all[at..]
    ensures left + right == all
  {
  }

  lemma LeftIsSound(n: Content, at: nat, left: Content)
    requires WellFormed(n) && 1 <= at < |n.items| && left == SplitAt(n, at).0
    ensures WellFormed(left) && Decoded(left) == Decoded(n)[..at]
    ensures left.lo == n.lo && left.hi == Some(DecodeKey(n, Separator(n, at))) && |left.items| == at
  {
    var key := DecodeKey(n, Separator(n, at));
    SeparatorSplits(n, at);
    HalvesShare(n, at);
    RebaseWellFormed(n, 0, at, n.lo, Some(key), MorePrefix(n.lo, key, n.prefixLen));
    RebaseDecodes(n, 0, at, n.lo, Some(key), MorePrefix(n.lo, key, n.prefixLen));
  }

  lemma RightIsSound(n: Content, at: nat, right: Content)
    requires WellFormed(n) && 1 <= at < |n.items| && right == SplitAt(n, at).1
    ensures WellFormed(right) && Decoded(right) == Decoded(n)[at..]
    ensures right.lo == DecodeKey(n, Separator(n, at)) && right.hi == n.hi && right.next == n.next
  {
    var key := DecodeKey(n, Separator(n, at));
    SeparatorSplits(n, at);
    HalvesShare(n, at);
    var m := if n.hi.Some? then MorePrefix(key, n.hi.value, n.prefixLen) else 0;
    RebaseWellFormed(n, at, |n.items|, key, n.hi, m);
    RebaseDecodes(n, at, |n.items|, key, n.hi, m);
  }

  // ---------------------------------------------------------------------------------
  // receive_merge
  // ---------------------------------------------------------------------------------

  /** `prefix::reencode`: the key behind its old prefix, without the first `len` bytes. */
  function Reencode(prefix: bytes, key: bytes, len: nat): bytes
    requires len <= |prefix|
  {
    (prefix + key)[len..]
  }

  function Reencoded(n: Content, len: nat): (r: seq<KV>)
    requires len <= n.prefixLen <= |n.lo|
    ensures |r| == |n.items|
  {
    if n.prefixLen == len then n.items
    else seq(|n.items|, i requires 0 <= i < |n.items| => KV(Reencode(Prefix(n), n.items[i].key, len), n.items[i].value))
  }

  /** `receive_merge`: under the shorter of the two prefixes. */
  function Merged(a: Content, b: Content): Content
    requires a.prefixLen <= |a.lo| && b.prefixLen <= |b.lo|
  {
    var p := Min(a.prefixLen, b.prefixLen);
    Content(a.lo, b.hi, p, a.isIndex, b.next, Reencoded(a, p) + Reencoded(b, p))
  }

  lemma ReencodedAt(n: Content, len: nat, i: nat)
    requires len <= n.prefixLen <= |n.lo| && i < |n.items|
    ensures n.lo[..len] + Reencoded(n, len)[i].key == DecodeKey(n, n.items[i].key)
            && Reencoded(n, len)[i].value == n.items[i].value
  {
    var d := DecodeKey(n, n.items[i].key);
    assert d == d[..len] + d[len..];
    assert d[..len] == n.lo[..len];
  }

  /** The neighbours share the shorter prefix. */
  lemma MergedPrefix(a: Content, b: Content)
    requires WellFormed(a) && WellFormed(b) && a.hi == Some(b.lo)
    ensures var p := Min(a.prefixLen, b.prefixLen);
            && b.lo[..p] == a.lo[..p]
            && (b.hi.Some? ==> p <= |b.hi.value| && b.hi.value[..p] == a.lo[..p])
  {
    var p := Min(a.prefixLen, b.prefixLen);
    assert b.lo[..p] == b.lo[..a.prefixLen][..p] && a.lo[..p] == a.lo[..a.prefixLen][..p];
    if b.hi.Some? {
      assert b.hi.value[..p] == b.hi.value[..b.prefixLen][..p] && b.lo[..p] == b.lo[..b.prefixLen][..p];
    }
  }

  /** Merging two neighbours gives their items one after the other, between their outer
      bounds. */
  lemma MergeDecodes(a: Content, b: Content)
    requires WellFormed(a) && WellFormed(b) && a.hi == Some(b.lo)
    ensures Decoded(Merged(a, b)) == Decoded(a) + Decoded(b)
  {
    var r := Merged(a, b);
    MergedPrefix(a, b);
    forall i | 0 <= i < |r.items| ensures Decoded(r)[i] == (Decoded(a) + Decoded(b))[i] {
      if i < |a.items| {
        ReencodedAt(a, r.prefixLen, i);
      } else {
        ReencodedAt(b, r.prefixLen, i - |a.items|);
      }
    }
  }

  lemma MergeWellFormed(a: Content, b: Content)
    requires WellFormed(a) && WellFormed(b) && a.hi == Some(b.lo) && a.isIndex == b.isIndex
    ensures WellFormed(Merged(a, b))
  {
    var r := Merged(a, b);
    MergedPrefix(a, b);
    MergeDecodes(a, b);
    forall i | 0 <= i < |r.items| ensures Within(r, i) {
      MergedWithin(a, b, i);
    }
    forall i, j | 0 <= i < j < |r.items| ensures Ordered(r.items, i, j) {
      MergedOrdered(a, b, i, j);
    }
    if b.hi.Some? { Transitive(a.lo, b.lo, b.hi.value); }
  }

  lemma MergedWithin(a: Content, b: Content, i: nat)
    requires WellFormed(a) && WellFormed(b) && a.hi == Some(b.lo) && i < |a.items| + |b.items|
    requires Decoded(Merged(a, b)) == Decoded(a) + Decoded(b)
    ensures Within(Merged(a, b), i)
  {
    var r := Merged(a, b);
    assert Decoded(r)[i].key == DecodeKey(r, r.items[i].key);
    if i < |a.items| {
      assert Decoded(a)[i].key == DecodeKey(a, a.items[i].key) && Within(a, i);
      if b.hi.Some? { Transitive(DecodeKey(a, a.items[i].key), b.lo, b.hi.value); Trichotomy(b.lo, b.hi.value); }
    } else {
      var j := i - |a.items|;
      assert Decoded(b)[j].key == DecodeKey(b, b.items[j].key) && Within(b, j);
      Transitive(a.lo, b.lo, DecodeKey(b, b.items[j].key));
      Trichotomy(a.lo, DecodeKey(b, b.items[j].key));
    }
  }

  lemma DecodedOrder(n: Content, i: nat, j: nat)
    requires n.prefixLen <= |n.lo| && i < |n.items| && j < |n.items|
    ensures Less(Decoded(n)[i].key, Decoded(n)[j].key) <==> Ordered(n.items, i, j)
  {
    PrefixKeepsOrder(Prefix(n), n.items[i].key, n.items[j].key);
  }

  /** The items of two neighbours, one after the other, are in order. */
  lemma NeighboursOrdered(a: Content, b: Content, i: nat, j: nat)
    requires WellFormed(a) && WellFormed(b) && a.hi == Some(b.lo) && i < j < |a.items| + |b.items|
    ensures var d := Decoded(a) + Decoded(b); Less(d[i].key, d[j].key)
  {
    var k := |a.items|;
    if j < k {
      DecodedOrder(a, i, j);
      assert Ordered(a.items, i, j);
    } else if k <= i {
      DecodedOrder(b, i - k, j - k);
      assert Ordered(b.items, i - k, j - k);
    } else {
      assert Within(a, i) && Within(b, j - k);
      Transitive(Decoded(a)[i].key, b.lo, Decoded(b)[j - k].key);
    }
  }

  lemma MergedOrdered(a: Content, b: Content, i: nat, j: nat)
    requires WellFormed(a) && WellFormed(b) && a.hi == Some(b.lo) && i < j < |a.items| + |b.items|
    requires Decoded(Merged(a, b)) == Decoded(a) + Decoded(b)
    ensures Ordered(Merged(a, b).items, i, j)
  {
    DecodedOrder(Merged(a, b), i, j);
    NeighboursOrdered(a, b, i, j);
  }

  /** Merging the two halves of a split restores the node's items, bounds and next. */
  lemma MergeUndoesSplit(n: Content, at: nat, r: PageId)
    requires WellFormed(n) && 1 <= at < |n.items|
    ensures var (left, right) := SplitAt(n, at);
            var back := Merged(left.(next := Some(r)), right);
            && WellFormed(back) && Decoded(back) == Decoded(n)
            && back.lo == n.lo && back.hi == n.hi && back.next == n.next && back.isIndex == n.isIndex
  {
    SplitIsSound(n, at);
    var (left, right) := SplitAt(n, at);
    var l := left.(next := Some(r));
    assert WellFormed(l) by { NextIsFree(left, Some(r)); }
    MergeWellFormed(l, right);
    MergeDecodes(l, right);
    assert Decoded(l) == Decoded(left);
  }

  lemma NextIsFree(n: Content, next: Option<PageId>)
    requires WellFormed(n)
    ensures WellFormed(n.(next := next))
  {
    forall i | 0 <= i < |n.items| ensures Within(n.(next := next), i) {
      assert Within(n, i);
    }
  }
}
