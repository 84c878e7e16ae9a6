/** Range scans over a fixed tree. */
module Scan {
  import opened Base
  import opened Keys
  import opened NodeLayout
  import opened NodeOps

  datatype Bound = Unbounded | Included(key: bytes) | Excluded(key: bytes)

  /** k is not below the lower bound. */
  predicate Above(lo: Bound, k: bytes) {
    match lo
    case Unbounded => true
    case Included(b) => AtMost(b, k)
    case Excluded(b) => Less(b, k)
  }

  /** k is not above the upper bound. */
  predicate Under(k: bytes, hi: Bound) {
    match hi
    case Unbounded => true
    case Included(b) => AtMost(k, b)
    case Excluded(b) => Less(k, b)
  }

  predicate Owns(n: Content, k: bytes) {
    AtMost(n.lo, k) && Below(k, n.hi)
  }

  // ---------------------------------------------------------------------------------
  // successor
  // ---------------------------------------------------------------------------------

  /** Item i is the first one that the lower bound admits. */
  ghost predicate FirstAbove(n: Content, lo: Bound, i: nat)
    requires n.prefixLen <= |n.lo|
  {
    && i <= |n.items|
    && (forall j {:trigger Decoded(n)[j]} :: 0 <= j < i ==> !Above(lo, Decoded(n)[j].key))
    && (forall j {:trigger Decoded(n)[j]} :: i <= j < |n.items| ==> Above(lo, Decoded(n)[j].key))
  }

  lemma OwnedKeyEncodes(n: Content, k: bytes)
    requires WellFormed(n) && Owns(n, k)
    ensures n.prefixLen <= |k| && DecodeKey(n, k[n.prefixLen..]) == k
  {
    if n.hi.Some? {
      BetweenSharesPrefix(n.lo, k, n.hi.value, n.prefixLen);
    }
    assert k == k[..n.prefixLen] + k[n.prefixLen..];
  }

  lemma EncodedOrder(n: Content, k: bytes, i: nat)
    requires WellFormed(n) && Owns(n, k) && i < |n.items|
    ensures n.prefixLen <= |k|
    ensures Less(k, Decoded(n)[i].key) <==> Less(k[n.prefixLen..], n.items[i].key)
    ensures Less(Decoded(n)[i].key, k) <==> Less(n.items[i].key, k[n.prefixLen..])
    ensures Decoded(n)[i].key == k <==> n.items[i].key == k[n.prefixLen..]
  {
    OwnedKeyEncodes(n, k);
    PrefixKeepsOrder(Prefix(n), k[n.prefixLen..], n.items[i].key);
    PrefixKeepsOrder(Prefix(n), n.items[i].key, k[n.prefixLen..]);
    assert Decoded(n)[i].key[n.prefixLen..] == n.items[i].key;
  }

  /** The first item that a bound at k admits, once k has been looked up. */
  lemma FoundIsFirst(n: Content, lo: Bound, found: bool, at: nat)
    requires WellFormed(n) && !lo.Unbounded? && Owns(n, lo.key) && n.prefixLen <= |lo.key|
    requires found ==> at < |n.items| && n.items[at].key == lo.key[n.prefixLen..]
    requires !found ==> Splits(n.items, lo.key[n.prefixLen..], at)
    ensures FirstAbove(n, lo, if found && lo.Excluded? then at + 1 else at)
  {
    var k := lo.key;
    forall j | 0 <= j < |n.items| ensures
        && (j < at ==> Less(Decoded(n)[j].key, k))
        && (j == at && found ==> Decoded(n)[j].key == k)
        && (at < j || (j == at && !found) ==> Less(k, Decoded(n)[j].key))
    {
      EncodedOrder(n, k, j);
      if found && j < at { assert Ordered(n.items, j, at); }
      if found && at < j { assert Ordered(n.items, at, j); }
    }
    forall j | 0 <= j < |n.items| ensures Above(lo, Decoded(n)[j].key) <==>
        (if found && lo.Excluded? then at + 1 else at) <= j {
      Trichotomy(k, Decoded(n)[j].key);
    }
  }

  /** Without a bound, the search for the low key begins at the first item. */
  lemma UnboundedIsFirst(n: Content, found: bool, at: nat)
    requires WellFormed(n) && Owns(n, n.lo) && FirstAbove(n, Included(n.lo), at)
    ensures at == 0 && FirstAbove(n, Unbounded, 0)
  {
    if n.items != [] {
      assert Within(n, 0);
      Trichotomy(n.lo, Decoded(n)[0].key);
    }
  }

  /** A bound below the leaf admits every item. */
  lemma LowBoundAdmitsAll(n: Content, lo: Bound)
    requires WellFormed(n) && !lo.Unbounded? && Less(lo.key, n.lo)
    ensures FirstAbove(n, lo, 0)
  {
    forall j | 0 <= j < |n.items| ensures Above(lo, Decoded(n)[j].key) {
      assert Within(n, j);
      Transitive(lo.key, n.lo, Decoded(n)[j].key);
      Trichotomy(lo.key, Decoded(n)[j].key);
    }
  }

  function ItemAt(n: Content, i: nat): Option<KV>
    requires n.prefixLen <= |n.lo|
  {
    if i < |n.items| then Some(KV(DecodeKey(n, n.items[i].key), n.items[i].value)) else None
  }

  /** An excluded bound that ends like item i. */
  predicate EndsLike(n: Content, lo: Bound, i: nat) {
    lo.Excluded? && i < |n.items| && n.prefixLen <= |lo.key| && lo.key[n.prefixLen..] == n.items[i].key
  }

  predicate ShorterThanPrefix(n: Content, lo: Bound) {
    lo.Excluded? && |lo.key| < n.prefixLen
  }

  /** The loop of `successor` compares an excluded bound with the items without looking at the
      prefix. It fails if the bound is shorter than that. */
  method FirstFrom(n: Content, lo: Bound, start: nat) returns (r: Result<Option<KV>>)
    requires WellFormed(n) && start <= |n.items|
    ensures r.Err? <==> start < |n.items| && ShorterThanPrefix(n, lo)
    ensures r.Ok? ==> r.value == ItemAt(n, if EndsLike(n, lo, start) then start + 1 else start)
  {
    var idx := start;
    while idx < |n.items|
      invariant idx == start || (idx == start + 1 && EndsLike(n, lo, start))
      invariant idx <= |n.items|
    {
      if lo.Excluded? {
        if |lo.key| < n.prefixLen { return Err; }
        if lo.key[n.prefixLen..] == n.items[idx].key {
          if start < idx {
            assert Ordered(n.items, start, idx);
            Trichotomy(n.items[idx].key, n.items[idx].key);
            assert false;
          }
          idx := idx + 1;
          continue;
        }
      }
      return Ok(ItemAt(n, idx));
    }
    return Ok(None);
  }

  predicate LowBound(n: Content, lo: Bound) {
    !lo.Unbounded? && Less(lo.key, n.lo)
  }

  lemma NextItemDiffers(n: Content, i: nat)
    requires WellFormed(n) && i < |n.items|
    ensures ItemAt(n, i + 1) != ItemAt(n, i)
  {
    if i + 1 < |n.items| {
      assert Ordered(n.items, i, i + 1);
      Trichotomy(n.items[i].key, n.items[i + 1].key);
      assert DecodeKey(n, n.items[i].key)[n.prefixLen..] == n.items[i].key;
      assert DecodeKey(n, n.items[i + 1].key)[n.prefixLen..] == n.items[i + 1].key;
    }
  }

  /** `successor`: the first item that the bound admits, unless an excluded bound lies below the
      leaf and is shorter than its prefix, or ends like its first item. */
  method Successor(n: Content, lo: Bound) returns (r: Result<Option<KV>>, ghost at: nat)
    requires WellFormed(n) && !n.isIndex && (!lo.Unbounded? ==> Below(lo.key, n.hi))
    ensures FirstAbove(n, lo, at)
    ensures r.Err? <==> LowBound(n, lo) && ShorterThanPrefix(n, lo) && n.items != []
    ensures r == Ok(ItemAt(n, at)) <==>
      !(LowBound(n, lo) && n.items != [] && (ShorterThanPrefix(n, lo) || EndsLike(n, lo, 0)))
  {
    Trichotomy(n.lo, n.lo);
    var key := if lo.Unbounded? || Less(lo.key, n.lo) then n.lo else lo.key;
    OwnedKeyEncodes(n, key);
    var found, start := Find(n.items, key[n.prefixLen..]);
    if lo.Unbounded? || Less(lo.key, n.lo) {
      FoundIsFirst(n, Included(n.lo), found, start);
      UnboundedIsFirst(n, found, start);
      at := 0;
      if LowBound(n, lo) { LowBoundAdmitsAll(n, lo); }
      if n.items != [] { NextItemDiffers(n, 0); }
    } else {
      FoundIsFirst(n, lo, found, start);
      at := if found && lo.Excluded? then start + 1 else start;
      if start < |n.items| { EncodedOrder(n, lo.key, start); Trichotomy(lo.key, Decoded(n)[start].key); }
    }
    r := FirstFrom(n, lo, start);
  }

  /** A leaf with one item, and an excluded bound below it that hides the item. */
  method ExcludedHidesItem() returns (n: Content, lo: Bound, r: Result<Option<KV>>)
    ensures WellFormed(n) && LowBound(n, lo) && FirstAbove(n, lo, 0) && r.Ok? && r.value != ItemAt(n, 0)
  {
    var item := KV([5], []);
    n, lo := Content([1, 5], Some([1, 9]), 1, false, None, [item]), Excluded([0, 5]);
    LessAt([1, 5], [1, 9], 1);
    LessAt([0, 5], [1, 5], 0);
    LessAt([0, 5], [1, 9], 0);
    Trichotomy([1, 5], [1, 5]);
    assert DecodeKey(n, item.key) == [1, 5] && Within(n, 0);
    assert Prefix(n) == [1] == [1, 9][..1];
    assert lo.key[n.prefixLen..] == item.key;
    LowBoundAdmitsAll(n, lo);
    assert Above(lo, Decoded(n)[0].key);
    ghost var at;
    r, at := Successor(n, lo);
  }

  // ---------------------------------------------------------------------------------
  // The leaves
  // ---------------------------------------------------------------------------------

  predicate Adjacent(a: Content, b: Content) {
    a.hi == Some(b.lo)
  }

  /** The leaves of a tree, left to right. */
  ghost predicate Chain(leaves: seq<Content>) {
    && leaves != [] && leaves[0].lo == [] && leaves[|leaves| - 1].hi == None
    && (forall i {:trigger leaves[i]} :: 0 <= i < |leaves| ==> WellFormed(leaves[i]) && !leaves[i].isIndex)
    && (forall i, j {:trigger Adjacent(leaves[i], leaves[j])} :: 0 <= i && j == i + 1 < |leaves| ==>
          Adjacent(leaves[i], leaves[j]))
  }

  /** e is the j-th entry of leaf i. */
  ghost predicate EntryAt(leaves: seq<Content>, e: KV, i: nat, j: nat) {
    i < |leaves| && leaves[i].prefixLen <= |leaves[i].lo| && j < |leaves[i].items| && Decoded(leaves[i])[j] == e
  }

  ghost predicate Has(leaves: seq<Content>, e: KV) {
    exists i: nat, j: nat :: EntryAt(leaves, e, i, j)
  }

  /** The low keys ascend. */
  lemma {:induction false} LosAscend(leaves: seq<Content>, i: nat, j: nat)
    requires Chain(leaves) && i < j < |leaves|
    ensures leaves[i].hi.Some? && AtMost(leaves[i].hi.value, leaves[j].lo)
    decreases j - i
  {
    assert Adjacent(leaves[i], leaves[i + 1]);
    if i + 1 < j {
      LosAscend(leaves, i + 1, j);
      assert WellFormed(leaves[i + 1]);
      Transitive(leaves[i].hi.value, leaves[i + 1].hi.value, leaves[j].lo);
      Trichotomy(leaves[i].hi.value, leaves[j].lo);
    } else {
      Trichotomy(leaves[j].lo, leaves[j].lo);
    }
  }

  /** An entry lies between the bounds of its leaf. */
  lemma EntryWithin(leaves: seq<Content>, e: KV, i: nat, j: nat)
    requires Chain(leaves) && EntryAt(leaves, e, i, j)
    ensures Owns(leaves[i], e.key)
  {
    assert WellFormed(leaves[i]) && Within(leaves[i], j);
  }

  lemma OneOwner(leaves: seq<Content>, k: bytes, i: nat, j: nat)
    requires Chain(leaves) && i < |leaves| && j < |leaves| && Owns(leaves[i], k) && Owns(leaves[j], k)
    ensures i == j
  {
    if i < j {
      LosAscend(leaves, i, j);
      Transitive(leaves[i].hi.value, leaves[j].lo, k);
    } else if j < i {
      LosAscend(leaves, j, i);
      Transitive(leaves[j].hi.value, leaves[i].lo, k);
    }
  }

  /** `view_for_key`: the leaf that owns a key. */
  method ViewForKey(leaves: seq<Content>, k: bytes) returns (i: nat)
    requires Chain(leaves)
    ensures i < |leaves| && Owns(leaves[i], k)
  {
    i := 0;
    while !Below(k, leaves[i].hi)
      invariant i < |leaves| && AtMost(leaves[i].lo, k)
      decreases |leaves| - i
    {
      if i + 1 < |leaves| { assert Adjacent(leaves[i], leaves[i + 1]); }
      i := i + 1;
    }
  }

  /** When its owner has nothing above the bound, the bound moves to the owner's end. */
  lemma NothingHere(leaves: seq<Content>, lo: Bound, i: nat, e: KV)
    requires Chain(leaves) && i < |leaves| && !lo.Unbounded? && Owns(leaves[i], lo.key)
             && FirstAbove(leaves[i], lo, |leaves[i].items|)
    requires Has(leaves, e) && Above(lo, e.key)
    ensures leaves[i].hi.Some? && AtMost(leaves[i].hi.value, e.key)
  {
    var g: nat, j: nat :| EntryAt(leaves, e, g, j);
    EntryWithin(leaves, e, g, j);
    if g < i {
      LosAscend(leaves, g, i);
      Transitive(leaves[g].hi.value, leaves[i].lo, lo.key);
      Transitive(e.key, leaves[g].hi.value, lo.key);
      Trichotomy(e.key, lo.key);
    } else if g > i {
      LosAscend(leaves, i, g);
      Transitive(leaves[i].hi.value, leaves[g].lo, e.key);
    }
  }

  /** The owner's first entry above the bound is the tree's. */
  lemma FirstHere(leaves: seq<Content>, lo: Bound, i: nat, at: nat, e: KV)
    requires Chain(leaves) && i < |leaves| && !lo.Unbounded? && Owns(leaves[i], lo.key)
             && FirstAbove(leaves[i], lo, at) && at < |leaves[i].items|
    requires Has(leaves, e) && Above(lo, e.key)
    ensures AtMost(Decoded(leaves[i])[at].key, e.key)
  {
    var g: nat, j: nat :| EntryAt(leaves, e, g, j);
    var first := Decoded(leaves[i])[at];
    EntryWithin(leaves, e, g, j);
    assert EntryAt(leaves, first, i, at);
    EntryWithin(leaves, first, i, at);
    if g < i {
      LosAscend(leaves, g, i);
      Transitive(leaves[g].hi.value, leaves[i].lo, lo.key);
      Transitive(e.key, leaves[g].hi.value, lo.key);
      Trichotomy(e.key, lo.key);
    } else if g > i {
      LosAscend(leaves, i, g);
      Transitive(first.key, leaves[i].hi.value, leaves[g].lo);
      Transitive(first.key, leaves[g].lo, e.key);
      Trichotomy(first.key, e.key);
    } else {
      Trichotomy(first.key, e.key);
      if at < j {
        assert Ordered(leaves[i].items, at, j);
        DecodedOrder(leaves[i], at, j);
      }
    }
  }

  // ---------------------------------------------------------------------------------
  // The iterator
  // ---------------------------------------------------------------------------------

  /** The entries that are still to come. */
  ghost predicate Ahead(leaves: seq<Content>, lo: Bound, hi: Bound, e: KV) {
    Has(leaves, e) && Above(lo, e.key) && Under(e.key, hi)
  }

  predicate BoundsCollapsed(lo: Bound, hi: Bound) {
    !lo.Unbounded? && !hi.Unbounded? && Less(hi.key, lo.key)
  }

  lemma CollapsedIsEmpty(leaves: seq<Content>, lo: Bound, hi: Bound, e: KV)
    requires BoundsCollapsed(lo, hi)
    ensures !Ahead(leaves, lo, hi, e)
  {
    Transitive(hi.key, lo.key, e.key);
    Trichotomy(hi.key, e.key);
  }

  /** `contains_upper_bound`, asked about the lower bound of the scan. */
  predicate ContainsUpperBound(n: Content, b: Bound) {
    n.hi.None? || match b
                  case Unbounded => false
                  case Included(k) => Less(k, n.hi.value)
                  case Excluded(k) => AtMost(k, n.hi.value)
  }

  /** `contains_lower_bound`, asked about the lower bound of a forward scan. */
  predicate ContainsLowerBound(n: Content, b: Bound) {
    match b
    case Excluded(k) => Less(n.lo, k) || k == n.lo || n.lo == []
    case Included(k) => AtMost(n.lo, k) || n.lo == []
    case Unbounded => n.lo == []
  }

  class Iter {
    const leaves: seq<Content>
    const hi: Bound
    var lo: Bound
    var cached: Option<nat>

    ghost predicate Valid()
      reads this
    {
      && Chain(leaves) && !lo.Unbounded?
      && (cached.Some? ==> cached.value < |leaves| && Owns(leaves[cached.value], lo.key))
    }

    /** `Tree::range`: an open lower end starts at the empty key. */
    constructor (leaves: seq<Content>, lo: Bound, hi: Bound)
      requires Chain(leaves)
      ensures Valid() && this.leaves == leaves && this.hi == hi
      ensures forall k :: Above(this.lo, k) <==> Above(lo, k)
    {
      this.leaves, this.hi, this.cached := leaves, hi, None;
      this.lo := if lo.Unbounded? then Included([]) else lo;
    }

    /** `next_inner`: the least entry still to come, or none for good. */
    method Next() returns (out: Option<KV>)
      requires Valid()
      modifies this
      ensures Valid()
      ensures out.Some? ==> Ahead(leaves, old(lo), hi, out.value) && lo == Excluded(out.value.key)
      ensures out.Some? ==> forall e :: Ahead(leaves, old(lo), hi, e) ==> AtMost(out.value.key, e.key)
      ensures out.None? ==> forall e :: !Ahead(leaves, old(lo), hi, e) && !Ahead(leaves, lo, hi, e)
    {
      ghost var from := lo;
      var at: nat;
      if cached.Some? {
        at := cached.value;
      } else {
        at := ViewForKey(leaves, lo.key);
      }
      cached := None;
      ghost var owner := at;
      while true
        invariant Valid() && cached.None? && at < |leaves| && owner < |leaves| && Owns(leaves[owner], lo.key)
        invariant at == owner || (lo.Included? && leaves[at].hi == Some(lo.key))
        invariant forall e :: Ahead(leaves, from, hi, e) <==> Ahead(leaves, lo, hi, e)
        decreases |leaves| - owner, if at == owner then 0 else 1
      {
        if BoundsCollapsed(lo, hi) {
          forall e ensures !Ahead(leaves, lo, hi, e) { CollapsedIsEmpty(leaves, lo, hi, e); }
          return None;
        }
        if !ContainsUpperBound(leaves[at], lo) {
          OwnerContains(leaves[owner], lo);
          at := ViewForKey(leaves, lo.key);
          OneOwner(leaves, lo.key, at, owner);
          continue;
        }
        MovedOnIsTooLow(leaves, lo, at, owner);
        assert ContainsLowerBound(leaves[at], lo) by { OwnerContains(leaves[at], lo); }
        var e, first := Successor(leaves[at], lo);
        if e.value.Some? {
          out := Take(from, at, e.value.value, first);
          return;
        } else if leaves[at].hi.Some? {
          MoveOn(leaves, lo, hi, at);
          lo := Included(leaves[at].hi.value);
          owner := at + 1;
        } else {
          forall e ensures !Ahead(leaves, lo, hi, e) { if Ahead(leaves, lo, hi, e) { NothingHere(leaves, lo, at, e); } }
          return None;
        }
      }
    }

    /** Return the entry found, unless it is beyond the upper bound. */
    method Take(ghost from: Bound, at: nat, e: KV, ghost first: nat) returns (out: Option<KV>)
      requires Valid() && at < |leaves| && Owns(leaves[at], lo.key)
      requires FirstAbove(leaves[at], lo, first) && first < |leaves[at].items| && e == Decoded(leaves[at])[first]
      requires forall x :: Ahead(leaves, from, hi, x) <==> Ahead(leaves, lo, hi, x)
      modifies this
      ensures Valid()
      ensures out.Some? ==> Ahead(leaves, from, hi, out.value) && lo == Excluded(out.value.key)
      ensures out.Some? ==> forall x :: Ahead(leaves, from, hi, x) ==> AtMost(out.value.key, x.key)
      ensures out.None? ==> forall x :: !Ahead(leaves, from, hi, x) && !Ahead(leaves, lo, hi, x)
    {
      ghost var was := lo;
      assert EntryAt(leaves, e, at, first);
      EntryWithin(leaves, e, at, first);
      forall x | Ahead(leaves, lo, hi, x) ensures AtMost(e.key, x.key) { FirstHere(leaves, lo, at, first, x); }
      lo := Excluded(e.key);
      cached := Some(at);
      if Under(e.key, hi) {
        return Some(e);
      }
      forall x ensures !Ahead(leaves, was, hi, x) && !Ahead(leaves, lo, hi, x) {
        BeyondIsEmpty(leaves, was, hi, e.key, x);
      }
      return None;
    }
  }

  lemma BeyondIsEmpty(leaves: seq<Content>, lo: Bound, hi: Bound, k: bytes, x: KV)
    requires !Under(k, hi) && (Ahead(leaves, lo, hi, x) ==> AtMost(k, x.key))
    ensures !Ahead(leaves, lo, hi, x) && !Ahead(leaves, Excluded(k), hi, x)
  {
    Transitive(hi.key, k, x.key);
    Transitive(k, x.key, hi.key);
    Trichotomy(k, x.key);
    Trichotomy(hi.key, x.key);
  }

  lemma OwnerContains(n: Content, lo: Bound)
    requires !lo.Unbounded? && Owns(n, lo.key)
    ensures ContainsUpperBound(n, lo) && ContainsLowerBound(n, lo)
  {
    Trichotomy(n.lo, lo.key);
    if n.hi.Some? { Trichotomy(lo.key, n.hi.value); }
  }

  /** A leaf whose end the bound has moved to does not contain the bound. */
  lemma MovedOnIsTooLow(leaves: seq<Content>, lo: Bound, at: nat, owner: nat)
    requires at < |leaves| && ContainsUpperBound(leaves[at], lo)
    requires at == owner || (lo.Included? && leaves[at].hi == Some(lo.key))
    ensures at == owner
  {
    if lo.Included? { Trichotomy(lo.key, lo.key); }
  }

  lemma MoveOn(leaves: seq<Content>, lo: Bound, hi: Bound, at: nat)
    requires Chain(leaves) && at < |leaves| && !lo.Unbounded? && Owns(leaves[at], lo.key) && leaves[at].hi.Some?
    requires FirstAbove(leaves[at], lo, |leaves[at].items|)
    ensures at + 1 < |leaves| && Owns(leaves[at + 1], leaves[at].hi.value)
    ensures forall e :: Ahead(leaves, lo, hi, e) <==> Ahead(leaves, Included(leaves[at].hi.value), hi, e)
  {
    var h := leaves[at].hi.value;
    assert Adjacent(leaves[at], leaves[at + 1]) && WellFormed(leaves[at + 1]);
    Trichotomy(h, h);
    forall e ensures Ahead(leaves, lo, hi, e) <==> Ahead(leaves, Included(h), hi, e) {
      if Ahead(leaves, lo, hi, e) { NothingHere(leaves, lo, at, e); }
      Transitive(lo.key, h, e.key);
      Trichotomy(lo.key, e.key);
    }
  }

  // ---------------------------------------------------------------------------------
  // A whole scan
  // ---------------------------------------------------------------------------------

  ghost function Entries(leaves: seq<Content>): set<KV>
    requires Chain(leaves)
  {
    set i, j | 0 <= i < |leaves| && 0 <= j < |leaves[i].items| :: Decoded(leaves[i])[j]
  }

  ghost function Remaining(leaves: seq<Content>, lo: Bound, hi: Bound): (r: set<KV>)
    requires Chain(leaves)
    ensures forall e :: e in r <==> Ahead(leaves, lo, hi, e)
  {
    var r := set e | e in Entries(leaves) && Above(lo, e.key) && Under(e.key, hi);
    assert forall e :: e in r <==> Ahead(leaves, lo, hi, e) by {
      forall e ensures e in Entries(leaves) <==> Has(leaves, e) {
        if e in Entries(leaves) {
          var i: nat, j: nat :| i < |leaves| && j < |leaves[i].items| && Decoded(leaves[i])[j] == e;
          assert EntryAt(leaves, e, i, j);
        }
      }
    }
    r
  }

  predicate Ascending(es: seq<KV>) {
    forall i, j {:trigger es[i], es[j]} :: 0 <= i < j < |es| ==> Less(es[i].key, es[j].key)
  }

  /** Returning the least entry ahead leaves exactly the others ahead. */
  lemma NextLeaves(leaves: seq<Content>, lo: Bound, hi: Bound, e: KV, x: KV)
    requires Chain(leaves) && Ahead(leaves, lo, hi, e) && (Ahead(leaves, lo, hi, x) ==> AtMost(e.key, x.key))
             && !lo.Unbounded?
    ensures Ahead(leaves, lo, hi, x) <==> x == e || Ahead(leaves, Excluded(e.key), hi, x)
  {
    Transitive(lo.key, e.key, x.key);
    Trichotomy(lo.key, x.key);
    Trichotomy(e.key, x.key);
    if Has(leaves, x) && x.key == e.key { OneEntry(leaves, e, x); }
  }

  lemma OneEntry(leaves: seq<Content>, e: KV, x: KV)
    requires Chain(leaves) && Has(leaves, e) && Has(leaves, x) && x.key == e.key
    ensures x == e
  {
    var i: nat, j: nat :| EntryAt(leaves, e, i, j);
    var g: nat, h: nat :| EntryAt(leaves, x, g, h);
    EntryWithin(leaves, e, i, j);
    EntryWithin(leaves, x, g, h);
    OneOwner(leaves, e.key, i, g);
    DecodedOrder(leaves[i], j, h);
    DecodedOrder(leaves[i], h, j);
    Trichotomy(e.key, e.key);
  }

  /** What has been returned, in order, and what is still to come are together what was to
      come at first. */
  ghost predicate Progress(leaves: seq<Content>, from: Bound, lo: Bound, hi: Bound, out: seq<KV>) {
    && Ascending(out)
    && (forall e :: Ahead(leaves, from, hi, e) <==> e in out || Ahead(leaves, lo, hi, e))
    && (out != [] ==> lo == Excluded(out[|out| - 1].key))
  }

  lemma ProgressNext(leaves: seq<Content>, from: Bound, lo: Bound, hi: Bound, out: seq<KV>, e: KV)
    requires Chain(leaves) && Progress(leaves, from, lo, hi, out) && !lo.Unbounded? && Ahead(leaves, lo, hi, e)
    requires forall x :: Ahead(leaves, lo, hi, x) ==> AtMost(e.key, x.key)
    ensures Progress(leaves, from, Excluded(e.key), hi, out + [e])
    ensures Remaining(leaves, Excluded(e.key), hi) < Remaining(leaves, lo, hi)
  {
    forall x ensures Ahead(leaves, lo, hi, x) <==> x == e || Ahead(leaves, Excluded(e.key), hi, x) {
      NextLeaves(leaves, lo, hi, e, x);
    }
    Trichotomy(e.key, e.key);
    assert e in Remaining(leaves, lo, hi) && e !in Remaining(leaves, Excluded(e.key), hi);
    forall i | 0 <= i < |out| ensures Less(out[i].key, e.key) {
      Transitive(out[i].key, out[|out| - 1].key, e.key);
    }
  }

  /** Calling `next` until it returns None yields exactly the entries inside the bounds, in
      strictly increasing order, and after that there is nothing left to return. */
  method Collect(it: Iter) returns (out: seq<KV>)
    requires it.Valid()
    modifies it
    ensures Ascending(out) && forall e :: e in out <==> Ahead(it.leaves, old(it.lo), it.hi, e)
    ensures it.Valid() && forall e :: !Ahead(it.leaves, it.lo, it.hi, e)
  {
    ghost var from := it.lo;
    out := [];
    while true
      invariant it.Valid() && Progress(it.leaves, from, it.lo, it.hi, out)
      decreases Remaining(it.leaves, it.lo, it.hi)
    {
      ghost var lo := it.lo;
      var e := it.Next();
      if e.None? {
        return;
      }
      ProgressNext(it.leaves, from, lo, it.hi, out, e.value);
      out := out + [e.value];
    }
  }

  // ---------------------------------------------------------------------------------
  // scan_prefix
  // ---------------------------------------------------------------------------------

  predicate StartsWith(k: bytes, p: bytes) {
    |p| <= |k| && k[..|p|] == p
  }

  predicate AllMax(p: bytes) {
    forall i :: 0 <= i < |p| ==> p[i] == 255
  }

  /** Only keys that start with it are at or above a string of 255s. */
  lemma {:induction false} AboveMax(p: bytes, k: bytes)
    requires AllMax(p)
    ensures AtMost(p, k) <==> StartsWith(k, p)
  {
    if p != [] && k != [] {
      AboveMax(p[1..], k[1..]);
      assert p == [p[0]] + p[1..];
      if |p| <= |k| {
        assert k[..|p|] == [k[0]] + k[1..][..|p| - 1];
      }
    }
  }

  lemma StartsBelow(prefix: bytes, i: nat, k: bytes)
    requires i < |prefix| && prefix[i] < 255 && StartsWith(k, prefix)
    ensures AtMost(prefix, k) && Less(k, prefix[..i] + [prefix[i] + 1])
  {
    var upper := prefix[..i] + [prefix[i] + 1];
    PrefixAtMost(prefix, k);
    assert upper[..i] == prefix[..i];
    assert k[..i] == k[..|prefix|][..i] && k[i] == k[..|prefix|][i];
    LessAt(k, upper, i);
  }

  lemma BetweenStarts(prefix: bytes, i: nat, k: bytes)
    requires i < |prefix| && prefix[i] < 255 && AllMax(prefix[i + 1..])
    requires AtMost(prefix, k) && Less(k, prefix[..i] + [prefix[i] + 1])
    ensures StartsWith(k, prefix)
  {
    var upper := prefix[..i] + [prefix[i] + 1];
    assert upper[..i] == prefix[..i];
    BetweenSharesPrefix(prefix, k, upper, i);
    StripKeepsOrder(k, prefix, i);
    StripKeepsOrder(k, upper, i);
    assert prefix[i..] == [prefix[i]] + prefix[i + 1..] && upper[i..] == [prefix[i] + 1];
    assert k[i..][1..] == k[i + 1..] && prefix[i..][1..] == prefix[i + 1..];
    AboveMax(prefix[i + 1..], k[i + 1..]);
    assert k[..|prefix|] == k[..i] + [k[i]] + k[i + 1..][..|prefix| - i - 1];
  }

  /** The keys between a prefix and its last smaller byte raised by one are those that start
      with the prefix. */
  lemma RaisedBound(prefix: bytes, i: nat, k: bytes)
    requires i < |prefix| && prefix[i] < 255 && AllMax(prefix[i + 1..])
    ensures StartsWith(k, prefix) <==> AtMost(prefix, k) && Less(k, prefix[..i] + [prefix[i] + 1])
  {
    if StartsWith(k, prefix) {
      StartsBelow(prefix, i, k);
    } else if AtMost(prefix, k) && Less(k, prefix[..i] + [prefix[i] + 1]) {
      BetweenStarts(prefix, i, k);
    }
  }

  /** `scan_prefix`: its range holds exactly the keys that start with the prefix. */
  method PrefixRange(prefix: bytes) returns (lo: Bound, hi: Bound)
    ensures forall k :: StartsWith(k, prefix) <==> Above(lo, k) && Under(k, hi)
  {
    var upper := prefix;
    while upper != []
      invariant |upper| <= |prefix| && upper == prefix[..|upper|] && AllMax(prefix[|upper|..])
      decreases |upper|
    {
      var last := upper[|upper| - 1];
      upper := upper[..|upper| - 1];
      assert upper == prefix[..|upper|] && last == prefix[|upper|];
      assert prefix[|upper|..] == [last] + prefix[|upper| + 1..];
      if last < 255 {
        forall k ensures StartsWith(k, prefix) <==> AtMost(prefix, k) && Less(k, upper + [last + 1]) {
          RaisedBound(prefix, |upper|, k);
        }
        return Included(prefix), Excluded(upper + [last + 1]);
      }
    }
    assert prefix[0..] == prefix;
    forall k ensures StartsWith(k, prefix) <==> AtMost(prefix, k) { AboveMax(prefix, k); }
    return Included(prefix), Unbounded;
  }
}
