/** One shard of the LRU cache. */
module Lru {
  import opened Base
  import opened Dll

  datatype Entry = Entry(ptr: Node?, size: nat)

  ghost function Total(entries: seq<Entry>): nat {
    if entries == [] then 0 else Total(entries[..|entries| - 1]) + entries[|entries| - 1].size
  }

  lemma {:induction false} TotalUpdate(entries: seq<Entry>, i: nat, e: Entry)
    requires i < |entries|
    ensures Total(entries[i := e]) == Total(entries) - entries[i].size + e.size
    ensures entries[i].size <= Total(entries)
  {
    var most, after := entries[..|entries| - 1], entries[i := e];
    if i == |entries| - 1 {
      assert after[..|after| - 1] == most;
    } else {
      TotalUpdate(most, i, e);
      assert after[..|after| - 1] == most[i := e];
    }
  }

  lemma {:induction false} TotalResize(entries: seq<Entry>, more: seq<Entry>)
    requires forall i :: 0 <= i < |more| ==> more[i].size == 0
    ensures Total(entries + more) == Total(entries)
  {
    if more == [] {
      assert entries + more == entries;
    } else {
      var all := entries + more;
      assert all[..|all| - 1] == entries + more[..|more| - 1];
      TotalResize(entries, more[..|more| - 1]);
    }
  }

  /** The items of a list of nodes. */
  ghost function Inners(nodes: seq<Node>): (r: seq<PageId>)
    ensures |r| == |nodes| && forall i :: 0 <= i < |nodes| ==> r[i] == nodes[i].inner
  {
    seq(|nodes|, i requires 0 <= i < |nodes| => nodes[i].inner)
  }

  /** The recency list after an access: the item moves, or comes, to the most recent end. */
  ghost function Touched(order: seq<PageId>, pos: PageId): seq<PageId> {
    if order == [] then [pos]
    else if order[0] == pos then order[1..] + [pos]
    else [order[0]] + Touched(order[1..], pos)
  }

  lemma {:induction false} TouchedAt(order: seq<PageId>, pos: PageId, i: nat)
    requires i < |order| && order[i] == pos && pos !in order[..i]
    ensures Touched(order, pos) == order[..i] + order[i + 1..] + [pos]
  {
    if i == 0 {
      assert order[..0] + order[1..] == order[1..];
    } else {
      assert order[0] in order[..i];
      assert order[1..][..i - 1] == order[..i][1..];
      TouchedAt(order[1..], pos, i - 1);
      assert order[1..][i..] == order[i + 1..];
      assert [order[0]] + order[1..][..i - 1] == order[..i];
    }
  }

  lemma {:induction false} TouchedNew(order: seq<PageId>, pos: PageId)
    requires pos !in order
    ensures Touched(order, pos) == order + [pos]
  {
    if order != [] {
      TouchedNew(order[1..], pos);
      assert [order[0]] + (order[1..] + [pos]) == order + [pos];
    }
  }

  lemma {:induction false} TouchedLast(order: seq<PageId>, pos: PageId)
    ensures Touched(order, pos) != [] && Touched(order, pos)[|Touched(order, pos)| - 1] == pos
  {
    if order != [] && order[0] != pos { TouchedLast(order[1..], pos); }
  }

  // ---------------------------------------------------------------------------------
  // Entries and nodes point to each other
  // ---------------------------------------------------------------------------------

  ghost predicate NodeOk(entries: seq<Entry>, nodes: seq<Node>, i: int)
    requires 0 <= i < |nodes|
  {
    nodes[i].inner < |entries| && entries[nodes[i].inner].ptr == nodes[i]
  }

  ghost predicate EntryOk(entries: seq<Entry>, nodes: seq<Node>, q: int)
    requires 0 <= q < |entries|
  {
    if entries[q].ptr == null then entries[q].size == 0 else entries[q].ptr in nodes && entries[q].ptr.inner == q
  }

  ghost predicate Indexed(entries: seq<Entry>, nodes: seq<Node>) {
    && (forall i {:trigger NodeOk(entries, nodes, i)} :: 0 <= i < |nodes| ==> NodeOk(entries, nodes, i))
    && (forall q {:trigger EntryOk(entries, nodes, q)} :: 0 <= q < |entries| ==> EntryOk(entries, nodes, q))
  }

  lemma InnersDiffer(entries: seq<Entry>, nodes: seq<Node>, i: nat, j: nat)
    requires Distinct(nodes) && Indexed(entries, nodes) && i < j < |nodes|
    ensures nodes[i].inner != nodes[j].inner
  {
    assert NodeOk(entries, nodes, i) && NodeOk(entries, nodes, j) && nodes[i] != nodes[j];
  }

  lemma IndexedResize(entries: seq<Entry>, nodes: seq<Node>, more: seq<Entry>)
    requires Indexed(entries, nodes) && forall i :: 0 <= i < |more| ==> more[i] == Entry(null, 0)
    ensures Indexed(entries + more, nodes)
  {
    var all := entries + more;
    forall i | 0 <= i < |nodes| ensures NodeOk(all, nodes, i) { assert NodeOk(entries, nodes, i); }
    forall q | 0 <= q < |all| ensures EntryOk(all, nodes, q) { assert q < |entries| ==> EntryOk(entries, nodes, q); }
  }

  lemma IndexedPush(entries: seq<Entry>, nodes: seq<Node>, pos: nat, p: Node, itemSize: nat)
    requires Indexed(entries, nodes) && pos < |entries| && entries[pos].ptr == null && p.inner == pos
    ensures Indexed(entries[pos := Entry(p, itemSize)], nodes + [p]) && pos !in Inners(nodes)
  {
    var e, n := entries[pos := Entry(p, itemSize)], nodes + [p];
    forall i | 0 <= i < |nodes| ensures nodes[i].inner != pos { assert NodeOk(entries, nodes, i); }
    forall i | 0 <= i < |n| ensures NodeOk(e, n, i) {
      assert i < |nodes| ==> NodeOk(entries, nodes, i) && n[i] == nodes[i];
    }
    assert n[|nodes|] == p;
    forall q | 0 <= q < |e| ensures EntryOk(e, n, q) { assert EntryOk(entries, nodes, q); }
  }

  ghost function Promoted(nodes: seq<Node>, i: nat): seq<Node>
    requires i < |nodes|
  {
    nodes[..i] + nodes[i + 1..] + [nodes[i]]
  }

  lemma PromotedMembers(nodes: seq<Node>, i: nat, n: Node)
    requires i < |nodes|
    ensures n in Promoted(nodes, i) <==> n in nodes
  {
    assert nodes == nodes[..i] + [nodes[i]] + nodes[i + 1..];
  }

  lemma IndexedPromote(entries: seq<Entry>, nodes: seq<Node>, i: nat, itemSize: nat)
    requires Indexed(entries, nodes) && i < |nodes|
    ensures nodes[i].inner < |entries| && Indexed(entries[nodes[i].inner := Entry(nodes[i], itemSize)],
            Promoted(nodes, i))
  {
    assert NodeOk(entries, nodes, i);
    var pos, n := nodes[i].inner, Promoted(nodes, i);
    var e := entries[pos := Entry(nodes[i], itemSize)];
    forall k | 0 <= k < |n| ensures NodeOk(e, n, k) {
      var j := if k < i then k else if k < |n| - 1 then k + 1 else i;
      assert n[k] == nodes[j] && NodeOk(entries, nodes, j);
    }
    forall q | 0 <= q < |e| ensures EntryOk(e, n, q) {
      assert EntryOk(entries, nodes, q);
      if e[q].ptr != null { PromotedMembers(nodes, i, e[q].ptr); }
    }
  }

  lemma IndexedPop(entries: seq<Entry>, nodes: seq<Node>)
    requires Indexed(entries, nodes) && Distinct(nodes) && nodes != []
    ensures nodes[0].inner < |entries| && Indexed(entries[nodes[0].inner := Entry(null, 0)], nodes[1..])
  {
    assert NodeOk(entries, nodes, 0);
    var v, n := nodes[0].inner, nodes[1..];
    var e := entries[v := Entry(null, 0)];
    forall k | 0 <= k < |n| ensures NodeOk(e, n, k) {
      assert n[k] == nodes[k + 1] && NodeOk(entries, nodes, k + 1);
      InnersDiffer(entries, nodes, 0, k + 1);
    }
    forall q | 0 <= q < |e| ensures EntryOk(e, n, q) {
      assert EntryOk(entries, nodes, q);
      if e[q].ptr != null { assert nodes == [nodes[0]] + n && e[q].ptr != nodes[0]; }
    }
  }

  /** The recency list follows the node that is promoted. */
  lemma PromotedOrder(entries: seq<Entry>, nodes: seq<Node>, i: nat)
    requires Distinct(nodes) && Indexed(entries, nodes) && i < |nodes|
    ensures Inners(Promoted(nodes, i)) == Touched(Inners(nodes), nodes[i].inner)
  {
    var order := Inners(nodes);
    forall j | 0 <= j < i ensures order[..i][j] != nodes[i].inner { InnersDiffer(entries, nodes, j, i); }
    TouchedAt(order, nodes[i].inner, i);
    assert Inners(Promoted(nodes, i)) == order[..i] + order[i + 1..] + [order[i]];
  }

  class Shard {
    const list: DoublyLinkedList
    const capacity: nat
    var entries: seq<Entry>
    var size: nat
    ghost var order: seq<PageId>     // from the least to the most recently accessed item
    ghost var sizes: seq<nat>        // of all entries

    ghost predicate Valid()
      reads this, list, list.repr
    {
      && capacity > 0 && list.Valid() && size == Total(entries) && Indexed(entries, list.nodes)
      && order == Inners(list.nodes) && sizes == SizesOf(entries)
    }

    constructor (capacity: nat)
      requires capacity > 0
      ensures Valid() && this.capacity == capacity && order == [] && sizes == [] && fresh(list) && fresh(list.repr)
    {
      list := new DoublyLinkedList();
      this.capacity := capacity;
      entries, order, sizes := [], [], [];
      size := 0;
    }

    /** The entries grow up to position pos. */
    method Resize(pos: nat)
      requires Valid()
      modifies this`entries, this`sizes
      ensures Valid() && sizes == Resized(old(sizes), pos)
    {
      if pos >= |entries| {
        var more := seq(pos + 1 - |entries|, _ => Entry(null, 0));
        TotalResize(entries, more);
        IndexedResize(entries, list.nodes, more);
        entries := entries + more;
        sizes := Resized(sizes, pos);
      }
    }

    /** The item's node is promoted, or a new one is pushed. */
    method Relink(pos: nat, ghost itemSize: nat) returns (p: Node)
      requires pos < |entries| && list.Valid() && Indexed(entries, list.nodes)
      modifies list, list.repr
      ensures list.Valid() && Indexed(entries[pos := Entry(p, itemSize)], list.nodes)
      ensures Inners(list.nodes) == Touched(Inners(old(list.nodes)), pos)
      ensures fresh(list.repr - old(list.repr))
    {
      ghost var nodes := list.nodes;
      assert EntryOk(entries, nodes, pos);
      if entries[pos].ptr == null {
        p := list.PushHead(pos);
        IndexedPush(entries, nodes, pos, p, itemSize);
        TouchedNew(Inners(nodes), pos);
        assert Inners(nodes + [p]) == Inners(nodes) + [pos];
      } else {
        p := entries[pos].ptr;
        ghost var i :| 0 <= i < |nodes| && nodes[i] == p;
        IndexedPromote(entries, nodes, i, itemSize);
        PromotedOrder(entries, nodes, i);
        list.Promote(p, i);
      }
    }

    /** The first part of `accessed`: the entry gets its new size and becomes the most recent. */
    method Touch(pos: nat, itemSize: nat)
      requires Valid() && pos < |sizes|
      modifies this, list, list.repr
      ensures Valid() && order == Touched(old(order), pos) && sizes == old(sizes)[pos := itemSize]
      ensures fresh(list.repr - old(list.repr))
    {
      var p := Relink(pos, itemSize);
      TotalUpdate(entries, pos, Entry(p, itemSize));
      size := size - entries[pos].size + itemSize;
      entries := entries[pos := Entry(p, itemSize)];
      order, sizes := Touched(order, pos), sizes[pos := itemSize];
    }

    /** The body of the eviction loop. */
    method EvictOne() returns (victim: PageId)
      requires Valid() && |order| > 1
      modifies this, list, list.repr
      ensures Valid() && victim == old(order)[0] && order == old(order)[1..]
      ensures victim < |old(sizes)| && sizes == old(sizes)[victim := 0] && size == old(size) - old(sizes)[victim]
      ensures list.repr == old(list.repr)
    {
      ghost var nodes := list.nodes;
      IndexedPop(entries, nodes);
      var r := list.PopTail();
      victim := r.value;
      TotalUpdate(entries, victim, Entry(null, 0));
      size := size - entries[victim].size;
      entries := entries[victim := Entry(null, 0)];
      order, sizes := order[1..], sizes[victim := 0];
    }

    /** The eviction loop. */
    method Evict() returns (evicted: seq<PageId>)
      requires Valid() && order != []
      modifies this, list, list.repr
      ensures Valid() && evicted + order == old(order) && order != []
      ensures size <= capacity || |order| == 1
      ensures Zeroed(old(sizes), sizes, evicted) && Necessary(old(sizes), evicted, size, capacity)
      ensures list.repr == old(list.repr)
    {
      evicted := [];
      ghost var before, was := order, sizes;
      while size > capacity
        invariant Valid() && |evicted| < |before| && evicted == before[..|evicted|] && order == before[|evicted|..]
        invariant Zeroed(was, sizes, evicted) && Necessary(was, evicted, size, capacity)
        invariant list.repr == old(list.repr)
        decreases |order|
      {
        if list.len == 1 { break; }
        ghost var now := sizes;
        NextVictim(before, evicted);
        var victim := EvictOne();
        ZeroedMore(was, now, evicted, victim);
        evicted := evicted + [victim];
      }
    }

    /** `Shard::accessed`. The evicted items are the least recent ones, in order, and no more of
        them than needed to fit the capacity; the item just accessed is never among them. */
    method Accessed(pos: nat, itemSize: nat) returns (evicted: seq<PageId>)
      requires Valid()
      modifies this, list, list.repr
      ensures Valid() && fresh(list.repr - old(list.repr))
      ensures evicted + order == Touched(old(order), pos)
      ensures order != [] && order[|order| - 1] == pos
      ensures size <= capacity || |order| == 1
      ensures var touched := Resized(old(sizes), pos)[pos := itemSize];
        Zeroed(touched, sizes, evicted) && Necessary(touched, evicted, size, capacity)
    {
      TouchedLast(order, pos);
      Resize(pos);
      Touch(pos, itemSize);
      ghost var touched := order;
      evicted := Evict();
      assert touched[|touched| - 1] == order[|order| - 1];
    }
  }

  ghost function SizesOf(entries: seq<Entry>): (r: seq<nat>)
    ensures |r| == |entries| && forall i :: 0 <= i < |entries| ==> r[i] == entries[i].size
  {
    seq(|entries|, i requires 0 <= i < |entries| => entries[i].size)
  }

  ghost function Resized(sizes: seq<nat>, pos: nat): (r: seq<nat>)
    ensures pos < |r|
  {
    if pos < |sizes| then sizes else sizes + seq(pos + 1 - |sizes|, _ => 0)
  }

  /** The evicted items have size 0, the others keep theirs. */
  ghost predicate Zeroed(before: seq<nat>, after: seq<nat>, evicted: seq<PageId>) {
    |after| == |before| && forall q :: 0 <= q < |after| ==> after[q] == if q in evicted then 0 else before[q]
  }

  /** Without the last eviction the capacity would be exceeded. */
  ghost predicate Necessary(before: seq<nat>, evicted: seq<PageId>, size: nat, capacity: nat) {
    evicted != [] ==> evicted[|evicted| - 1] < |before| && size + before[evicted[|evicted| - 1]] > capacity
  }

  lemma NextVictim(order: seq<PageId>, evicted: seq<PageId>)
    requires |evicted| < |order| && evicted == order[..|evicted|]
    ensures evicted + [order[|evicted|]] == order[..|evicted| + 1] && order[|evicted|..][1..] == order[|evicted| + 1..]
    ensures order[|evicted|..][0] == order[|evicted|]
  {}

  lemma ZeroedMore(before: seq<nat>, after: seq<nat>, evicted: seq<PageId>, victim: PageId)
    requires Zeroed(before, after, evicted) && victim < |after|
    ensures Zeroed(before, after[victim := 0], evicted + [victim]) && after[victim] <= before[victim]
  {}
}
