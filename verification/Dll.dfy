/** The doubly linked list behind the LRU cache. `next` leads towards the head, which is the most
    recent item, and `prev` towards the tail. */
module Dll {
  import opened Base

  class Node {
    const inner: PageId
    var next: Node?
    var prev: Node?

    constructor (inner: PageId, prev: Node?)
      ensures this.inner == inner && this.next == null && this.prev == prev
    {
      this.inner := inner;
      this.next := null;
      this.prev := prev;
    }

    /** Takes the node out from between its neighbours. */
    method Unwire()
      requires prev != this && next != this && (prev != null ==> prev != next)
      modifies this, prev, next
      ensures next == null && prev == null
      ensures old(prev) != null ==> old(prev).next == old(next) && old(prev).prev == old(prev.prev)
      ensures old(next) != null ==> old(next).prev == old(prev) && old(next).next == old(next.next)
    {
      if prev != null { prev.next := next; }
      if next != null { next.prev := prev; }
      next := null;
      prev := null;
    }
  }

  ghost function Nth(s: seq<Node>, i: int): Node? {
    if 0 <= i < |s| then s[i] else null
  }

  ghost predicate Distinct(s: seq<Node>) {
    forall i, j {:trigger s[i], s[j]} :: 0 <= i < j < |s| ==> s[i] != s[j]
  }

  ghost predicate Wired(s: seq<Node>, i: int)
    requires 0 <= i < |s|
    reads s[i]
  {
    s[i].next == Nth(s, i + 1) && s[i].prev == Nth(s, i - 1)
  }

  class DoublyLinkedList {
    var head: Node?
    var tail: Node?
    var len: nat
    ghost var nodes: seq<Node>      // from the tail to the head
    ghost var repr: set<Node>       // all nodes the list ever had

    ghost predicate Valid()
      reads this, repr
    {
      && len == |nodes| && Distinct(nodes) && (forall i {:trigger nodes[i]} :: 0 <= i < |nodes| ==> nodes[i] in repr)
      && head == Nth(nodes, |nodes| - 1) && tail == Nth(nodes, 0)
      && (forall i {:trigger Wired(nodes, i)} :: 0 <= i < |nodes| ==> Wired(nodes, i))
    }

    constructor ()
      ensures Valid() && nodes == [] && repr == {}
    {
      head, tail, len, nodes, repr := null, null, 0, [], {};
    }

    method PushHead(item: PageId) returns (p: Node)
      requires Valid()
      modifies this, repr
      ensures Valid() && fresh(p) && p.inner == item && nodes == old(nodes) + [p] && repr == old(repr) + {p}
    {
      len := len + 1;
      p := new Node(item, head);
      repr := repr + {p};
      PushHeadPtr(p);
    }

    /** Links a node that has no neighbours above it at the head. */
    method PushHeadPtr(p: Node)
      requires len == |nodes| + 1 && p in repr && (forall i {:trigger nodes[i]} :: 0 <= i < |nodes| ==>
               nodes[i] in repr)
      requires Distinct(nodes + [p]) && head == Nth(nodes, |nodes| - 1) && tail == Nth(nodes, 0)
      requires forall i {:trigger Wired(nodes, i)} :: 0 <= i < |nodes| ==> Wired(nodes, i)
      requires p.next == null && (p.prev == head || p.prev == null)
      modifies this`head, this`tail, this`nodes, head, p
      ensures Valid() && nodes == old(nodes) + [p]
    {
      ghost var was := nodes;
      assert was != [] ==> (was + [p])[|was| - 1] != (was + [p])[|was|];
      if head != null {
        head.next := p;
        p.prev := head;
      }
      if tail == null { tail := p; }
      head := p;
      nodes := nodes + [p];
      assert nodes[|was|] == p;
      forall i | 0 <= i < |nodes| ensures Wired(nodes, i) {
        if i < |was| {
          assert old(Wired(was, i)) && nodes[i] == was[i] && nodes[i] != nodes[|was|];
          assert i < |was| - 1 ==> nodes[i] != nodes[|was| - 1];
        }
      }
    }

    method PopTail() returns (r: Option<PageId>)
      requires Valid()
      modifies this, repr
      ensures Valid() && repr == old(repr)
      ensures old(nodes) == [] ==> r == None && nodes == []
      ensures old(nodes) != [] ==> r == Some(old(nodes)[0].inner) && nodes == old(nodes)[1..]
    {
      if tail == null { return None; }
      ghost var was := nodes;
      assert Wired(nodes, 0);
      len := len - 1;
      var last := tail;
      if head == tail { head := null; }
      tail := last.next;
      if |was| > 1 { assert was[1] != was[0]; }
      last.Unwire();
      nodes := nodes[1..];
      forall i | 0 <= i < |nodes| ensures Wired(nodes, i) {
        assert nodes[i] == was[i + 1] && old(Wired(was, i + 1)) && was[0] != was[i + 1];
        assert i + 1 < |nodes| ==> nodes[i + 1] == was[i + 2];
        assert i > 0 ==> was[1] != was[i + 1];
      }
      r := Some(last.inner);
    }

    /** Takes a node that is not the head out of the list. */
    method Detach(p: Node, ghost i: nat)
      requires Valid() && i + 1 < |nodes| && nodes[i] == p
      modifies this`tail, this`nodes, repr
      ensures nodes == old(nodes)[..i] + old(nodes)[i + 1..] && tail == Nth(nodes, 0) && p.next == null
              && p.prev == null
      ensures forall k {:trigger Wired(nodes, k)} :: 0 <= k < |nodes| ==> Wired(nodes, k)
    {
      ghost var was := nodes;
      assert Wired(was, i);
      if tail == p { tail := p.next; }
      assert i > 0 ==> was[i - 1] != was[i + 1] && was[i - 1] != was[i];
      assert was[i] != was[i + 1];
      p.Unwire();
      nodes := was[..i] + was[i + 1..];
      forall k | 0 <= k < |nodes| ensures Wired(nodes, k) {
        var j := if k < i then k else k + 1;
        assert old(Wired(was, j)) && was[j] != was[i];
        assert j != i - 1 && i > 0 ==> was[j] != was[i - 1];
        assert j != i + 1 ==> was[j] != was[i + 1];
        Neighbours(was, i, k, j, nodes);
      }
    }

    /** Moves a node of the list to the head. */
    method Promote(p: Node, ghost i: nat)
      requires Valid() && i < |nodes| && nodes[i] == p
      modifies this, repr
      ensures Valid() && repr == old(repr) && nodes == old(nodes)[..i] + old(nodes)[i + 1..] + [p]
    {
      ghost var was := nodes;
      assert p == was[i];
      if head == p {
        assert i == |was| - 1;
        assert was == was[..i] + was[i + 1..] + [p];
        return;
      }
      Detach(p, i);
      Moved(was, i);
      PushHeadPtr(p);
    }
  }

  lemma Moved(was: seq<Node>, i: nat)
    requires i + 1 < |was| && Distinct(was)
    ensures var rest := was[..i] + was[i + 1..]; Distinct(rest + [was[i]]) && rest[|rest| - 1] == was[|was| - 1]
  {
    var all := was[..i] + was[i + 1..] + [was[i]];
    forall a, b | 0 <= a < b < |all| ensures all[a] != all[b] {
      assert all[a] == was[if a < i then a else a + 1];
      assert all[b] == was[if b < i then b else if b == |was| - 1 then i else b + 1];
    }
  }

  /** The neighbours of a node in a list from which node i was taken out. */
  lemma Neighbours(was: seq<Node>, i: nat, k: nat, j: nat, rest: seq<Node>)
    requires i + 1 < |was| && rest == was[..i] + was[i + 1..] && k < |rest| && j == if k < i then k else k + 1
    ensures rest[k] == was[j]
    ensures Nth(rest, k + 1) == if j == i - 1 then was[i + 1] else Nth(was, j + 1)
    ensures Nth(rest, k - 1) == if j == i + 1 then Nth(was, i - 1) else Nth(was, j - 1)
  {
    assert k + 1 < |rest| ==> rest[k + 1] == was[if k + 1 < i then k + 1 else k + 2];
    assert k > 0 ==> rest[k - 1] == was[if k - 1 < i then k - 1 else k];
  }
}
