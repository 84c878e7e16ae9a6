/** Deferred link and replace operations. Threads push them on a stack and whoever holds the
    accountant's lock drains it, so they are applied in no particular order. */
module SegmentOrder {
  import opened Base
  import opened SegmentTally
  import opened Segments
  import opened Accountant

  datatype Op =
    | LinkOp(pid: PageId, frag: Frag, lsn: nat)
    | ReplaceOp(pid: PageId, oldFrags: seq<Frag>, frag: Frag, lsn: nat)

  /** The segments an operation touches. */
  ghost predicate Touches(op: Op, j: nat) {
    op.frag.segment == Some(j) || (op.ReplaceOp? && j in Sums(op.oldFrags))
  }

  /** The segments an operation touches are active. */
  ghost predicate OnActive(op: Op, segments: seq<Segment>) {
    forall j {:trigger Touches(op, j)} :: 0 <= j && Touches(op, j) ==> j < |segments| && segments[j].Active?
  }

  /** What an operation does to active segment j. */
  function Effect(op: Op, j: nat, s: Segment): (t: Segment)
    requires s.Active?
    ensures t.Active?
  {
    var u := if op.frag.segment == Some(j) then Inserted(s, op.pid, op.frag.size) else s;
    if op.ReplaceOp? && j in Sums(op.oldFrags) then Removed(u, op.pid, op.lsn, Sums(op.oldFrags)[j]) else u
  }

  function EffectOf(op: Op, j: nat, s: Segment): (t: Segment)
    ensures s.Active? <==> t.Active?
  {
    if s.Active? then Effect(op, j, s) else s
  }

  /** The operations one after the other. */
  function Fold(ops: seq<Op>, j: nat, s: Segment): (t: Segment)
    ensures s.Active? <==> t.Active?
  {
    if ops == [] then s else Fold(ops[1..], j, EffectOf(ops[0], j, s))
  }

  /** Cleaning leaves an active segment alone. */
  lemma ActiveIsLeft(a: Accounts, i: nat, segmentSize: nat)
    requires segmentSize > 0 && State(a, i).Active?
    ensures Cleaned(a, i, segmentSize) == a
  {}

  /** All of b is a, but for the segments, where active ones carry an operation's effect. */
  ghost predicate Carries(a: Accounts, b: Accounts, op: Op) {
    && b == a.(segments := b.segments) && |b.segments| == |a.segments|
    && (forall j {:trigger b.segments[j]} :: 0 <= j < |b.segments| ==> b.segments[j] == EffectOf(op, j, a.segments[j]))
  }

  /** `apply_op` on active segments: the cleaning that follows every removal does nothing. */
  method ApplyOp(a: Accounts, op: Op, segmentSize: nat) returns (b: Accounts)
    requires OnActive(op, a.segments) && segmentSize > 0
    ensures Carries(a, b, op)
  {
    b := a;
    if op.frag.segment.Some? {
      var i := op.frag.segment.value;
      assert Touches(op, i);
      b := Put(b, i, Inserted(b.segments[i], op.pid, op.frag.size));
    }
    if op.ReplaceOp? {
      var removals := Summed(op.oldFrags);
      ghost var linked := b.segments;
      var todo := removals.Keys;
      while todo != {}
        invariant todo <= removals.Keys && b == a.(segments := b.segments) && |b.segments| == |a.segments|
        invariant forall j {:trigger b.segments[j]} :: 0 <= j < |b.segments| ==>
          b.segments[j] == if j in removals && j !in todo then EffectOf(op, j, a.segments[j]) else linked[j]
        decreases todo
      {
        var j: nat :| j in todo;
        assert Touches(op, j);
        b := Put(b, j, Removed(b.segments[j], op.pid, op.lsn, removals[j]));
        ActiveIsLeft(b, j, segmentSize);
        b := Cleaned(b, j, segmentSize);
        todo := todo - {j};
      }
    }
  }

  /** Draining the stack. */
  method ApplyAll(a: Accounts, ops: seq<Op>, segmentSize: nat) returns (b: Accounts)
    requires segmentSize > 0 && forall op :: op in ops ==> OnActive(op, a.segments)
    ensures DrainsTo(a, b, ops)
  {
    b := a;
    for k := 0 to |ops|
      invariant b == a.(segments := b.segments) && |b.segments| == |a.segments|
      invariant forall j {:trigger b.segments[j]} :: 0 <= j < |b.segments| ==>
        && (b.segments[j].Active? <==> a.segments[j].Active?)
        && Fold(ops[k..], j, b.segments[j]) == Fold(ops, j, a.segments[j])
    {
      assert ops[k] in ops;
      ghost var before := b.segments;
      StaysOnActive(ops[k], a.segments, before);
      b := ApplyOp(b, ops[k], segmentSize);
      assert ops[k..][1..] == ops[k + 1..];
      forall j | 0 <= j < |b.segments| ensures Fold(ops[k + 1..], j, b.segments[j]) == Fold(ops[k..], j, before[j]) {}
    }
  }

  lemma StaysOnActive(op: Op, before: seq<Segment>, after: seq<Segment>)
    requires OnActive(op, before) && |after| == |before|
    requires forall j {:trigger after[j]} :: 0 <= j < |after| ==> (after[j].Active? <==> before[j].Active?)
    ensures OnActive(op, after)
  {
    forall j: nat | Touches(op, j) ensures j < |after| && after[j].Active? {}
  }

  ghost predicate DrainsTo(a: Accounts, b: Accounts, ops: seq<Op>) {
    && b == a.(segments := b.segments) && |b.segments| == |a.segments|
    && (forall j {:trigger b.segments[j]} :: 0 <= j < |b.segments| ==> b.segments[j] == Fold(ops, j, a.segments[j]))
  }

  /** Two operations on one segment commute. */
  lemma EffectsCommute(p: Op, q: Op, j: nat, s: Segment)
    ensures EffectOf(p, j, EffectOf(q, j, s)) == EffectOf(q, j, EffectOf(p, j, s))
  {
    if s.Active? {
      var x, y := EffectOf(p, j, EffectOf(q, j, s)), EffectOf(q, j, EffectOf(p, j, s));
      assert x.pids == y.pids;
      assert x.deferred == y.deferred;
    }
  }

  lemma {:induction false} MoveToFront(front: seq<Op>, op: Op, back: seq<Op>, j: nat, s: Segment)
    ensures Fold(front + [op] + back, j, s) == Fold([op] + front + back, j, s)
  {
    if front == [] {
      assert front + [op] + back == [op] + front + back;
    } else {
      var head, tail := front[0], front[1..];
      calc {
        Fold(front + [op] + back, j, s);
        { assert (front + [op] + back)[1..] == tail + [op] + back; }
        Fold(tail + [op] + back, j, EffectOf(head, j, s));
        { MoveToFront(tail, op, back, j, EffectOf(head, j, s)); assert ([op] + tail + back)[1..] == tail + back; }
        Fold(tail + back, j, EffectOf(op, j, EffectOf(head, j, s)));
        { EffectsCommute(op, head, j, s); }
        Fold(tail + back, j, EffectOf(head, j, EffectOf(op, j, s)));
        { assert (front + back)[1..] == tail + back; }
        Fold(front + back, j, EffectOf(op, j, s));
        { assert ([op] + front + back)[1..] == front + back; }
        Fold([op] + front + back, j, s);
      }
    }
  }

  /** The first of some operations, found among the same operations in another order. */
  lemma FindFirst(ops: seq<Op>, others: seq<Op>) returns (k: nat)
    requires multiset(ops) == multiset(others) && ops != []
    ensures k < |others| && others[k] == ops[0]
    ensures others == others[..k] + [ops[0]] + others[k + 1..]
    ensures multiset(ops[1..]) == multiset(others[..k] + others[k + 1..])
  {
    var op := ops[0];
    assert op in multiset(others);
    k :| 0 <= k < |others| && others[k] == op;
    assert others == others[..k] + [op] + others[k + 1..];
    assert ops == [op] + ops[1..];
    var front, back := others[..k], others[k + 1..];
    assert multiset(others) == multiset(front + back) + multiset{op} by {
      assert multiset(front + [op] + back) == multiset(front) + multiset{op} + multiset(back);
    }
    assert multiset(ops) == multiset(ops[1..]) + multiset{op};
    assert multiset(ops[1..]) == multiset(ops) - multiset{op};
    assert multiset(front + back) == multiset(others) - multiset{op};
  }

  /** Any order of the same operations gives the same segments. */
  lemma {:induction false} OrderIsIrrelevant(ops: seq<Op>, others: seq<Op>, j: nat, s: Segment)
    requires multiset(ops) == multiset(others)
    ensures Fold(ops, j, s) == Fold(others, j, s)
    decreases |ops|
  {
    if ops == [] {
      assert |multiset(others)| == |others| == 0;
    } else {
      var op := ops[0];
      var k := FindFirst(ops, others);
      var front, back := others[..k], others[k + 1..];
      MoveToFront(front, op, back, j, s);
      assert ([op] + front + back)[1..] == front + back;
      OrderIsIrrelevant(ops[1..], front + back, j, EffectOf(op, j, s));
    }
  }

  /** Whatever the order in which the stack is drained, the accountant ends in the same state. */
  lemma DrainingIsUnique(a: Accounts, b: Accounts, c: Accounts, ops: seq<Op>, others: seq<Op>)
    requires multiset(ops) == multiset(others) && DrainsTo(a, b, ops) && DrainsTo(a, c, others)
    ensures b == c
  {
    forall j | 0 <= j < |b.segments| ensures b.segments[j] == c.segments[j] {
      OrderIsIrrelevant(ops, others, j, a.segments[j]);
    }
  }
}
