/** Readers that run beside the writers: every page is loaded at a moment of its own, and the
    tree changes between any two loads. */
module TreeReads {
  import opened Base
  import opened Tree
  import opened TreeRuns
  import opened TreeMap

  /** One load of a pass of `view_for_key`: when, which page, and whether the pass has
      descended from an index page before. */
  datatype Visit = Visit(time: nat, cursor: PageId, descended: bool)

  /** What a visit loads; a freed page counts as capped. */
  function Loaded(ss: seq<Tree>, v: Visit): Node {
    if v.time < |ss| && v.cursor in ss[v.time].pages then N(ss[v.time], v.cursor)
    else Node(0, 0.0, None, None, map[], map[], None, true)
  }

  /** The page is not freed, capped or announcing a merge, and does not begin after the key:
      otherwise the pass starts over. */
  ghost predicate Loads(ss: seq<Tree>, v: Visit, k: Key) {
    var n := Loaded(ss, v);
    !n.merging && n.mergingChild.None? && n.lo <= k
  }

  /** `index_next_node`: j is the last item at or before k. */
  ghost predicate IsNextNode(n: Node, k: Key, j: Key) {
    j in n.kids && j <= k && forall i :: i in n.kids && i <= k ==> i <= j
  }

  /** The pass goes from one page to the next: right, or down. */
  ghost predicate Goes(ss: seq<Tree>, v: Visit, w: Visit, k: Key) {
    var n := Loaded(ss, v);
    && v.time <= w.time
    && if Below(k, n.hi)
       then n.level > 0 && w.descended && exists j :: IsNextNode(n, k, j) && w.cursor == n.kids[j]
       else n.next == Some(w.cursor) && w.descended == v.descended
  }

  /** A pass that loaded the root's page id at moment `start`. */
  ghost predicate Pass(ss: seq<Tree>, start: nat, visits: seq<Visit>, k: Key) {
    && |visits| > 0 && start <= visits[0].time < |ss| && ss[start].cur < |ss[start].roots|
    && visits[0].cursor == ss[start].roots[ss[start].cur] && !visits[0].descended
    && (forall i {:trigger Loads(ss, visits[i], k)} :: 0 <= i < |visits| ==> Loads(ss, visits[i], k))
    && (forall i, j {:trigger Goes(ss, visits[i], visits[j], k)} :: 0 <= i && j == i + 1 < |visits| ==>
          Goes(ss, visits[i], visits[j], k))
  }

  /** A page that is not capped is on its chain. */
  lemma LoadedIsLive(s: Tree, p: PageId)
    requires Inv(s) && p in s.pages && !N(s, p).merging
    ensures p in s.live && p in s.made && s.made[p] == Birth(N(s, p).level, N(s, p).lo)
    ensures N(s, p).hi.Some? ==> N(s, p).next.Some? && N(s, p).lo < N(s, p).hi.value
    ensures N(s, p).hi.Some? ==>
      N(s, p).next.value in s.made && s.made[N(s, p).next.value] == Birth(N(s, p).level, N(s, p).hi.value)
    ensures N(s, p).level > 0 ==> N(s, p).lo in N(s, p).kids
  {
    assert GoodPage(s, p);
    assert Linked(s, p);
    if N(s, p).level > 0 { assert GoodIndex(s, p); }
  }

  /** A leaf that is not capped and owns k holds what the tree maps k to. */
  lemma LeafIsCurrent(s: Tree, p: PageId, k: Key, v: nat)
    requires Inv(s) && p in s.pages && !N(s, p).merging && N(s, p).level == 0 && Owns(N(s, p), k)
    ensures Binds(s, k, v) <==> k in N(s, p).data && N(s, p).data[k] == v
  {
    LoadedIsLive(s, p);
    if q :| Holds(s, q, k, v) {
      assert GoodPage(s, q);
      OneOwner(s, p, q, k);
    }
    if k in N(s, p).data && N(s, p).data[k] == v { assert Holds(s, p, k, v); }
  }

  /** In every run, wherever a pass of `view_for_key` went and whatever changed under it, the
      leaf that it returns holds the key's value of the moment it was loaded. */
  lemma ReadIsCurrent(ss: seq<Tree>, start: nat, visits: seq<Visit>, k: Key, v: nat)
    requires TreeRun(ss) && Pass(ss, start, visits, k)
    requires var n := Loaded(ss, visits[|visits| - 1]); n.level == 0 && Below(k, n.hi)
    ensures visits[|visits| - 1].time < |ss|
    ensures var last := visits[|visits| - 1]; var n := Loaded(ss, last);
      Binds(ss[last.time], k, v) <==> k in n.data && n.data[k] == v
  {
    var last := visits[|visits| - 1];
    assert Loads(ss, last, k);
    RunInv(ss, last.time);
    LeafIsCurrent(ss[last.time], last.cursor, k, v);
  }

  // ---------------------------------------------------------------------------------
  // The assertions on the way
  // ---------------------------------------------------------------------------------

  lemma BirthsStay(s: Tree, s': Tree, p: PageId)
    requires TreeStep(s, s') && p in s.made
    ensures p in s'.made && s'.made[p] == s.made[p]
  {
    if (forall q, at, r :: !Split(s, q, at, r, s')) && (forall to, r :: !Hoist(s, to, r, s')) {
      NothingIsMade(s, s');
    } else if q, at, r :| Split(s, q, at, r, s') {
      assert r != p;
    } else {
      var to, r :| Hoist(s, to, r, s');
      assert r != p;
    }
  }

  /** Only a split and a hoist make pages. */
  lemma NothingIsMade(s: Tree, s': Tree)
    requires TreeStep(s, s') && (forall q, at, r :: !Split(s, q, at, r, s')) && (forall to, r :: !Hoist(s, to, r, s'))
    ensures s'.made == s.made
  {
    if o :| ParentSplit(s, o, s') {
      ParentSplitAside(s, o, s');
    } else if p, j :| Intend(s, p, j, s') {
      IntendAside(s, p, j, s');
    } else if c :| Cap(s, c, s') {
      CapAside(s, c, s');
    } else if p :| Confirm(s, p, s') {
      ConfirmAside(s, p, s');
    } else if w :| Absorb(s, w, s') {
    } else if c :| Free(s, c, s') {
    } else if p, j, v :| Update(s, p, j, v, s') {
    } else {
      LearningKeepsPages(s, s');
    }
  }

  lemma {:induction false} BirthsLast(ss: seq<Tree>, i: nat, j: nat, p: PageId)
    requires TreeRun(ss) && i <= j < |ss| && p in ss[i].made
    ensures p in ss[j].made && ss[j].made[p] == ss[i].made[p]
    decreases j
  {
    if i < j {
      BirthsLast(ss, i, j - 1, p);
      assert TreeStep(ss[j - 1], ss[j]);
      BirthsStay(ss[j - 1], ss[j], p);
    }
  }

  /** A page reached by a right move begins after the empty key. */
  lemma RightIsHigher(ss: seq<Tree>, v: Visit, w: Visit, k: Key)
    requires TreeRun(ss) && Loads(ss, v, k) && Loads(ss, w, k) && Goes(ss, v, w, k)
    requires !Below(k, Loaded(ss, v).hi)
    ensures Loaded(ss, v).lo < Loaded(ss, w).lo
  {
    RunInv(ss, v.time);
    RunInv(ss, w.time);
    LoadedIsLive(ss[v.time], v.cursor);
    BirthsLast(ss, v.time, w.time, w.cursor);
    LoadedIsLive(ss[w.time], w.cursor);
  }

  /** Before the first descent a pass only moves right, so a page that begins at the empty key
      is the root it started from: what `view_for_key` asserts before it hoists the root. */
  lemma {:induction false} LeftmostIsRoot(ss: seq<Tree>, start: nat, visits: seq<Visit>, k: Key, i: nat)
    requires TreeRun(ss) && Pass(ss, start, visits, k) && i < |visits| && !visits[i].descended
    ensures i > 0 ==> 0.0 < Loaded(ss, visits[i]).lo
    ensures Loaded(ss, visits[i]).lo == 0.0 ==> visits[i].cursor == visits[0].cursor
  {
    assert Loads(ss, visits[i], k);
    if i > 0 {
      assert Loads(ss, visits[i - 1], k) && Goes(ss, visits[i - 1], visits[i], k);
      RightIsHigher(ss, visits[i - 1], visits[i], k);
    }
  }

  /** A pass never gets stuck: to the right of a page that ends at or before the key there is
      a sibling, and an index page has an item at or before the key. */
  lemma PassGoesOn(ss: seq<Tree>, start: nat, visits: seq<Visit>, k: Key, i: nat)
    requires TreeRun(ss) && Pass(ss, start, visits, k) && i < |visits|
    ensures var n := Loaded(ss, visits[i]);
      if Below(k, n.hi) then n.level == 0 || exists j :: IsNextNode(n, k, j) else n.next.Some?
  {
    var t, p := visits[i].time, visits[i].cursor;
    assert Loads(ss, visits[i], k);
    RunInv(ss, t);
    LoadedIsLive(ss[t], p);
    var n := N(ss[t], p);
    if Below(k, n.hi) && n.level > 0 {
      var j := GreatestKey(n.kids.Keys, k);
      assert IsNextNode(n, k, j);
    }
  }

  /** What `merge_node` asserts: a page that announces a merge is an index page, the child is
      among its items, and it is not the leftmost one. */
  lemma MergingChildIsInside(ss: seq<Tree>, t: nat, p: PageId)
    requires TreeRun(ss) && t < |ss| && p in ss[t].pages && N(ss[t], p).mergingChild.Some?
    ensures var n := N(ss[t], p);
      && n.level > 0 && n.lo in n.kids
      && exists j :: j in n.kids && n.lo < j && n.kids[j] == n.mergingChild.value
  {
    var s, n := ss[t], N(ss[t], p);
    RunInv(ss, t);
    assert GoodPage(s, p) && GoodIndex(s, p);
    var j := s.made[n.mergingChild.value].lo;
    assert GoodItem(s, n, j);
  }

  /** What `receive_merge` asserts of the two nodes that a walk joins, in any run. */
  lemma JoinedAreNeighbours(ss: seq<Tree>, t: nat, w: Walk)
    requires TreeRun(ss) && t + 1 < |ss| && Absorb(ss[t], w, ss[t + 1])
    ensures var a, c := N(ss[t], w.at), N(ss[t], w.child);
      a.hi == Some(c.lo) && a.level == c.level && !a.merging && a.mergingChild.None? && c.mergingChild.None?
  {
    var s := ss[t];
    RunInv(ss, t);
    AbsorbNext(s, w, ss[t + 1]);
    SiblingIsLive(s, w);
    assert GoodPage(s, w.at) && GoodPage(s, w.child) && Linked(s, w.at);
  }
}
