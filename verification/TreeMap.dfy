/** What the tree means: its map from keys to values, who owns a key, and how a reader gets
    there. */
module TreeMap {
  import opened Base
  import opened Tree
  import opened TreeRuns

  // ---------------------------------------------------------------------------------
  // The map
  // ---------------------------------------------------------------------------------

  ghost predicate Holds(s: Tree, p: PageId, k: Key, v: nat) {
    p in s.live && p in s.pages && N(s, p).level == 0 && k in N(s, p).data && N(s, p).data[k] == v
  }

  /** The tree maps k to v. */
  ghost predicate Binds(s: Tree, k: Key, v: nat) {
    exists p :: Holds(s, p, k, v)
  }

  lemma BindsOneValue(s: Tree, k: Key, v: nat, w: nat)
    requires Inv(s) && Binds(s, k, v) && Binds(s, k, w)
    ensures v == w
  {
    var p :| Holds(s, p, k, v);
    var q :| Holds(s, q, k, w);
    assert GoodPage(s, p) && GoodPage(s, q);
    OneOwner(s, p, q, k);
  }

  lemma SplitKeepsMap(s: Tree, p: PageId, at: Key, r: PageId, s': Tree, k: Key, v: nat)
    requires Inv(s) && Split(s, p, at, r, s')
    ensures Binds(s, k, v) <==> Binds(s', k, v)
  {
    SplitLive(s, p, at, r, s');
    if q :| Holds(s, q, k, v) {
      assert Holds(s', if q == p && at <= k then r else q, k, v);
    }
    if q :| Holds(s', q, k, v) {
      assert Holds(s, if q == r then p else q, k, v);
    }
  }

  lemma AbsorbKeepsMap(s: Tree, w: Walk, s': Tree, k: Key, v: nat)
    requires Inv(s) && Absorb(s, w, s')
    ensures Binds(s, k, v) <==> Binds(s', k, v)
  {
    AbsorbNext(s, w, s');
    if q :| Holds(s, q, k, v) {
      assert GoodPage(s, q);
      assert Holds(s', if q == w.child then w.at else q, k, v);
    }
    if q :| Holds(s', q, k, v) {
      assert Holds(s, if q == w.at && k in N(s, w.child).data then w.child else q, k, v);
    }
  }

  ghost predicate IsLeaf(s: Tree, p: PageId) {
    p in s.live && p in s.pages && N(s, p).level == 0
  }

  /** Every other structural step leaves the leaves' contents alone. */
  ghost predicate SameLeaves(s: Tree, s': Tree) {
    forall p ::
      && (IsLeaf(s, p) <==> IsLeaf(s', p))
      && (IsLeaf(s, p) && p in s'.pages ==> N(s', p).data == N(s, p).data)
  }

  lemma SameLeavesSameMap(s: Tree, s': Tree, k: Key, v: nat)
    requires SameLeaves(s, s')
    ensures Binds(s, k, v) <==> Binds(s', k, v)
  {
    if q :| Holds(s, q, k, v) { assert Holds(s', q, k, v); }
    if q :| Holds(s', q, k, v) { assert Holds(s, q, k, v); }
  }

  lemma HoistKeepsLeaves(s: Tree, to: PageId, r: PageId, s': Tree)
    requires Inv(s) && Hoist(s, to, r, s')
    ensures SameLeaves(s, s')
  {
    HoistFresh(s, to, r, s');
  }

  /** A CAS that leaves a page's level and data alone. */
  ghost predicate PutsAside(s: Tree, p: PageId, s': Tree) {
    p in s.pages && p in s'.pages && PutAt(s, p, N(s', p), s') && N(s', p).level == N(s, p).level
        && N(s', p).data == N(s, p).data
  }

  lemma AsideKeepsLeaves(s: Tree, s': Tree)
    requires (exists p :: PutsAside(s, p, s')) || (s'.pages == s.pages && s'.live == s.live)
    ensures SameLeaves(s, s')
  {
  }

  lemma FreeKeepsLeaves(s: Tree, c: PageId, s': Tree)
    requires Merges(s) && Free(s, c, s')
    ensures SameLeaves(s, s')
  {
  }

  lemma ParentSplitAside(s: Tree, o: Seen, s': Tree)
    requires ParentSplit(s, o, s')
    ensures PutsAside(s, o.parent, s')
  {
  }

  lemma IntendAside(s: Tree, p: PageId, k: Key, s': Tree)
    requires Intend(s, p, k, s')
    ensures PutsAside(s, p, s')
  {
  }

  lemma CapAside(s: Tree, c: PageId, s': Tree)
    requires Cap(s, c, s')
    ensures PutsAside(s, c, s')
  {
  }

  lemma ConfirmAside(s: Tree, p: PageId, s': Tree)
    requires Confirm(s, p, s')
    ensures PutsAside(s, p, s')
  {
  }

  /** A step that neither splits nor joins. */
  lemma OtherKeepsLeaves(s: Tree, s': Tree)
    requires Inv(s) && Structural(s, s')
    requires (forall p, at, r :: !Split(s, p, at, r, s')) && (forall w :: !Absorb(s, w, s'))
    ensures SameLeaves(s, s')
  {
    if to, r :| Hoist(s, to, r, s') {
      HoistKeepsLeaves(s, to, r, s');
    } else if c :| Free(s, c, s') {
      FreeKeepsLeaves(s, c, s');
    } else {
      if o :| ParentSplit(s, o, s') {
        ParentSplitAside(s, o, s');
      } else if p, j :| Intend(s, p, j, s') {
        IntendAside(s, p, j, s');
      } else if c :| Cap(s, c, s') {
        CapAside(s, c, s');
      } else if p :| Confirm(s, p, s') {
        ConfirmAside(s, p, s');
      } else {
        LearningKeepsPages(s, s');
      }
      AsideKeepsLeaves(s, s');
    }
  }

  lemma LearningKeepsPages(s: Tree, s': Tree)
    requires || SwingRoot(s, s') || (exists p, k :: Descend(s, p, k, s')) || (exists o :: MoveRight(s, o, s'))
             || (exists p, k :: StartWalk(s, p, k, s')) || (exists w :: WalkRight(s, w, s'))
             || (exists w :: Overshoot(s, w, s'))
    ensures s'.pages == s.pages && s'.live == s.live && s'.made == s.made
  {
  }

  /** No structural step changes the map. */
  lemma StructuralKeepsMap(s: Tree, s': Tree, k: Key, v: nat)
    requires Inv(s) && Structural(s, s')
    ensures Binds(s, k, v) <==> Binds(s', k, v)
  {
    if p, at, r :| Split(s, p, at, r, s') {
      SplitKeepsMap(s, p, at, r, s', k, v);
    } else if w :| Absorb(s, w, s') {
      AbsorbKeepsMap(s, w, s', k, v);
    } else {
      OtherKeepsLeaves(s, s');
      SameLeavesSameMap(s, s', k, v);
    }
  }

  /** An update binds its key to its value, or unbinds it, and changes no other key. */
  lemma UpdateChangesOneKey(s: Tree, p: PageId, k: Key, u: Option<nat>, s': Tree, j: Key, v: nat)
    requires Inv(s) && Update(s, p, k, u, s')
    ensures Binds(s', j, v) <==> if j == k then u == Some(v) else Binds(s, j, v)
  {
    assert GoodPage(s, p);
    if q :| Holds(s, q, j, v) {
      assert j != k ==> Holds(s', q, j, v);
    }
    if q :| Holds(s', q, j, v) {
      assert GoodPage(s, q);
      if j == k && q != p {
        OneOwner(s, p, q, k);
      }
      assert j != k ==> Holds(s, q, j, v);
    }
    if j == k && u == Some(v) {
      assert Holds(s', p, j, v);
    }
  }

  // ---------------------------------------------------------------------------------
  // Owners and how to reach them
  // ---------------------------------------------------------------------------------

  ghost predicate OnLevel(s: Tree, p: PageId, level: nat) {
    p in s.live && p in s.pages && N(s, p).level == level
  }

  /** A reader goes from a to b looking for k. */
  ghost predicate Hop(s: Tree, a: PageId, b: PageId, k: Key) {
    a in s.pages && (N(s, a).next == Some(b) || exists j :: j in N(s, a).kids && j <= k && N(s, a).kids[j] == b)
  }

  ghost predicate Path(s: Tree, ps: seq<PageId>, a: PageId, b: PageId, k: Key) {
    && |ps| > 0 && ps[0] == a && ps[|ps| - 1] == b
    && (forall i, j {:trigger Hop(s, ps[i], ps[j], k)} :: 0 <= i && j == i + 1 < |ps| ==> Hop(s, ps[i], ps[j], k))
  }

  lemma Extend(s: Tree, ps: seq<PageId>, a: PageId, b: PageId, c: PageId, k: Key)
    requires Path(s, ps, b, c, k) && Hop(s, a, b, k)
    ensures Path(s, [a] + ps, a, c, k)
  {
    var qs := [a] + ps;
    forall i, j | 0 <= i && j == i + 1 < |qs| ensures Hop(s, qs[i], qs[j], k) {
      if i > 0 { assert Hop(s, ps[i - 1], ps[j - 1], k); }
    }
  }

  lemma Join(s: Tree, ps: seq<PageId>, qs: seq<PageId>, a: PageId, b: PageId, c: PageId, k: Key)
    requires Path(s, ps, a, b, k) && Path(s, qs, b, c, k)
    ensures Path(s, ps + qs[1..], a, c, k)
  {
    var rs := ps + qs[1..];
    forall i, j | 0 <= i && j == i + 1 < |rs| ensures Hop(s, rs[i], rs[j], k) {
      if j < |ps| {
        assert Hop(s, ps[i], ps[j], k);
      } else {
        assert Hop(s, qs[i - |ps| + 1], qs[j - |ps| + 1], k);
      }
    }
  }

  /** The nodes of the chains that begin after x. */
  ghost function After(s: Tree, x: Key): set<PageId> {
    set q | q in s.live && q in s.pages && x < N(s, q).lo
  }

  /** From a node that begins at or before k, right moves lead to the owner of k. */
  lemma {:induction false} OwnerToTheRight(s: Tree, a: PageId, k: Key) returns (p: PageId, ps: seq<PageId>)
    requires Inv(s) && a in s.live && a in s.pages && N(s, a).lo <= k
    ensures OnLevel(s, p, N(s, a).level) && Owns(N(s, p), k) && Path(s, ps, a, p, k)
    decreases After(s, N(s, a).lo)
  {
    if Below(k, N(s, a).hi) {
      p, ps := a, [a];
    } else {
      assert Linked(s, a) && GoodPage(s, a);
      var b := N(s, a).next.value;
      assert GoodPage(s, b);
      assert b in After(s, N(s, a).lo) && b !in After(s, N(s, b).lo);
      p, ps := OwnerToTheRight(s, b, k);
      Extend(s, ps, a, b, p, k);
      ps := [a] + ps;
    }
  }

  /** From a node that begins at or before k, descents and right moves lead to the leaf that
      owns k. */
  lemma {:induction false} OwnerBelow(s: Tree, a: PageId, k: Key) returns (p: PageId, ps: seq<PageId>)
    requires Inv(s) && a in s.live && a in s.pages && N(s, a).lo <= k
    ensures OnLevel(s, p, 0) && Owns(N(s, p), k) && Path(s, ps, a, p, k)
    decreases N(s, a).level
  {
    p, ps := OwnerToTheRight(s, a, k);
    if N(s, p).level > 0 {
      assert GoodPage(s, p) && GoodIndex(s, p) && GoodItem(s, N(s, p), N(s, p).lo);
      var c := N(s, p).kids[N(s, p).lo];
      assert GoodPage(s, c);
      var q, qs := OwnerBelow(s, c, k);
      assert Hop(s, p, c, k);
      Extend(s, qs, p, c, q, k);
      Join(s, ps, [p] + qs, a, p, q, k);
      p, ps := q, ps + ([p] + qs)[1..];
    }
  }

  // ---------------------------------------------------------------------------------
  // The descent of view_for_key
  // ---------------------------------------------------------------------------------

  /** How one pass of `view_for_key` over the tree ends: at a leaf, at an index page whose
      merge it must help with, or at a capped page, to start over. */
  datatype View = Found(leaf: PageId) | Help(index: PageId) | Retry(at: PageId)

  lemma {:induction false} GreatestKey(ks: set<Key>, k: Key) returns (j: Key)
    requires exists i :: i in ks && i <= k
    ensures j in ks && j <= k && forall i :: i in ks && i <= k ==> i <= j
  {
    var i :| i in ks && i <= k;
    var rest := ks - {i};
    assert forall h :: h in ks ==> h == i || h in rest;
    if h :| h in rest && h <= k {
      j := GreatestKey(rest, k);
      j := if i < j then j else i;
    } else {
      j := i;
    }
  }

  /** A page without a merge, from which a pass descended. */
  ghost predicate CameFrom(s: Tree, p: PageId, cursor: PageId, k: Key)
    requires cursor in s.pages
  {
    && p in s.live && p in s.pages && N(s, p).mergingChild.None? && N(s, p).level == N(s, cursor).level + 1
    && Owns(N(s, p), k) && N(s, p).lo <= N(s, cursor).lo
  }

  /** Below a page without a merge nothing is capped; above the last root there is nothing
      to be capped by. */
  lemma CappedBehindHoist(s: Tree, parent: Option<PageId>, cursor: PageId, k: Key)
    requires Inv(s) && cursor in s.live && cursor in s.pages && N(s, cursor).lo <= k && N(s, cursor).merging
    requires parent.Some? ==> CameFrom(s, parent.value, cursor, k)
    requires parent.None? ==> s.roots[s.cur] in s.pages && N(s, cursor).level == N(s, s.roots[s.cur]).level
    ensures s.cur + 1 < |s.roots|
  {
    assert GoodPage(s, cursor);
    if parent.Some? {
      QuietChild(s, parent.value, cursor);
    } else {
      assert GoodPage(s, s.roots[s.cur]);
    }
  }

  /** `index_next_node`: the last child that begins at or before k. */
  lemma NextNode(s: Tree, p: PageId, k: Key) returns (j: Key)
    requires Inv(s) && p in s.live && p in s.pages && N(s, p).level > 0 && Owns(N(s, p), k)
             && N(s, p).mergingChild.None?
    ensures var n := N(s, p);
            && j in n.kids && j <= k && (forall i :: i in n.kids && i <= k ==> i <= j)
            && n.kids[j] in s.live && n.kids[j] in s.pages && CameFrom(s, p, n.kids[j], k) && N(s, n.kids[j]).lo == j
  {
    assert GoodIndex(s, p);
    j := GreatestKey(N(s, p).kids.Keys, k);
    assert GoodItem(s, N(s, p), j);
    assert GoodPage(s, N(s, p).kids[j]);
  }

  lemma RightStep(s: Tree, p: PageId)
    requires Inv(s) && p in s.live && p in s.pages && N(s, p).hi.Some?
    ensures var q := N(s, p).next;
            && q.Some? && q.value in s.live && q.value in s.pages && N(s, q.value).lo == N(s, p).hi.value
            && N(s, q.value).level == N(s, p).level && N(s, p).lo < N(s, q.value).lo
            && After(s, N(s, q.value).lo) < After(s, N(s, p).lo)
  {
    assert Linked(s, p) && GoodPage(s, p);
    var q := N(s, p).next.value;
    assert GoodPage(s, q);
    assert q in After(s, N(s, p).lo) && q !in After(s, N(s, q).lo);
  }

  /** One pass of `view_for_key`: the leaf it returns owns the key, and it only gives up to
      help a merge or behind an unfinished root hoist. */
  method ViewForKey(s: Tree, k: Key) returns (v: View)
    requires Inv(s)
    ensures v.Found? ==> OnLevel(s, v.leaf, 0) && Owns(N(s, v.leaf), k)
    ensures v.Help? ==> v.index in s.live && v.index in s.pages && N(s, v.index).mergingChild.Some?
    ensures v.Retry? ==> s.cur + 1 < |s.roots| && v.at in s.pages && N(s, v.at).merging
  {
    var cursor := s.roots[s.cur];
    var parent: Option<PageId> := None;
    assert GoodPage(s, cursor);
    while true
      invariant cursor in s.live && cursor in s.pages && N(s, cursor).lo <= k
      invariant parent.Some? ==> CameFrom(s, parent.value, cursor, k)
      invariant parent.None? ==> s.roots[s.cur] in s.pages && N(s, cursor).level == N(s, s.roots[s.cur]).level
      decreases N(s, cursor).level, After(s, N(s, cursor).lo)
    {
      var n := N(s, cursor);
      if n.mergingChild.Some? {
        return Help(cursor);
      } else if n.merging {
        CappedBehindHoist(s, parent, cursor, k);
        return Retry(cursor);
      } else if n.hi.Some? && n.hi.value <= k {
        RightStep(s, cursor);
        cursor := n.next.value;
      } else if n.level == 0 {
        return Found(cursor);
      } else {
        var next := NextNode(s, cursor, k);
        var j :| j in n.kids && j <= k && forall i :: i in n.kids && i <= k ==> i <= j;
        assert j == next;
        parent := Some(cursor);
        cursor := n.kids[j];
      }
    }
  }

  /** Helping is always possible: a merging child on the chain has a left sibling under the
      same parent that can take it in. */
  lemma {:induction false} LeftSibling(s: Tree, c: PageId, a: PageId) returns (l: PageId)
    requires Inv(s) && c in s.live && c in s.intended && c in s.pages
    requires GoodWalk(s, Walk(c, a)) && a in s.pages
    ensures l in s.live && l in s.pages && N(s, l).next == Some(c) && !N(s, l).merging && GoodWalk(s, Walk(c, l))
    decreases After(s, N(s, a).lo)
  {
    var w := Walk(c, a);
    QuietWalk(s, w);
    assert GoodPage(s, a) && GoodPage(s, c) && Linked(s, a) && Apart(N(s, a), N(s, c));
    RightStep(s, a);
    var b := N(s, a).next.value;
    if b == c {
      l := a;
    } else {
      assert GoodPage(s, b);
      assert Apart(N(s, b), N(s, c));
      l := LeftSibling(s, c, b);
    }
  }

  // ---------------------------------------------------------------------------------
  // Runs
  // ---------------------------------------------------------------------------------

  ghost predicate TreeStart(s: Tree) {
    exists root: PageId, leaf: PageId :: root != leaf && s == NewTree(root, leaf)
  }

  /** `Node::new_root` over an empty leaf. */
  function NewTree(root: PageId, leaf: PageId): Tree {
    Tree(map[leaf := Page(0, Node(0, 0.0, None, None, map[], map[], None, false)),
             root := Page(0, Node(1, 0.0, None, None, map[], map[0.0 := leaf], None, false))],
         [root], 0, {root, leaf}, map[leaf := Birth(0, 0.0), root := Birth(1, 0.0)], map[], map[], {}, {}, {}, {})
  }

  ghost predicate TreeStep(s: Tree, s': Tree) {
    Structural(s, s') || exists p, k, v :: Update(s, p, k, v, s')
  }

  ghost predicate TreeRun(ss: seq<Tree>) {
    && |ss| > 0 && TreeStart(ss[0])
    && (forall i, j {:trigger TreeStep(ss[i], ss[j])} :: 0 <= i && j == i + 1 < |ss| ==> TreeStep(ss[i], ss[j]))
  }

  lemma NewTreeInv(root: PageId, leaf: PageId)
    requires root != leaf
    ensures Inv(NewTree(root, leaf))
  {
    var s := NewTree(root, leaf);
    assert GoodPage(s, root) && GoodPage(s, leaf);
    assert Linked(s, root) && Linked(s, leaf);
    assert GoodItem(s, N(s, root), 0.0);
    assert GoodIndex(s, root);
  }

  lemma {:induction false} RunInv(ss: seq<Tree>, n: nat)
    requires TreeRun(ss) && n < |ss|
    ensures Inv(ss[n])
  {
    if n == 0 {
      var root: PageId, leaf: PageId :| root != leaf && ss[0] == NewTree(root, leaf);
      NewTreeInv(root, leaf);
    } else {
      var s, s' := ss[n - 1], ss[n];
      RunInv(ss, n - 1);
      assert TreeStep(s, s');
      if p, k, v :| Update(s, p, k, v, s') {
        UpdateKeepsInv(s, p, k, v, s');
      } else {
        StructuralKeepsInv(s, s');
      }
    }
  }

  /** In every run, every key is owned by exactly one leaf of the chain, and that leaf is
      reached from the root by descents and right moves. */
  lemma OwnerIsReachable(ss: seq<Tree>, n: nat, k: Key) returns (p: PageId, ps: seq<PageId>)
    requires TreeRun(ss) && n < |ss|
    ensures var s := ss[n];
            && s.cur < |s.roots| && OnLevel(s, p, 0) && Owns(N(s, p), k) && Path(s, ps, s.roots[s.cur], p, k)
            && (forall q :: OnLevel(s, q, 0) && Owns(N(s, q), k) ==> q == p)
  {
    var s := ss[n];
    RunInv(ss, n);
    assert GoodPage(s, s.roots[s.cur]);
    p, ps := OwnerBelow(s, s.roots[s.cur], k);
    forall q | OnLevel(s, q, 0) && Owns(N(s, q), k) ensures q == p {
      OneOwner(s, p, q, k);
    }
  }

  /** In every run, a structural step changes no key's value. */
  lemma MapIsKept(ss: seq<Tree>, n: nat, k: Key, v: nat)
    requires TreeRun(ss) && n + 1 < |ss| && Structural(ss[n], ss[n + 1])
    ensures Binds(ss[n], k, v) <==> Binds(ss[n + 1], k, v)
  {
    RunInv(ss, n);
    StructuralKeepsMap(ss[n], ss[n + 1], k, v);
  }
}
