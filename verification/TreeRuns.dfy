/** What every step of the tree keeps. */
module TreeRuns {
  import opened Base
  import opened Tree

  // ---------------------------------------------------------------------------------
  // Consequences of the invariant
  // ---------------------------------------------------------------------------------

  /** At each level a key has at most one owner. */
  lemma OneOwner(s: Tree, p: PageId, q: PageId, k: Key)
    requires Pages(s) && Chains(s) && p in s.live && q in s.live && N(s, p).level == N(s, q).level
    requires Owns(N(s, p), k) && Owns(N(s, q), k)
    ensures p == q
  {
    assert p != q ==> Apart(N(s, p), N(s, q));
  }

  /** The parent that announces the merge of c owns c's low key. */
  lemma PendingParent(s: Tree, c: PageId)
    requires Pages(s) && Indexes(s) && Pending(s, c) && c in s.made
    ensures var n := N(s, s.intended[c]);
            n.level == s.made[c].level + 1 && Owns(n, s.made[c].lo) && n.lo < s.made[c].lo && s.made[c].lo in n.kids
  {
    var p := s.intended[c];
    assert GoodIndex(s, p);
    assert GoodItem(s, N(s, p), s.made[c].lo);
  }

  /** Under an index page without a merge, no child is capped or about to be. */
  lemma QuietChild(s: Tree, p: PageId, c: PageId)
    requires Pages(s) && Chains(s) && Indexes(s) && Merges(s)
    requires p in s.live && c in s.live && N(s, p).level == N(s, c).level + 1 && N(s, p).mergingChild.None?
             && Owns(N(s, p), N(s, c).lo)
    ensures c !in s.intended && !N(s, c).merging
  {
    assert GoodPage(s, c);
    if c in s.intended {
      assert Pending(s, c);
      PendingParent(s, c);
      OneOwner(s, p, s.intended[c], N(s, c).lo);
    }
  }

  /** Where a thread looks for a left sibling, nothing is merged away. */
  lemma QuietWalk(s: Tree, w: Walk)
    requires Pages(s) && Chains(s) && Indexes(s) && Merges(s) && GoodWalk(s, w) && w.child in s.live
    ensures w.at in s.live && w.at !in s.intended && !N(s, w.at).merging
  {
    assert Pending(s, w.child) && GoodPage(s, w.at) && GoodPage(s, s.intended[w.child]);
    PendingParent(s, w.child);
    if w.at in s.intended {
      assert Pending(s, w.at);
      PendingParent(s, w.at);
      OneOwner(s, s.intended[w.child], s.intended[w.at], s.made[w.at].lo);
    }
  }

  /** A child ends at or before the end of the parent that owns its low key. */
  lemma ChildEnds(s: Tree, p: PageId, c: PageId)
    requires Pages(s) && Chains(s) && Indexes(s)
    requires p in s.live && c in s.live && N(s, p).level == N(s, c).level + 1 && Owns(N(s, p), N(s, c).lo)
             && N(s, p).hi.Some?
    ensures N(s, c).hi.Some? && N(s, c).hi.value <= N(s, p).hi.value
  {
    assert Linked(s, p) && GoodPage(s, p) && GoodPage(s, c);
    var q := N(s, p).next.value;
    assert GoodPage(s, q);
    assert GoodIndex(s, q);
    assert GoodItem(s, N(s, q), N(s, q).lo);
    var d := N(s, q).kids[N(s, q).lo];
    assert GoodPage(s, d) && Apart(N(s, c), N(s, d));
  }

  // ---------------------------------------------------------------------------------
  // Steps that keep the shape of the chains
  // ---------------------------------------------------------------------------------

  predicate SameShape(a: Node, b: Node) {
    a.level == b.level && a.lo == b.lo && a.hi == b.hi && a.next == b.next
  }

  lemma ShapeKeepsChains(s: Tree, p: PageId, n: Node, s': Tree)
    requires Pages(s) && Chains(s) && PutAt(s, p, n, s') && SameShape(N(s, p), n)
    ensures Chains(s')
  {
    forall q | q in s'.live && q in s'.pages ensures Linked(s', q) {
      assert Linked(s, q);
    }
    forall a, b | a in s'.live && b in s'.live && a in s'.pages && b in s'.pages && a != b
        && N(s', a).level == N(s', b).level
      ensures Apart(N(s', a), N(s', b))
    {
      assert Apart(N(s, a), N(s, b));
    }
  }

  ghost predicate PutAt(s: Tree, p: PageId, n: Node, s': Tree) {
    p in s.pages && s'.pages == Put(s, p, n).pages && s'.live == s.live && s'.made == s.made
  }

  lemma PutKeepsPages(s: Tree, p: PageId, n: Node, s': Tree)
    requires Pages(s) && PutAt(s, p, n, s') && GoodPage(s', p)
    ensures Pages(s')
  {
    forall q | q in s'.pages ensures GoodPage(s', q) {
      assert GoodPage(s, q);
    }
  }

  lemma PutKeepsNodes(s: Tree, p: PageId, n: Node, s': Tree)
    requires Pages(s) && Chains(s) && PutAt(s, p, n, s') && SameShape(N(s, p), n) && GoodPage(s', p)
    ensures Pages(s') && Chains(s')
  {
    PutKeepsPages(s, p, n, s');
    ShapeKeepsChains(s, p, n, s');
  }

  lemma PutKeepsIndexes(s: Tree, p: PageId, n: Node, s': Tree)
    requires Indexes(s) && PutAt(s, p, n, s') && s'.intended == s.intended && s'.confirmed == s.confirmed
    requires p in s'.live && n.level > 0 ==> GoodIndex(s', p)
    ensures Indexes(s')
  {
    forall q | q in s'.live && q in s'.pages && N(s', q).level > 0 ensures GoodIndex(s', q) {
      if q != p {
        assert GoodIndex(s, q);
        forall k | k in N(s', q).kids ensures GoodItem(s', N(s', q), k) {
          assert GoodItem(s, N(s, q), k);
        }
      }
    }
  }

  lemma PutKeepsMerges(s: Tree, p: PageId, n: Node, s': Tree)
    requires Merges(s) && PutAt(s, p, n, s') && s'.intended == s.intended && s'.absorbed == s.absorbed
             && s'.confirmed == s.confirmed
    requires n.merging == N(s, p).merging && n.mergingChild == N(s, p).mergingChild && n.level == N(s, p).level
    ensures Merges(s')
  {
    forall c | c in s'.live && c in s'.intended ensures Pending(s', c) {
      assert Pending(s, c);
    }
  }

  lemma PutKeepsSeen(s: Tree, p: PageId, n: Node, s': Tree)
    requires Facts(s) && PutAt(s, p, n, s') && s'.seen == s.seen && p in s.made
    requires n.merging ==>
      forall o :: o in s.seen && o.at == p && o.parent in s.pages && s.pages[o.parent].ts == o.ts ==>
        s.made[p].lo in N(s, o.parent).kids
    ensures forall o {:trigger GoodSeen(s', o)} :: o in s'.seen ==> GoodSeen(s', o)
  {
    forall o | o in s'.seen ensures GoodSeen(s', o) {
      assert GoodSeen(s, o);
    }
  }

  /** A step that announces no merge, merges nothing away and moves no walk. */
  lemma GravesFrame(s: Tree, s': Tree)
    requires Graves(s) && s'.graves == s.graves && s'.intended == s.intended && s'.walks == s.walks
    requires forall p :: p in s.made ==> p in s'.made
    requires forall p :: p in s'.live ==> p in s.live || p !in s.made
    requires forall d :: d in s'.pages && d !in s'.live ==>
      d in s.pages && d !in s.live && N(s', d).next == N(s, d).next
    ensures Graves(s')
  {
    forall d, c | d in s'.pages && d !in s'.live && c in s'.graves ensures GoodGrave(s', d, c) {
      assert GoodGrave(s, d, c);
    }
  }

  lemma SameWalks(s: Tree, s': Tree)
    requires Facts(s) && s'.live == s.live && s'.made == s.made && s'.intended == s.intended && s'.walks == s.walks
    ensures forall w {:trigger GoodWalk(s', w)} :: w in s'.walks ==> GoodWalk(s', w)
  {
    forall w | w in s'.walks ensures GoodWalk(s', w) {
      assert GoodWalk(s, w);
    }
  }

  lemma RootsFrame(s: Tree, s': Tree)
    requires Roots(s) && s'.live == s.live && s'.made == s.made && s'.intended == s.intended
    requires s'.roots == s.roots && s'.cur == s.cur
    ensures Roots(s')
  {
  }

  lemma UpdateKeepsNodes(s: Tree, p: PageId, k: Key, v: Option<nat>, s': Tree)
    requires Pages(s) && Chains(s) && Indexes(s) && Update(s, p, k, v, s')
    ensures Pages(s') && Chains(s') && Indexes(s')
  {
    var n := N(s', p);
    assert GoodPage(s, p);
    assert GoodPage(s', p);
    PutKeepsNodes(s, p, n, s');
    PutKeepsIndexes(s, p, n, s');
  }

  lemma UpdateKeepsFacts(s: Tree, p: PageId, k: Key, v: Option<nat>, s': Tree)
    requires Pages(s) && Merges(s) && Facts(s) && Update(s, p, k, v, s')
    ensures Merges(s') && Facts(s')
  {
    var n := N(s', p);
    assert GoodPage(s, p);
    PutKeepsMerges(s, p, n, s');
    PutKeepsSeen(s, p, n, s');
    SameWalks(s, s');
  }

  lemma UpdateKeepsInv(s: Tree, p: PageId, k: Key, v: Option<nat>, s': Tree)
    requires Inv(s) && Update(s, p, k, v, s')
    ensures Inv(s')
  {
    UpdateKeepsNodes(s, p, k, v, s');
    UpdateKeepsFacts(s, p, k, v, s');
    RootsFrame(s, s');
    GravesFrame(s, s');
  }

  // ---------------------------------------------------------------------------------
  // What threads learn
  // ---------------------------------------------------------------------------------

  /** s' differs from s in what threads know. */
  ghost predicate SameNodes(s: Tree, s': Tree) {
    s' == s.(seen := s'.seen, walks := s'.walks, absorbed := s'.absorbed, cur := s'.cur)
  }

  lemma SameNodesKeeps(s: Tree, s': Tree)
    requires Inv(s) && SameNodes(s, s')
    ensures Pages(s') && Chains(s') && Indexes(s')
    ensures forall o {:trigger GoodSeen(s', o)} :: o in s.seen ==> GoodSeen(s', o)
    ensures forall w {:trigger GoodWalk(s', w)} :: w in s.walks ==> GoodWalk(s', w)
  {
    forall p | p in s'.pages ensures GoodPage(s', p) { assert GoodPage(s, p); }
    forall p | p in s'.live && p in s'.pages ensures Linked(s', p) { assert Linked(s, p); }
    forall p, q | p in s'.live && q in s'.live && p in s'.pages && q in s'.pages && p != q
        && N(s', p).level == N(s', q).level
      ensures Apart(N(s', p), N(s', q))
    {
      assert Apart(N(s, p), N(s, q));
    }
    forall p | p in s'.live && p in s'.pages && N(s', p).level > 0 ensures GoodIndex(s', p) {
      assert GoodIndex(s, p);
      forall k | k in N(s', p).kids ensures GoodItem(s', N(s', p), k) { assert GoodItem(s, N(s, p), k); }
    }
    forall o | o in s.seen ensures GoodSeen(s', o) { assert GoodSeen(s, o); }
    forall w | w in s.walks ensures GoodWalk(s', w) { assert GoodWalk(s, w); }
  }

  lemma SameNodesMerges(s: Tree, s': Tree)
    requires Merges(s) && SameNodes(s, s') && s.absorbed <= s'.absorbed
    requires forall c :: c in s'.absorbed ==> c !in s.live && c in s.made
    ensures Merges(s')
  {
    forall c | c in s'.live && c in s'.intended ensures Pending(s', c) { assert Pending(s, c); }
  }

  lemma LearnKeepsInv(s: Tree, s': Tree)
    requires Inv(s) && SameNodes(s, s') && s'.absorbed == s.absorbed && s'.cur < |s'.roots| && Graves(s')
    requires forall o {:trigger GoodSeen(s', o)} :: o in s'.seen && o !in s.seen ==> GoodSeen(s', o)
    requires forall w {:trigger GoodWalk(s', w)} :: w in s'.walks && w !in s.walks ==> GoodWalk(s', w)
    ensures Inv(s')
  {
    SameNodesKeeps(s, s');
    SameNodesMerges(s, s');
  }

  lemma DescendSeen(s: Tree, p: PageId, k: Key, s': Tree)
    requires Inv(s) && Descend(s, p, k, s')
    ensures GoodSeen(s', Seen(p, s.pages[p].ts, N(s, p).kids[k])) && Graves(s')
  {
    GravesFrame(s, s');
    assert GoodPage(s, p) && GoodIndex(s, p) && GoodItem(s, N(s, p), k);
  }

  lemma MoveRightSeen(s: Tree, o: Seen, s': Tree)
    requires Inv(s) && MoveRight(s, o, s')
    ensures GoodSeen(s', Seen(o.parent, o.ts, N(s, o.at).next.value)) && Graves(s')
  {
    GravesFrame(s, s');
    assert GoodSeen(s, o) && GoodPage(s, o.at) && Linked(s, o.at);
    var q := N(s, o.at).next.value;
    assert GoodPage(s, q);
    if o.parent in s.pages && s.pages[o.parent].ts == o.ts {
      assert GoodPage(s, o.parent);
      QuietChild(s, o.parent, q);
    }
  }

  lemma StartWalkGood(s: Tree, p: PageId, k: Key, s': Tree)
    requires Inv(s) && StartWalk(s, p, k, s')
    ensures GoodWalk(s', Walk(N(s, p).mergingChild.value, N(s, p).kids[k])) && Graves(s')
  {
    assert GoodPage(s, p) && GoodIndex(s, p) && GoodItem(s, N(s, p), k);
    assert GoodItem(s, N(s, p), s.made[N(s, p).mergingChild.value].lo);
    WalkGraves(s, Walk(N(s, p).mergingChild.value, N(s, p).kids[k]), s');
  }

  lemma WalkGraves(s: Tree, w: Walk, s': Tree)
    requires Graves(s) && s' == s.(walks := s.walks + {w})
    requires w.child in s.graves ==> w.at !in s.graves[w.child]
    ensures Graves(s')
  {
    forall d, c | d in s'.pages && d !in s'.live && c in s'.graves ensures GoodGrave(s', d, c) {
      assert GoodGrave(s, d, c);
    }
  }

  lemma WalkRightGood(s: Tree, w: Walk, s': Tree)
    requires Inv(s) && WalkRight(s, w, s')
    ensures GoodWalk(s', Walk(w.child, N(s, w.at).next.value)) && Graves(s')
  {
    assert GoodWalk(s, w) && GoodPage(s, w.at);
    if w.at in s.live {
      assert Linked(s, w.at);
    } else {
      assert GoodGrave(s, w.at, w.child);
    }
    WalkGraves(s, Walk(w.child, N(s, w.at).next.value), s');
  }

  lemma OvershootKeepsInv(s: Tree, w: Walk, s': Tree)
    requires Inv(s) && Overshoot(s, w, s')
    ensures Inv(s')
  {
    if w.child in s.live {
      OvershotIsGone(s, w);
    }
    SameNodesKeeps(s, s');
    SameNodesMerges(s, s');
    GravesFrame(s, s');
  }

  /** Next to a child that is still on the chain, a walk does not overshoot. */
  lemma OvershotIsGone(s: Tree, w: Walk)
    requires Pages(s) && Chains(s) && w in s.walks && GoodWalk(s, w) && w.child in s.live
    ensures w.at in s.pages && N(s, w.at).next.Some?
    ensures (N(s, w.at).next == Some(w.child) || (N(s, w.at).hi.Some? && N(s, w.at).hi.value < s.made[w.child].lo))
  {
    assert GoodPage(s, w.at) && GoodPage(s, w.child) && Linked(s, w.at);
    assert Apart(N(s, w.at), N(s, w.child));
    if N(s, w.at).hi.value == s.made[w.child].lo {
      var q := N(s, w.at).next.value;
      assert GoodPage(s, q);
      OneOwner(s, q, w.child, s.made[w.child].lo);
    }
  }

  // ---------------------------------------------------------------------------------
  // Parent split, intention, cap, confirmation
  // ---------------------------------------------------------------------------------

  lemma ParentSplitIndex(s: Tree, o: Seen, s': Tree)
    requires Inv(s) && ParentSplit(s, o, s')
    ensures GoodPage(s', o.parent) && GoodIndex(s', o.parent)
    ensures N(s, o.parent).mergingChild.None? && !N(s, o.parent).merging
  {
    var p := o.parent;
    assert GoodSeen(s, o) && GoodPage(s, p) && GoodIndex(s, p) && GoodPage(s, o.at);
    forall k | k in N(s', p).kids ensures GoodItem(s', N(s', p), k) {
      assert k in N(s, p).kids ==> GoodItem(s, N(s, p), k);
    }
  }

  lemma ParentSplitKeepsNodes(s: Tree, o: Seen, s': Tree)
    requires Inv(s) && ParentSplit(s, o, s')
    ensures Pages(s') && Chains(s') && Indexes(s')
  {
    ParentSplitIndex(s, o, s');
    PutKeepsNodes(s, o.parent, N(s', o.parent), s');
    PutKeepsIndexes(s, o.parent, N(s', o.parent), s');
  }

  lemma ParentSplitKeepsFacts(s: Tree, o: Seen, s': Tree)
    requires Inv(s) && ParentSplit(s, o, s')
    ensures Merges(s') && Facts(s')
  {
    ParentSplitIndex(s, o, s');
    PutKeepsMerges(s, o.parent, N(s', o.parent), s');
    PutKeepsSeen(s, o.parent, N(s', o.parent), s');
    SameWalks(s, s');
  }

  lemma ParentSplitKeepsInv(s: Tree, o: Seen, s': Tree)
    requires Inv(s) && ParentSplit(s, o, s')
    ensures Inv(s')
  {
    ParentSplitKeepsNodes(s, o, s');
    ParentSplitKeepsFacts(s, o, s');
    RootsFrame(s, s');
    GravesFrame(s, s');
  }

  lemma CapKeepsSeen(s: Tree, c: PageId, s': Tree)
    requires Inv(s) && Cap(s, c, s')
    ensures forall o {:trigger GoodSeen(s', o)} :: o in s'.seen ==> GoodSeen(s', o)
  {
    assert GoodPage(s, c);
    forall o | o in s.seen && o.at == c && o.parent in s.pages && s.pages[o.parent].ts == o.ts
      ensures s.made[c].lo in N(s, o.parent).kids
    {
      assert GoodSeen(s, o) && GoodPage(s, o.parent);
      if s.made[c].lo !in N(s, o.parent).kids {
        QuietChild(s, o.parent, c);
      }
    }
    PutKeepsSeen(s, c, N(s', c), s');
  }

  lemma CapKeepsMerges(s: Tree, c: PageId, s': Tree)
    requires Pages(s) && Merges(s) && Cap(s, c, s')
    ensures Merges(s')
  {
    forall d | d in s'.live && d in s'.intended ensures Pending(s', d) { assert Pending(s, d); }
  }

  lemma CapIndex(s: Tree, c: PageId, s': Tree)
    requires Inv(s) && Cap(s, c, s')
    ensures GoodPage(s', c) && (c in s'.live && N(s', c).level > 0 ==> GoodIndex(s', c))
  {
    assert GoodPage(s, c);
    if N(s, c).level > 0 {
      assert GoodIndex(s, c);
      forall k | k in N(s', c).kids ensures GoodItem(s', N(s', c), k) { assert GoodItem(s, N(s, c), k); }
    }
  }

  lemma CapKeepsNodes(s: Tree, c: PageId, s': Tree)
    requires Inv(s) && Cap(s, c, s')
    ensures Pages(s') && Chains(s') && Indexes(s')
  {
    CapIndex(s, c, s');
    PutKeepsNodes(s, c, N(s', c), s');
    PutKeepsIndexes(s, c, N(s', c), s');
  }

  lemma CapKeepsInv(s: Tree, c: PageId, s': Tree)
    requires Inv(s) && Cap(s, c, s')
    ensures Inv(s')
  {
    CapKeepsNodes(s, c, s');
    CapKeepsMerges(s, c, s');
    CapKeepsSeen(s, c, s');
    RootsFrame(s, s');
    SameWalks(s, s');
    GravesFrame(s, s');
  }

  // Intend: a quiet child becomes the merging child.

  lemma IntendChild(s: Tree, p: PageId, k: Key, s': Tree)
    requires Inv(s) && Intend(s, p, k, s')
    ensures var c := N(s, p).kids[k];
            && p in s.live && c in s.live && c in s.pages && c in s.made && s.made[c] == Birth(N(s, p).level - 1, k)
            && c !in s.intended && GoodPage(s', p) && s.made[c].level < s.made[Top(s)].level
  {
    assert GoodPage(s, p) && GoodIndex(s, p) && GoodItem(s, N(s, p), k);
    var c := N(s, p).kids[k];
    assert GoodPage(s, c);
    QuietChild(s, p, c);
  }

  lemma IntendKeepsIndexes(s: Tree, p: PageId, k: Key, s': Tree)
    requires Inv(s) && Intend(s, p, k, s')
    ensures Indexes(s')
  {
    IntendChild(s, p, k, s');
    forall q | q in s'.live && q in s'.pages && N(s', q).level > 0 ensures GoodIndex(s', q) {
      assert GoodIndex(s, q);
      forall j | j in N(s', q).kids ensures GoodItem(s', N(s', q), j) { assert GoodItem(s, N(s, q), j); }
    }
  }

  lemma IntendKeepsMerges(s: Tree, p: PageId, k: Key, s': Tree)
    requires Inv(s) && Intend(s, p, k, s')
    ensures Merges(s')
  {
    IntendChild(s, p, k, s');
    forall d | d in s'.live && d in s'.intended ensures Pending(s', d) {
      if d != N(s, p).kids[k] {
        assert Pending(s, d);
      }
    }
  }

  lemma IntendKeepsNodes(s: Tree, p: PageId, k: Key, s': Tree)
    requires Inv(s) && Intend(s, p, k, s')
    ensures Pages(s') && Chains(s') && Roots(s')
  {
    IntendChild(s, p, k, s');
    PutKeepsNodes(s, p, N(s', p), s');
  }

  lemma IntendKeepsFacts(s: Tree, p: PageId, k: Key, s': Tree)
    requires Inv(s) && Intend(s, p, k, s')
    ensures Facts(s')
  {
    IntendChild(s, p, k, s');
    PutKeepsSeen(s, p, N(s', p), s');
    forall w | w in s'.walks ensures GoodWalk(s', w) { assert GoodWalk(s, w); }
  }

  lemma IntendKeepsInv(s: Tree, p: PageId, k: Key, s': Tree)
    requires Inv(s) && Intend(s, p, k, s')
    ensures Inv(s')
  {
    IntendKeepsNodes(s, p, k, s');
    IntendKeepsIndexes(s, p, k, s');
    IntendKeepsMerges(s, p, k, s');
    IntendKeepsFacts(s, p, k, s');
    IntendKeepsGraves(s, p, k, s');
  }

  lemma IntendKeepsGraves(s: Tree, p: PageId, k: Key, s': Tree)
    requires Inv(s) && Intend(s, p, k, s')
    ensures Graves(s')
  {
    IntendChild(s, p, k, s');
    var c := N(s, p).kids[k];
    forall w | w in s'.walks ensures w.child != c { assert GoodWalk(s, w); }
    forall d, b | d in s'.pages && d !in s'.live && b in s'.graves ensures GoodGrave(s', d, b) {
      assert GoodPage(s, d);
      assert b != c ==> GoodGrave(s, d, b);
    }
  }

  // Confirm: the parent drops the merged child.

  lemma ConfirmParent(s: Tree, p: PageId, s': Tree)
    requires Inv(s) && Confirm(s, p, s')
    ensures p in s.live && N(s, p).level > 0 && GoodPage(s', p) && GoodIndex(s, p)
            && N(s, p).mergingChild.value !in s.live
    ensures !N(s, p).merging
  {
    assert GoodPage(s, p) && GoodIndex(s, p);
  }

  lemma ConfirmKeepsIndexes(s: Tree, p: PageId, s': Tree)
    requires Inv(s) && Confirm(s, p, s')
    ensures Indexes(s')
  {
    ConfirmParent(s, p, s');
    var c := N(s, p).mergingChild.value;
    assert GoodItem(s, N(s, p), s.made[c].lo);
    forall q | q in s'.live && q in s'.pages && N(s', q).level > 0 ensures GoodIndex(s', q) {
      assert GoodIndex(s, q) && GoodPage(s, q);
      forall k | k in N(s', q).kids ensures GoodItem(s', N(s', q), k) {
        assert GoodItem(s, N(s, q), k);
        if q != p && N(s, q).kids[k] == c {
          OneOwner(s, p, q, k);
        }
      }
    }
  }

  lemma ConfirmKeepsMerges(s: Tree, p: PageId, s': Tree)
    requires Inv(s) && Confirm(s, p, s')
    ensures Merges(s')
  {
    ConfirmParent(s, p, s');
    forall d | d in s'.live && d in s'.intended ensures Pending(s', d) { assert Pending(s, d); }
  }

  lemma ConfirmKeepsNodes(s: Tree, p: PageId, s': Tree)
    requires Inv(s) && Confirm(s, p, s')
    ensures Pages(s') && Chains(s')
  {
    ConfirmParent(s, p, s');
    PutKeepsNodes(s, p, N(s', p), s');
  }

  lemma ConfirmKeepsFacts(s: Tree, p: PageId, s': Tree)
    requires Inv(s) && Confirm(s, p, s')
    ensures Facts(s')
  {
    ConfirmParent(s, p, s');
    PutKeepsSeen(s, p, N(s', p), s');
    SameWalks(s, s');
  }

  lemma ConfirmKeepsInv(s: Tree, p: PageId, s': Tree)
    requires Inv(s) && Confirm(s, p, s')
    ensures Inv(s')
  {
    ConfirmKeepsNodes(s, p, s');
    ConfirmKeepsIndexes(s, p, s');
    ConfirmKeepsMerges(s, p, s');
    ConfirmKeepsFacts(s, p, s');
    RootsFrame(s, s');
    GravesFrame(s, s');
  }

  // Free: a page that nothing refers to goes away.

  lemma FreeKeepsNodes(s: Tree, c: PageId, s': Tree)
    requires Pages(s) && Chains(s) && Merges(s) && Free(s, c, s')
    ensures Pages(s') && Chains(s')
  {
    forall p | p in s'.pages ensures GoodPage(s', p) { assert GoodPage(s, p); }
    forall p | p in s'.live && p in s'.pages ensures Linked(s', p) { assert Linked(s, p); }
    forall p, q | p in s'.live && q in s'.live && p in s'.pages && q in s'.pages && p != q
        && N(s', p).level == N(s', q).level
      ensures Apart(N(s', p), N(s', q))
    {
      assert Apart(N(s, p), N(s, q));
    }
  }

  lemma FreeKeepsRest(s: Tree, c: PageId, s': Tree)
    requires Indexes(s) && Merges(s) && Facts(s) && Free(s, c, s')
    ensures Indexes(s') && Merges(s') && Facts(s')
  {
    forall p | p in s'.live && p in s'.pages && N(s', p).level > 0 ensures GoodIndex(s', p) {
      assert GoodIndex(s, p);
      forall k | k in N(s', p).kids ensures GoodItem(s', N(s', p), k) { assert GoodItem(s, N(s, p), k); }
    }
    forall d | d in s'.live && d in s'.intended ensures Pending(s', d) { assert Pending(s, d); }
    forall o | o in s'.seen ensures GoodSeen(s', o) { assert GoodSeen(s, o); }
    SameWalks(s, s');
  }

  lemma FreeKeepsInv(s: Tree, c: PageId, s': Tree)
    requires Inv(s) && Free(s, c, s')
    ensures Inv(s')
  {
    FreeKeepsNodes(s, c, s');
    FreeKeepsRest(s, c, s');
    GravesFrame(s, s');
  }

  // ---------------------------------------------------------------------------------
  // Root hoist
  // ---------------------------------------------------------------------------------

  lemma HoistFresh(s: Tree, to: PageId, r: PageId, s': Tree)
    requires Inv(s) && Hoist(s, to, r, s')
    ensures r !in s.pages && r !in s.live && r !in s.intended && r !in s.absorbed && r !in s.confirmed
  {
    assert r in s.pages ==> GoodPage(s, r);
  }

  lemma HoistKeepsNodes(s: Tree, to: PageId, r: PageId, s': Tree)
    requires Inv(s) && Hoist(s, to, r, s')
    ensures Pages(s') && Chains(s')
  {
    forall p | p in s'.pages ensures GoodPage(s', p) { assert p != r ==> GoodPage(s, p); }
    forall p | p in s'.live && p in s'.pages ensures Linked(s', p) { assert p != r ==> Linked(s, p); }
    forall p, q | p in s'.live && q in s'.live && p in s'.pages && q in s'.pages && p != q
        && N(s', p).level == N(s', q).level
      ensures Apart(N(s', p), N(s', q))
    {
      assert p != r ==> GoodPage(s, p);
      assert q != r ==> GoodPage(s, q);
      assert p != r && q != r ==> Apart(N(s, p), N(s, q));
    }
  }

  lemma HoistKeepsIndexes(s: Tree, to: PageId, r: PageId, s': Tree)
    requires Inv(s) && Hoist(s, to, r, s')
    ensures Indexes(s')
  {
    forall p | p in s'.live && p in s'.pages && N(s', p).level > 0 ensures GoodIndex(s', p) {
      assert p != r ==> GoodIndex(s, p);
      forall k | k in N(s', p).kids ensures GoodItem(s', N(s', p), k) {
        assert p != r ==> GoodItem(s, N(s, p), k);
      }
    }
  }

  lemma HoistKeepsRoots(s: Tree, to: PageId, r: PageId, s': Tree)
    requires Roots(s) && r !in s.intended && Hoist(s, to, r, s')
    ensures Roots(s')
  {
    assert Top(s') == r;
  }

  lemma HoistKeepsMerges(s: Tree, to: PageId, r: PageId, s': Tree)
    requires Merges(s) && r !in s.pages && r !in s.live && r !in s.intended && Hoist(s, to, r, s')
    ensures Merges(s')
  {
    forall c | c in s'.live && c in s'.intended ensures Pending(s', c) { assert Pending(s, c); }
  }

  lemma HoistKeepsFacts(s: Tree, to: PageId, r: PageId, s': Tree)
    requires Facts(s) && r !in s.pages && Hoist(s, to, r, s')
    ensures Facts(s')
  {
    forall o | o in s'.seen ensures GoodSeen(s', o) { assert GoodSeen(s, o); }
    forall w | w in s'.walks ensures GoodWalk(s', w) { assert GoodWalk(s, w); }
  }

  // ---------------------------------------------------------------------------------
  // Split
  // ---------------------------------------------------------------------------------

  /** The bounds and the links of both halves. */
  ghost predicate SplitShape(s: Tree, p: PageId, at: Key, r: PageId, s': Tree) {
    && p in s.live && p in s.pages && r !in s.pages && r !in s.live && r !in s.made
    && s'.live == s.live + {r} && s'.pages.Keys == s.pages.Keys + {r}
    && s'.made == s.made[r := Birth(N(s, p).level, at)]
    && (forall q :: q in s.pages && q != p ==> s'.pages[q] == s.pages[q])
    && var n, a, b := N(s, p), N(s', p), N(s', r);
    && n.lo < at && Below(at, n.hi)
    && a.level == n.level && a.lo == n.lo && a.hi == Some(at) && a.next == Some(r)
    && b.level == n.level && b.lo == at && b.hi == n.hi && b.next == n.next
  }

  lemma SplitLive(s: Tree, p: PageId, at: Key, r: PageId, s': Tree)
    requires Pages(s) && Merges(s) && Split(s, p, at, r, s')
    ensures SplitShape(s, p, at, r, s') && r !in s.intended && r !in s.confirmed && r !in s.absorbed
    ensures N(s', p) == LeftHalf(N(s, p), at, r) && N(s', r) == RightHalf(N(s, p), at)
  {
    assert GoodPage(s, p);
    assert r in s.pages ==> GoodPage(s, r);
  }

  /** Each half holds only what it owns. */
  lemma HalvesOwn(n: Node, at: Key, r: PageId, a: Node, b: Node)
    requires forall k :: k in n.data ==> Owns(n, k)
    requires (n.level == 0 ==> n.kids == map[]) && (n.level > 0 ==> n.data == map[])
    requires a == LeftHalf(n, at, r) && b == RightHalf(n, at)
    ensures forall k :: k in a.data ==> Owns(a, k)
    ensures forall k :: k in b.data ==> Owns(b, k)
    ensures n.level == 0 ==> a.kids == map[] && b.kids == map[]
    ensures n.level > 0 ==> a.data == map[] && b.data == map[]
  {
  }

  lemma SplitHalves(s: Tree, p: PageId, at: Key, r: PageId, s': Tree)
    requires Pages(s) && Merges(s) && Split(s, p, at, r, s')
    ensures SplitShape(s, p, at, r, s') && GoodPage(s', p) && GoodPage(s', r)
  {
    SplitLive(s, p, at, r, s');
    assert GoodPage(s, p);
    HalvesOwn(N(s, p), at, r, N(s', p), N(s', r));
  }

  lemma SplitKeepsPages(s: Tree, p: PageId, at: Key, r: PageId, s': Tree)
    requires Pages(s) && SplitShape(s, p, at, r, s') && GoodPage(s', p) && GoodPage(s', r)
    ensures Pages(s')
  {
    forall q | q in s'.pages ensures GoodPage(s', q) { assert q != r ==> GoodPage(s, q); }
  }

  lemma SplitShapeKeepsChains(s: Tree, p: PageId, at: Key, r: PageId, s': Tree)
    requires Pages(s) && Chains(s) && SplitShape(s, p, at, r, s')
    ensures Chains(s')
  {
    assert GoodPage(s, p) && Linked(s, p);
    forall q | q in s'.live && q in s'.pages ensures Linked(s', q) { assert q != r ==> Linked(s, q); }
    forall a, b | a in s'.live && b in s'.live && a in s'.pages && b in s'.pages && a != b
        && N(s', a).level == N(s', b).level
      ensures Apart(N(s', a), N(s', b))
    {
      var a0, b0 := if a == r then p else a, if b == r then p else b;
      assert GoodPage(s, a0) && GoodPage(s, b0);
      assert a0 != b0 ==> Apart(N(s, a0), N(s, b0));
    }
  }

  lemma SplitKeepsNodes(s: Tree, p: PageId, at: Key, r: PageId, s': Tree)
    requires Pages(s) && Chains(s) && Merges(s) && Split(s, p, at, r, s')
    ensures Pages(s') && Chains(s')
  {
    SplitHalves(s, p, at, r, s');
    SplitKeepsPages(s, p, at, r, s');
    SplitShapeKeepsChains(s, p, at, r, s');
  }

  lemma SplitKeepsIndexes(s: Tree, p: PageId, at: Key, r: PageId, s': Tree)
    requires Pages(s) && Indexes(s) && Merges(s) && Split(s, p, at, r, s')
    ensures Indexes(s')
  {
    SplitLive(s, p, at, r, s');
    forall q | q in s'.live && q in s'.pages && N(s', q).level > 0 ensures GoodIndex(s', q) {
      var q0 := if q == r then p else q;
      assert GoodIndex(s, q0);
      forall k | k in N(s', q).kids ensures GoodItem(s', N(s', q), k) { assert GoodItem(s, N(s, q0), k); }
    }
  }

  lemma SplitKeepsSeen(s: Tree, p: PageId, at: Key, r: PageId, s': Tree)
    requires Inv(s) && Split(s, p, at, r, s')
    ensures forall o {:trigger GoodSeen(s', o)} :: o in s'.seen ==> GoodSeen(s', o)
  {
    SplitLive(s, p, at, r, s');
    forall o | o in s'.seen ensures GoodSeen(s', o) {
      if o in s.seen {
        SplitKeepsOld(s, p, at, r, s', o);
      } else {
        var o0 := Seen(o.parent, o.ts, p);
        assert o0 in s.seen && o == Seen(o0.parent, o0.ts, r);
        SplitAddsNew(s, p, at, r, s', o0);
      }
    }
  }

  lemma SplitKeepsOld(s: Tree, p: PageId, at: Key, r: PageId, s': Tree, o: Seen)
    requires Pages(s) && Facts(s) && SplitShape(s, p, at, r, s') && o in s.seen
    requires s'.pages[p].ts == s.pages[p].ts + 1 && N(s', p).merging == N(s, p).merging
    ensures GoodSeen(s', o)
  {
    assert GoodPage(s, p) && GoodSeen(s, o);
  }

  lemma SplitAddsNew(s: Tree, p: PageId, at: Key, r: PageId, s': Tree, o: Seen)
    requires Inv(s) && SplitShape(s, p, at, r, s') && o in s.seen && o.at == p
    requires s'.pages[p].ts == s.pages[p].ts + 1 && !N(s', r).merging
    ensures GoodSeen(s', Seen(o.parent, o.ts, r))
  {
    assert GoodPage(s, p) && GoodSeen(s, o);
    if o.parent in s.pages && s.pages[o.parent].ts == o.ts && o.parent != p {
      SplitSeen(s, p, at, o);
    }
  }

  /** The right half lies below the end of the parent that the left half was reached from. */
  lemma SplitSeen(s: Tree, p: PageId, at: Key, o: Seen)
    requires Inv(s) && o in s.seen && o.at == p && p in s.live && N(s, p).lo < at && Below(at, N(s, p).hi)
    requires o.parent in s.pages && s.pages[o.parent].ts == o.ts
    ensures Owns(N(s, o.parent), at)
  {
    assert GoodSeen(s, o) && GoodPage(s, p) && GoodPage(s, o.parent);
    if N(s, o.parent).hi.Some? {
      ChildEnds(s, o.parent, p);
    }
  }

  lemma SplitKeepsMerges(s: Tree, p: PageId, at: Key, r: PageId, s': Tree)
    requires Pages(s) && Merges(s) && Split(s, p, at, r, s')
    ensures Merges(s')
  {
    SplitLive(s, p, at, r, s');
    forall c | c in s'.live && c in s'.intended ensures Pending(s', c) { assert Pending(s, c); }
  }

  lemma SplitKeepsRoots(s: Tree, p: PageId, at: Key, r: PageId, s': Tree)
    requires Pages(s) && Merges(s) && Roots(s) && Split(s, p, at, r, s')
    ensures Roots(s')
  {
    assert GoodPage(s, p);
  }

  lemma SplitKeepsWalks(s: Tree, p: PageId, at: Key, r: PageId, s': Tree)
    requires Facts(s) && Pages(s) && Split(s, p, at, r, s')
    ensures forall w {:trigger GoodWalk(s', w)} :: w in s'.walks ==> GoodWalk(s', w)
  {
    forall w | w in s'.walks ensures GoodWalk(s', w) {
      assert GoodWalk(s, w);
      assert r in s.pages ==> GoodPage(s, r);
    }
  }

  // ---------------------------------------------------------------------------------
  // Absorb
  // ---------------------------------------------------------------------------------

  /** A walk that finds a page pointing to the child is at the child's live left sibling:
      the assertions of `receive_merge` hold. */
  lemma SiblingIsLive(s: Tree, w: Walk)
    requires Inv(s) && w in s.walks && w.at in s.pages && N(s, w.at).next == Some(w.child)
    ensures w.at in s.live && w.child in s.live && w.child in s.pages && !N(s, w.at).merging
    ensures var n, m := N(s, w.at), N(s, w.child);
            n.level == m.level && n.hi == Some(m.lo) && n.lo < m.lo
  {
    assert GoodWalk(s, w) && GoodPage(s, w.at);
    assert w.at !in s.live ==> GoodGrave(s, w.at, w.child);
    assert Linked(s, w.at) && GoodPage(s, w.child);
    QuietWalk(s, w);
  }

  /** ... and the child's contents are settled. */
  lemma AbsorbNext(s: Tree, w: Walk, s': Tree)
    requires Inv(s) && Absorb(s, w, s')
    ensures w.at in s.live && w.child in s.live && w.child != w.at && !N(s, w.at).merging
    ensures var n, m := N(s, w.at), N(s, w.child);
            && n.level == m.level && n.hi == Some(m.lo) && n.lo < m.lo && m.mergingChild.None?
            && GoodPage(s, w.at) && GoodPage(s, w.child) && Linked(s, w.at) && Linked(s, w.child)
  {
    SiblingIsLive(s, w);
    assert GoodPage(s, w.at) && GoodPage(s, w.child) && Linked(s, w.at) && Linked(s, w.child);
  }

  /** Next to a node whose merge is announced, no merge is announced. */
  lemma NoNeighbours(s: Tree, l: PageId, c: PageId)
    requires Inv(s) && l in s.live && c in s.live && l in s.intended && N(s, l).next == Some(c)
    ensures c !in s.intended
  {
    assert GoodPage(s, l) && GoodPage(s, c) && Linked(s, l) && Pending(s, l);
    PendingParent(s, l);
    if c in s.intended {
      assert Pending(s, c);
      PendingParent(s, c);
      var p, q := s.intended[l], s.intended[c];
      assert GoodPage(s, p) && GoodPage(s, q);
      if N(s, p).hi.Some? { ChildEnds(s, p, l); }
      if p == q || Apart(N(s, p), N(s, q)) {}
    }
  }

  lemma AbsorbKeepsGraves(s: Tree, w: Walk, s': Tree)
    requires Inv(s) && Absorb(s, w, s')
    ensures Graves(s')
  {
    AbsorbNext(s, w, s');
    forall d, c | d in s'.pages && d !in s'.live && c in s'.graves ensures GoodGrave(s', d, c) {
      if d == w.child {
        if N(s, d).next == Some(c) { NoNeighbours(s, d, c); }
      } else {
        assert GoodGrave(s, d, c);
      }
    }
  }

  lemma AbsorbKeepsPages(s: Tree, w: Walk, s': Tree)
    requires Inv(s) && Absorb(s, w, s')
    ensures Pages(s')
  {
    AbsorbNext(s, w, s');
    forall q | q in s'.pages ensures GoodPage(s', q) { assert GoodPage(s, q); }
  }

  lemma AbsorbKeepsLinks(s: Tree, w: Walk, s': Tree)
    requires Inv(s) && Absorb(s, w, s')
    ensures forall q {:trigger Linked(s', q)} :: q in s'.live && q in s'.pages ==> Linked(s', q)
  {
    AbsorbNext(s, w, s');
    forall q | q in s'.live && q in s'.pages ensures Linked(s', q) {
      assert Linked(s, q) && GoodPage(s, q);
      assert q != w.at && N(s, q).level == N(s, w.at).level ==> Apart(N(s, q), N(s, w.at));
    }
  }

  lemma AbsorbKeepsChains(s: Tree, w: Walk, s': Tree)
    requires Inv(s) && Absorb(s, w, s')
    ensures Chains(s')
  {
    AbsorbNext(s, w, s');
    AbsorbKeepsLinks(s, w, s');
    forall a, b | a in s'.live && b in s'.live && a in s'.pages && b in s'.pages && a != b
        && N(s', a).level == N(s', b).level
      ensures Apart(N(s', a), N(s', b))
    {
      assert GoodPage(s, a) && GoodPage(s, b);
      assert Apart(N(s, a), N(s, b));
      if N(s, a).level == N(s, w.child).level {
        assert Apart(N(s, a), N(s, w.child)) && Apart(N(s, b), N(s, w.child));
      }
    }
  }

  lemma AbsorbKeepsIndexes(s: Tree, w: Walk, s': Tree)
    requires Inv(s) && Absorb(s, w, s')
    ensures Indexes(s')
  {
    AbsorbNext(s, w, s');
    assert Pending(s, w.child);
    PendingParent(s, w.child);
    forall q | q in s'.live && q in s'.pages && N(s', q).level > 0 ensures GoodIndex(s', q) {
      assert GoodIndex(s, q) && GoodPage(s, q);
      assert N(s, w.child).level > 0 ==> GoodIndex(s, w.child);
      forall k | k in N(s', q).kids ensures GoodItem(s', N(s', q), k) {
        AbsorbItem(s, w, s', q, k);
      }
    }
  }

  lemma AbsorbItem(s: Tree, w: Walk, s': Tree, q: PageId, k: Key)
    requires Inv(s) && Absorb(s, w, s') && q in s'.live && q in s'.pages && N(s', q).level > 0 && k in N(s', q).kids
    ensures GoodItem(s', N(s', q), k)
  {
    AbsorbNext(s, w, s');
    assert Pending(s, w.child);
    PendingParent(s, w.child);
    var q0 := if q == w.at && k in N(s, w.child).kids then w.child else q;
    assert GoodPage(s, q0) && GoodIndex(s, q0) && GoodItem(s, N(s, q0), k);
    if N(s, q0).kids[k] == w.child {
      OneOwner(s, q0, s.intended[w.child], k);
    }
  }

  lemma AbsorbKeepsMerges(s: Tree, w: Walk, s': Tree)
    requires Inv(s) && Absorb(s, w, s')
    ensures Merges(s')
  {
    AbsorbNext(s, w, s');
    forall c | c in s'.live && c in s'.intended ensures Pending(s', c) { assert Pending(s, c); }
  }

  lemma AbsorbKeepsFacts(s: Tree, w: Walk, s': Tree)
    requires Inv(s) && Absorb(s, w, s')
    ensures Facts(s')
  {
    AbsorbNext(s, w, s');
    forall o | o in s'.seen ensures GoodSeen(s', o) { assert GoodSeen(s, o); }
    forall v | v in s'.walks ensures GoodWalk(s', v) {
      assert GoodWalk(s, v);
      if v.child in s.live { QuietWalk(s, v); }
    }
  }

  lemma AbsorbKeepsRoots(s: Tree, w: Walk, s': Tree)
    requires Inv(s) && Absorb(s, w, s')
    ensures Roots(s')
  {
    AbsorbNext(s, w, s');
    assert Pending(s, w.child);
    PendingParent(s, w.child);
    assert GoodPage(s, s.intended[w.child]);
  }

  // ---------------------------------------------------------------------------------
  // Every step
  // ---------------------------------------------------------------------------------

  lemma SplitKeepsInv(s: Tree, p: PageId, at: Key, r: PageId, s': Tree)
    requires Inv(s) && Split(s, p, at, r, s')
    ensures Inv(s')
  {
    SplitKeepsNodes(s, p, at, r, s');
    SplitKeepsIndexes(s, p, at, r, s');
    SplitKeepsSeen(s, p, at, r, s');
    SplitKeepsMerges(s, p, at, r, s');
    SplitKeepsRoots(s, p, at, r, s');
    SplitKeepsWalks(s, p, at, r, s');
    SplitKeepsGraves(s, p, at, r, s');
  }

  lemma SplitKeepsGraves(s: Tree, p: PageId, at: Key, r: PageId, s': Tree)
    requires Pages(s) && Merges(s) && Graves(s) && Split(s, p, at, r, s')
    ensures Graves(s')
  {
    SplitLive(s, p, at, r, s');
    GravesFrame(s, s');
  }

  lemma AbsorbKeepsInv(s: Tree, w: Walk, s': Tree)
    requires Inv(s) && Absorb(s, w, s')
    ensures Inv(s')
  {
    AbsorbKeepsPages(s, w, s');
    AbsorbKeepsChains(s, w, s');
    AbsorbKeepsIndexes(s, w, s');
    AbsorbKeepsMerges(s, w, s');
    AbsorbKeepsFacts(s, w, s');
    AbsorbKeepsRoots(s, w, s');
    AbsorbKeepsGraves(s, w, s');
  }

  lemma HoistKeepsInv(s: Tree, to: PageId, r: PageId, s': Tree)
    requires Inv(s) && Hoist(s, to, r, s')
    ensures Inv(s')
  {
    HoistKeepsNodes(s, to, r, s');
    HoistKeepsIndexes(s, to, r, s');
    HoistFresh(s, to, r, s');
    HoistKeepsRoots(s, to, r, s');
    HoistKeepsMerges(s, to, r, s');
    HoistKeepsFacts(s, to, r, s');
    GravesFrame(s, s');
  }

  /** A thread that goes down or right knows a good pair of parent and child afterwards. */
  lemma SeeingKeepsInv(s: Tree, s': Tree)
    requires Inv(s) && ((exists p, k :: Descend(s, p, k, s')) || (exists o :: MoveRight(s, o, s')))
    ensures Inv(s')
  {
    if p, k :| Descend(s, p, k, s') {
      DescendSeen(s, p, k, s');
    } else {
      var o :| MoveRight(s, o, s');
      MoveRightSeen(s, o, s');
    }
    LearnKeepsInv(s, s');
  }

  lemma WalkingKeepsInv(s: Tree, s': Tree)
    requires Inv(s) && ((exists p, k :: StartWalk(s, p, k, s')) || (exists w :: WalkRight(s, w, s')))
    ensures Inv(s')
  {
    if p, k :| StartWalk(s, p, k, s') {
      StartWalkGood(s, p, k, s');
    } else {
      var w :| WalkRight(s, w, s');
      WalkRightGood(s, w, s');
    }
    LearnKeepsInv(s, s');
  }

  lemma SwingKeepsInv(s: Tree, s': Tree)
    requires Inv(s) && SwingRoot(s, s')
    ensures Inv(s')
  {
    GravesFrame(s, s');
    LearnKeepsInv(s, s');
  }

  lemma StructuralKeepsInv(s: Tree, s': Tree)
    requires Inv(s) && Structural(s, s')
    ensures Inv(s')
  {
    if p, at, r :| Split(s, p, at, r, s') {
      SplitKeepsInv(s, p, at, r, s');
    } else if o :| ParentSplit(s, o, s') {
      ParentSplitKeepsInv(s, o, s');
    } else if to, r :| Hoist(s, to, r, s') {
      HoistKeepsInv(s, to, r, s');
    } else if p, k :| Intend(s, p, k, s') {
      IntendKeepsInv(s, p, k, s');
    } else if c :| Cap(s, c, s') {
      CapKeepsInv(s, c, s');
    } else if w :| Overshoot(s, w, s') {
      OvershootKeepsInv(s, w, s');
    } else if w :| Absorb(s, w, s') {
      AbsorbKeepsInv(s, w, s');
    } else if p :| Confirm(s, p, s') {
      ConfirmKeepsInv(s, p, s');
    } else if c :| Free(s, c, s') {
      FreeKeepsInv(s, c, s');
    } else if SwingRoot(s, s') {
      SwingKeepsInv(s, s');
    } else if (exists p, k :: Descend(s, p, k, s')) || (exists o :: MoveRight(s, o, s')) {
      SeeingKeepsInv(s, s');
    } else {
      WalkingKeepsInv(s, s');
    }
  }
}
