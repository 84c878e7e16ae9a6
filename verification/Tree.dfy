/** The B-link tree as a machine over its page CAS steps: leaf updates, splits, cooperative
    parent splits, root hoists, and merges in five steps. Threads act on what they saw
    earlier; a CAS only tells them that the page they write has not changed since. */
module Tree {
  import opened Base

  /** A key's rank: an order embedding of the byte strings, the empty one first. */
  type Key = r: real | 0.0 <= r witness 0.0

  /** `level` is 0 for a leaf, which holds `data`; an index node holds `kids`. */
  datatype Node = Node(level: nat, lo: Key, hi: Option<Key>, next: Option<PageId>,
                       data: map<Key, nat>, kids: map<Key, PageId>, mergingChild: Option<PageId>, merging: bool)

  /** A page and its timestamp, which every successful CAS advances. */
  datatype Page = Page(ts: nat, node: Node)

  datatype Birth = Birth(level: nat, lo: Key)

  /** A thread descended from index page `parent` at `ts`, and moved on to `at`. */
  datatype Seen = Seen(parent: PageId, ts: nat, at: PageId)

  /** A thread merging `child` looks for its left sibling at `at`. */
  datatype Walk = Walk(child: PageId, at: PageId)

  datatype Tree = Tree(
    pages: map<PageId, Page>,
    roots: seq<PageId>,             // every root so far; the last one is in the meta page
    cur: nat,                       // the root that readers start from
    live: set<PageId>,              // the nodes on the sibling chains
    made: map<PageId, Birth>,       // every page ever installed; ids are not reused
    intended: map<PageId, PageId>,  // merging child to parent, for every merge intention
    graves: map<PageId, set<PageId>>, // per merging child, the pages merged away before its intention
    absorbed: set<PageId>,          // children that some thread knows to be merged away
    confirmed: set<PageId>,         // children whose merge their parent has confirmed
    seen: set<Seen>,                // what threads know from descents
    walks: set<Walk>)               // where threads are in merges

  function N(s: Tree, p: PageId): Node
    requires p in s.pages
  {
    s.pages[p].node
  }

  function Top(s: Tree): PageId
    requires |s.roots| > 0
  {
    s.roots[|s.roots| - 1]
  }

  predicate Below(k: Key, hi: Option<Key>) {
    hi.Some? ==> k < hi.value
  }

  predicate Owns(n: Node, k: Key) {
    n.lo <= k && Below(k, n.hi)
  }

  predicate Apart(a: Node, b: Node) {
    (a.hi.Some? && a.hi.value <= b.lo) || (b.hi.Some? && b.hi.value <= a.lo)
  }

  // ---------------------------------------------------------------------------------
  // Invariants
  // ---------------------------------------------------------------------------------

  ghost predicate GoodPage(s: Tree, p: PageId)
    requires p in s.pages
  {
    var n := N(s, p);
    && p in s.made && s.made[p] == Birth(n.level, n.lo)
    && (n.hi.Some? ==> n.lo < n.hi.value)
    && (n.merging ==> n.mergingChild.None?)
    && (p !in s.live ==> n.merging)
    && (n.level == 0 ==> n.kids == map[] && n.mergingChild.None?)
    && (n.level > 0 ==> n.data == map[])
    && (forall k :: k in n.data ==> Owns(n, k))
  }

  ghost predicate Pages(s: Tree) {
    && (forall p {:trigger GoodPage(s, p)} :: p in s.pages ==> GoodPage(s, p))
    && (forall p :: p in s.live ==> p in s.pages)
  }

  ghost predicate Linked(s: Tree, p: PageId)
    requires p in s.pages
  {
    var n := N(s, p);
    if n.hi.None? then n.next.None?
    else
      && n.next.Some? && n.next.value in s.live && n.next.value in s.made
      && s.made[n.next.value] == Birth(n.level, n.hi.value)
  }

  /** Every level's nodes are linked left to right, and no two of them overlap. */
  ghost predicate Chains(s: Tree) {
    && (forall p {:trigger Linked(s, p)} :: p in s.live && p in s.pages ==> Linked(s, p))
    && (forall p, q {:trigger Apart(N(s, p), N(s, q))} ::
          && p in s.live && q in s.live && p in s.pages && q in s.pages
          && p != q && N(s, p).level == N(s, q).level ==>
          Apart(N(s, p), N(s, q)))
  }

  /** An item of an index node points to a node that begins at the item's key; the only
      item that may point to a node that is gone is the merging child's. */
  ghost predicate GoodItem(s: Tree, n: Node, k: Key)
    requires k in n.kids
  {
    var c := n.kids[k];
    && Owns(n, k)
    && c in s.made && s.made[c].lo == k && s.made[c].level + 1 == n.level
    && c !in s.confirmed
    && (c in s.live || n.mergingChild == Some(c))
  }

  /** The first item of an index node sits at its low key, and is never the merging child. */
  ghost predicate GoodIndex(s: Tree, p: PageId)
    requires p in s.pages
  {
    var n := N(s, p);
    && n.lo in n.kids
    && (forall k {:trigger GoodItem(s, n, k)} :: k in n.kids ==> GoodItem(s, n, k))
    && (n.mergingChild.Some? ==>
          && var c := n.mergingChild.value;
          && c in s.intended && s.intended[c] == p
          && c in s.made && s.made[c].lo in n.kids && n.kids[s.made[c].lo] == c && s.made[c].lo != n.lo)
  }

  ghost predicate Indexes(s: Tree) {
    forall p {:trigger GoodIndex(s, p)} :: p in s.live && p in s.pages && N(s, p).level > 0 ==> GoodIndex(s, p)
  }

  /** The parent of c still announces the merge of c. */
  ghost predicate Pending(s: Tree, c: PageId) {
    && c in s.intended && s.intended[c] in s.live && s.intended[c] in s.pages
    && N(s, s.intended[c]).mergingChild == Some(c)
    && N(s, s.intended[c]).level > 0
  }

  /** A node on the chain is capped, or may be capped, only while its merge is pending. */
  ghost predicate Merges(s: Tree) {
    && (forall c :: c in s.live && c in s.pages && N(s, c).merging ==> c in s.intended)
    && (forall c {:trigger Pending(s, c)} :: c in s.live && c in s.intended ==> Pending(s, c))
    && (forall c :: c in s.absorbed ==> c !in s.live && c in s.made)
    && (forall c :: c in s.confirmed ==> c in s.absorbed)
    && (forall c :: c in s.intended ==> c in s.made)
  }

  ghost predicate GoodSeen(s: Tree, o: Seen) {
    && o.parent in s.made && o.at in s.made && s.made[o.parent].level == s.made[o.at].level + 1
    && (o.parent in s.pages ==> o.ts <= s.pages[o.parent].ts)
    && (o.parent in s.pages && s.pages[o.parent].ts == o.ts ==>
          && var n := N(s, o.parent);
          && o.parent in s.live && n.mergingChild.None? && !n.merging
          && Owns(n, s.made[o.at].lo)
          && (s.made[o.at].lo in n.kids || (o.at in s.live && o.at in s.pages && !N(s, o.at).merging)))
  }

  /** While the child is still on the chain, so is the place where a thread looks for its
      left sibling. */
  ghost predicate GoodWalk(s: Tree, w: Walk) {
    && w.child in s.intended && w.child in s.made && s.intended[w.child] in s.made
    && (w.child in s.live ==>
          && w.at in s.live && w.at in s.made
          && s.made[w.at].level == s.made[w.child].level
          && s.made[s.intended[w.child]].lo <= s.made[w.at].lo < s.made[w.child].lo)
  }

  ghost predicate Facts(s: Tree) {
    && (forall o {:trigger GoodSeen(s, o)} :: o in s.seen ==> GoodSeen(s, o))
    && (forall w {:trigger GoodWalk(s, w)} :: w in s.walks ==> GoodWalk(s, w))
  }

  /** Roots are leftmost nodes; above the last one there is nothing, so at its level
      nothing is ever merged away. */
  ghost predicate Roots(s: Tree) {
    && |s.roots| > 0 && s.cur < |s.roots|
    && (forall i :: 0 <= i < |s.roots| ==> s.roots[i] in s.live && s.roots[i] in s.made && s.made[s.roots[i]].lo == 0.0)
    && (forall p :: p in s.made ==> s.made[p].level <= s.made[Top(s)].level)
    && (forall p :: p in s.made && s.made[p].level == s.made[Top(s)].level ==> p in s.live && p !in s.intended)
  }

  /** A page that is gone and still points to c, or to a page that was gone when the merge
      of c was announced, was itself gone by then. */
  ghost predicate GoodGrave(s: Tree, d: PageId, c: PageId)
    requires d in s.pages && c in s.graves
  {
    N(s, d).next.Some? && (N(s, d).next.value == c || N(s, d).next.value in s.graves[c]) ==> d in s.graves[c]
  }

  /** A thread that merges c never looks at a page that was gone when the merge was announced. */
  ghost predicate Graves(s: Tree) {
    && s.graves.Keys == s.intended.Keys
    && (forall c :: c in s.graves ==> s.graves[c] !! s.live)
    && (forall c :: c in s.graves ==> s.graves[c] <= s.made.Keys)
    && (forall d, c {:trigger GoodGrave(s, d, c)} :: d in s.pages && d !in s.live && c in s.graves ==>
          GoodGrave(s, d, c))
    && (forall w :: w in s.walks && w.child in s.graves ==> w.at !in s.graves[w.child])
  }

  ghost predicate Inv(s: Tree) {
    Pages(s) && Chains(s) && Indexes(s) && Merges(s) && Facts(s) && Roots(s) && Graves(s)
  }

  // ---------------------------------------------------------------------------------
  // Steps
  // ---------------------------------------------------------------------------------

  /** A successful CAS on page p. */
  function Put(s: Tree, p: PageId, n: Node): Tree
    requires p in s.pages
  {
    s.(pages := s.pages[p := Page(s.pages[p].ts + 1, n)])
  }

  /** `Tree::insert` or `remove` on the leaf that owns k, found by `view_for_key`. */
  ghost predicate Update(s: Tree, p: PageId, k: Key, v: Option<nat>, s': Tree) {
    && p in s.pages
    && var n := N(s, p);
    && n.level == 0 && !n.merging && Owns(n, k)
    && s' == Put(s, p, n.(data := if v.Some? then n.data[k := v.value] else n.data - {k}))
  }

  function LeftHalf(n: Node, at: Key, r: PageId): Node {
    n.(hi := Some(at), next := Some(r), data := map k | k in n.data
        && k < at :: n.data[k], kids := map k | k in n.kids && k < at :: n.kids[k])
  }

  function RightHalf(n: Node, at: Key): Node {
    n.(lo := at, data := map k | k in n.data && at <= k :: n.data[k], kids := map k | k in n.kids
        && at <= k :: n.kids[k])
  }

  /** `split_node` up to the replacement of the left half: an index node is split at one of
      its items. A thread that descended to p also knows the right half. */
  ghost predicate Split(s: Tree, p: PageId, at: Key, r: PageId, s': Tree) {
    && p in s.pages && r !in s.made
    && var n := N(s, p);
    && !n.merging && n.mergingChild.None?
    && n.lo < at && Below(at, n.hi) && (n.level > 0 ==> at in n.kids)
    && var pages := s.pages[r := Page(0, RightHalf(n, at))];
    && s' == Put(s.(pages := pages), p, LeftHalf(n, at, r)).(
               live := s.live + {r}, made := s.made[r := Birth(n.level, at)],
               seen := s.seen + set o | o in s.seen && o.at == p :: Seen(o.parent, o.ts, r))
  }

  /** `view_for_key` descends from an index page that it found without a merge going on. */
  ghost predicate Descend(s: Tree, p: PageId, k: Key, s': Tree) {
    && p in s.pages
    && var n := N(s, p);
    && !n.merging && n.mergingChild.None? && n.level > 0 && k in n.kids
    && s' == s.(seen := s.seen + {Seen(p, s.pages[p].ts, n.kids[k])})
  }

  /** `view_for_key` moves right: the key looked for is owned by the parent it came from,
      and is not below the high key here. */
  ghost predicate MoveRight(s: Tree, o: Seen, s': Tree) {
    && o in s.seen && o.at in s.pages
    && var n := N(s, o.at);
    && !n.merging && n.next.Some? && n.hi.Some?
    && (o.parent in s.pages && s.pages[o.parent].ts == o.ts ==> Below(n.hi.value, N(s, o.parent).hi))
    && s' == s.(seen := s.seen + {Seen(o.parent, o.ts, n.next.value)})
  }

  /** `parent_split`: install the child that was found, unless its key is there already. */
  ghost predicate ParentSplit(s: Tree, o: Seen, s': Tree) {
    && o in s.seen && o.parent in s.pages && s.pages[o.parent].ts == o.ts && o.at in s.made
    && var n := N(s, o.parent);
    && s.made[o.at].lo !in n.kids
    && s' == Put(s, o.parent, n.(kids := n.kids[s.made[o.at].lo := o.at]))
  }

  /** `root_hoist` up to the CAS of the meta page: `to` was reached from the root by right
      moves only. */
  ghost predicate Hoist(s: Tree, to: PageId, r: PageId, s': Tree) {
    && |s.roots| > 0 && r !in s.made && to in s.made && Top(s) in s.made
    && s.made[to].level == s.made[Top(s)].level && 0.0 < s.made[to].lo
    && var level := s.made[to].level + 1;
    && var kids := map[0.0 := Top(s), s.made[to].lo := to];
    && s' == s.(pages := s.pages[r := Page(0, Node(level, 0.0, None, None, map[], kids, None, false))],
                live := s.live + {r}, made := s.made[r := Birth(level, 0.0)], roots := s.roots + [r])
  }

  /** The end of `root_hoist`: readers start from the next root. */
  ghost predicate SwingRoot(s: Tree, s': Tree) {
    s.cur + 1 < |s.roots| && s' == s.(cur := s.cur + 1)
  }

  /** `ParentMergeIntention` for a child that is not the leftmost one. */
  ghost predicate Intend(s: Tree, p: PageId, k: Key, s': Tree) {
    && p in s.pages
    && var n := N(s, p);
    && n.level > 0 && !n.merging && n.mergingChild.None? && k in n.kids && k != n.lo
    && var c := n.kids[k];
    && s' == Put(s, p, n.(mergingChild := Some(c))).(intended := s.intended[c := p],
          graves := s.graves[c := s.made.Keys - s.live])
  }

  /** `cap_merging_child`, by a thread that saw the intention at some time. */
  ghost predicate Cap(s: Tree, c: PageId, s': Tree) {
    && c in s.intended && c in s.pages && !N(s, c).merging && N(s, c).mergingChild.None?
    && s' == Put(s, c, N(s, c).(merging := true))
  }

  /** `merge_node` starts to look for the left sibling at an earlier child of the parent. */
  ghost predicate StartWalk(s: Tree, p: PageId, k: Key, s': Tree) {
    && p in s.pages
    && var n := N(s, p);
    && n.level > 0 && n.mergingChild.Some? && n.mergingChild.value in s.made
    && k in n.kids && k < s.made[n.mergingChild.value].lo
    && s' == s.(walks := s.walks + {Walk(n.mergingChild.value, n.kids[k])})
  }

  ghost predicate WalkRight(s: Tree, w: Walk, s': Tree) {
    && w in s.walks && w.at in s.pages && w.child in s.made
    && var n := N(s, w.at);
    && n.next.Some? && n.next.value != w.child && n.hi.Some? && n.hi.value < s.made[w.child].lo
    && s' == s.(walks := s.walks + {Walk(w.child, n.next.value)})
  }

  /** The walk finds that another thread has already merged the child. */
  ghost predicate Overshoot(s: Tree, w: Walk, s': Tree) {
    && w in s.walks && w.at in s.pages && w.child in s.made
    && var n := N(s, w.at);
    && n.next != Some(w.child)
    && (n.next.None? || (n.hi.Some? && s.made[w.child].lo <= n.hi.value))
    && s' == s.(absorbed := s.absorbed + {w.child})
  }

  function Joined(a: Node, b: Node): Node {
    a.(hi := b.hi, next := b.next, data := a.data + b.data, kids := a.kids + b.kids)
  }

  /** The left sibling takes the capped child in. */
  ghost predicate Absorb(s: Tree, w: Walk, s': Tree) {
    && w in s.walks && w.at in s.pages && w.child in s.pages
    && var n := N(s, w.at);
    && n.next == Some(w.child) && n.mergingChild.None? && N(s, w.child).merging
    && s' == Put(s, w.at, Joined(n, N(s, w.child))).(live := s.live - {w.child}, absorbed := s.absorbed + {w.child})
  }

  /** `ParentMergeConfirm`, by a thread that knows the child to be merged away. */
  ghost predicate Confirm(s: Tree, p: PageId, s': Tree) {
    && p in s.pages
    && var n := N(s, p);
    && n.mergingChild.Some? && n.mergingChild.value in s.absorbed && n.mergingChild.value in s.made
    && var c := n.mergingChild.value;
    && s' == Put(s, p, n.(kids := n.kids - {s.made[c].lo}, mergingChild := None)).(confirmed := s.confirmed + {c})
  }

  ghost predicate Free(s: Tree, c: PageId, s': Tree) {
    && c in s.confirmed && c in s.pages
    && s' == s.(pages := s.pages - {c})
  }

  /** A thread's step that changes no key's value. */
  ghost predicate Structural(s: Tree, s': Tree) {
    || (exists p, at, r :: Split(s, p, at, r, s'))
    || (exists p, k :: Descend(s, p, k, s'))
    || (exists o :: MoveRight(s, o, s'))
    || (exists o :: ParentSplit(s, o, s'))
    || (exists to, r :: Hoist(s, to, r, s'))
    || SwingRoot(s, s')
    || (exists p, k :: Intend(s, p, k, s'))
    || (exists c :: Cap(s, c, s'))
    || (exists p, k :: StartWalk(s, p, k, s'))
    || (exists w :: WalkRight(s, w, s'))
    || (exists w :: Overshoot(s, w, s'))
    || (exists w :: Absorb(s, w, s'))
    || (exists p :: Confirm(s, p, s'))
    || (exists c :: Free(s, c, s'))
  }
}
