/** The records of pages, what replaying them gives, and the page table of a snapshot. */
module PageLog {
  import opened Base

  /** A node as its bytes, without the counter of rewrites. */
  type Core = bytes

  /** How links act on nodes; None is a panic. The results below hold for every such function. */
  type Semantics = (Core, bytes) -> Option<Core>

  datatype Content = Absent | Vacant | Held(core: Core)

  /** Where a record lies. */
  datatype Item = Item(lsn: nat, ptr: nat, size: nat)

  datatype Kind = Replace(core: Core, gens: nat) | Link(link: bytes) | Free

  datatype Rec = Rec(pid: PageId, item: Item, kind: Kind)

  // ---------------------------------------------------------------------------------
  // What a list of records says a page holds
  // ---------------------------------------------------------------------------------

  function ContentAfter(apply: Semantics, c: Option<Content>, r: Rec): Option<Content> {
    match r.kind
    case Replace(core, _) => Some(Held(core))
    case Free => Some(Vacant)
    case Link(link) =>
      if c.Some? && c.value.Held? then
        var d := apply(c.value.core, link);
        if d.Some? then Some(Held(d.value)) else None
      else None
  }

  function ContentOf(apply: Semantics, rs: seq<Rec>): Option<Content> {
    if rs == [] then Some(Absent) else ContentAfter(apply, ContentOf(apply, rs[..|rs| - 1]), rs[|rs| - 1])
  }

  /** Only the records from the last base on matter. */
  lemma {:induction false} ContentFromBase(apply: Semantics, rs: seq<Rec>, k: nat)
    requires k < |rs| && !rs[k].kind.Link?
    ensures ContentOf(apply, rs) == ContentOf(apply, rs[k..])
  {
    if k < |rs| - 1 {
      ContentFromBase(apply, rs[..|rs| - 1], k);
      assert rs[..|rs| - 1][k..] == rs[k..][..|rs[k..]| - 1];
    } else {
      assert rs[k..] == [rs[k]];
      assert rs[k..][..0] == [];
    }
  }

  // ---------------------------------------------------------------------------------
  // The page states of a snapshot
  // ---------------------------------------------------------------------------------

  datatype PageState = Present(base: Item, frags: seq<Item>) | FreeAt(item: Item) | Uninitialized

  function LastLsn(s: PageState): nat
    requires s.Present?
  {
    if s.frags == [] then s.base.lsn else s.frags[|s.frags| - 1].lsn
  }

  /** `Snapshot::apply` on the record's page, with `PageState::push`. */
  function StateAfter(s: PageState, r: Rec): PageState {
    match r.kind
    case Replace(_, _) => Present(r.item, [])
    case Free => FreeAt(r.item)
    case Link(_) =>
      if s.Present? && LastLsn(s) < r.item.lsn then Present(s.base, s.frags + [r.item]) else s
  }

  function Replayed(s: PageState, rs: seq<Rec>): PageState {
    if rs == [] then s else StateAfter(Replayed(s, rs[..|rs| - 1]), rs[|rs| - 1])
  }

  lemma {:induction false} ReplayedConcat(s: PageState, a: seq<Rec>, b: seq<Rec>)
    ensures Replayed(s, a + b) == Replayed(Replayed(s, a), b)
  {
    if b == [] {
      assert a + b == a;
    } else {
      assert (a + b)[..|a + b| - 1] == a + b[..|b| - 1];
      ReplayedConcat(s, a, b[..|b| - 1]);
    }
  }

  ghost predicate Below(r: Rec, s: Rec) {
    r.item.lsn < s.item.lsn
  }

  ghost predicate Increasing(rs: seq<Rec>) {
    forall i, j {:trigger Below(rs[i], rs[j])} :: 0 <= i < j < |rs| ==> Below(rs[i], rs[j])
  }

  lemma IncreasingSlice(h: seq<Rec>, i: nat, j: nat)
    requires Increasing(h) && i <= j <= |h|
    ensures Increasing(h[i..j])
  {
    forall a, b | 0 <= a < b < j - i ensures Below(h[i..j][a], h[i..j][b]) { assert Below(h[i + a], h[i + b]); }
  }

  /** Position follows LSN. */
  lemma IndexAfter(h: seq<Rec>, i: nat, j: nat)
    requires Increasing(h) && i < |h| && j < |h|
    ensures h[i].item.lsn < h[j].item.lsn <==> i < j
    ensures h[i] == h[j] <==> i == j
  {
    assert i < j ==> Below(h[i], h[j]);
    assert j < i ==> Below(h[j], h[i]);
  }

  ghost predicate OnlyLinks(rs: seq<Rec>) {
    forall i :: 0 <= i < |rs| ==> rs[i].kind.Link?
  }

  function Items(rs: seq<Rec>): (r: seq<Item>)
    ensures |r| == |rs| && forall i :: 0 <= i < |rs| ==> r[i] == rs[i].item
  {
    seq(|rs|, i requires 0 <= i < |rs| => rs[i].item)
  }

  /** The state that a base and its links stand for. */
  function Built(base: Rec, links: seq<Rec>): PageState
    requires !base.kind.Link?
  {
    if base.kind.Free? then FreeAt(base.item) else Present(base.item, Items(links))
  }

  /** Replaying a base and its links, on top of anything. */
  lemma {:induction false} ReplayBuilds(s: PageState, base: Rec, links: seq<Rec>)
    requires !base.kind.Link? && OnlyLinks(links) && Increasing([base] + links)
    ensures Replayed(s, [base] + links) == Built(base, links)
  {
    var rs := [base] + links;
    if links == [] {
      assert rs[..0] == [];
      assert rs == [base];
    } else {
      var most := links[..|links| - 1];
      assert rs[..|rs| - 1] == [base] + most;
      IncreasingSlice(rs, 0, |rs| - 1);
      assert rs[0..|rs| - 1] == [base] + most;
      ReplayBuilds(s, base, most);
      assert rs[|rs| - 1] == links[|links| - 1];
      assert Below(rs[|rs| - 2], rs[|rs| - 1]);
      if base.kind.Replace? {
        assert Items(links) == Items(most) + [links[|links| - 1].item];
        assert most != [] ==> rs[|most|] == most[|most| - 1];
      }
    }
  }

  /** Links do nothing to a page without a base. */
  lemma {:induction false} LinksDangle(s: PageState, rs: seq<Rec>)
    requires OnlyLinks(rs) && !s.Present?
    ensures Replayed(s, rs) == s
  {
    if rs != [] { LinksDangle(s, rs[..|rs| - 1]); }
  }

  // ---------------------------------------------------------------------------------
  // One page of a fuzzy snapshot
  // ---------------------------------------------------------------------------------

  ghost predicate LinksFrom(h: seq<Rec>, from: int) {
    forall i {:trigger h[i]} :: 0 <= i < |h| && from <= i ==> h[i].kind.Link?
  }

  /** The last record of h that is not a link; -1 if there is none. */
  function LastBase(h: seq<Rec>): (b: int)
    ensures -1 <= b < |h| && (b >= 0 ==> !h[b].kind.Link?) && LinksFrom(h, b + 1)
  {
    if h == [] then -1
    else if !h[|h| - 1].kind.Link? then |h| - 1
    else
      var g := h[..|h| - 1];
      var b := LastBase(g);
      assert forall i {:trigger h[i]} :: 0 <= i < |h| - 1 ==> h[i] == g[i];
      b
  }

  /** Everything up to and including the last base is forgotten. */
  lemma ReplayFromBase(s: PageState, h: seq<Rec>, b: nat)
    requires Increasing(h) && b < |h| && !h[b].kind.Link? && OnlyLinks(h[b + 1..])
    ensures Replayed(s, h) == Built(h[b], h[b + 1..])
  {
    assert h[b..|h|] == [h[b]] + h[b + 1..];
    IncreasingSlice(h, b, |h|);
    assert h == h[..b] + h[b..|h|];
    ReplayedConcat(s, h[..b], h[b..|h|]);
    ReplayBuilds(Replayed(s, h[..b]), h[b], h[b + 1..]);
  }

  /** An increasing list is determined by its members. */
  lemma {:induction false} SameMembers(a: seq<Rec>, b: seq<Rec>)
    requires Increasing(a) && Increasing(b) && forall r :: r in a <==> r in b
    ensures a == b
    decreases |a|
  {
    if a != [] || b != [] {
      assert a != [] ==> a[0] in b;
      assert b != [] ==> b[0] in a;
      SameLast(a, b);
      var a', b' := a[..|a| - 1], b[..|b| - 1];
      forall r ensures r in a' <==> r in b' {
        MemberBeforeLast(a, r);
        MemberBeforeLast(b, r);
      }
      IncreasingSlice(a, 0, |a| - 1);
      IncreasingSlice(b, 0, |b| - 1);
      SameMembers(a', b');
      assert a == a' + [a[|a| - 1]] && b == b' + [b[|b| - 1]];
    }
  }

  lemma SameLast(a: seq<Rec>, b: seq<Rec>)
    requires Increasing(a) && Increasing(b) && a != [] && b != [] && a[|a| - 1] in b && b[|b| - 1] in a
    ensures a[|a| - 1] == b[|b| - 1]
  {
    var i :| 0 <= i < |b| && b[i] == a[|a| - 1];
    var j :| 0 <= j < |a| && a[j] == b[|b| - 1];
    IndexAfter(b, i, |b| - 1);
    IndexAfter(a, j, |a| - 1);
  }

  lemma MemberBeforeLast(a: seq<Rec>, r: Rec)
    requires Increasing(a) && a != []
    ensures r in a[..|a| - 1] <==> r in a && r != a[|a| - 1]
  {
    if r in a && r != a[|a| - 1] {
      var i :| 0 <= i < |a| && a[i] == r;
      assert a[..|a| - 1][i] == r;
    }
    if r in a[..|a| - 1] {
      var i :| 0 <= i < |a| - 1 && a[i] == r;
      IndexAfter(a, i, |a| - 1);
    }
  }

  /** What follows position m in an increasing list. */
  lemma MemberAfter(a: seq<Rec>, m: nat, r: Rec)
    requires Increasing(a) && m < |a|
    ensures r in a[m + 1..] <==> r in a && a[m].item.lsn < r.item.lsn
  {
    if r in a && a[m].item.lsn < r.item.lsn {
      var i :| 0 <= i < |a| && a[i] == r;
      IndexAfter(a, m, i);
      assert a[m + 1..][i - m - 1] == r;
    }
    if r in a[m + 1..] {
      var i :| 0 <= i < |a[m + 1..]| && a[m + 1..][i] == r;
      assert a[m + 1 + i] == r;
      IndexAfter(a, m, m + 1 + i);
    }
  }

  /** `kept` are records of h with LSNs from `from` on, among them all that the page still needs. */
  ghost predicate Keeps(h: seq<Rec>, kept: seq<Rec>, from: nat) {
    && Increasing(kept)
    && (forall r :: r in kept ==> r in h && from <= r.item.lsn)
    && (forall r :: r in h && from <= r.item.lsn && Needed(h, r) ==> r in kept)
  }

  /** No later record of the page is a base. */
  ghost predicate Needed(h: seq<Rec>, r: Rec) {
    forall i :: 0 <= i < |h| && r.item.lsn < h[i].item.lsn ==> h[i].kind.Link?
  }

  lemma NeededFromBase(h: seq<Rec>, b: nat, r: Rec)
    requires Increasing(h) && b < |h| && OnlyLinks(h[b + 1..]) && r in h && h[b].item.lsn <= r.item.lsn
    ensures Needed(h, r)
  {
    forall i | 0 <= i < |h| && r.item.lsn < h[i].item.lsn ensures h[i].kind.Link? {
      IndexAfter(h, b, i);
      assert h[i] == h[b + 1..][i - b - 1];
    }
  }

  /** The kept records from a kept base on are all the records from there on. */
  lemma KeptFromBase(h: seq<Rec>, b: nat, kept: seq<Rec>, from: nat, m: nat)
    requires Increasing(h) && Keeps(h, kept, from) && b < |h| && OnlyLinks(h[b + 1..]) && m < |kept| && kept[m] == h[b]
    ensures kept[m + 1..] == h[b + 1..]
  {
    IncreasingSlice(kept, m + 1, |kept|);
    IncreasingSlice(h, b + 1, |h|);
    var x, y := kept[m + 1..], h[b + 1..];
    assert kept[m + 1..|kept|] == x && h[b + 1..|h|] == y;
    forall r ensures r in x <==> r in y {
      MemberAfter(kept, m, r);
      MemberAfter(h, b, r);
      if r in h && h[b].item.lsn < r.item.lsn {
        NeededFromBase(h, b, r);
        assert kept[m] in kept;
      }
    }
    SameMembers(x, y);
  }

  /** When the last base is older than `from`, the kept records are the end of h. */
  lemma KeptIsEnd(h: seq<Rec>, b: nat, kept: seq<Rec>, from: nat, c: nat) returns (m: nat)
    requires Increasing(h) && Keeps(h, kept, from) && b < |h| && OnlyLinks(h[b + 1..]) && h[b].item.lsn < from
             && c <= |h|
    requires forall i :: c <= i < |h| ==> from <= h[i].item.lsn
    ensures b <= m < c && kept == h[m + 1..]
  {
    m := c - 1;
    while h[m].item.lsn >= from
      invariant b <= m < c && forall i :: m < i < |h| ==> from <= h[i].item.lsn
      decreases m
    {
      m := m - 1;
    }
    IncreasingSlice(h, m + 1, |h|);
    assert h[m + 1..|h|] == h[m + 1..];
    forall r ensures r in kept <==> r in h[m + 1..] {
      MemberAfter(h, m, r);
      if r in h && h[m].item.lsn < r.item.lsn {
        var i :| 0 <= i < |h| && h[i] == r;
        IndexAfter(h, m, i);
        IndexAfter(h, b, i);
        NeededFromBase(h, b, r);
      }
    }
    SameMembers(kept, h[m + 1..]);
  }

  /** Links that the captured page already has are skipped, the others appended. */
  lemma {:induction false} SkipThenPush(base: Rec, links: seq<Rec>, m: nat, c: nat, k: nat)
    requires !base.kind.Link? && OnlyLinks(links) && Increasing([base] + links) && m <= c <= |links|
             && m <= k <= |links|
    ensures Replayed(Built(base, links[..c]), links[m..k]) == Built(base, links[..if c < k then k else c])
  {
    if k == m {
      assert links[m..k] == [];
    } else {
      SkipThenPush(base, links, m, c, k - 1);
      var part := links[m..k];
      assert |part| == k - m && part[..|part| - 1] == links[m..k - 1] && part[|part| - 1] == links[k - 1];
      PushOne(base, links, if c < k - 1 then k - 1 else c, k - 1);
    }
  }

  lemma PushOne(base: Rec, links: seq<Rec>, n: nat, k: nat)
    requires !base.kind.Link? && OnlyLinks(links) && Increasing([base] + links) && k <= n <= |links| && k < |links|
    ensures StateAfter(Built(base, links[..n]), links[k]) == Built(base, links[..if n == k then k + 1 else n])
  {
    var all := [base] + links;
    IndexAfter(all, n, k + 1);
    assert all[k + 1] == links[k] && all[n] == if n == 0 then base else links[n - 1];
    assert n == k ==> Items(links[..k + 1]) == Items(links[..k]) + [links[k].item];
  }

  /** A page captured at any moment after everything below `from` was in it, and then given the
      kept records from `from` on, ends where replaying all its records from nothing ends. */
  lemma FuzzyPage(h: seq<Rec>, c: nat, kept: seq<Rec>, from: nat)
    requires Increasing(h) && c <= |h| && Keeps(h, kept, from)
    requires forall i :: c <= i < |h| ==> from <= h[i].item.lsn
    ensures Replayed(Replayed(Uninitialized, h[..c]), kept) == Replayed(Uninitialized, h)
  {
    var b := LastBase(h);
    if b < 0 {
      LinksDangle(Uninitialized, h);
      LinksDangle(Uninitialized, h[..c]);
      forall i | 0 <= i < |kept| ensures kept[i].kind.Link? { assert kept[i] in h; }
      LinksDangle(Uninitialized, kept);
    } else {
      var links := h[b + 1..];
      forall i | 0 <= i < |links| ensures links[i].kind.Link? { assert links[i] == h[b + 1 + i]; }
      ReplayFromBase(Uninitialized, h, b);
      if b < c { ReplayCaptured(h, b, c); }
      FuzzyPageWithBase(h, b, c, kept, from, Replayed(Uninitialized, h[..c]));
    }
  }

  lemma FuzzyPageWithBase(h: seq<Rec>, b: nat, c: nat, kept: seq<Rec>, from: nat, captured: PageState)
    requires Increasing(h) && c <= |h| && Keeps(h, kept, from) && b < |h| && !h[b].kind.Link? && OnlyLinks(h[b + 1..])
    requires forall i :: c <= i < |h| ==> from <= h[i].item.lsn
    requires b < c ==> captured == Built(h[b], h[b + 1..][..c - b - 1])
    ensures Replayed(captured, kept) == Built(h[b], h[b + 1..])
  {
    if from <= h[b].item.lsn {
      BaseIsKept(h, b, kept, from, captured);
    } else {
      var m := KeptIsEnd(h, b, kept, from, c);
      CapturedThenEnd(h, b, m + 1, c, captured, kept);
    }
  }

  /** When the log still holds the base, replaying it gives the page, whatever was captured. */
  lemma BaseIsKept(h: seq<Rec>, b: nat, kept: seq<Rec>, from: nat, captured: PageState)
    requires Increasing(h) && Keeps(h, kept, from) && b < |h| && !h[b].kind.Link? && OnlyLinks(h[b + 1..])
    requires from <= h[b].item.lsn
    ensures Replayed(captured, kept) == Built(h[b], h[b + 1..])
  {
    NeededFromBase(h, b, h[b]);
    assert h[b] in kept;
    var m :| 0 <= m < |kept| && kept[m] == h[b];
    KeptFromBase(h, b, kept, from, m);
    ReplayFromBase(captured, kept, m);
  }

  lemma CapturedThenEnd(h: seq<Rec>, b: nat, m: nat, c: nat, captured: PageState, kept: seq<Rec>)
    requires Increasing(h) && b < m <= c <= |h| && !h[b].kind.Link? && OnlyLinks(h[b + 1..])
    requires captured == Built(h[b], h[b + 1..][..c - b - 1]) && kept == h[m..]
    ensures Replayed(captured, kept) == Built(h[b], h[b + 1..])
  {
    var links := h[b + 1..];
    EndOfLinks(h, b, m, links);
    IncreasingSlice(h, b, |h|);
    SkipThenPush(h[b], links, m - b - 1, c - b - 1, |links|);
  }

  lemma EndOfLinks(h: seq<Rec>, b: nat, m: nat, links: seq<Rec>)
    requires b < m <= |h| && links == h[b + 1..]
    ensures h[b..|h|] == [h[b]] + links && links[m - b - 1..|links|] == h[m..] && links[..|links|] == links
  {
  }

  lemma ReplayCaptured(h: seq<Rec>, b: nat, c: nat)
    requires Increasing(h) && b < c <= |h| && !h[b].kind.Link? && OnlyLinks(h[b + 1..])
    ensures Replayed(Uninitialized, h[..c]) == Built(h[b], h[b + 1..][..c - b - 1])
  {
    var g := h[0..c];
    assert h[..c] == g;
    IncreasingSlice(h, 0, c);
    assert g[b] == h[b] && g[b + 1..] == h[b + 1..][..c - b - 1];
    ReplayFromBase(Uninitialized, g, b);
  }
}
