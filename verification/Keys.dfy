/** Keys are byte strings in lexicographic order. `Rank` embeds them in the reals, so that
    the tree machine can compare keys by comparing numbers. */
module Keys {
  import opened Base

  predicate Less(a: bytes, b: bytes) {
    if b == [] then false
    else if a == [] then true
    else a[0] < b[0] || (a[0] == b[0] && Less(a[1..], b[1..]))
  }

  predicate AtMost(a: bytes, b: bytes) {
    !Less(b, a)
  }

  function Rank(k: bytes): (r: real)
    ensures 0.0 <= r < 1.0
  {
    if k == [] then 0.0 else (k[0] as real + 1.0 + Rank(k[1..])) / 257.0
  }

  /** Ranks order keys as bytes do; in particular distinct keys have distinct ranks. */
  lemma {:induction false} RankIsOrder(a: bytes, b: bytes)
    ensures Less(a, b) <==> Rank(a) < Rank(b)
    ensures a == b <==> Rank(a) == Rank(b)
  {
    if a != [] && b != [] {
      RankIsOrder(a[1..], b[1..]);
      assert a == [a[0]] + a[1..] && b == [b[0]] + b[1..];
    }
  }

  /** How many leading bytes a and b share. */
  function SharedLen(a: bytes, b: bytes): (n: nat)
    ensures n <= |a| && n <= |b| && a[..n] == b[..n]
    ensures n < |a| && n < |b| ==> a[n] != b[n]
  {
    if a == [] || b == [] || a[0] != b[0] then 0
    else
      var n := SharedLen(a[1..], b[1..]);
      assert a == [a[0]] + a[1..] && b == [b[0]] + b[1..];
      assert a[..n + 1] == [a[0]] + a[1..][..n] && b[..n + 1] == [b[0]] + b[1..][..n];
      n + 1
  }

  /** A key between lo and hi starts with whatever prefix lo and hi share. */
  lemma {:induction false} BetweenSharesPrefix(lo: bytes, k: bytes, hi: bytes, n: nat)
    requires AtMost(lo, k) && Less(k, hi) && n <= |lo| && n <= |hi| && lo[..n] == hi[..n]
    ensures n <= |k| && k[..n] == lo[..n]
  {
    if n > 0 {
      assert lo[0] == lo[..n][0] == hi[..n][0] == hi[0];
      assert lo[1..][..n - 1] == lo[..n][1..] && hi[1..][..n - 1] == hi[..n][1..];
      BetweenSharesPrefix(lo[1..], k[1..], hi[1..], n - 1);
      assert k[..n] == [k[0]] + k[1..][..n - 1] && lo[..n] == [lo[0]] + lo[1..][..n - 1];
    }
  }

  /** Stripping a shared prefix keeps the order. */
  lemma {:induction false} StripKeepsOrder(a: bytes, b: bytes, n: nat)
    requires n <= |a| && n <= |b| && a[..n] == b[..n]
    ensures Less(a[n..], b[n..]) <==> Less(a, b)
  {
    if n > 0 {
      assert a[0] == a[..n][0] == b[..n][0] == b[0];
      assert a[1..][..n - 1] == a[..n][1..] && b[1..][..n - 1] == b[..n][1..];
      assert a[1..][n - 1..] == a[n..] && b[1..][n - 1..] == b[n..];
      StripKeepsOrder(a[1..], b[1..], n - 1);
    }
  }
}
