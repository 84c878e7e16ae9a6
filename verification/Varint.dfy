/** Variable-length integers, and the little-endian integers they are built on. */
module Varint {
  import opened Base

  function Pow256(k: nat): (r: nat)
    ensures r > 0
  {
    if k == 0 then 1 else 256 * Pow256(k - 1)
  }

  /** The low k bytes of n, least significant first. */
  function Le(n: nat, k: nat): (b: bytes)
    ensures |b| == k
  {
    if k == 0 then [] else [n % 256] + Le(n / 256, k - 1)
  }

  function FromLe(b: bytes): (n: nat)
    ensures n < Pow256(|b|)
  {
    if b == [] then 0 else b[0] + 256 * FromLe(b[1..])
  }

  /** Truncating to k bytes and reading back gives the integer modulo 256^k. */
  lemma {:induction false} LeRoundTrip(n: nat, k: nat)
    requires n < Pow256(k)
    ensures FromLe(Le(n, k)) == n
  {
    if k > 0 {
      LeRoundTrip(n / 256, k - 1);
      assert Le(n, k)[1..] == Le(n / 256, k - 1);
    }
  }

  lemma PowFits()
    ensures Pow256(1) == 0x100 && Pow256(2) == 0x1_0000 && Pow256(3) == 0x100_0000 && Pow256(4) == 0x1_0000_0000
    ensures Pow256(5) == 0x100_0000_0000 && Pow256(6) == 0x1_0000_0000_0000 && Pow256(7) == 0x100_0000_0000_0000
    ensures Pow256(8) == 0x1_0000_0000_0000_0000
  {
    assert Pow256(2) == 256 * Pow256(1);
    assert Pow256(4) == 256 * Pow256(3) && Pow256(3) == 256 * Pow256(2);
    assert Pow256(6) == 256 * Pow256(5) && Pow256(5) == 256 * Pow256(4);
    assert Pow256(8) == 256 * Pow256(7) && Pow256(7) == 256 * Pow256(6);
  }

  const U64_LIMIT := 0x1_0000_0000_0000_0000

  function Size(n: nat): (s: nat)
    ensures 1 <= s <= 9
  {
    if n <= 240 then 1
    else if n <= 2287 then 2
    else if n <= 67823 then 3
    else if n <= 0xFF_FFFF then 4
    else if n <= 0xFFFF_FFFF then 5
    else if n <= 0xFF_FFFF_FFFF then 6
    else if n <= 0xFFFF_FFFF_FFFF then 7
    else if n <= 0xFF_FFFF_FFFF_FFFF then 8
    else 9
  }

  /** The bytes that `serialize_into` writes. */
  function Encode(n: nat): (b: bytes)
    requires n < U64_LIMIT
    ensures |b| == Size(n)
  {
    if n <= 240 then [n]
    else if n <= 2287 then [(n - 240) / 256 + 241, (n - 240) % 256]
    else if n <= 67823 then [249, (n - 2288) / 256, (n - 2288) % 256]
    else [Size(n) + 246] + Le(n, Size(n) - 1)
  }

  datatype Decoded = Decoded(value: nat, len: nat)

  /** `deserialize`; None where the buffer is too short. */
  function Decode(b: bytes): (r: Option<Decoded>)
    ensures r.Some? ==> r.value.len <= |b|
  {
    if b == [] then None
    else if b[0] <= 240 then Some(Decoded(b[0], 1))
    else if b[0] <= 248 then
      if |b| < 2 then None else Some(Decoded(240 + 256 * (b[0] as int - 241) + b[1] as int, 2))
    else if b[0] == 249 then
      if |b| < 3 then None else Some(Decoded(2288 + 256 * (b[1] as int) + b[2] as int, 3))
    else
      var sz := b[0] as int - 247;
      if |b| < sz + 1 then None else Some(Decoded(FromLe(b[1..sz + 1]), sz + 1))
  }

  /** Reading a written varint, followed by anything, gives it back. */
  lemma VarintRoundTrip(n: nat, rest: bytes)
    requires n < U64_LIMIT
    ensures Decode(Encode(n) + rest) == Some(Decoded(n, Size(n)))
  {
    var b := Encode(n) + rest;
    if n > 67823 {
      PowFits();
      LeRoundTrip(n, Size(n) - 1);
      assert b[1..Size(n)] == Le(n, Size(n) - 1);
    }
  }
}
