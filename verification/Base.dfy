/** Types shared by the whole model. */
module Base {
  datatype Option<+T> = None | Some(value: T)

  datatype Result<+T> = Ok(value: T) | Err

  /** A log sequence number: a byte position in the unbounded logical log. The stable LSN
      is -1 before byte 0 is written. */
  type Lsn = int

  type PageId = nat

  type byte = b: int | 0 <= b < 256

  type bytes = seq<byte>

  // src/pagecache/constants.rs
  const MAX_MSG_HEADER_LEN := 32
  const SEG_HEADER_LEN := 20

  lemma DivModUnique(size: nat, q: int, r: nat)
    requires size > 0 && r < size
    ensures (q * size + r) / size == q && (q * size + r) % size == r
  {
    var n := q * size + r;
    var d := q - n / size;
    assert d * size == n % size - r by {
      assert n == n / size * size + n % size;
      assert d * size == q * size - n / size * size;
    }
    if d > 0 {
      Scaled(d, size);
    } else if d < 0 {
      Scaled(-d, size);
    }
  }

  lemma Scaled(d: int, size: int)
    requires d >= 1 && size >= 1
    ensures d * size >= size
  {
    assert (d - 1) * size >= 0;
  }
}
