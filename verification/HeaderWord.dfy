/** The packed 64-bit header of an IO buffer: offset, writer count, flags and salt. */
module HeaderWord {
  import opened Base

  const U64 := 0x1_0000_0000_0000_0000
  const OFFSET_LIMIT := 0x100_0000    // 24 bits
  const WRITER := 0x100_0000          // 1 << 24
  const SEALED := 0x8000_0000         // 1 << 31
  const MAXED := 0x1_0000_0000        // 1 << 32
  const SALT := 0x2_0000_0000         // 1 << 33
  const MAX_WRITERS := 127

  type u64 = v: int | 0 <= v < U64

  /** A shift to the left drops the bits that leave the word; here by 33 and by 40. */
  function Shl33(v: u64): u64 {
    (v as int * 0x2_0000_0000) % U64
  }

  function Shl40(v: u64): u64 {
    (v as int * 0x100_0000_0000) % U64
  }

  function Writers(v: u64): nat {
    Shl33(v) / 0x200_0000_0000_0000
  }

  function Offset(v: u64): nat {
    Shl40(v) / 0x100_0000_0000
  }

  predicate IsSealed(v: u64) {
    v / SEALED % 2 == 1
  }

  predicate IsMaxed(v: u64) {
    v / MAXED % 2 == 1
  }

  /** Setting a bit. */
  function MkSealed(v: u64): nat {
    if IsSealed(v) then v else v + SEALED
  }

  function MkMaxed(v: u64): nat {
    if IsMaxed(v) then v else v + MAXED
  }

  function BumpOffset(v: u64, len: nat): nat {
    v + len
  }

  function IncrWriters(v: u64): nat {
    v + WRITER
  }

  function DecrWriters(v: u64): int {
    v - WRITER
  }

  /** The fields of a header. */
  datatype Fields = Fields(offset: nat, writers: nat, isSealed: bool, isMaxed: bool, salt: nat)

  predicate Fit(f: Fields) {
    f.offset < OFFSET_LIMIT && f.writers <= MAX_WRITERS && f.salt < 0x8000_0000
  }

  function Bit(b: bool): nat {
    if b then 1 else 0
  }

  function Pack(f: Fields): nat {
    f.offset + f.writers * WRITER + Bit(f.isSealed) * SEALED + Bit(f.isMaxed) * MAXED + f.salt * SALT
  }

  lemma Quotient(q: int, d: nat, r: nat)
    requires r < d
    ensures (q * d + r) / d == q && (q * d + r) % d == r
  {
    DivModUnique(d, q, r);
  }

  /** The accessors read back what was packed. */
  lemma PackReads(f: Fields)
    requires Fit(f)
    ensures Pack(f) < U64
    ensures Offset(Pack(f)) == f.offset && Writers(Pack(f)) == f.writers
    ensures IsSealed(Pack(f)) == f.isSealed && IsMaxed(Pack(f)) == f.isMaxed
  {
    OffsetReads(f);
    WritersRead(f);
    FlagsRead(f);
  }

  lemma OffsetReads(f: Fields)
    requires Fit(f)
    ensures Pack(f) < U64 && Offset(Pack(f)) == f.offset
  {
    var rest := f.writers + Bit(f.isSealed) * 0x80 + Bit(f.isMaxed) * 0x100 + f.salt * 0x200;
    assert Pack(f) * 0x100_0000_0000 == rest * U64 + f.offset * 0x100_0000_0000;
    Quotient(rest, U64, f.offset * 0x100_0000_0000);
    Quotient(f.offset, 0x100_0000_0000, 0);
  }

  lemma WritersRead(f: Fields)
    requires Fit(f)
    ensures Pack(f) < U64 && Writers(Pack(f)) == f.writers
  {
    var rest := Bit(f.isSealed) + Bit(f.isMaxed) * 2 + f.salt * 4;
    var low := f.offset * 0x2_0000_0000 + f.writers * 0x200_0000_0000_0000;
    assert Pack(f) * 0x2_0000_0000 == rest * U64 + low;
    Quotient(rest, U64, low);
    Quotient(f.writers, 0x200_0000_0000_0000, f.offset * 0x2_0000_0000);
  }

  lemma FlagsRead(f: Fields)
    requires Fit(f)
    ensures Pack(f) < U64 && IsSealed(Pack(f)) == f.isSealed && IsMaxed(Pack(f)) == f.isMaxed
  {
    var low := f.offset + f.writers * WRITER;
    var s := Bit(f.isSealed) + (Bit(f.isMaxed) + f.salt * 2) * 2;
    Quotient(s, SEALED, low);
    Quotient(Bit(f.isMaxed) + f.salt * 2, 2, Bit(f.isSealed));
    Quotient(Bit(f.isMaxed) + f.salt * 2, MAXED, low + Bit(f.isSealed) * SEALED);
    Quotient(f.salt, 2, Bit(f.isMaxed));
  }

  /** Bumping the offset changes nothing else exactly as long as the offset still fits into
      its 24 bits. */
  lemma BumpIsExact(f: Fields, len: nat)
    requires Fit(f) && len < OFFSET_LIMIT && f.salt + 1 < 0x8000_0000
    ensures BumpOffset(Pack(f), len) < U64
    ensures f.offset + len < OFFSET_LIMIT <==>
              Offset(BumpOffset(Pack(f), len)) == f.offset + len && Writers(BumpOffset(Pack(f), len)) == f.writers
    ensures f.offset + len < OFFSET_LIMIT ==> BumpOffset(Pack(f), len) == Pack(f.(offset := f.offset + len))
  {
    PackReads(f);
    if f.offset + len < OFFSET_LIMIT {
      PackReads(f.(offset := f.offset + len));
    }
  }

  /** A claim up to byte 2^24 of a buffer leaves offset 0 and one writer too many. */
  lemma BumpOverflows(f: Fields, len: nat)
    requires Fit(f) && f.writers < MAX_WRITERS && f.offset + len == OFFSET_LIMIT
    ensures BumpOffset(Pack(f), len) == Pack(f.(offset := 0, writers := f.writers + 1))
    ensures BumpOffset(Pack(f), len) < U64
    ensures Offset(BumpOffset(Pack(f), len)) == 0 && Writers(BumpOffset(Pack(f), len)) == f.writers + 1
  {
    PackReads(f.(offset := 0, writers := f.writers + 1));
  }

  lemma CountIsExact(f: Fields)
    requires Fit(f)
    ensures f.writers < MAX_WRITERS ==> IncrWriters(Pack(f)) == Pack(f.(writers := f.writers + 1))
    ensures f.writers > 0 ==> DecrWriters(Pack(f)) == Pack(f.(writers := f.writers - 1))
  {
  }

  lemma FlagsAreExact(f: Fields)
    requires Fit(f)
    ensures Pack(f) < U64 && MkSealed(Pack(f)) == Pack(f.(isSealed := true))
            && MkMaxed(Pack(f)) == Pack(f.(isMaxed := true))
  {
    FlagsRead(f);
  }
}
