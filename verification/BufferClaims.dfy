/** Any number of threads on one IO buffer: each step is one CAS of the header word. A CAS
    succeeds when the word still is what the thread read; otherwise nothing changes. */
module BufferClaims {
  import opened Base
  import opened HeaderWord

  /** The byte range of a reservation in the buffer. */
  datatype Claim = Claim(lo: nat, hi: nat)

  datatype Buffer = Buffer(
    capacity: nat,
    start: nat,          // where claims begin: behind the segment header, if there is one
    word: u64,           // the header
    claims: seq<Claim>,  // every reservation so far
    open: set<nat>,      // indices of the reservations still open
    handed: nat)         // how often the buffer was handed to write_to_log

  function Begin(capacity: nat, start: nat, salt: nat): Buffer
    requires start < OFFSET_LIMIT && salt < 0x8000_0000
  {
    Buffer(capacity, start, Pack(Fields(start, 0, false, false, salt)), [], {}, 0)
  }

  /** `reserve_inner`: claim `len` bytes behind those claimed so far. */
  ghost predicate ClaimStep(s: Buffer, len: nat, s': Buffer) {
    var h := s.word;
    && 0 < len && !IsSealed(h) && Offset(h) + len <= s.capacity && s.capacity - Offset(h) >= MAX_MSG_HEADER_LEN
    && BumpOffset(h, len) < U64 && Writers(BumpOffset(h, len)) != MAX_WRITERS
    && s' == s.(word := s'.word, claims := s.claims + [Claim(Offset(h), Offset(h) + len)],
          open := s.open + {|s.claims|})
    && s'.word == IncrWriters(BumpOffset(h, len))
  }

  /** `maybe_seal_and_write_iobuf`, when its CAS succeeds: with no writer left, the sealer
      hands the buffer over. */
  ghost predicate SealStep(s: Buffer, fromReserve: bool, s': Buffer) {
    var h := s.word;
    && !IsSealed(h) && Offset(h) <= s.capacity && MkSealed(h) < U64
    && s'.word == (if fromReserve || s.capacity - Offset(h) < MAX_MSG_HEADER_LEN then MkMaxed(MkSealed(h))
          else MkSealed(h))
    && s' == s.(word := s'.word, handed := s.handed + if Writers(s'.word) == 0 then 1 else 0)
  }

  /** `exit_reservation`: the last writer of a sealed buffer hands it over. */
  ghost predicate ExitStep(s: Buffer, i: nat, s': Buffer) {
    && i in s.open
    && s'.word == DecrWriters(s.word)
    && s' == s.(word := s'.word, open := s.open - {i}, handed := s.handed + if Writers(s'.word) == 0
          && IsSealed(s'.word) then 1 else 0)
  }

  ghost predicate Step(s: Buffer, s': Buffer) {
    || s' == s
    || (exists len :: ClaimStep(s, len, s'))
    || (exists fromReserve :: SealStep(s, fromReserve, s'))
    || (exists i :: ExitStep(s, i, s'))
  }

  /** The claims lie side by side from start to end. */
  predicate Tiles(claims: seq<Claim>, start: nat, end: nat) {
    if claims == [] then start == end
    else
      var last := claims[|claims| - 1];
      last.lo < last.hi == end && Tiles(claims[..|claims| - 1], start, last.lo)
  }

  ghost predicate InvAs(s: Buffer, f: Fields) {
    && Fit(f) && f.salt + 1 < 0x8000_0000 && s.word == Pack(f)
    && s.start <= f.offset <= s.capacity <= OFFSET_LIMIT
    && Tiles(s.claims, s.start, f.offset)
    && f.writers == |s.open| && (forall i :: i in s.open ==> i < |s.claims|)
    && s.handed == if f.isSealed && f.writers == 0 then 1 else 0
  }

  ghost predicate Inv(s: Buffer) {
    exists f :: InvAs(s, f)
  }

  /** The step does not claim the last byte of a buffer of 2^24 bytes. */
  ghost predicate NotFull(s: Buffer, s': Buffer) {
    forall len {:trigger ClaimStep(s, len, s')} :: ClaimStep(s, len, s') ==> Offset(s.word) + len < OFFSET_LIMIT
  }

  lemma ClaimKeepsInv(s: Buffer, f: Fields, len: nat, s': Buffer)
    requires InvAs(s, f) && ClaimStep(s, len, s') && f.offset + len < OFFSET_LIMIT
    ensures InvAs(s', f.(offset := f.offset + len, writers := f.writers + 1)) && !f.isSealed
  {
    PackReads(f);
    BumpIsExact(f, len);
    var g := f.(offset := f.offset + len);
    PackReads(g);
    CountIsExact(g);
    var c := Claim(f.offset, f.offset + len);
    assert (s.claims + [c])[..|s.claims|] == s.claims;
    assert |s.claims| !in s.open;
  }

  lemma SealKeepsInv(s: Buffer, f: Fields, fromReserve: bool, s': Buffer) returns (g: Fields)
    requires InvAs(s, f) && SealStep(s, fromReserve, s')
    ensures InvAs(s', g) && g.isSealed && g.offset == f.offset
  {
    PackReads(f);
    FlagsAreExact(f);
    g := f.(isSealed := true);
    PackReads(g);
    FlagsAreExact(g);
    if fromReserve || s.capacity - Offset(s.word) < MAX_MSG_HEADER_LEN {
      g := g.(isMaxed := true);
      PackReads(g);
    }
  }

  /** The assertion of `decr_writers` holds: an open reservation is counted. */
  lemma ExitKeepsInv(s: Buffer, f: Fields, i: nat, s': Buffer)
    requires InvAs(s, f) && ExitStep(s, i, s')
    ensures Writers(s.word) > 0 && InvAs(s', f.(writers := f.writers - 1))
  {
    PackReads(f);
    CountIsExact(f);
    PackReads(f.(writers := f.writers - 1));
  }

  /** A claim is counted right if and only if it ends below 2^24. */
  lemma ClaimIsExact(s: Buffer, len: nat, s': Buffer)
    requires Inv(s) && ClaimStep(s, len, s')
    ensures Offset(s.word) + len < OFFSET_LIMIT <==> Inv(s')
    ensures Offset(s.word) + len < OFFSET_LIMIT <==> Writers(s'.word) == |s'.open|
  {
    var f :| InvAs(s, f);
    PackReads(f);
    assert |s.claims| !in s.open;
    if f.offset + len < OFFSET_LIMIT {
      ClaimKeepsInv(s, f, len, s');
      InvCounts(s', f.(offset := f.offset + len, writers := f.writers + 1));
    } else {
      ClaimOverflows(s, f, len, s');
      if g :| InvAs(s', g) {
        InvCounts(s', g);
        assert false;
      }
    }
  }

  lemma InvCounts(s: Buffer, f: Fields)
    requires InvAs(s, f)
    ensures Writers(s.word) == |s.open|
  {
    PackReads(f);
  }

  /** The carry adds a writer, or, with as many writers as the field can count, seals the buffer. */
  lemma ClaimOverflows(s: Buffer, f: Fields, len: nat, s': Buffer)
    requires InvAs(s, f) && ClaimStep(s, len, s') && f.offset + len == OFFSET_LIMIT
    ensures Offset(s'.word) == 0 && Writers(s'.word) != |s'.open|
    ensures f.writers < MAX_WRITERS ==> s'.word == Pack(f.(offset := 0, writers := f.writers + 2))
  {
    PackReads(f);
    assert |s.claims| !in s.open;
    if f.writers < MAX_WRITERS {
      BumpOverflows(f, len);
      CarryCounts(f.(offset := 0, writers := f.writers + 1), s'.word);
    } else {
      var g := f.(offset := 0, writers := 0, isSealed := true);
      assert BumpOffset(s.word, len) == Pack(g);
      CarryCounts(g, s'.word);
    }
  }

  lemma CarryCounts(f: Fields, word: u64)
    requires Fit(f) && Writers(Pack(f)) != MAX_WRITERS && word == IncrWriters(Pack(f))
    ensures word == Pack(f.(writers := f.writers + 1)) && Offset(word) == f.offset && Writers(word) == f.writers + 1
  {
    PackReads(f);
    CountIsExact(f);
    PackReads(f.(writers := f.writers + 1));
  }

  /** A sealed buffer stays sealed and takes no more claims. */
  lemma StepKeepsInv(s: Buffer, s': Buffer)
    requires Inv(s) && Step(s, s') && NotFull(s, s')
    ensures Inv(s') && s.handed <= s'.handed && s'.capacity == s.capacity && s'.start == s.start
    ensures IsSealed(s.word) ==> IsSealed(s'.word) && s'.claims == s.claims
  {
    var f :| InvAs(s, f);
    PackReads(f);
    if len :| ClaimStep(s, len, s') {
      ClaimKeepsInv(s, f, len, s');
    } else if fromReserve :| SealStep(s, fromReserve, s') {
      var g := SealKeepsInv(s, f, fromReserve, s');
    } else if i :| ExitStep(s, i, s') {
      ExitKeepsInv(s, f, i, s');
      PackReads(f.(writers := f.writers - 1));
    }
  }

  lemma {:induction false} TilesApart(claims: seq<Claim>, start: nat, end: nat, i: nat, j: nat)
    requires Tiles(claims, start, end) && i < j < |claims|
    ensures claims[i].lo < claims[i].hi <= claims[j].lo
    decreases |claims|
  {
    var front := claims[..|claims| - 1];
    if j < |claims| - 1 {
      TilesApart(front, start, claims[|claims| - 1].lo, i, j);
    } else {
      TilesWithin(front, start, claims[j].lo, i);
    }
  }

  lemma {:induction false} TilesWithin(claims: seq<Claim>, start: nat, end: nat, i: nat)
    requires Tiles(claims, start, end) && i < |claims|
    ensures start <= claims[i].lo < claims[i].hi <= end
    decreases |claims|
  {
    var front, last := claims[..|claims| - 1], claims[|claims| - 1];
    if i < |claims| - 1 {
      TilesWithin(front, start, last.lo, i);
    } else {
      TilesEnd(front, start, last.lo);
    }
  }

  lemma {:induction false} TilesEnd(claims: seq<Claim>, start: nat, end: nat)
    requires Tiles(claims, start, end)
    ensures start <= end
    decreases |claims|
  {
    if claims != [] {
      TilesEnd(claims[..|claims| - 1], start, claims[|claims| - 1].lo);
    }
  }

  /** Every byte below the end is in some claim. */
  lemma {:induction false} TilesCover(claims: seq<Claim>, start: nat, end: nat, x: nat) returns (i: nat)
    requires Tiles(claims, start, end) && start <= x < end
    ensures i < |claims| && claims[i].lo <= x < claims[i].hi
    decreases |claims|
  {
    var last := claims[|claims| - 1];
    if last.lo <= x {
      i := |claims| - 1;
    } else {
      i := TilesCover(claims[..|claims| - 1], start, last.lo, x);
    }
  }

  ghost predicate Claimed(claims: seq<Claim>, x: nat) {
    exists i :: 0 <= i < |claims| && claims[i].lo <= x < claims[i].hi
  }

  /** A segment has at most 2^24 bytes. */
  ghost predicate Starts(s: Buffer, salt: nat) {
    && salt + 1 < 0x8000_0000 && s.start <= s.capacity <= OFFSET_LIMIT && s.start < OFFSET_LIMIT
    && s == Begin(s.capacity, s.start, salt)
  }

  ghost predicate Run(ss: seq<Buffer>) {
    && |ss| > 0 && (exists salt: nat :: Starts(ss[0], salt))
    && (forall i, j {:trigger Step(ss[i], ss[j])} :: 0 <= i && j == i + 1 < |ss| ==> Step(ss[i], ss[j]))
  }

  /** No claim fills a buffer of 2^24 bytes. */
  ghost predicate NeverFull(ss: seq<Buffer>)
    requires |ss| > 0
  {
    || ss[0].capacity < OFFSET_LIMIT
    || (forall i, j {:trigger NotFull(ss[i], ss[j])} :: 0 <= i && j == i + 1 < |ss| ==> NotFull(ss[i], ss[j]))
  }

  lemma {:induction false} RunInv(ss: seq<Buffer>, n: nat)
    requires Run(ss) && NeverFull(ss) && n < |ss|
    ensures Inv(ss[n]) && ss[n].start == ss[0].start && ss[n].capacity == ss[0].capacity
  {
    if n == 0 {
      var salt: nat :| Starts(ss[0], salt);
      assert InvAs(ss[0], Fields(ss[0].start, 0, false, false, salt));
    } else {
      RunInv(ss, n - 1);
      assert Step(ss[n - 1], ss[n]);
      assert NotFull(ss[n - 1], ss[n]);
      StepKeepsInv(ss[n - 1], ss[n]);
    }
  }

  /** In every run that does not fill a buffer of 2^24 bytes completely, the claims are disjoint,
      stay inside the buffer and tile it from its start; the writer field counts the open
      reservations; and the buffer is handed to `write_to_log` once, exactly when it is sealed and
      no writer is left. */
  lemma ClaimsTile(ss: seq<Buffer>, n: nat)
    requires Run(ss) && NeverFull(ss) && n < |ss|
    ensures var s := ss[n];
            && (forall i :: 0 <= i < |s.claims| ==> s.start <= s.claims[i].lo < s.claims[i].hi <= s.capacity)
            && (forall i, j :: 0 <= i < j < |s.claims| ==> s.claims[i].hi <= s.claims[j].lo)
            && (forall x: nat :: s.start <= x < Offset(s.word) ==> Claimed(s.claims, x))
            && Writers(s.word) == |s.open|
            && s.handed == if IsSealed(s.word) && s.open == {} then 1 else 0
  {
    RunInv(ss, n);
    var s := ss[n];
    var f :| InvAs(s, f);
    PackReads(f);
    forall i | 0 <= i < |s.claims| ensures s.start <= s.claims[i].lo < s.claims[i].hi <= s.capacity {
      TilesWithin(s.claims, s.start, f.offset, i);
    }
    forall i, j | 0 <= i < j < |s.claims| ensures s.claims[i].hi <= s.claims[j].lo {
      TilesApart(s.claims, s.start, f.offset, i, j);
    }
    forall x: nat | s.start <= x < f.offset ensures Claimed(s.claims, x) {
      var i := TilesCover(s.claims, s.start, f.offset, x);
    }
  }

  /** Nothing is claimed after sealing. */
  lemma {:induction false} SealedIsFinal(ss: seq<Buffer>, m: nat, n: nat)
    requires Run(ss) && NeverFull(ss) && m <= n < |ss| && IsSealed(ss[m].word)
    ensures IsSealed(ss[n].word) && ss[n].claims == ss[m].claims
    decreases n - m
  {
    if m < n {
      SealedIsFinal(ss, m, n - 1);
      RunInv(ss, n - 1);
      assert Step(ss[n - 1], ss[n]);
      assert NotFull(ss[n - 1], ss[n]);
      StepKeepsInv(ss[n - 1], ss[n]);
    }
  }

  /** The condition is exact: in a run up to its first claim that may fill the buffer, the writers
      are counted right after that claim if and only if it does not. */
  lemma FillingMiscounts(ss: seq<Buffer>, len: nat, s': Buffer)
    requires Run(ss) && NeverFull(ss) && ClaimStep(ss[|ss| - 1], len, s')
    ensures Writers(s'.word) == |s'.open| <==> Offset(ss[|ss| - 1].word) + len < OFFSET_LIMIT
  {
    RunInv(ss, |ss| - 1);
    ClaimIsExact(ss[|ss| - 1], len, s');
  }

  // ---------------------------------------------------------------------------------
  // A buffer of 2^24 bytes, filled completely
  // ---------------------------------------------------------------------------------

  lemma RunGoesOn(ss: seq<Buffer>, s': Buffer)
    requires Run(ss) && Step(ss[|ss| - 1], s')
    ensures Run(ss + [s'])
  {
    var tt := ss + [s'];
    var salt: nat :| Starts(ss[0], salt);
    assert Starts(tt[0], salt);
    forall i, j | 0 <= i && j == i + 1 < |tt| ensures Step(tt[i], tt[j]) {
      if j < |ss| { assert Step(ss[i], ss[j]); }
    }
  }

  /** A thread claims `len` bytes, and later gives its reservation up; nobody else is writing. */
  function Claiming(s: Buffer, at: nat, len: nat): Buffer
    requires at + len < OFFSET_LIMIT
  {
    s.(word := Pack(Fields(at + len, 1, false, false, 0)), claims := s.claims + [Claim(at, at + len)],
       open := {|s.claims|})
  }

  function Exited(s: Buffer, at: nat): Buffer
    requires at < OFFSET_LIMIT
  {
    s.(word := Pack(Fields(at, 0, false, false, 0)), open := {})
  }

  ghost predicate Quiet(s: Buffer, at: nat) {
    at < OFFSET_LIMIT && s.capacity == OFFSET_LIMIT && s.open == {} && s.word == Pack(Fields(at, 0, false, false, 0))
  }

  lemma ClaimAlone(s: Buffer, at: nat, len: nat)
    requires Quiet(s, at) && 0 < len && at + len < OFFSET_LIMIT && OFFSET_LIMIT - at >= MAX_MSG_HEADER_LEN
    ensures ClaimStep(s, len, Claiming(s, at, len))
    ensures ExitStep(Claiming(s, at, len), |s.claims|, Exited(Claiming(s, at, len), at + len))
  {
    var f, g := Fields(at, 0, false, false, 0), Fields(at + len, 0, false, false, 0);
    PackReads(f);
    PackReads(g);
    CountIsExact(g);
    PackReads(g.(writers := 1));
    CountIsExact(g.(writers := 1));
  }

  lemma ClaimAndExit(ss: seq<Buffer>, at: nat, len: nat) returns (tt: seq<Buffer>)
    requires Run(ss) && Quiet(ss[|ss| - 1], at) && 0 < len && at + len < OFFSET_LIMIT
    requires OFFSET_LIMIT - at >= MAX_MSG_HEADER_LEN
    ensures Run(tt) && Quiet(tt[|tt| - 1], at + len)
  {
    var s := ss[|ss| - 1];
    ClaimAlone(s, at, len);
    RunGoesOn(ss, Claiming(s, at, len));
    RunGoesOn(ss + [Claiming(s, at, len)], Exited(Claiming(s, at, len), at + len));
    tt := ss + [Claiming(s, at, len)] + [Exited(Claiming(s, at, len), at + len)];
  }

  /** One thread writes a message of 44 bytes and then n messages of 32 bytes. */
  lemma {:induction false} Filling(n: nat) returns (ss: seq<Buffer>)
    requires 64 + 32 * n < OFFSET_LIMIT
    ensures Run(ss) && Quiet(ss[|ss| - 1], 64 + 32 * n)
  {
    if n == 0 {
      var s := Begin(OFFSET_LIMIT, SEG_HEADER_LEN, 0);
      assert Starts([s][0], 0);
      ss := ClaimAndExit([s], SEG_HEADER_LEN, 64 - SEG_HEADER_LEN);
    } else {
      ss := Filling(n - 1);
      ss := ClaimAndExit(ss, 64 + 32 * (n - 1), 32);
    }
  }

  /** When the last 32 bytes are claimed too and that reservation is given up, nobody writes, but
      one writer is counted, and the next claim begins at byte 0. */
  lemma FullBufferMiscounts() returns (ss: seq<Buffer>)
    ensures Run(ss)
    ensures var s := ss[|ss| - 1];
      s.capacity == OFFSET_LIMIT && s.open == {} && Writers(s.word) == 1 && Offset(s.word) == 0 && !IsSealed(s.word)
  {
    ss := Filling((OFFSET_LIMIT - 96) / 32);
    var s, f := ss[|ss| - 1], Fields(OFFSET_LIMIT - 32, 0, false, false, 0);
    PackReads(f);
    BumpOverflows(f, 32);
    var full := s.(word := Pack(Fields(0, 2, false, false, 0)),
                   claims := s.claims + [Claim(OFFSET_LIMIT - 32, OFFSET_LIMIT)], open := {|s.claims|});
    CountIsExact(Fields(0, 1, false, false, 0));
    CountIsExact(Fields(0, 2, false, false, 0));
    PackReads(Fields(0, 2, false, false, 0));
    PackReads(Fields(0, 1, false, false, 0));
    assert ClaimStep(s, 32, full);
    RunGoesOn(ss, full);
    var left := full.(word := Pack(Fields(0, 1, false, false, 0)), open := {});
    assert ExitStep(full, |s.claims|, left);
    RunGoesOn(ss + [full], left);
    ss := ss + [full] + [left];
  }
}
