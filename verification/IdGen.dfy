/** Generating IDs that survive crashes. Any number of calls overlap, each of their atomic
    operations is one step, and a crash can come between any two. The interval is fixed, and
    buffers reach the disk in LSN order, so a crash leaves a first part of the counter records
    that has at least all the durable ones. */
module IdGen {
  import opened Base

  /** Where a call stands: it has its ID; it has raised `idgen_persists` under the mutex; it has
      logged the new counter, and still holds the mutex; it is about to return. */
  datatype Call = Fetched(id: nat) | Raised(id: nat) | Logged(id: nat) | Ready(id: nat)

  datatype State = State(
    idgen: nat,              // the next ID
    persists: nat,           // `idgen_persists`
    counters: seq<nat>,      // the values of the counter page's records, in LSN order
    durable: nat,            // how many of them are known to be on disk
    calls: map<nat, Call>,   // by thread
    returned: seq<nat>)      // every ID ever handed out

  datatype Step =
    | FetchAdd(t: nat)       // take the next ID
    | Check(t: nat)          // compare with what is persisted; without the mutex only to return
    | Raise(t: nat)          // under the mutex, raise what is persisted
    | LogCounter(t: nat)     // log the raised counter
    | MakeDurable(t: nat)    // wait until the counter record before it is durable; free the mutex
    | Return(t: nat)
    | Flush(n: nat)          // more records reach the disk
    | Crash(n: nat)          // a crash that leaves n counter records, and the recovery from it

  function Last(s: seq<nat>): nat
    requires s != []
  {
    s[|s| - 1]
  }

  /** The highest multiple of the interval that is at most id. */
  function Floor(id: nat, interval: nat): nat
    requires interval > 0
  {
    id / interval * interval
  }

  function NextMultiple(counter: nat, interval: nat): nat
    requires interval > 0
  {
    (counter / interval + 1) * interval
  }

  /** A new database: the counter page holds 0 and is flushed before the first call. */
  function Fresh(): State {
    State(0, 0, [0], 1, map[], [])
  }

  predicate HoldsMutex(c: Call) {
    c.Raised? || c.Logged?
  }

  ghost predicate MutexFree(s: State) {
    forall t :: t in s.calls ==> !HoldsMutex(s.calls[t])
  }

  ghost predicate Enabled(s: State, st: Step, interval: nat)
    requires interval > 0
  {
    match st
    case FetchAdd(t) => t !in s.calls
    case Check(t) => t in s.calls && s.calls[t].Fetched? && Floor(s.calls[t].id, interval) <= s.persists
    case Raise(t) => t in s.calls && s.calls[t].Fetched? && s.persists < Floor(s.calls[t].id, interval) && MutexFree(s)
    case LogCounter(t) => t in s.calls && s.calls[t].Raised?
    case MakeDurable(t) => t in s.calls && s.calls[t].Logged?
    case Return(t) => t in s.calls && s.calls[t].Ready?
    case Flush(n) => s.durable <= n <= |s.counters|
    case Crash(n) => 0 < n && s.durable <= n <= |s.counters|
  }

  function Max(a: nat, b: nat): nat {
    if a < b then b else a
  }

  ghost function After(s: State, st: Step, interval: nat): State
    requires interval > 0 && Enabled(s, st, interval)
  {
    match st
    case FetchAdd(t) => s.(idgen := s.idgen + 1, calls := s.calls[t := Fetched(s.idgen)])
    case Check(t) => s.(calls := s.calls[t := Ready(s.calls[t].id)])
    case Raise(t) => s.(persists := Floor(s.calls[t].id, interval), calls := s.calls[t := Raised(s.calls[t].id)])
    case LogCounter(t) => s.(counters := s.counters + [s.persists], calls := s.calls[t := Logged(s.calls[t].id)])
    case MakeDurable(t) =>
      // the record that the new one replaced is the last but one
      s.(durable := Max(s.durable, if |s.counters| > 0 then |s.counters| - 1 else 0),
          calls := s.calls[t := Ready(s.calls[t].id)])
    case Return(t) => s.(returned := s.returned + [s.calls[t].id], calls := s.calls - {t})
    case Flush(n) => s.(durable := n)
    case Crash(n) =>
      var counter := s.counters[n - 1];
      var necessary := NextMultiple(counter, interval);
      State(counter + 2 * interval, necessary, s.counters[..n] + [necessary], n, map[], s.returned)
  }

  // ---------------------------------------------------------------------------------
  // Multiples of the interval
  // ---------------------------------------------------------------------------------

  predicate Multiple(n: nat, interval: nat)
    requires interval > 0
  {
    n % interval == 0
  }

  lemma MultipleOf(q: nat, interval: nat)
    requires interval > 0
    ensures Multiple(q * interval, interval) && (q * interval) / interval == q
  {
    DivModUnique(interval, q, 0);
  }

  lemma TimesRises(a: nat, b: nat, c: nat)
    ensures a <= b ==> a * c <= b * c
  {
    if a <= b { assert b * c == a * c + (b - a) * c; }
  }

  lemma FloorIsMultiple(id: nat, interval: nat)
    requires interval > 0
    ensures Multiple(Floor(id, interval), interval) && Floor(id, interval) <= id < Floor(id, interval) + interval
  {
    MultipleOf(id / interval, interval);
    assert id == id / interval * interval + id % interval;
  }

  lemma NextOfMultiple(counter: nat, interval: nat)
    requires interval > 0 && Multiple(counter, interval)
    ensures NextMultiple(counter, interval) == counter + interval && Multiple(counter + interval, interval)
  {
    assert counter == counter / interval * interval;
    assert (counter / interval + 1) * interval == counter / interval * interval + interval;
    MultipleOf(counter / interval + 1, interval);
  }

  lemma MultiplesApart(a: nat, b: nat, interval: nat)
    requires interval > 0 && Multiple(a, interval) && Multiple(b, interval) && a < b
    ensures a + interval <= b
  {
    var p, q := a / interval, b / interval;
    assert a == p * interval && b == q * interval;
    TimesRises(q, p, interval);
    TimesRises(p + 1, q, interval);
    assert (p + 1) * interval == p * interval + interval;
  }

  /** What a call must persist, when its ID is at most one interval above what is persisted. */
  lemma FloorIsNear(id: nat, persists: nat, interval: nat)
    requires interval > 0 && Multiple(persists, interval) && id <= persists + interval
    ensures id < persists + interval ==> Floor(id, interval) <= persists
    ensures persists < Floor(id, interval) ==> Floor(id, interval) == id == persists + interval
  {
    FloorIsMultiple(id, interval);
    if persists < Floor(id, interval) { MultiplesApart(persists, Floor(id, interval), interval); }
  }

  // ---------------------------------------------------------------------------------
  // Overlapping calls
  // ---------------------------------------------------------------------------------

  ghost predicate AllBelow(ids: seq<nat>, bound: nat) {
    forall i {:trigger ids[i]} :: 0 <= i < |ids| ==> ids[i] < bound
  }

  ghost predicate NoneTwice(ids: seq<nat>) {
    forall i, j {:trigger ids[i], ids[j]} :: 0 <= i < j < |ids| ==> ids[i] != ids[j]
  }

  ghost predicate Rising(ids: seq<nat>) {
    forall i, j {:trigger ids[i], ids[j]} :: 0 <= i < j < |ids| ==> ids[i] < ids[j]
  }

  ghost predicate Multiples(counters: seq<nat>, interval: nat)
    requires interval > 0
  {
    forall i {:trigger counters[i]} :: 0 <= i < |counters| ==> Multiple(counters[i], interval)
  }

  /** The counter records rise in multiples of the interval. */
  ghost predicate Recorded(s: State, interval: nat)
    requires interval > 0
  {
    && 0 < s.durable <= |s.counters| && Rising(s.counters) && Multiples(s.counters, interval)
    && Multiple(s.persists, interval) && Last(s.counters) <= s.persists
    && (MutexFree(s) ==> s.persists == Last(s.counters))
  }

  /** A call's ID is below the next one and was not returned. */
  ghost predicate CallOk(s: State, t: nat)
    requires t in s.calls && |s.counters| > 0
  {
    && s.calls[t].id < s.idgen && s.calls[t].id !in s.returned
    && (s.calls[t].Raised? ==> Last(s.counters) < s.persists)
    && (s.calls[t].Logged? ==> Last(s.counters) == s.persists)
  }

  /** No two calls have the same ID, or both hold the mutex. */
  ghost predicate PairOk(s: State, t: nat, u: nat)
    requires t in s.calls && u in s.calls
  {
    t != u ==> s.calls[t].id != s.calls[u].id && !(HoldsMutex(s.calls[t]) && HoldsMutex(s.calls[u]))
  }

  ghost predicate Inv(s: State, interval: nat) {
    && interval > 0 && Recorded(s, interval) && NoneTwice(s.returned) && AllBelow(s.returned, s.idgen)
    && (forall t {:trigger CallOk(s, t)} :: t in s.calls ==> CallOk(s, t))
    && (forall t, u {:trigger PairOk(s, t, u)} :: t in s.calls && u in s.calls ==> PairOk(s, t, u))
  }

  /** A recovery would start above every ID that was handed out. */
  ghost predicate Safe(s: State, interval: nat)
    requires 0 < s.durable <= |s.counters|
  {
    AllBelow(s.returned, s.counters[s.durable - 1] + 2 * interval)
  }

  /** The call may return: its ID is below what a recovery would start from. */
  predicate SafeReturn(s: State, t: nat, interval: nat)
    requires 0 < s.durable <= |s.counters| && t in s.calls
  {
    s.calls[t].id < s.counters[s.durable - 1] + 2 * interval
  }

  lemma FetchKeeps(s: State, t: nat, interval: nat)
    requires Inv(s, interval) && t !in s.calls
    ensures Inv(After(s, FetchAdd(t), interval), interval)
  {
    var s' := After(s, FetchAdd(t), interval);
    forall u | u in s'.calls ensures CallOk(s', u) { assert u != t ==> CallOk(s, u); }
    forall u, v | u in s'.calls && v in s'.calls ensures PairOk(s', u, v) {
      assert u != t && v != t ==> PairOk(s, u, v);
      assert u != t ==> CallOk(s, u);
      assert v != t ==> CallOk(s, v);
    }
    if MutexFree(s') {
      forall u | u in s.calls ensures !HoldsMutex(s.calls[u]) { assert s'.calls[u] == s.calls[u]; }
    }
  }

  /** A call moves on with its ID. */
  lemma MoveKeeps(s: State, s': State, t: nat, c: Call, interval: nat)
    requires Inv(s, interval) && t in s.calls && c.id == s.calls[t].id
    requires s' == s.(persists := s'.persists, counters := s'.counters, durable := s'.durable, calls := s.calls[t := c])
    requires Recorded(s', interval) && CallOk(s', t)
    requires HoldsMutex(c) ==> MutexFree(s) || HoldsMutex(s.calls[t])
    requires !HoldsMutex(s.calls[t]) && !HoldsMutex(c) ==> s'.persists == s.persists && s'.counters == s.counters
    ensures Inv(s', interval)
  {
    forall u | u in s'.calls ensures CallOk(s', u) {
      if u != t { assert CallOk(s, u) && PairOk(s, t, u); }
    }
    forall u, v | u in s'.calls && v in s'.calls ensures PairOk(s', u, v) { assert PairOk(s, u, v); }
  }

  lemma ReturnKeeps(s: State, t: nat, interval: nat)
    requires Inv(s, interval) && t in s.calls && s.calls[t].Ready?
    ensures Inv(After(s, Return(t), interval), interval)
  {
    var s' := After(s, Return(t), interval);
    assert CallOk(s, t);
    forall u | u in s'.calls ensures CallOk(s', u) { assert CallOk(s, u) && PairOk(s, t, u); }
    forall u, v | u in s'.calls && v in s'.calls ensures PairOk(s', u, v) { assert PairOk(s, u, v); }
    if MutexFree(s') {
      forall u | u in s.calls ensures !HoldsMutex(s.calls[u]) { assert u != t ==> s'.calls[u] == s.calls[u]; }
    }
  }

  /** Recovery starts above every ID that was handed out, if that was safe. */
  lemma CrashKeeps(s: State, n: nat, interval: nat)
    requires Inv(s, interval) && Safe(s, interval) && Enabled(s, Crash(n), interval)
    ensures Inv(After(s, Crash(n), interval), interval) && Safe(After(s, Crash(n), interval), interval)
  {
    NextOfMultiple(s.counters[n - 1], interval);
    var s' := After(s, Crash(n), interval);
    assert s.durable < n ==> s.counters[s.durable - 1] < s.counters[n - 1];
    assert s'.counters[n - 1] == s.counters[n - 1];
    BelowHigher(s.returned, s.counters[s.durable - 1] + 2 * interval, s'.idgen);
    assert s'.counters == s.counters[..n] + [s.counters[n - 1] + interval];
    RisingMore(s.counters[..n], s.counters[n - 1] + interval);
  }

  lemma BelowHigher(ids: seq<nat>, a: nat, b: nat)
    requires AllBelow(ids, a) && a <= b
    ensures AllBelow(ids, b)
  {}

  lemma RisingMore(ids: seq<nat>, id: nat)
    requires Rising(ids) && (ids != [] ==> Last(ids) < id)
    ensures Rising(ids + [id])
  {
    forall i, j | 0 <= i < j < |ids + [id]| ensures (ids + [id])[i] < (ids + [id])[j] {
      assert i < |ids| - 1 ==> ids[i] < ids[|ids| - 1];
    }
  }

  lemma RaiseKeeps(s: State, t: nat, interval: nat)
    requires Inv(s, interval) && Enabled(s, Raise(t), interval)
    ensures Inv(After(s, Raise(t), interval), interval)
  {
    var s' := After(s, Raise(t), interval);
    FloorIsMultiple(s.calls[t].id, interval);
    assert CallOk(s, t);
    assert HoldsMutex(s'.calls[t]);
    MoveKeeps(s, s', t, Raised(s.calls[t].id), interval);
  }

  lemma LogKeeps(s: State, t: nat, interval: nat)
    requires Inv(s, interval) && Enabled(s, LogCounter(t), interval)
    ensures Inv(After(s, LogCounter(t), interval), interval)
  {
    var s' := After(s, LogCounter(t), interval);
    assert CallOk(s, t);
    RisingMore(s.counters, s.persists);
    MoveKeeps(s, s', t, Logged(s.calls[t].id), interval);
  }

  lemma DurableKeeps(s: State, t: nat, interval: nat)
    requires Inv(s, interval) && Enabled(s, MakeDurable(t), interval)
    ensures Inv(After(s, MakeDurable(t), interval), interval)
  {
    var s' := After(s, MakeDurable(t), interval);
    assert CallOk(s, t);
    MoveKeeps(s, s', t, Ready(s.calls[t].id), interval);
  }

  lemma CheckKeeps(s: State, t: nat, interval: nat)
    requires Inv(s, interval) && Enabled(s, Check(t), interval)
    ensures Inv(After(s, Check(t), interval), interval)
  {
    var s' := After(s, Check(t), interval);
    assert CallOk(s, t);
    if MutexFree(s') {
      forall u | u in s.calls ensures !HoldsMutex(s.calls[u]) { assert u != t ==> s'.calls[u] == s.calls[u]; }
    }
    MoveKeeps(s, s', t, Ready(s.calls[t].id), interval);
  }

  lemma FlushKeeps(s: State, n: nat, interval: nat)
    requires Inv(s, interval) && Enabled(s, Flush(n), interval)
    ensures Inv(After(s, Flush(n), interval), interval)
  {
    var s' := After(s, Flush(n), interval);
    forall u | u in s'.calls ensures CallOk(s', u) { assert CallOk(s, u); }
    forall u, v | u in s'.calls && v in s'.calls ensures PairOk(s', u, v) { assert PairOk(s, u, v); }
  }

  lemma StepKeepsInv(s: State, st: Step, interval: nat)
    requires Inv(s, interval) && Safe(s, interval) && Enabled(s, st, interval)
    ensures Inv(After(s, st, interval), interval)
    ensures (st.Return? ==> SafeReturn(s, st.t, interval)) ==> Safe(After(s, st, interval), interval)
  {
    match st
    case FetchAdd(t) => FetchKeeps(s, t, interval);
    case Check(t) => CheckKeeps(s, t, interval);
    case Raise(t) => RaiseKeeps(s, t, interval);
    case LogCounter(t) => LogKeeps(s, t, interval);
    case MakeDurable(t) =>
      DurableKeeps(s, t, interval);
      DurableRises(s, After(s, st, interval), interval);
    case Return(t) => ReturnKeeps(s, t, interval);
    case Flush(n) =>
      FlushKeeps(s, n, interval);
      DurableRises(s, After(s, st, interval), interval);
    case Crash(n) => CrashKeeps(s, n, interval);
  }

  lemma DurableRises(s: State, s': State, interval: nat)
    requires 0 < s.durable <= s'.durable <= |s.counters| && s'.counters == s.counters && Rising(s.counters)
    requires s'.returned == s.returned && Safe(s, interval)
    ensures Safe(s', interval)
  {
    assert s.durable < s'.durable ==> s.counters[s.durable - 1] < s.counters[s'.durable - 1];
    BelowHigher(s.returned, s.counters[s.durable - 1] + 2 * interval, s.counters[s'.durable - 1] + 2 * interval);
  }

  // ---------------------------------------------------------------------------------
  // Whole runs
  // ---------------------------------------------------------------------------------

  /** The steps lead from s to s'. */
  ghost predicate Leads(s: State, steps: seq<Step>, s': State, interval: nat)
    requires interval > 0
    decreases |steps|
  {
    if steps == [] then s' == s
    else Enabled(s, steps[0], interval) && Leads(After(s, steps[0], interval), steps[1..], s', interval)
  }

  /** Every call on the way returns an ID below what a recovery would start from. */
  ghost predicate ReturnsSafely(s: State, steps: seq<Step>, interval: nat)
    requires interval > 0
    decreases |steps|
  {
    steps == []
    || (Enabled(s, steps[0], interval)
        && (steps[0].Return? ==> 0 < s.durable <= |s.counters| && SafeReturn(s, steps[0].t, interval))
        && ReturnsSafely(After(s, steps[0], interval), steps[1..], interval))
  }

  lemma {:induction false} SafeRun(s: State, steps: seq<Step>, s': State, interval: nat)
    requires Inv(s, interval) && Safe(s, interval) && Leads(s, steps, s', interval) && ReturnsSafely(s, steps, interval)
    ensures Inv(s', interval) && Safe(s', interval)
    decreases |steps|
  {
    if steps != [] {
      StepKeepsInv(s, steps[0], interval);
      SafeRun(After(s, steps[0], interval), steps[1..], s', interval);
    }
  }

  lemma FreshInv(interval: nat)
    requires interval > 0
    ensures Inv(Fresh(), interval) && Safe(Fresh(), interval)
  {
    MultipleOf(0, interval);
  }

  /** Over any run of overlapping calls, crashes at any point, and recoveries, no ID is handed
      out twice, as long as calls return only IDs below what a recovery would start from. */
  lemma IdsAreUnique(steps: seq<Step>, s: State, interval: nat)
    requires interval > 0 && Leads(Fresh(), steps, s, interval) && ReturnsSafely(Fresh(), steps, interval)
    ensures NoneTwice(s.returned)
  {
    FreshInv(interval);
    SafeRun(Fresh(), steps, s, interval);
  }

  // ---------------------------------------------------------------------------------
  // One call at a time
  // ---------------------------------------------------------------------------------

  /** No call is running, what is persisted is at most one interval above what is durable, and
      the next ID at most one interval above that. */
  ghost predicate Still(s: State, interval: nat) {
    && interval > 0 && s.calls == map[] && 0 < s.durable <= |s.counters|
    && s.persists == Last(s.counters) <= s.counters[s.durable - 1] + interval
    && Multiple(s.persists, interval) && s.idgen <= s.persists + interval
  }

  /** What a call that is alone does. */
  function AfterCall(s: State, interval: nat): State
    requires interval > 0
  {
    var s' := s.(idgen := s.idgen + 1, returned := s.returned + [s.idgen]);
    var necessary := Floor(s.idgen, interval);
    if necessary <= s.persists then s'
    else s'.(persists := necessary, counters := s.counters + [necessary], durable := Max(s.durable, |s.counters|))
  }

  function CallSteps(s: State, interval: nat): seq<Step>
    requires interval > 0
  {
    if Floor(s.idgen, interval) <= s.persists then [FetchAdd(0), Check(0), Return(0)]
    else [FetchAdd(0), Raise(0), LogCounter(0), MakeDurable(0), Return(0)]
  }

  /** A step leads on. */
  lemma LeadsOn(s: State, st: Step, rest: seq<Step>, s': State, interval: nat)
    requires interval > 0 && Enabled(s, st, interval) && Leads(After(s, st, interval), rest, s', interval)
    requires st.Return? ==> 0 < s.durable <= |s.counters| && SafeReturn(s, st.t, interval)
    ensures Leads(s, [st] + rest, s', interval)
    ensures ReturnsSafely(After(s, st, interval), rest, interval) ==> ReturnsSafely(s, [st] + rest, interval)
  {
    assert ([st] + rest)[1..] == rest;
  }

  lemma QuickCall(s: State, interval: nat)
    requires Still(s, interval) && Floor(s.idgen, interval) <= s.persists
    ensures var steps := CallSteps(s, interval);
      Leads(s, steps, AfterCall(s, interval), interval) && ReturnsSafely(s, steps, interval)
          && Still(AfterCall(s, interval), interval)
  {
    var s1 := After(s, FetchAdd(0), interval);
    var s2 := After(s1, Check(0), interval);
    var s3 := After(s2, Return(0), interval);
    FloorIsMultiple(s.idgen, interval);
    assert s3 == AfterCall(s, interval);
    assert Leads(s3, [], s3, interval) && ReturnsSafely(s3, [], interval);
    LeadsOn(s2, Return(0), [], s3, interval);
    LeadsOn(s1, Check(0), [Return(0)], s3, interval);
    LeadsOn(s, FetchAdd(0), [Check(0), Return(0)], s3, interval);
    assert [FetchAdd(0)] + [Check(0), Return(0)] == CallSteps(s, interval)
           && [Check(0)] + [Return(0)] == [Check(0), Return(0)];
    assert [Return(0)] + [] == [Return(0)];
  }

  /** The state after a call that raised the counter is through. */
  function Finished(s: State, id: nat): State {
    s.(counters := s.counters + [s.persists], durable := Max(s.durable, |s.counters|), calls := map[],
       returned := s.returned + [id])
  }

  lemma FinishCall(s: State, id: nat, interval: nat)
    requires interval > 0 && s.calls == map[0 := Raised(id)] && 0 < s.durable <= |s.counters|
    requires id < Last(s.counters) + 2 * interval
    ensures var steps := [LogCounter(0), MakeDurable(0), Return(0)];
      Leads(s, steps, Finished(s, id), interval) && ReturnsSafely(s, steps, interval)
  {
    var s1 := After(s, LogCounter(0), interval);
    var s2 := After(s1, MakeDurable(0), interval);
    var s3 := After(s2, Return(0), interval);
    assert s3 == Finished(s, id);
    assert Leads(s3, [], s3, interval) && ReturnsSafely(s3, [], interval);
    LeadsOn(s2, Return(0), [], s3, interval);
    assert [Return(0)] + [] == [Return(0)];
    LeadsOn(s1, MakeDurable(0), [Return(0)], s3, interval);
    assert [MakeDurable(0)] + [Return(0)] == [MakeDurable(0), Return(0)];
    LeadsOn(s, LogCounter(0), [MakeDurable(0), Return(0)], s3, interval);
    assert [LogCounter(0)] + [MakeDurable(0), Return(0)] == [LogCounter(0), MakeDurable(0), Return(0)];
  }

  lemma SlowCall(s: State, interval: nat)
    requires Still(s, interval) && s.persists < Floor(s.idgen, interval)
    ensures var steps := CallSteps(s, interval);
      Leads(s, steps, AfterCall(s, interval), interval) && ReturnsSafely(s, steps, interval)
          && Still(AfterCall(s, interval), interval)
  {
    FloorIsNear(s.idgen, s.persists, interval);
    FloorIsMultiple(s.idgen, interval);
    var s1 := After(s, FetchAdd(0), interval);
    var s2 := After(s1, Raise(0), interval);
    var s3, rest := AfterCall(s, interval), [LogCounter(0), MakeDurable(0), Return(0)];
    FinishCall(s2, s.idgen, interval);
    assert Finished(s2, s.idgen) == s3;
    LeadsOn(s1, Raise(0), rest, s3, interval);
    assert [Raise(0)] + rest == [Raise(0), LogCounter(0), MakeDurable(0), Return(0)];
    LeadsOn(s, FetchAdd(0), [Raise(0)] + rest, s3, interval);
    assert [FetchAdd(0)] + ([Raise(0)] + rest) == CallSteps(s, interval);
  }

  /** A call that is alone returns the next ID, and may do so. */
  lemma OneCall(s: State, interval: nat)
    requires Still(s, interval)
    ensures var steps := CallSteps(s, interval);
      Leads(s, steps, AfterCall(s, interval), interval) && ReturnsSafely(s, steps, interval)
          && Still(AfterCall(s, interval), interval)
  {
    if Floor(s.idgen, interval) <= s.persists { QuickCall(s, interval); } else { SlowCall(s, interval); }
  }

  lemma {:induction false} LeadsAll(a: State, p: seq<Step>, b: State, q: seq<Step>, c: State, interval: nat)
    requires interval > 0 && Leads(a, p, b, interval) && Leads(b, q, c, interval)
    requires ReturnsSafely(a, p, interval) && ReturnsSafely(b, q, interval)
    ensures Leads(a, p + q, c, interval) && ReturnsSafely(a, p + q, interval)
    decreases |p|
  {
    if p == [] {
      assert p + q == q;
    } else {
      LeadsAll(After(a, p[0], interval), p[1..], b, q, c, interval);
      assert (p + q)[1..] == p[1..] + q;
    }
  }

  /** Calls, one after the other, until `id` is returned. */
  lemma {:induction false} CallsUpTo(s: State, id: nat, interval: nat) returns (steps: seq<Step>, s': State)
    requires Still(s, interval) && s.idgen <= id
    ensures Leads(s, steps, s', interval) && ReturnsSafely(s, steps, interval)
    ensures s.returned <= s'.returned && |s.returned| < |s'.returned| && Last(s'.returned) == id
    decreases id - s.idgen
  {
    OneCall(s, interval);
    steps, s' := CallSteps(s, interval), AfterCall(s, interval);
    if s.idgen < id {
      var more, s'' := CallsUpTo(s', id, interval);
      LeadsAll(s, steps, s', more, s'', interval);
      steps, s' := steps + more, s'';
    }
  }

  /** A call that returns an ID that a recovery would hand out again: it does. */
  lemma UnsafeRepeats(s: State, t: nat, interval: nat) returns (steps: seq<Step>, s': State)
    requires Inv(s, interval) && Safe(s, interval) && Enabled(s, Return(t), interval) && !SafeReturn(s, t, interval)
    ensures var s1 := After(s, Return(t), interval);
      Leads(s1, steps, s', interval) && ReturnsSafely(s1, steps, interval) && !NoneTwice(s'.returned)
  {
    var s1 := After(s, Return(t), interval);
    var s2 := After(s1, Crash(s1.durable), interval);
    NextOfMultiple(s1.counters[s1.durable - 1], interval);
    assert s2.counters[s2.durable - 1] == s1.counters[s1.durable - 1];
    var id := s.calls[t].id;
    steps, s' := CallsUpTo(s2, id, interval);
    LeadsOn(s1, Crash(s1.durable), steps, s', interval);
    steps := [Crash(s1.durable)] + steps;
    assert s'.returned[|s.returned|] == s1.returned[|s.returned|] == id == s'.returned[|s'.returned| - 1];
  }

  /** No way on hands out an ID twice. */
  ghost predicate UniqueAfter(s: State, interval: nat)
    requires interval > 0
  {
    forall steps: seq<Step>, s': State {:trigger Leads(s, steps, s', interval)} ::
      Leads(s, steps, s', interval) && ReturnsSafely(s, steps, interval) ==> NoneTwice(s'.returned)
  }

  /** The exact condition: after a call returns its ID, IDs stay unique whatever follows if and
      only if the ID is below what a recovery from the durable counter would start from. */
  lemma ReturnIsSafe(s: State, t: nat, interval: nat)
    requires Inv(s, interval) && Safe(s, interval) && Enabled(s, Return(t), interval)
    ensures UniqueAfter(After(s, Return(t), interval), interval) <==> SafeReturn(s, t, interval)
  {
    var s1 := After(s, Return(t), interval);
    if SafeReturn(s, t, interval) {
      StepKeepsInv(s, Return(t), interval);
      forall steps, s' | Leads(s1, steps, s', interval) && ReturnsSafely(s1, steps, interval)
          ensures NoneTwice(s'.returned) {
        SafeRun(s1, steps, s', interval);
      }
    } else {
      var steps, s' := UnsafeRepeats(s, t, interval);
    }
  }

  // ---------------------------------------------------------------------------------
  // Runs without overlap
  // ---------------------------------------------------------------------------------

  /** Where the only running call can stand. */
  ghost predicate NearCall(s: State, c: Call, interval: nat)
    requires 0 < s.durable <= |s.counters|
  {
    && c.id + 1 == s.idgen && AllBelow(s.returned, c.id)
    && var d := s.counters[s.durable - 1];
    match c
    case Fetched(id) => s.persists == Last(s.counters) <= d + interval && id <= s.persists + interval
    case Raised(id) => s.persists == Last(s.counters) + interval && Last(s.counters) <= d + interval
        && id < s.persists + interval
    case Logged(id) =>
      && |s.counters| > 1 && s.counters[|s.counters| - 2] + interval == Last(s.counters) == s.persists
      && id < s.persists + interval
    case Ready(id) => s.persists == Last(s.counters) <= d + interval && id < s.persists + interval
  }

  ghost predicate Near(s: State, interval: nat) {
    && 0 < s.durable <= |s.counters|
    && (s.calls == map[] ==> Still(s, interval) && AllBelow(s.returned, s.idgen))
    && (forall t {:trigger s.calls[t]} :: t in s.calls ==>
          s.calls == map[t := s.calls[t]] && NearCall(s, s.calls[t], interval))
  }

  lemma DurableAtLeast(s: State, n: nat)
    requires 0 < s.durable <= n <= |s.counters| && Rising(s.counters)
    ensures s.counters[s.durable - 1] <= s.counters[n - 1]
  {
    assert s.durable < n ==> s.counters[s.durable - 1] < s.counters[n - 1];
  }

  /** The only call moves on. */
  lemma NearMoves(s: State, s': State, t: nat, c: Call, interval: nat)
    requires Near(s, interval) && t in s.calls && s'.calls == s.calls[t := c] && 0 < s'.durable <= |s'.counters|
    requires NearCall(s', c, interval)
    ensures Near(s', interval)
  {
    assert s.calls == map[t := s.calls[t]];
    assert s'.calls == map[t := c];
  }

  lemma NearCheck(s: State, t: nat, interval: nat)
    requires Inv(s, interval) && Near(s, interval) && Enabled(s, Check(t), interval)
    ensures Near(After(s, Check(t), interval), interval)
  {
    FloorIsMultiple(s.calls[t].id, interval);
    assert NearCall(s, s.calls[t], interval);
    NearMoves(s, After(s, Check(t), interval), t, Ready(s.calls[t].id), interval);
  }

  lemma NearRaise(s: State, t: nat, interval: nat)
    requires Inv(s, interval) && Near(s, interval) && Enabled(s, Raise(t), interval)
    ensures Near(After(s, Raise(t), interval), interval)
  {
    assert NearCall(s, s.calls[t], interval);
    FloorIsNear(s.calls[t].id, s.persists, interval);
    NearMoves(s, After(s, Raise(t), interval), t, Raised(s.calls[t].id), interval);
  }

  lemma NearLog(s: State, t: nat, interval: nat)
    requires Inv(s, interval) && Near(s, interval) && Enabled(s, LogCounter(t), interval)
    ensures Near(After(s, LogCounter(t), interval), interval)
  {
    assert NearCall(s, s.calls[t], interval);
    NearMoves(s, After(s, LogCounter(t), interval), t, Logged(s.calls[t].id), interval);
  }

  lemma NearDurable(s: State, t: nat, interval: nat)
    requires Inv(s, interval) && Near(s, interval) && Enabled(s, MakeDurable(t), interval)
    ensures Near(After(s, MakeDurable(t), interval), interval)
  {
    var s' := After(s, MakeDurable(t), interval);
    assert NearCall(s, s.calls[t], interval);
    assert |s.counters| - 1 < s'.durable ==> s.counters[|s.counters| - 2] < s.counters[s'.durable - 1];
    NearMoves(s, s', t, Ready(s.calls[t].id), interval);
  }

  /** A call that runs alone may return; then the next one may begin. */
  lemma NearReturn(s: State, t: nat, interval: nat)
    requires Inv(s, interval) && Near(s, interval) && Enabled(s, Return(t), interval)
    ensures SafeReturn(s, t, interval) && Near(After(s, Return(t), interval), interval)
    ensures Rising(s.returned) ==> Rising(After(s, Return(t), interval).returned)
  {
    assert NearCall(s, s.calls[t], interval);
    assert s.calls - {t} == map[];
    if Rising(s.returned) { RisingMore(s.returned, s.calls[t].id); }
  }

  lemma NearCrash(s: State, n: nat, interval: nat)
    requires Inv(s, interval) && Safe(s, interval) && Enabled(s, Crash(n), interval)
    ensures Near(After(s, Crash(n), interval), interval)
  {
    NextOfMultiple(s.counters[n - 1], interval);
    CrashKeeps(s, n, interval);
    assert After(s, Crash(n), interval).counters[n - 1] == s.counters[n - 1];
  }

  lemma NearFlush(s: State, n: nat, interval: nat)
    requires Inv(s, interval) && Near(s, interval) && Enabled(s, Flush(n), interval)
    ensures Near(After(s, Flush(n), interval), interval)
  {
    var s' := After(s, Flush(n), interval);
    DurableAtLeast(s, n);
    forall t | t in s'.calls ensures s'.calls == map[t := s'.calls[t]] && NearCall(s', s'.calls[t], interval) {
      assert NearCall(s, s.calls[t], interval);
    }
  }

  lemma NearStep(s: State, st: Step, interval: nat)
    requires Inv(s, interval) && Safe(s, interval) && Near(s, interval) && Enabled(s, st, interval)
    requires st.FetchAdd? ==> s.calls == map[]
    ensures Near(After(s, st, interval), interval) && (st.Return? ==> SafeReturn(s, st.t, interval))
    ensures Rising(s.returned) ==> Rising(After(s, st, interval).returned)
  {
    match st
    case FetchAdd(t) => assert After(s, st, interval).calls == map[t := Fetched(s.idgen)];
    case Return(t) => NearReturn(s, t, interval);
    case Flush(n) => NearFlush(s, n, interval);
    case Crash(n) => NearCrash(s, n, interval);
    case Check(t) => NearCheck(s, t, interval);
    case Raise(t) => NearRaise(s, t, interval);
    case LogCounter(t) => NearLog(s, t, interval);
    case MakeDurable(t) => NearDurable(s, t, interval);
  }

  /** A call begins only when no other is running. */
  ghost predicate OneAtATime(s: State, steps: seq<Step>, interval: nat)
    requires interval > 0
    decreases |steps|
  {
    steps == []
    || (Enabled(s, steps[0], interval) && (steps[0].FetchAdd? ==> s.calls == map[])
        && OneAtATime(After(s, steps[0], interval), steps[1..], interval))
  }

  lemma {:induction false} NearRun(s: State, steps: seq<Step>, s': State, interval: nat)
    requires Inv(s, interval) && Safe(s, interval) && Near(s, interval) && Rising(s.returned)
    requires Leads(s, steps, s', interval) && OneAtATime(s, steps, interval)
    ensures ReturnsSafely(s, steps, interval) && Rising(s'.returned)
    decreases |steps|
  {
    if steps != [] {
      StepKeepsInv(s, steps[0], interval);
      NearStep(s, steps[0], interval);
      NearRun(After(s, steps[0], interval), steps[1..], s', interval);
    }
  }

  /** When calls do not overlap, every ID is above all that were handed out before it, over any
      run of calls, crashes at any point, and recoveries. */
  lemma IdsRise(steps: seq<Step>, s: State, interval: nat)
    requires interval > 0 && Leads(Fresh(), steps, s, interval) && OneAtATime(Fresh(), steps, interval)
    ensures Rising(s.returned)
  {
    FreshInv(interval);
    NearRun(Fresh(), steps, s, interval);
  }

  // ---------------------------------------------------------------------------------
  // Two calls that overlap
  // ---------------------------------------------------------------------------------

  /** Interval 2, after the IDs 0 to 3. */
  function FourCalls(): State {
    State(4, 2, [0, 2], 1, map[], [0, 1, 2, 3])
  }

  lemma FourCallsAreReached() returns (steps: seq<Step>)
    ensures Leads(Fresh(), steps, FourCalls(), 2) && ReturnsSafely(Fresh(), steps, 2)
  {
    var s0, s1 := Fresh(), State(1, 0, [0], 1, map[], [0]);
    var s2, s3 := State(2, 0, [0], 1, map[], [0, 1]), State(3, 2, [0, 2], 1, map[], [0, 1, 2]);
    assert s1 == AfterCall(s0, 2);
    OneCall(s0, 2);
    assert s2 == AfterCall(s1, 2);
    OneCall(s1, 2);
    assert s3 == AfterCall(s2, 2);
    OneCall(s2, 2);
    assert FourCalls() == AfterCall(s3, 2);
    OneCall(s3, 2);
    var a, b, c, d := CallSteps(s0, 2), CallSteps(s1, 2), CallSteps(s2, 2), CallSteps(s3, 2);
    LeadsAll(s0, a, s1, b, s2, 2);
    LeadsAll(s0, a + b, s2, c, s3, 2);
    LeadsAll(s0, a + b + c, s3, d, FourCalls(), 2);
    steps := a + b + c + d;
  }

  /** Thread 0 takes ID 4, raises `idgen_persists` and logs the counter; before the counter
      before it is durable, thread 1 takes ID 5 and is about to return it. */
  function Overlapping(): State {
    State(6, 4, [0, 2, 4], 1, map[0 := Logged(4), 1 := Ready(5)], [0, 1, 2, 3])
  }

  lemma OverlappingIsReached() returns (steps: seq<Step>)
    ensures Leads(Fresh(), steps, Overlapping(), 2) && ReturnsSafely(Fresh(), steps, 2)
  {
    var before := FourCallsAreReached();
    var s0 := FourCalls();
    var s1 := After(s0, FetchAdd(0), 2);
    var s2 := After(s1, Raise(0), 2);
    var s3 := After(s2, LogCounter(0), 2);
    var s4 := After(s3, FetchAdd(1), 2);
    assert After(s4, Check(1), 2) == Overlapping();
    assert Leads(Overlapping(), [], Overlapping(), 2) && ReturnsSafely(Overlapping(), [], 2);
    LeadsOn(s4, Check(1), [], Overlapping(), 2);
    LeadsOn(s3, FetchAdd(1), [Check(1)] + [], Overlapping(), 2);
    LeadsOn(s2, LogCounter(0), [FetchAdd(1)] + ([Check(1)] + []), Overlapping(), 2);
    LeadsOn(s1, Raise(0), [LogCounter(0)] + ([FetchAdd(1)] + ([Check(1)] + [])), Overlapping(), 2);
    var now := [Raise(0)] + ([LogCounter(0)] + ([FetchAdd(1)] + ([Check(1)] + [])));
    LeadsOn(s0, FetchAdd(0), now, Overlapping(), 2);
    LeadsAll(Fresh(), before, s0, [FetchAdd(0)] + now, Overlapping(), 2);
    steps := before + ([FetchAdd(0)] + now);
  }

  /** Two overlapping calls and a crash: an ID is handed out twice. */
  lemma OverlapRepeats() returns (steps: seq<Step>, s: State)
    ensures Leads(Fresh(), steps, s, 2) && !NoneTwice(s.returned)
  {
    var before := OverlappingIsReached();
    FreshInv(2);
    SafeRun(Fresh(), before, Overlapping(), 2);
    var after, s' := UnsafeRepeats(Overlapping(), 1, 2);
    assert ([Return(1)] + after)[1..] == after;
    LeadsJoin(Fresh(), before, Overlapping(), [Return(1)] + after, s', 2);
    steps, s := before + ([Return(1)] + after), s';
  }

  lemma {:induction false} LeadsJoin(a: State, p: seq<Step>, b: State, q: seq<Step>, c: State, interval: nat)
    requires interval > 0 && Leads(a, p, b, interval) && Leads(b, q, c, interval)
    ensures Leads(a, p + q, c, interval)
    decreases |p|
  {
    if p == [] {
      assert p + q == q;
    } else {
      LeadsJoin(After(a, p[0], interval), p[1..], b, q, c, interval);
      assert (p + q)[1..] == p[1..] + q;
    }
  }
}
