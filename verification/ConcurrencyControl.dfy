/** The lock that starts as a bare counter and is upgraded to a readers-writer lock by the first
    writer. Every atomic operation is one step of some thread. */
module ConcurrencyControl {
  import opened Base

  const RW_REQUIRED_BIT: nat := 0x8000_0000

  /** Where a thread stands. */
  datatype Pc =
    | Idle
    | Backing       // `read` saw the bit and will take its increment back
    | WantsRead     // `read` is about to take the readers-writer lock
    | HasNone       // holds Protector::None
    | HasRead       // holds Protector::Read
    | Draining      // the first in `enable`, waiting for the counter to drain
    | Finishing     // about to set `upgrade_complete`
    | Waiting       // in `write`, waiting for `upgrade_complete`
    | WantsWrite    // `write` is about to take the readers-writer lock
    | HasWrite      // holds Protector::Write

  datatype State = State(active: nat, complete: bool, pcs: map<nat, Pc>)

  datatype Step =
    | ReadAdd(t: nat) | ReadSub(t: nat) | ReadLock(t: nat)
    | WriteOr(t: nat) | Drain(t: nat) | Finish(t: nat) | SeeComplete(t: nat) | WriteLock(t: nat)
    | Drop(t: nat)

  function FetchOr(x: nat): nat {
    if x / RW_REQUIRED_BIT % 2 == 0 then x + RW_REQUIRED_BIT else x
  }

  ghost predicate At(s: State, t: nat, pc: Pc) {
    t in s.pcs && s.pcs[t] == pc
  }

  ghost predicate Enabled(s: State, st: Step) {
    match st
    case ReadAdd(t) => At(s, t, Idle)
    case ReadSub(t) => At(s, t, Backing) && s.active > 0
    case ReadLock(t) => At(s, t, WantsRead) && forall u :: !At(s, u, HasWrite)
    case WriteOr(t) => At(s, t, Idle)
    case Drain(t) => At(s, t, Draining) && s.active == RW_REQUIRED_BIT
    case Finish(t) => At(s, t, Finishing)
    case SeeComplete(t) => At(s, t, Waiting) && s.complete
    case WriteLock(t) => At(s, t, WantsWrite) && forall u :: !At(s, u, HasWrite) && !At(s, u, HasRead)
    case Drop(t) => At(s, t, HasRead) || At(s, t, HasWrite) || (At(s, t, HasNone) && s.active > 0)
  }

  function Goes(s: State, t: nat, pc: Pc): State {
    s.(pcs := s.pcs[t := pc])
  }

  ghost function After(s: State, st: Step): State
    requires Enabled(s, st)
  {
    match st
    case ReadAdd(t) => Goes(s, t, if s.active >= RW_REQUIRED_BIT then Backing else HasNone).(active := s.active + 1)
    case ReadSub(t) => Goes(s, t, WantsRead).(active := s.active - 1)
    case ReadLock(t) => Goes(s, t, HasRead)
    case WriteOr(t) => Goes(s, t, if s.active < RW_REQUIRED_BIT then Draining
        else Waiting).(active := FetchOr(s.active))
    case Drain(t) => Goes(s, t, Finishing)
    case Finish(t) => Goes(s, t, Waiting).(complete := true)
    case SeeComplete(t) => Goes(s, t, WantsWrite)
    case WriteLock(t) => Goes(s, t, HasWrite)
    case Drop(t) => Goes(s, t, Idle).(active := if s.pcs[t].HasNone? then s.active - 1 else s.active)
  }

  // ---------------------------------------------------------------------------------
  // Invariant
  // ---------------------------------------------------------------------------------

  predicate IsCounted(pc: Pc) {
    pc.HasNone? || pc.Backing?
  }

  /** The threads that have an increment in the counter. */
  ghost function Counted(s: State): set<nat> {
    set t | t in s.pcs && IsCounted(s.pcs[t])
  }

  /** The counter is the number of those threads, plus the bit once it is set. */
  ghost predicate Word(s: State, bit: bool) {
    && |s.pcs| < RW_REQUIRED_BIT
    && s.active == |Counted(s)| + if bit then RW_REQUIRED_BIT else 0
  }

  /** What each thread can rely on. */
  ghost predicate ThreadOk(s: State, t: nat, bit: bool)
    requires t in s.pcs
  {
    match s.pcs[t]
    case Idle => true
    case HasNone => !s.complete
    case Backing => bit
    case WantsRead => bit
    case HasRead => bit
    case Draining => bit
    case Finishing => bit
    case Waiting => bit
    case WantsWrite => bit && s.complete
    case HasWrite => bit && s.complete
  }

  /** Two threads that can be where they are at the same time. */
  predicate Compatible(p: Pc, q: Pc) {
    && !(p.HasNone? && q.Finishing?) && !(q.HasNone? && p.Finishing?)
    && !(p.HasWrite? && (q.HasRead? || q.HasWrite?)) && !(q.HasWrite? && p.HasRead?)
  }

  ghost predicate PairOk(s: State, t: nat, u: nat)
    requires t in s.pcs && u in s.pcs
  {
    t != u ==> Compatible(s.pcs[t], s.pcs[u])
  }

  ghost predicate Inv(s: State, bit: bool) {
    && Word(s, bit) && (s.complete ==> bit)
    && (forall t {:trigger ThreadOk(s, t, bit)} :: t in s.pcs ==> ThreadOk(s, t, bit))
    && (forall t, u {:trigger PairOk(s, t, u)} :: t in s.pcs && u in s.pcs ==> PairOk(s, t, u))
  }

  lemma CountedBelow(s: State)
    ensures |Counted(s)| <= |s.pcs|
  {
    SubsetSize(Counted(s), s.pcs.Keys);
  }

  lemma {:induction false} SubsetSize(a: set<nat>, b: set<nat>)
    requires a <= b
    ensures |a| <= |b|
    decreases |a|
  {
    if a != {} {
      var x: nat :| x in a;
      SubsetSize(a - {x}, b - {x});
    }
  }

  /** A thread moves: the counter follows. */
  lemma CountedAfter(s: State, t: nat, pc: Pc)
    requires t in s.pcs
    ensures var n, n' := |Counted(s)|, |Counted(Goes(s, t, pc))|;
      n' == n - (if IsCounted(s.pcs[t]) then 1 else 0) + (if IsCounted(pc) then 1 else 0)
    ensures |Goes(s, t, pc).pcs| == |s.pcs|
  {
    var s' := Goes(s, t, pc);
    assert s'.pcs.Keys == s.pcs.Keys;
    assert Counted(s') == if IsCounted(pc) then Counted(s) - {t} + {t} else Counted(s) - {t};
  }

  /** The bit is set exactly when the word is at least the bit. */
  lemma BitIsVisible(s: State, bit: bool)
    requires Inv(s, bit)
    ensures s.active >= RW_REQUIRED_BIT <==> bit
    ensures FetchOr(s.active) == |Counted(s)| + RW_REQUIRED_BIT
  {
    CountedBelow(s);
  }

  /** A drained counter has no reader left. */
  lemma DrainedIsEmpty(s: State, u: nat)
    requires Word(s, true) && s.active == RW_REQUIRED_BIT && u in s.pcs
    ensures !s.pcs[u].HasNone?
  {
    assert s.pcs[u].HasNone? ==> u in Counted(s);
  }

  /** The moving thread and any other. */
  lemma PairAfter(s: State, st: Step, bit: bool, u: nat)
    requires Inv(s, bit) && Enabled(s, st) && u in s.pcs && u != st.t
    ensures Compatible(After(s, st).pcs[st.t], s.pcs[u]) && Compatible(s.pcs[u], After(s, st).pcs[st.t])
  {
    BitIsVisible(s, bit);
    assert ThreadOk(s, u, bit) && ThreadOk(s, st.t, bit) && PairOk(s, st.t, u);
    if st.Drain? { DrainedIsEmpty(s, u); }
    assert !At(s, u, HasWrite) || s.pcs[u] == HasWrite;
    assert !At(s, u, HasRead) || s.pcs[u] == HasRead;
  }

  /** Once the upgrade is complete no thread holds only the counter. */
  lemma ThreadAfter(s: State, st: Step, bit: bool, u: nat)
    requires Inv(s, bit) && Enabled(s, st) && u in s.pcs
    ensures ThreadOk(After(s, st), u, bit || st.WriteOr?)
  {
    BitIsVisible(s, bit);
    assert ThreadOk(s, u, bit) && ThreadOk(s, st.t, bit) && PairOk(s, st.t, u);
  }

  lemma StepKeepsInv(s: State, st: Step, bit: bool)
    requires Inv(s, bit) && Enabled(s, st)
    ensures Inv(After(s, st), bit || st.WriteOr?)
  {
    var s', bit' := After(s, st), bit || st.WriteOr?;
    BitIsVisible(s, bit);
    assert ThreadOk(s, st.t, bit);
    CountedAfter(s, st.t, s'.pcs[st.t]);
    assert Counted(s') == Counted(Goes(s, st.t, s'.pcs[st.t]));
    forall t | t in s'.pcs ensures ThreadOk(s', t, bit') { ThreadAfter(s, st, bit, t); }
    forall t, u | t in s'.pcs && u in s'.pcs ensures PairOk(s', t, u) {
      if t == st.t && u != t { PairAfter(s, st, bit, u); }
      if u == st.t && u != t { PairAfter(s, st, bit, t); }
      assert PairOk(s, t, u);
    }
  }

  // ---------------------------------------------------------------------------------
  // Whole runs
  // ---------------------------------------------------------------------------------

  ghost predicate Run(states: seq<State>, steps: seq<Step>) {
    && |states| == |steps| + 1
    && states[0].active == 0 && !states[0].complete && |states[0].pcs| < RW_REQUIRED_BIT
    && (forall t :: t in states[0].pcs ==> states[0].pcs[t] == Idle)
    && (forall i, j {:trigger Moves(states[i], steps[i], states[j])} :: 0 <= i && j == i + 1 < |states| ==>
          Moves(states[i], steps[i], states[j]))
  }

  ghost predicate Moves(s: State, st: Step, s': State) {
    Enabled(s, st) && s' == After(s, st)
  }

  lemma {:induction false} RunInv(states: seq<State>, steps: seq<Step>, i: nat) returns (bit: bool)
    requires Run(states, steps) && i < |states|
    ensures Inv(states[i], bit)
  {
    if i == 0 {
      assert Counted(states[0]) == {};
      bit := false;
    } else {
      bit := RunInv(states, steps, i - 1);
      assert Moves(states[i - 1], steps[i - 1], states[i]);
      StepKeepsInv(states[i - 1], steps[i - 1], bit);
      bit := bit || steps[i - 1].WriteOr?;
    }
  }

  predicate Protected(pc: Pc) {
    pc.HasNone? || pc.HasRead? || pc.HasWrite?
  }

  /** In every reachable state, a thread that holds the write protector is alone. */
  lemma WriterIsAlone(states: seq<State>, steps: seq<Step>, i: nat, t: nat, u: nat)
    requires Run(states, steps) && i < |states|
    requires At(states[i], t, HasWrite) && u in states[i].pcs && Protected(states[i].pcs[u])
    ensures u == t
  {
    var bit := RunInv(states, steps, i);
    assert ThreadOk(states[i], t, bit) && ThreadOk(states[i], u, bit) && PairOk(states[i], t, u);
  }

  /** The counter never goes below zero and no increment is lost: dropping the last protector
      of an idle lock leaves exactly the bit. */
  lemma QuietCounter(states: seq<State>, steps: seq<Step>, i: nat)
    requires Run(states, steps) && i < |states|
    requires forall t :: t in states[i].pcs ==> !IsCounted(states[i].pcs[t])
    ensures states[i].active == 0 || states[i].active == RW_REQUIRED_BIT
  {
    var bit := RunInv(states, steps, i);
    assert Counted(states[i]) == {};
  }
}
