/** Any number of threads that, until told to stop, take the mutex and step three
    unsigned 32-bit counters by separate loads and stores. */
module TripleCounter {
  import opened Runs
  import opened Sums
  import opened Monitors

  const MODULUS := 0x1_0000_0000

  /** Unsigned 32-bit arithmetic on a result that is at most one modulus out of range. */
  function Wrap(x: int): int {
    if x >= MODULUS then x - MODULUS else if x < 0 then x + MODULUS else x
  }

  lemma WrapIsModulo(x: int)
    requires -MODULUS <= x < 2 * MODULUS
    ensures Wrap(x) == x % MODULUS
  {
  }

  /** One constructor per call, load or store of thread_work in its mutex mode;
      `r` is the value loaded and not yet stored. */
  datatype Pc =
    | Top | WantLock
    | Compare | CompareSecond(r: int) | RepairLoad | RepairStore(r: int)
    | Load3 | Store3(r: int) | Test3
    | LoadPlus1 | StorePlus1(r: int) | LoadMinus1 | StoreMinus1(r: int)
    | LoadPlus2 | StorePlus2(r: int) | LoadMinus2 | StoreMinus2(r: int)
    | Release | Exited

  /** `completed` counts finished passes and is not part of the program. */
  datatype State = State(
    done: bool, mutex: Monitor, var1: int, var2: int, var3: int, threads: seq<Pc>, completed: nat)

  datatype Action = Thread(t: nat) | SetDone

  function Init(n: nat): State {
    State(false, FRESH, 0, 0, 0, seq(n, _ => Top), 0)
  }

  function Step(s: State, a: Action): State {
    match a
    case SetDone => s.(done := true)
    case Thread(t) => if t < |s.threads| then ThreadStep(s, t) else s
  }

  function ThreadStep(s: State, t: nat): State
    requires t < |s.threads|
  {
    match s.threads[t]
    case Top => Goto(s, t, if s.done then Exited else WantLock)
    case WantLock => if s.mutex.Free() then Goto(s.(mutex := s.mutex.Lock(t)), t, Compare) else s
    case Compare => Goto(s, t, CompareSecond(s.var1))
    case CompareSecond(r) => Goto(s, t, if r != s.var2 then RepairLoad else Load3)
    case RepairLoad => Goto(s, t, RepairStore(s.var2))
    case RepairStore(r) => Goto(s.(var1 := r), t, Load3)
    case Load3 => Goto(s, t, Store3(s.var3))
    case Store3(r) => Goto(s.(var3 := Wrap(r + 1)), t, Test3)
    case Test3 => Goto(s, t, LoadPlus1)
    case LoadPlus1 => Goto(s, t, StorePlus1(s.var1))
    case StorePlus1(r) => Goto(s.(var1 := Wrap(r + 2)), t, LoadMinus1)
    case LoadMinus1 => Goto(s, t, StoreMinus1(s.var1))
    case StoreMinus1(r) => Goto(s.(var1 := Wrap(r - 1)), t, LoadPlus2)
    case LoadPlus2 => Goto(s, t, StorePlus2(s.var2))
    case StorePlus2(r) => Goto(s.(var2 := Wrap(r + 2)), t, LoadMinus2)
    case LoadMinus2 => Goto(s, t, StoreMinus2(s.var2))
    case StoreMinus2(r) => Goto(s.(var2 := Wrap(r - 1)), t, Release)
    case Release => Goto(s.(mutex := s.mutex.Unlock(), completed := s.completed + 1), t, Top)
    case Exited => s
  }

  function Goto(s: State, t: nat, pc: Pc): State
    requires t < |s.threads|
  {
    s.(threads := s.threads[t := pc])
  }

  predicate Critical(pc: Pc) { !pc.Top? && !pc.WantLock? && !pc.Exited? }

  /** How far each variable is ahead of the completed passes at a point of the
      critical section. */
  function Ahead1(pc: Pc): nat {
    match pc
    case LoadMinus1 | StoreMinus1(_) => 2
    case LoadPlus2 | StorePlus2(_) | LoadMinus2 | StoreMinus2(_) | Release => 1
    case _ => 0
  }

  function Ahead2(pc: Pc): nat {
    match pc
    case LoadMinus2 | StoreMinus2(_) => 2
    case Release => 1
    case _ => 0
  }

  function Ahead3(pc: Pc): nat {
    match pc
    case Test3 | LoadPlus1 | StorePlus1(_) | LoadMinus1 | StoreMinus1(_)
       | LoadPlus2 | StorePlus2(_) | LoadMinus2 | StoreMinus2(_) | Release => 1
    case _ => 0
  }

  /** The loaded value is still the value of its variable. */
  predicate RegisterCurrent(s: State, pc: Pc) {
    match pc
    case CompareSecond(r) => r == s.var1
    case Store3(r) => r == s.var3
    case StorePlus1(r) => r == s.var1
    case StoreMinus1(r) => r == s.var1
    case StorePlus2(r) => r == s.var2
    case StoreMinus2(r) => r == s.var2
    case _ => true
  }

  /** The thread inside the critical section, or a point outside it. */
  function Inside(s: State): Pc
    requires s.mutex.owner.Some? ==> s.mutex.owner.value < |s.threads|
  {
    if s.mutex.owner.Some? then s.threads[s.mutex.owner.value] else Top
  }

  /** Exactly the owner of the mutex is inside the critical section. */
  ghost predicate OwnerInv(s: State) {
    && (forall t :: 0 <= t < |s.threads| ==> (Critical(s.threads[t]) <==> s.mutex.owner == Some(t)))
    && (s.mutex.owner.Some? ==> s.mutex.owner.value < |s.threads|)
  }

  predicate InPhase(s: State, pc: Pc) {
    && !pc.RepairLoad? && !pc.RepairStore?
    && RegisterCurrent(s, pc)
    && s.var1 == Wrap(s.completed % MODULUS + Ahead1(pc))
    && s.var2 == Wrap(s.completed % MODULUS + Ahead2(pc))
    && s.var3 == Wrap(s.completed % MODULUS + Ahead3(pc))
  }

  ghost predicate Inv(s: State) {
    OwnerInv(s) && InPhase(s, Inside(s))
  }

  lemma WrapsAround(x: nat)
    ensures (x + 1) % MODULUS == Wrap(x % MODULUS + 1)
  {
    var q := x / MODULUS;
    assert x == q * MODULUS + x % MODULUS;
    if x % MODULUS + 1 == MODULUS {
      assert x + 1 == (q + 1) * MODULUS;
    } else {
      assert x + 1 == q * MODULUS + (x % MODULUS + 1);
    }
  }

  lemma StepKeepsOwner(s: State, t: nat)
    requires OwnerInv(s) && t < |s.threads|
    ensures OwnerInv(ThreadStep(s, t))
    ensures Critical(s.threads[t]) || (s.mutex.Free() && s.threads[t].WantLock?) ||
            (ThreadStep(s, t).mutex == s.mutex)
  {
  }

  lemma StepInside(s: State, t: nat)
    requires t < |s.threads| && Critical(s.threads[t]) && InPhase(s, s.threads[t])
    ensures var r := ThreadStep(s, t); InPhase(r, r.threads[t])
  {
    if s.threads[t].Release? {
      WrapsAround(s.completed);
    }
  }

  lemma StepKeepsInv(s: State, a: Action)
    requires Inv(s)
    ensures Inv(Step(s, a))
  {
    if a.Thread? && a.t < |s.threads| {
      var t := a.t;
      StepKeepsOwner(s, t);
      var r := ThreadStep(s, t);
      if Critical(s.threads[t]) {
        StepInside(s, t);
        assert Inside(s) == s.threads[t];
        assert r.threads[t] != Top ==> Inside(r) == r.threads[t];
      }
    }
  }

  lemma Always(n: nat, schedule: seq<Action>)
    ensures Inv(Exec(Step, Init(n), schedule))
  {
    forall s, a | Inv(s) ensures Inv(Step(s, a)) {
      StepKeepsInv(s, a);
    }
    Invariant(Step, Inv, Init(n), schedule);
  }

  /** Every store of every run is what unsigned 32-bit arithmetic makes of the loaded
      value: the sum or difference modulo 2^32. */
  lemma StoresAreUnsigned(n: nat, schedule: seq<Action>, t: nat)
    ensures var e := Exec(Step, Init(n), schedule);
      t < |e.threads| ==>
        var r := Step(e, Thread(t));
        match e.threads[t]
        case Store3(x) => 0 <= x < MODULUS && r.var3 == (x + 1) % MODULUS
        case StorePlus1(x) => 0 <= x < MODULUS && r.var1 == (x + 2) % MODULUS
        case StoreMinus1(x) => 0 <= x < MODULUS && r.var1 == (x - 1) % MODULUS
        case StorePlus2(x) => 0 <= x < MODULUS && r.var2 == (x + 2) % MODULUS
        case StoreMinus2(x) => 0 <= x < MODULUS && r.var2 == (x - 1) % MODULUS
        case _ => true
  {
    Always(n, schedule);
    var e := Exec(Step, Init(n), schedule);
    if t < |e.threads| && Critical(e.threads[t]) {
      assert Inside(e) == e.threads[t];
      StoreIsUnsigned(e, e.threads[t]);
    }
  }

  lemma StoreIsUnsigned(s: State, pc: Pc)
    requires InPhase(s, pc)
    ensures match pc
      case Store3(x) => 0 <= x < MODULUS && Wrap(x + 1) == (x + 1) % MODULUS
      case StorePlus1(x) => 0 <= x < MODULUS && Wrap(x + 2) == (x + 2) % MODULUS
      case StoreMinus1(x) => 0 <= x < MODULUS && Wrap(x - 1) == (x - 1) % MODULUS
      case StorePlus2(x) => 0 <= x < MODULUS && Wrap(x + 2) == (x + 2) % MODULUS
      case StoreMinus2(x) => 0 <= x < MODULUS && Wrap(x - 1) == (x - 1) % MODULUS
      case _ => true
  {
    match pc {
      case Store3(x) => WrapIsModulo(x + 1);
      case StorePlus1(x) => WrapIsModulo(x + 2);
      case StorePlus2(x) => WrapIsModulo(x + 2);
      case StoreMinus1(x) => WrapIsModulo(x - 1);
      case StoreMinus2(x) => WrapIsModulo(x - 1);
      case _ =>
    }
  }

  /** For every number of threads and every interleaving: whenever the mutex is free
      the three variables agree and are the completed passes modulo 2^32, and no
      thread ever enters the branch that repairs a difference. */
  lemma InStep(n: nat, schedule: seq<Action>)
    ensures var e := Exec(Step, Init(n), schedule);
      && (e.mutex.Free() ==> e.var1 == e.var2 == e.var3 == e.completed % 0x1_0000_0000)
      && (forall t :: 0 <= t < |e.threads| ==> !e.threads[t].RepairLoad? && !e.threads[t].RepairStore?)
  {
    Always(n, schedule);
    var e := Exec(Step, Init(n), schedule);
    forall t | 0 <= t < |e.threads| ensures !e.threads[t].RepairLoad? && !e.threads[t].RepairStore? {
      assert Critical(e.threads[t]) ==> e.threads[t] == Inside(e);
    }
  }

  // ----------------------------------------------------------- progress and shutdown

  predicate Moves(s: State, a: Action) { Step(s, a) != s }

  ghost predicate AtRest(s: State) { forall t :: !Moves(s, Thread(t)) }

  /** No thread leaves its loop before it is told to. */
  predicate Staying(s: State) {
    !s.done ==> forall t :: 0 <= t < |s.threads| ==> !s.threads[t].Exited?
  }

  lemma AlwaysStaying(n: nat, schedule: seq<Action>)
    ensures var e := Exec(Step, Init(n), schedule);
      Staying(e) && |e.threads| == n
  {
    Invariant(Step, (s: State) => Staying(s) && |s.threads| == n, Init(n), schedule);
  }

  lemma UnlessExited(s: State, t: nat)
    requires OwnerInv(s) && t < |s.threads| && !s.threads[t].Exited?
    ensures !AtRest(s)
  {
    var u := if s.mutex.owner.Some? then s.mutex.owner.value else t;
    assert Step(s, Thread(u)).threads[u] != s.threads[u];
    assert Moves(s, Thread(u));
  }

  /** While `done` is clear no thread has left its loop and some thread can move; and where
      none can, `done` is set and all have left. */
  lemma Quiescence(n: nat, schedule: seq<Action>)
    requires n > 0
    ensures var e := Exec(Step, Init(n), schedule);
      && |e.threads| == n
      && (!e.done ==> !AtRest(e) && forall t :: 0 <= t < n ==> !e.threads[t].Exited?)
      && (AtRest(e) <==> e.done && forall t :: 0 <= t < n ==> e.threads[t].Exited?)
  {
    Always(n, schedule);
    AlwaysStaying(n, schedule);
    var e := Exec(Step, Init(n), schedule);
    if !e.done {
      UnlessExited(e, 0);
    } else if t :| 0 <= t < n && !e.threads[t].Exited? {
      UnlessExited(e, t);
    }
  }

  /** `done` is set by the main thread, and by nothing else. */
  lemma {:induction false} DoneExactly(s: State, schedule: seq<Action>)
    ensures Exec(Step, s, schedule).done <==> s.done || SetDone in schedule
    decreases |schedule|
  {
    if schedule != [] {
      assert Step(s, schedule[0]).done <==> s.done || schedule[0] == SetDone;
      assert schedule == [schedule[0]] + schedule[1..];
      DoneExactly(Step(s, schedule[0]), schedule[1..]);
    }
  }

  /** Steps to the end of the pass. */
  function PassFuel(pc: Pc): int {
    match pc
    case Exited => 0
    case Release => 1
    case StoreMinus2(_) => 2
    case LoadMinus2 => 3
    case StorePlus2(_) => 4
    case LoadPlus2 => 5
    case StoreMinus1(_) => 6
    case LoadMinus1 => 7
    case StorePlus1(_) => 8
    case LoadPlus1 => 9
    case Test3 => 10
    case Store3(_) => 11
    case Load3 => 12
    case RepairStore(_) => 13
    case RepairLoad => 14
    case CompareSecond(_) => 15
    case Compare => 16
    case WantLock => 17
    case Top => 18
  }

  function Fuel(s: State): int { Sum(s.threads, PassFuel) + if s.done then 0 else 1 }

  function Progress(s: State): int { s.completed }

  lemma ThreadFuelStep(s: State, t: nat)
    requires t < |s.threads| && Moves(s, Thread(t))
    ensures var r := Step(s, Thread(t));
      && r.done == s.done && |r.threads| == |s.threads| && r.threads == s.threads[t := r.threads[t]]
      && PassFuel(r.threads[t]) + 1 <= PassFuel(s.threads[t]) + 18 * (r.completed - s.completed)
  {
  }

  lemma FuelStep(s: State, a: Action)
    requires Moves(s, a)
    ensures Fuel(Step(s, a)) + 1 <= Fuel(s) + 18 * (Progress(Step(s, a)) - Progress(s))
  {
    if a.Thread? {
      ThreadFuelStep(s, a.t);
      SumUpdate(s.threads, PassFuel, a.t, Step(s, a).threads[a.t]);
    }
  }

  lemma FuelBound(s: State)
    ensures 0 <= Fuel(s) <= 18 * |s.threads| + if s.done then 0 else 1
  {
    LowerBound(s.threads, PassFuel, 0);
    UpperBound(s.threads, PassFuel, 18);
  }

  /** Moving steps need passes: a stretch of a run in which every step moves is bounded by
      the fuel at its start, at most 18 for each thread, and 18 for each pass completed. */
  lemma StepsNeedProgress(s: State, schedule: seq<Action>)
    requires Effective(Moves, Step, s, schedule)
    ensures |schedule| <= Fuel(s) + 18 * (Exec(Step, s, schedule).completed - s.completed)
    ensures Fuel(s) <= 18 * |s.threads| + 1
  {
    forall x, a | Moves(x, a)
      ensures Fuel(Step(x, a)) + 1 <= Fuel(x) + 18 * (Progress(Step(x, a)) - Progress(x))
    {
      FuelStep(x, a);
    }
    Budget(Moves, Step, (x: State) => true, Fuel, Progress, 18, s, schedule);
    FuelBound(s);
    FuelBound(Exec(Step, s, schedule));
  }

  /** The thread that completes a pass with this step. */
  function Finisher(s: State, a: Action): seq<nat> {
    if a.Thread? && a.t < |s.threads| && s.threads[a.t].Release? then [a.t] else []
  }

  /** How often t occurs. */
  function Times(t: nat, finished: seq<nat>): nat { multiset(finished)[t] }

  lemma TimesConcat(t: nat, first: seq<nat>, second: seq<nat>)
    ensures Times(t, first + second) == Times(t, first) + Times(t, second)
  {
  }

  /** Passes a thread can still complete once `done` is set. */
  function Left(pc: Pc): int { if pc.Top? || pc.Exited? then 0 else 1 }

  lemma LastPassStep(s: State, a: Action)
    requires s.done
    ensures var r := Step(s, a);
      && r.done && |r.threads| == |s.threads|
      && r.completed == s.completed + |Finisher(s, a)|
      && Sum(r.threads, Left) + |Finisher(s, a)| <= Sum(s.threads, Left)
      && forall t :: 0 <= t < |s.threads| ==>
           Left(r.threads[t]) + Times(t, Finisher(s, a)) <= Left(s.threads[t])
  {
    if a.Thread? && a.t < |s.threads| {
      SumUpdate(s.threads, Left, a.t, Step(s, a).threads[a.t]);
    }
  }

  lemma {:induction false} PassesCounted(s: State, schedule: seq<Action>)
    requires s.done
    ensures var e := Exec(Step, s, schedule);
      var finished := |Matched(Step, Finisher, s, schedule)|;
      && e.completed == s.completed + finished && |e.threads| == |s.threads|
      && Sum(e.threads, Left) + finished <= Sum(s.threads, Left)
    decreases |schedule|
  {
    if schedule != [] {
      var m := Step(s, schedule[0]);
      LastPassStep(s, schedule[0]);
      PassesCounted(m, schedule[1..]);
      assert Exec(Step, s, schedule) == Exec(Step, m, schedule[1..]);
    }
  }

  /** Once `done` is set each thread completes at most the pass it is in. */
  lemma {:induction false} OneMorePassEach(s: State, schedule: seq<Action>, t: nat)
    requires s.done && t < |s.threads|
    ensures var e := Exec(Step, s, schedule);
      && |e.threads| == |s.threads|
      && Times(t, Matched(Step, Finisher, s, schedule)) + Left(e.threads[t]) <= Left(s.threads[t]) <= 1
    decreases |schedule|
  {
    if schedule != [] {
      var m := Step(s, schedule[0]);
      var first, rest := Finisher(s, schedule[0]), Matched(Step, Finisher, m, schedule[1..]);
      LastPassStep(s, schedule[0]);
      OneMorePassEach(m, schedule[1..], t);
      assert Exec(Step, s, schedule) == Exec(Step, m, schedule[1..]);
      TimesConcat(t, first, rest);
    }
  }

  /** So the shutdown ends: with at most one more pass for each of the threads, and within
      36 moving steps for each. */
  lemma ShutdownTerminates(s: State, schedule: seq<Action>)
    requires s.done && Effective(Moves, Step, s, schedule)
    ensures Exec(Step, s, schedule).completed <= s.completed + |s.threads|
    ensures |schedule| <= 36 * |s.threads|
  {
    PassesCounted(s, schedule);
    StepsNeedProgress(s, schedule);
    FuelBound(s);
    UpperBound(s.threads, Left, 1);
    LowerBound(Exec(Step, s, schedule).threads, Left, 0);
  }

  class AssignmentTwo {
    var done: bool
    var mutex: Monitor
    var var1: int
    var var2: int
    var var3: int
    var threads: seq<Pc>
    ghost var completed: nat

    constructor (n: nat)
      ensures View() == Init(n)
    {
      done, mutex, var1, var2, var3, completed := false, FRESH, 0, 0, 0, 0;
      threads := seq(n, _ => Top);
    }

    ghost function View(): State
      reads this
    {
      State(done, mutex, var1, var2, var3, threads, completed)
    }

    method SetDoneFlag()
      modifies this
      ensures View() == Step(old(View()), SetDone)
    {
      done := true;
    }

    /** The next call, load or store of thread t. */
    method ThreadWork(t: nat)
      modifies this
      ensures View() == Step(old(View()), Thread(t))
    {
      if t >= |threads| {
        return;
      }
      var next := threads[t];
      match next {
        case Top => next := if done then Exited else WantLock;
        case WantLock =>
          if mutex.Free() {
            mutex, next := mutex.Lock(t), Compare;
          }
        case Compare => next := CompareSecond(var1);
        case CompareSecond(r) => next := if r != var2 then RepairLoad else Load3;
        case RepairLoad => next := RepairStore(var2);
        case RepairStore(r) => var1, next := r, Load3;
        case Load3 => next := Store3(var3);
        case Store3(r) => var3, next := Wrap(r + 1), Test3;
        case Test3 => next := LoadPlus1;
        case LoadPlus1 => next := StorePlus1(var1);
        case StorePlus1(r) => var1, next := Wrap(r + 2), LoadMinus1;
        case LoadMinus1 => next := StoreMinus1(var1);
        case StoreMinus1(r) => var1, next := Wrap(r - 1), LoadPlus2;
        case LoadPlus2 => next := StorePlus2(var2);
        case StorePlus2(r) => var2, next := Wrap(r + 2), LoadMinus2;
        case LoadMinus2 => next := StoreMinus2(var2);
        case StoreMinus2(r) => var2, next := Wrap(r - 1), Release;
        case Release =>
          mutex, completed, next := mutex.Unlock(), completed + 1, Top;
        case Exited =>
      }
      threads := threads[t := next];
    }
  }
}
