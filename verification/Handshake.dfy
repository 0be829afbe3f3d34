/** A producer and a consumer that take turns through one mutex and one condition
    variable signalled by whoever has just finished its turn. */
module Handshake {
  import opened Runs
  import opened Monitors

  const PRODUCER := 0  // runs while state is TO_PRODUCE
  const CONSUMER := 1  // runs while state is TO_CONSUME

  /** TestState and TestRunning are the two halves of the wait condition; Report is
      the print, which for the producer increments the product. */
  datatype Pc =
    | Top | WantLock | TestState | TestRunning | EnterWait | Waiting
    | Store | Report | Unlock | Signal | Exited

  datatype Event = Produced(n: int) | Consumed(n: int)

  /** `state` is the thread whose turn it is: 0 is TO_PRODUCE, 1 is TO_CONSUME.
      `log` collects the printed events and is not part of the program. */
  datatype State = State(
    running: bool, state: nat, product: int, monitor: Monitor, pcs: seq<Pc>, log: seq<Event>)

  /** A signal takes the sleeper `w` when there is one. */
  datatype Action = Thread(t: nat, w: nat) | Stop | Spurious(t: nat)

  const START := State(true, PRODUCER, 0, FRESH, [Top, Top], [])

  predicate Enabled(s: State, a: Action) {
    match a
    case Stop => s.running
    case Spurious(t) => t in s.monitor.waiting
    case Thread(t, w) =>
      t < |s.pcs| &&
      match s.pcs[t]
      case WantLock => s.monitor.Free()
      case Waiting => t !in s.monitor.waiting && s.monitor.Free()
      case Signal => s.monitor.CanSignal(w)
      case Exited => false
      case _ => true
  }

  predicate Scheduled(s: State, a: Action) { Enabled(s, a) && !a.Spurious? }

  function Step(s: State, a: Action): State {
    if !Enabled(s, a) then s else
    match a
    case Stop => s.(running := false)
    case Spurious(t) => s.(monitor := s.monitor.Signal(t))
    case Thread(t, w) => ThreadStep(s, t, w)
  }

  function Goto(s: State, t: nat, pc: Pc): State
    requires t < |s.pcs|
  {
    s.(pcs := s.pcs[t := pc])
  }

  function ThreadStep(s: State, t: nat, w: nat): State
    requires Enabled(s, Thread(t, w))
  {
    match s.pcs[t]
    case Top => Goto(s, t, if s.running then WantLock else Exited)
    case WantLock => Goto(s.(monitor := s.monitor.Lock(t)), t, TestState)
    case TestState => Goto(s, t, if s.state != t then TestRunning else Store)
    case TestRunning => Goto(s, t, if s.running then EnterWait else Store)
    case EnterWait => Goto(s.(monitor := s.monitor.Wait(t)), t, Waiting)
    case Waiting => Goto(s.(monitor := s.monitor.Lock(t)), t, TestState)
    case Store => Goto(s.(state := if t == PRODUCER then CONSUMER else PRODUCER), t, Report)
    case Report =>
      if t == PRODUCER
      then Goto(s.(product := s.product + 1, log := s.log + [Produced(s.product + 1)]), t, Unlock)
      else Goto(s.(log := s.log + [Consumed(s.product)]), t, Unlock)
    case Unlock => Goto(s.(monitor := s.monitor.Unlock()), t, Signal)
    case Signal => Goto(s.(monitor := s.monitor.Signal(w)), t, Top)
  }

  // --------------------------------------------------------------- what a run keeps

  predicate Critical(pc: Pc) {
    pc.TestState? || pc.TestRunning? || pc.EnterWait? || pc.Store? || pc.Report? || pc.Unlock?
  }

  /** Exactly the owner of the mutex is inside the critical section, and only
      waiting threads sleep. */
  ghost predicate OwnerInv(s: State) {
    && |s.pcs| == 2
    && (forall t :: 0 <= t < 2 ==> (Critical(s.pcs[t]) <==> s.monitor.owner == Some(t)))
    && (s.monitor.owner.Some? ==> s.monitor.owner.value < 2)
    && (forall t :: t in s.monitor.waiting ==> t < 2 && s.pcs[t].Waiting?)
    && (s.running ==> forall t :: 0 <= t < 2 ==> !s.pcs[t].Exited?)
  }

  /** What a thread knows about `state` at its point of the critical section. */
  predicate KnowsTurn(running: bool, state: nat, t: nat, pc: Pc) {
    && (pc.TestRunning? || pc.EnterWait? ==> state != t)
    && (pc.Report? ==> state + t == 1)
    && (running && pc.Store? ==> state == t)
  }

  /** `running` says which version of KnowsTurn both threads satisfy. */
  ghost predicate TurnInv(running: bool, s: State) {
    && OwnerInv(s) && s.state < 2
    && KnowsTurn(running, s.state, 0, s.pcs[0]) && KnowsTurn(running, s.state, 1, s.pcs[1])
  }

  ghost predicate LockInv(s: State) { TurnInv(s.running, s) }

  /** The other thread is between its store and its signal. */
  predicate OwesSignal(pc: Pc) { pc.Report? || pc.Unlock? || pc.Signal? }

  ghost predicate WakeInv(s: State) {
    |s.pcs| == 2 &&
    forall t :: 0 <= t < 2 && t in s.monitor.waiting && s.state == t ==> OwesSignal(s.pcs[1 - t])
  }

  /** The k-th event of strict alternation. */
  function Alternate(k: nat): Event {
    if k % 2 == 0 then Produced(k / 2 + 1) else Consumed(k / 2 + 1)
  }

  predicate Alternating(log: seq<Event>) {
    forall k :: 0 <= k < |log| ==> log[k] == Alternate(k)
  }

  predicate Reporting(s: State) {
    |s.pcs| == 2 && (s.pcs[0].Report? || s.pcs[1].Report?)
  }

  ghost predicate TraceInv(s: State) {
    && Alternating(s.log)
    && s.product == (|s.log| + 1) / 2
    && s.state == (|s.log| + if Reporting(s) then 1 else 0) % 2
  }

  /** Items produced minus items consumed. */
  function Balance(log: seq<Event>): int {
    if log == [] then 0 else
    Balance(log[..|log| - 1]) + if log[|log| - 1].Produced? then 1 else -1
  }

  lemma BalanceAppend(log: seq<Event>, e: Event)
    ensures Balance(log + [e]) == Balance(log) + if e.Produced? then 1 else -1
  {
    assert (log + [e])[..|log|] == log;
  }

  lemma {:induction false} BalanceAlternate(log: seq<Event>)
    requires Alternating(log)
    ensures Balance(log) == |log| % 2
  {
    if log != [] {
      BalanceAlternate(log[..|log| - 1]);
    }
  }

  /** Turns a thread can still take once `running` is false. */
  function Left(pc: Pc): nat {
    if pc.Unlock? || pc.Signal? || pc.Top? || pc.Exited? then 0 else 1
  }

  ghost predicate DriftInv(s: State) {
    && |s.pcs| == 2
    && (s.running ==> TraceInv(s))
    && (!s.running ==> Balance(s.log) + Left(s.pcs[PRODUCER]) <= 2 && Balance(s.log) - Left(s.pcs[CONSUMER]) >= -1)
  }

  ghost predicate Inv(s: State) { LockInv(s) && WakeInv(s) && DriftInv(s) }

  lemma OwnerInvStep(s: State, t: nat, w: nat)
    requires OwnerInv(s) && Enabled(s, Thread(t, w))
    ensures OwnerInv(ThreadStep(s, t, w))
  {
    assert Critical(s.pcs[t]) ==> s.monitor.owner == Some(t);
  }

  lemma TurnStep(s: State, t: nat, w: nat)
    requires LockInv(s) && Enabled(s, Thread(t, w))
    ensures var r := ThreadStep(s, t, w);
      && r.state < 2 && r.running == s.running && |r.pcs| == 2 && r.pcs[1 - t] == s.pcs[1 - t]
      && KnowsTurn(r.running, r.state, t, r.pcs[t])
      && (r.state == s.state || !Critical(s.pcs[1 - t]))
  {
    assert Critical(s.pcs[t]) ==> s.monitor.owner == Some(t);
  }

  lemma LockInvStep(s: State, a: Action)
    requires LockInv(s)
    ensures LockInv(Step(s, a))
  {
    if a.Thread? && Enabled(s, a) {
      OwnerInvStep(s, a.t, a.w);
      TurnStep(s, a.t, a.w);
    }
  }

  lemma WakeInvStep(s: State, a: Action)
    requires LockInv(s) && WakeInv(s)
    ensures WakeInv(Step(s, a))
  {
    var r := Step(s, a);
    if a.Thread? && Enabled(s, a) {
      var t := a.t;
      var u := 1 - t;
      assert r.pcs[u] == s.pcs[u];
      assert Critical(s.pcs[t]) ==> s.monitor.owner == Some(t);
    }
  }

  /** What thread t prints. */
  function Printed(s: State, t: nat): Event {
    if t == PRODUCER then Produced(s.product + 1) else Consumed(s.product)
  }

  lemma LeftStep(s: State, t: nat, w: nat)
    requires |s.pcs| == 2 && t < 2 && Enabled(s, Thread(t, w))
    ensures var r := ThreadStep(s, t, w);
      && |r.pcs| == 2 && r.running == s.running && r.pcs[1 - t] == s.pcs[1 - t]
      && r.log == s.log + (if s.pcs[t].Report? then [Printed(s, t)] else [])
      && (!s.running ==> Left(r.pcs[t]) + (if s.pcs[t].Report? then 1 else 0) <= Left(s.pcs[t]))
  {
  }

  lemma TraceInvStep(s: State, a: Action)
    requires TurnInv(true, s) && TraceInv(s) && a.Thread?
    ensures TraceInv(Step(s, a))
  {
    if Enabled(s, a) {
      LeftStep(s, a.t, a.w);
      assert Critical(s.pcs[a.t]) ==> s.monitor.owner == Some(a.t) && !s.pcs[1 - a.t].Report?;
      if s.pcs[a.t].Report? {
        assert Printed(s, a.t) == Alternate(|s.log|);
      }
    }
  }

  lemma DriftInvStep(s: State, a: Action)
    requires LockInv(s) && DriftInv(s)
    ensures DriftInv(Step(s, a))
  {
    if Enabled(s, a) {
      if a.Stop? {
        BalanceAlternate(s.log);
      } else if a.Thread? {
        if s.running {
          TraceInvStep(s, a);
        }
        LeftStep(s, a.t, a.w);
        if s.pcs[a.t].Report? {
          BalanceAppend(s.log, Printed(s, a.t));
        }
      }
    }
  }

  lemma Always(s: State, schedule: seq<Action>)
    requires Inv(s)
    ensures Inv(Exec(Step, s, schedule))
  {
    forall x, a | Inv(x) ensures Inv(Step(x, a)) {
      LockInvStep(x, a);
      WakeInvStep(x, a);
      DriftInvStep(x, a);
    }
    Invariant(Step, Inv, s, schedule);
  }

  // ------------------------------------------------------------------- the theorems

  /** Until `running` is cleared the events are produced 1, consumed 1, produced 2,
      consumed 2, ..., and at mutex-free points an item is outstanding exactly when
      the state is TO_CONSUME. */
  lemma StrictAlternation(schedule: seq<Action>)
    requires Exec(Step, START, schedule).running
    ensures var e := Exec(Step, START, schedule);
      && e.log == seq(|e.log|, k requires 0 <= k => Alternate(k))
      && (e.monitor.Free() ==> Balance(e.log) == if e.state == CONSUMER then 1 else 0)
  {
    Always(START, schedule);
    BalanceAlternate(Exec(Step, START, schedule).log);
  }

  /** In every reachable state, also after `running` is cleared, production is at
      most two ahead of consumption and at most one behind. */
  lemma BoundedDrift(schedule: seq<Action>)
    ensures -1 <= Balance(Exec(Step, START, schedule).log) <= 2
  {
    Always(START, schedule);
    BalanceAlternate(if Exec(Step, START, schedule).running then Exec(Step, START, schedule).log else []);
  }

  function By(t: nat, log: seq<Event>): nat {
    if log == [] then 0 else
    By(t, log[..|log| - 1]) + if log[|log| - 1].Produced? == (t == PRODUCER) then 1 else 0
  }

  lemma ByAppend(t: nat, log: seq<Event>, e: Event)
    ensures By(t, log + [e]) == By(t, log) + if e.Produced? == (t == PRODUCER) then 1 else 0
  {
    assert (log + [e])[..|log|] == log;
  }

  ghost predicate WindingDown(base: seq<Event>, s: State) {
    && |s.pcs| == 2 && !s.running && base <= s.log
    && By(PRODUCER, s.log[|base|..]) + Left(s.pcs[PRODUCER]) <= 1
    && By(CONSUMER, s.log[|base|..]) + Left(s.pcs[CONSUMER]) <= 1
    && |s.log| - |base| + Left(s.pcs[PRODUCER]) + Left(s.pcs[CONSUMER]) <= 2
  }

  lemma LogGrows(base: seq<Event>, log: seq<Event>, e: Event)
    requires base <= log
    ensures base <= log + [e]
    ensures By(PRODUCER, (log + [e])[|base|..]) == By(PRODUCER, log[|base|..]) + if e.Produced? then 1 else 0
    ensures By(CONSUMER, (log + [e])[|base|..]) == By(CONSUMER, log[|base|..]) + if e.Produced? then 0 else 1
  {
    assert (log + [e])[|base|..] == log[|base|..] + [e];
    ByAppend(PRODUCER, log[|base|..], e);
    ByAppend(CONSUMER, log[|base|..], e);
  }

  lemma WindingDownStep(base: seq<Event>, s: State, a: Action)
    requires LockInv(s) && WindingDown(base, s)
    ensures WindingDown(base, Step(s, a))
  {
    if a.Thread? && Enabled(s, a) {
      LeftStep(s, a.t, a.w);
      if s.pcs[a.t].Report? {
        LogGrows(base, s.log, Printed(s, a.t));
      }
    }
  }

  /** After `running` is cleared each thread takes at most one more turn. */
  lemma AtMostOneMoreTurnEach(s: State, schedule: seq<Action>)
    requires Inv(s) && !s.running
    ensures var e := Exec(Step, s, schedule);
      && s.log <= e.log && |e.log| <= |s.log| + 2
      && By(PRODUCER, e.log[|s.log|..]) <= 1 && By(CONSUMER, e.log[|s.log|..]) <= 1
  {
    assert s.log[|s.log|..] == [];
    var inv := (x: State) => LockInv(x) && WindingDown(s.log, x);
    forall x, a | inv(x) ensures inv(Step(x, a)) {
      LockInvStep(x, a);
      WindingDownStep(s.log, x, a);
    }
    Invariant(Step, inv, s, schedule);
  }

  /** One condition variable and plain signals are enough: the two threads are never
      both asleep, and a sleeper whose condition is true has the other thread in its
      critical section or about to signal. */
  lemma NoLostSignal(schedule: seq<Action>)
    ensures var e := Exec(Step, START, schedule);
      && |e.pcs| == 2
      && !(0 in e.monitor.waiting && 1 in e.monitor.waiting)
      && forall t :: 0 <= t < 2 && t in e.monitor.waiting && e.state == t ==>
           e.pcs[1 - t].Signal? || (OwesSignal(e.pcs[1 - t]) && e.monitor.owner == Some(1 - t))
  {
    Always(START, schedule);
  }

  /** While the program runs some thread can take a step without a spurious wakeup. */
  lemma NeverStuckWhileRunning(schedule: seq<Action>)
    requires Exec(Step, START, schedule).running
    ensures exists t, w :: Enabled(Exec(Step, START, schedule), Thread(t, w))
  {
    Always(START, schedule);
    Movable(Exec(Step, START, schedule));
  }

  lemma Movable(e: State)
    requires LockInv(e) && WakeInv(e) && (e.running || !e.monitor.Free())
    ensures exists t, w :: Enabled(e, Thread(t, w))
  {
    if e.monitor.owner.Some? {
      assert Enabled(e, Thread(e.monitor.owner.value, 0));
    } else {
      var t := if 0 in e.monitor.waiting then 1 else 0;
      assert Enabled(e, Thread(t, 1 - t));
    }
  }

  /** Steps a thread can still take before it sleeps, exits or reports; a signal
      still to be sent pays for the thread it wakes. */
  function LocalFuel(pc: Pc, asleep: bool): nat {
    match pc
    case Exited => 0
    case Waiting => if asleep then 0 else 5
    case EnterWait => 1
    case Report => 1
    case Store => 2
    case TestRunning => 3
    case TestState => 4
    case WantLock => 5
    case Top => 6
    case Signal => 12
    case Unlock => 13
  }

  function ThreadFuel(s: State, t: nat): nat {
    if t < |s.pcs| then LocalFuel(s.pcs[t], t in s.monitor.waiting) else 0
  }

  function Fuel(s: State): int {
    ThreadFuel(s, 0) + ThreadFuel(s, 1) + if s.running then 1 else 0
  }

  function Progress(s: State): int { |s.log| }

  lemma OwnFuelStep(s: State, t: nat, w: nat)
    requires LockInv(s) && Enabled(s, Thread(t, w))
    ensures ThreadFuel(ThreadStep(s, t, w), t) + 1 + (if s.pcs[t].Signal? then 5 else 0)
         <= ThreadFuel(s, t) + (if s.pcs[t].Report? then 13 else 0)
  {
  }

  lemma OtherFuelStep(s: State, t: nat, w: nat)
    requires LockInv(s) && Enabled(s, Thread(t, w))
    ensures ThreadFuel(ThreadStep(s, t, w), 1 - t)
         <= ThreadFuel(s, 1 - t) + (if s.pcs[t].Signal? then 5 else 0)
  {
  }

  lemma FuelStep(s: State, a: Action)
    requires LockInv(s) && Scheduled(s, a)
    ensures Fuel(Step(s, a)) + 1 <= Fuel(s) + 13 * (Progress(Step(s, a)) - Progress(s))
  {
    if a.Thread? {
      OwnFuelStep(s, a.t, a.w);
      OtherFuelStep(s, a.t, a.w);
      LeftStep(s, a.t, a.w);
      assert Progress(Step(s, a)) - Progress(s) == if s.pcs[a.t].Report? then 1 else 0;
    }
  }

  /** Without spurious wakeups the steps of any stretch of a run are bounded by the
      fuel at its start and 13 for each turn taken. */
  lemma StepsNeedProgress(s: State, schedule: seq<Action>)
    requires Inv(s) && Effective(Scheduled, Step, s, schedule)
    ensures var e := Exec(Step, s, schedule);
      |schedule| <= Fuel(s) + 13 * (|e.log| - |s.log|)
  {
    forall x, a | LockInv(x) && Scheduled(x, a)
      ensures LockInv(Step(x, a)) && Fuel(Step(x, a)) + 1 <= Fuel(x) + 13 * (Progress(Step(x, a)) - Progress(x))
    {
      LockInvStep(x, a);
      FuelStep(x, a);
    }
    Budget(Scheduled, Step, LockInv, Fuel, Progress, 13, s, schedule);
  }

  /** The shutdown phase ends. */
  lemma ShutdownTerminates(s: State, schedule: seq<Action>)
    requires Inv(s) && !s.running && Effective(Scheduled, Step, s, schedule)
    ensures |schedule| <= Fuel(s) + 26 <= 52
  {
    AtMostOneMoreTurnEach(s, schedule);
    StepsNeedProgress(s, schedule);
  }

  /** Where a run comes to rest, `running` is false, the mutex is free, and each
      thread has exited or sleeps on a false condition; at most one sleeps. */
  lemma Quiescence(schedule: seq<Action>)
    requires forall t, w :: !Enabled(Exec(Step, START, schedule), Thread(t, w))
    ensures var e := Exec(Step, START, schedule);
      && !e.running && e.monitor.Free() && |e.pcs| == 2 && e.state < 2
      && e.pcs[e.state].Exited?
      && forall t :: 0 <= t < 2 ==>
           e.pcs[t].Exited? || (e.pcs[t].Waiting? && t in e.monitor.waiting && t != e.state)
  {
    Always(START, schedule);
    var e := Exec(Step, START, schedule);
    if e.running || !e.monitor.Free() {
      Movable(e);
    }
    forall t | 0 <= t < 2
      ensures e.pcs[t].Exited? || (e.pcs[t].Waiting? && t in e.monitor.waiting && t != e.state)
    {
      assert !Enabled(e, Thread(t, 1 - t));
      assert !Enabled(e, Thread(1 - t, t));
    }
  }

  // --------------------------------------------------- how long the log alternates

  /** The branch that ends alternation: the wait loop is left because `running` is
      clear, although it is not the thread's turn. */
  predicate ForcedExit(s: State, a: Action) {
    Enabled(s, a) && a.Thread? && s.pcs[a.t].TestRunning? && !s.running
  }

  predicate Patient(s: State, a: Action) { !ForcedExit(s, a) }

  ghost predicate PatientInv(s: State) { TurnInv(true, s) && TraceInv(s) }

  /** The thread about to print is not the one whose event comes next. */
  predicate OutOfTurn(s: State) {
    |s.pcs| == 2 && var t := 1 - |s.log| % 2; s.pcs[t].Store? || s.pcs[t].Report?
  }

  ghost predicate Broken(s: State) { OwnerInv(s) && (Alternating(s.log) ==> OutOfTurn(s)) }

  lemma PatientInvStep(s: State, a: Action)
    requires PatientInv(s) && Patient(s, a)
    ensures PatientInv(Step(s, a))
  {
    if a.Thread? && Enabled(s, a) {
      OwnerInvStep(s, a.t, a.w);
      TurnStep(s, a.t, a.w);
      TraceInvStep(s, a);
    }
  }

  lemma ForcedExitBreaks(s: State, a: Action)
    requires PatientInv(s) && ForcedExit(s, a)
    ensures Broken(Step(s, a))
  {
    OwnerInvStep(s, a.t, a.w);
    assert !Reporting(s);
  }

  lemma BrokenStep(s: State, a: Action)
    requires Broken(s)
    ensures Broken(Step(s, a))
  {
    if a.Thread? && Enabled(s, a) {
      var r := Step(s, a);
      OwnerInvStep(s, a.t, a.w);
      assert s.log <= r.log && r.pcs[1 - a.t] == s.pcs[1 - a.t];
      if s.pcs[a.t].Report? {
        assert r.log[|s.log|] == Printed(s, a.t);
      }
      assert Critical(s.pcs[a.t]) ==> !Critical(s.pcs[1 - a.t]);
    }
  }

  lemma PatientOrBroken(s: State, schedule: seq<Action>)
    requires PatientInv(s)
    ensures var e := Exec(Step, s, schedule);
      if Effective(Patient, Step, s, schedule) then PatientInv(e) else Broken(e)
  {
    forall x, a | PatientInv(x)
      ensures if Patient(x, a) then PatientInv(Step(x, a)) else Broken(Step(x, a))
    {
      if Patient(x, a) {
        PatientInvStep(x, a);
      } else {
        ForcedExitBreaks(x, a);
      }
    }
    forall x, a | Broken(x) ensures Broken(Step(x, a)) {
      BrokenStep(x, a);
    }
    AllowedOrNot(Patient, Step, PatientInv, Broken, s, schedule);
  }

  /** The whole log of a run, shutdown included, alternates if and only if no thread left
      its wait because of `running`; where the mutex is held, unless the event that
      breaks it is still to be printed. */
  lemma AlternatesExactly(schedule: seq<Action>)
    ensures var e := Exec(Step, START, schedule);
      && (Effective(Patient, Step, START, schedule) <==> Alternating(e.log) && !OutOfTurn(e))
      && (e.monitor.Free() ==> (Effective(Patient, Step, START, schedule) <==> Alternating(e.log)))
  {
    PatientOrBroken(START, schedule);
    var e := Exec(Step, START, schedule);
    assert OutOfTurn(e) ==> Critical(e.pcs[1 - |e.log| % 2]);
  }

  /** The next two steps of the thread that left its wait break the alternation. */
  lemma TwoStepsLater(before: seq<Action>, t: nat, w: nat)
    requires Effective(Patient, Step, START, before) && ForcedExit(Exec(Step, START, before), Thread(t, w))
    ensures var s := Step(Exec(Step, START, before), Thread(t, w));
      Alternating(s.log) && !Alternating(Step(Step(s, Thread(t, w)), Thread(t, w)).log)
  {
    PatientOrBroken(START, before);
    var s := Step(Exec(Step, START, before), Thread(t, w));
    ForcedExitBreaks(Exec(Step, START, before), Thread(t, w));
    BrokenStep(s, Thread(t, w));
    BrokenStep(Step(s, Thread(t, w)), Thread(t, w));
  }

  // ------------------------------------------------ both ends of the drift are reached

  /** Thread t alone for n steps. */
  function Solo(s: State, t: nat, n: nat): State
    decreases n
  {
    if n == 0 then s else Solo(Step(s, Thread(t, 0)), t, n - 1)
  }

  lemma {:induction false} SoloRun(s: State, t: nat, n: nat) returns (schedule: seq<Action>)
    ensures Exec(Step, s, schedule) == Solo(s, t, n)
    decreases n
  {
    if n == 0 {
      schedule := [];
    } else {
      var rest := SoloRun(Step(s, Thread(t, 0)), t, n - 1);
      schedule := [Thread(t, 0)] + rest;
      assert schedule[1..] == rest;
    }
  }

  /** Thread t reads `running`, it is cleared, and t goes on for n steps. */
  lemma ClearBehind(s: State, t: nat, n: nat) returns (schedule: seq<Action>)
    ensures Exec(Step, s, schedule) == Solo(Step(Step(s, Thread(t, 0)), Stop), t, n)
  {
    var m := Step(Step(s, Thread(t, 0)), Stop);
    var rest := SoloRun(m, t, n);
    schedule := [Thread(t, 0)] + ([Stop] + rest);
    assert schedule[1..] == [Stop] + rest && ([Stop] + rest)[1..] == rest;
    assert Exec(Step, s, schedule) == Exec(Step, Step(s, Thread(t, 0)), [Stop] + rest);
  }

  /** The lower end of the drift is reached: the consumer reads `running` before it
      is cleared and consumes a product that was never produced. */
  lemma ConsumesNothing() returns (schedule: seq<Action>)
    ensures Exec(Step, START, schedule).log == [Consumed(0)]
    ensures Balance(Exec(Step, START, schedule).log) == -1
  {
    schedule := ClearBehind(START, CONSUMER, 5);
    BalanceAppend([], Consumed(0));
    assert [] + [Consumed(0)] == [Consumed(0)];
  }

  /** A run that comes to rest with the consumer asleep: `running` is cleared while it
      sleeps, and the producer leaves without a signal. */
  lemma ConsumerSleepsForEver() returns (schedule: seq<Action>)
    ensures var e := Exec(Step, START, schedule);
      (forall t, w :: !Enabled(e, Thread(t, w))) && CONSUMER in e.monitor.waiting
  {
    var c := Thread(CONSUMER, 0);
    var asleep := SoloRun(START, CONSUMER, 5);
    var m := Step(Step(Step(START, c), c), c);
    assert m == State(true, PRODUCER, 0, Monitor(Some(CONSUMER), {}), [Top, TestRunning], []);
    assert Solo(START, CONSUMER, 5) == Solo(m, CONSUMER, 2) == Step(Step(m, c), c);
    ExecAppend(Step, START, asleep, Stop);
    ExecAppend(Step, START, asleep + [Stop], Thread(PRODUCER, 0));
    schedule := asleep + [Stop] + [Thread(PRODUCER, 0)];
  }

  const AFTER_FIRST := State(true, CONSUMER, 1, FRESH, [Top, Top], [Produced(1)])

  lemma FirstItem() returns (schedule: seq<Action>)
    ensures Exec(Step, START, schedule) == AFTER_FIRST
  {
    var p := Thread(PRODUCER, 0);
    var m := Step(Step(Step(Step(START, p), p), p), p);
    assert m == State(true, CONSUMER, 0, Monitor(Some(PRODUCER), {}), [Report, Top], []);
    assert Solo(START, PRODUCER, 7) == Solo(m, PRODUCER, 3) == Step(Step(Step(m, p), p), p);
    schedule := SoloRun(START, PRODUCER, 7);
  }

  lemma SecondItem() returns (schedule: seq<Action>)
    ensures Exec(Step, AFTER_FIRST, schedule).log == [Produced(1), Produced(2)]
  {
    var p := Thread(PRODUCER, 0);
    var m := Step(Step(AFTER_FIRST, p), Stop);
    var m3 := Step(Step(Step(m, p), p), p);
    assert m3 == State(false, CONSUMER, 1, Monitor(Some(PRODUCER), {}), [Store, Top], [Produced(1)]);
    assert Solo(m, PRODUCER, 5) == Solo(m3, PRODUCER, 2) == Step(Step(m3, p), p);
    schedule := ClearBehind(AFTER_FIRST, PRODUCER, 5);
  }

  /** The upper end is reached too: the producer reads `running` before it is cleared
      and produces a second item that nobody consumed. */
  lemma ProducesTwice() returns (schedule: seq<Action>)
    ensures Exec(Step, START, schedule).log == [Produced(1), Produced(2)]
    ensures Balance(Exec(Step, START, schedule).log) == 2
  {
    var first := FirstItem();
    var second := SecondItem();
    ExecConcat(Step, START, first, second);
    schedule := first + second;
    BalanceAppend([], Produced(1));
    BalanceAppend([Produced(1)], Produced(2));
    assert [] + [Produced(1)] == [Produced(1)];
    assert [Produced(1)] + [Produced(2)] == [Produced(1), Produced(2)];
  }

  // -------------------------------------------------------------- the program's state

  class ProduceConsumeLab {
    var running: bool
    var state: nat
    var product: int
    var monitor: Monitor
    var pcs: seq<Pc>
    ghost var log: seq<Event>

    constructor ()
      ensures View() == START
    {
      running, state, product, monitor := true, PRODUCER, 0, FRESH;
      pcs, log := [Top, Top], [];
    }

    ghost function View(): State
      reads this
    {
      State(running, state, product, monitor, pcs, log)
    }

    method ClearRunning()
      modifies this
      ensures View() == Step(old(View()), Stop)
    {
      running := false;
    }

    method WakeSpuriously(t: nat)
      modifies this
      ensures View() == Step(old(View()), Spurious(t))
    {
      monitor := monitor.Signal(t);
    }

    /** The part both threads share; `t` is the state they wait for. */
    method Proceed(t: nat, w: nat)
      requires |pcs| == 2 && t < 2 && !pcs[t].Store? && !pcs[t].Report?
      modifies this
      ensures View() == Step(old(View()), Thread(t, w))
    {
      match pcs[t] {
        case Top =>
          pcs := pcs[t := if running then WantLock else Exited];
        case WantLock | Waiting =>
          if monitor.Free() && t !in (if pcs[t].Waiting? then monitor.waiting else {}) {
            monitor := monitor.Lock(t);
            pcs := pcs[t := TestState];
          }
        case TestState =>
          pcs := pcs[t := if state != t then TestRunning else Store];
        case TestRunning =>
          pcs := pcs[t := if running then EnterWait else Store];
        case EnterWait =>
          monitor := monitor.Wait(t);
          pcs := pcs[t := Waiting];
        case Unlock =>
          monitor := monitor.Unlock();
          pcs := pcs[t := Signal];
        case Signal =>
          if monitor.CanSignal(w) {
            monitor := monitor.Signal(w);
            pcs := pcs[t := Top];
          }
        case Exited =>
      }
    }

    /** The next call or shared access of producer. */
    method Producer(w: nat)
      requires |pcs| == 2
      modifies this
      ensures View() == Step(old(View()), Thread(PRODUCER, w))
    {
      if pcs[PRODUCER].Store? {
        state := CONSUMER;
        pcs := pcs[PRODUCER := Report];
      } else if pcs[PRODUCER].Report? {
        product := product + 1;
        log := log + [Produced(product)];
        pcs := pcs[PRODUCER := Unlock];
      } else {
        Proceed(PRODUCER, w);
      }
    }

    /** The next call or shared access of consumer. */
    method Consumer(w: nat)
      requires |pcs| == 2
      modifies this
      ensures View() == Step(old(View()), Thread(CONSUMER, w))
    {
      if pcs[CONSUMER].Store? {
        state := PRODUCER;
        pcs := pcs[CONSUMER := Report];
      } else if pcs[CONSUMER].Report? {
        log := log + [Consumed(product)];
        pcs := pcs[CONSUMER := Unlock];
      } else {
        Proceed(CONSUMER, w);
      }
    }
  }
}
