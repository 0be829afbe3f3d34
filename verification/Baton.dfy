/** Four threads pass a baton through one mutex and one condition variable:
    0 -> 1 -> (2 or 3, by the parity of a counter) -> 0, until they are told to stop. */
module Baton {
  import opened Runs
  import opened Monitors

  /** Act is the body up to the assignment of `state`, Store that assignment. */
  datatype Pc = Top | WantLock | Test | Waiting | Act | Store | Unlock | Broadcast | Exited

  /** `log` records which thread stored `state`, in order; it is not part of the program. */
  datatype State = State(
    running: bool, state: nat, counter: int, monitor: Monitor, pcs: seq<Pc>, log: seq<nat>)

  datatype Action = Thread(t: nat) | Stop | Spurious(t: nat)

  const START := State(true, 0, 0, FRESH, [Top, Top, Top, Top], [])

  function NextState(t: nat, counter: int): nat {
    if t == 0 then 1 else if t == 1 then (if counter % 2 == 0 then 2 else 3) else 0
  }

  predicate Enabled(s: State, a: Action) {
    match a
    case Stop => s.running
    case Spurious(t) => t in s.monitor.waiting
    case Thread(t) =>
      t < |s.pcs| &&
      match s.pcs[t]
      case WantLock => s.monitor.Free()
      case Waiting => t !in s.monitor.waiting && s.monitor.Free()
      case Exited => false
      case _ => true
  }

  predicate Scheduled(s: State, a: Action) { Enabled(s, a) && !a.Spurious? }

  function Step(s: State, a: Action): State {
    if !Enabled(s, a) then s else
    match a
    case Stop => s.(running := false)
    case Spurious(t) => s.(monitor := s.monitor.Signal(t))
    case Thread(t) => ThreadStep(s, t)
  }

  function Goto(s: State, t: nat, pc: Pc): State
    requires t < |s.pcs|
  {
    s.(pcs := s.pcs[t := pc])
  }

  function ThreadStep(s: State, t: nat): State
    requires Enabled(s, Thread(t))
  {
    match s.pcs[t]
    case Top => Goto(s, t, if s.running then WantLock else Exited)
    case WantLock => Goto(s.(monitor := s.monitor.Lock(t)), t, Test)
    case Test =>
      if s.state == t then Goto(s, t, Act) else Goto(s.(monitor := s.monitor.Wait(t)), t, Waiting)
    case Waiting => Goto(s.(monitor := s.monitor.Lock(t)), t, Test)
    case Act => Goto(if t == 1 then s.(counter := s.counter + 1) else s, t, Store)
    case Store => Goto(s.(state := NextState(t, s.counter), log := s.log + [t]), t, Unlock)
    case Unlock => Goto(s.(monitor := s.monitor.Unlock()), t, Broadcast)
    case Broadcast => Goto(s.(monitor := s.monitor.Broadcast()), t, Top)
  }

  // --------------------------------------------------------------- what a run keeps

  /** The thread whose turn the k-th action is: s0 s1 s3 s0 s1 s2, for ever. */
  function Turn(k: nat): nat {
    var p := k % 6;
    if p == 0 || p == 3 then 0 else if p == 1 || p == 4 then 1 else if p == 2 then 3 else 2
  }

  /** How many of the first k actions are s1's. */
  function Ones(k: nat): nat {
    var p := k % 6;
    k / 6 * 2 + if p < 2 then 0 else if p < 5 then 1 else 2
  }

  predicate Critical(pc: Pc) { pc.Test? || pc.Act? || pc.Store? || pc.Unlock? }

  predicate WillBroadcast(pc: Pc) { pc.Unlock? || pc.Broadcast? }

  ghost predicate LockInv(s: State) {
    && |s.pcs| == 4
    && (forall t :: 0 <= t < 4 ==> (Critical(s.pcs[t]) <==> s.monitor.owner == Some(t)))
    && (s.monitor.owner.Some? ==> s.monitor.owner.value < 4)
    && (forall t :: t in s.monitor.waiting ==> t < 4 && s.pcs[t].Waiting?)
    && (forall t :: 0 <= t < 4 ==> (s.pcs[t].Act? || s.pcs[t].Store? ==> s.state == t))
    && (s.running ==> forall t :: 0 <= t < 4 ==> !s.pcs[t].Exited?)
  }

  ghost predicate TraceInv(s: State) {
    && |s.pcs| == 4
    && (forall k :: 0 <= k < |s.log| ==> s.log[k] == Turn(k))
    && s.state == Turn(|s.log|)
    && s.counter == Ones(|s.log|) + if s.pcs[1].Store? then 1 else 0
  }

  /** If the thread whose turn it is sleeps, a broadcast is still to come. */
  ghost predicate WakeInv(s: State) {
    |s.pcs| == 4 &&
    (s.state in s.monitor.waiting ==> exists t :: 0 <= t < 4 && WillBroadcast(s.pcs[t]))
  }

  ghost predicate Inv(s: State) { LockInv(s) && TraceInv(s) && WakeInv(s) }

  lemma TurnStep(k: nat)
    ensures Turn(k + 1) == NextState(Turn(k), Ones(k) + if Turn(k) == 1 then 1 else 0)
    ensures Ones(k + 1) == Ones(k) + if Turn(k) == 1 then 1 else 0
    ensures Turn(k) == 2 ==> Ones(k) % 2 == 0
    ensures Turn(k) == 3 ==> Ones(k) % 2 == 1
  {
    var q, p := k / 6, k % 6;
    assert k == 6 * q + p;
    if p == 5 {
      assert k + 1 == 6 * (q + 1) && (k + 1) / 6 == q + 1 && (k + 1) % 6 == 0;
    } else {
      assert k + 1 == 6 * q + (p + 1) && (k + 1) / 6 == q && (k + 1) % 6 == p + 1;
    }
    assert Ones(k) == 2 * q + if p < 2 then 0 else if p < 5 then 1 else 2;
  }

  lemma LockInvStep(s: State, a: Action)
    requires LockInv(s)
    ensures LockInv(Step(s, a))
  {
    if a.Thread? && Enabled(s, a) {
      var t := a.t;
      match s.pcs[t]
      case Top =>
      case WantLock =>
      case Test => assert s.monitor.owner == Some(t);
      case Waiting =>
      case Act => assert s.monitor.owner == Some(t);
      case Store => assert s.monitor.owner == Some(t);
      case Unlock => assert s.monitor.owner == Some(t);
      case Broadcast =>
    }
  }

  lemma StoreKeepsTrace(s: State, t: nat)
    requires LockInv(s) && TraceInv(s) && t < 4 && s.pcs[t].Store?
    ensures TraceInv(ThreadStep(s, t))
  {
    var r := ThreadStep(s, t);
    var n := |s.log|;
    TurnStep(n);
    assert s.monitor.owner == Some(t) && s.state == t;
    assert s.pcs[1].Store? ==> t == 1;
    assert r.log == s.log + [Turn(n)];
    assert !r.pcs[1].Store?;
  }

  lemma OtherKeepsTrace(s: State, t: nat)
    requires LockInv(s) && Enabled(s, Thread(t)) && !s.pcs[t].Store?
    ensures var r := ThreadStep(s, t);
      && r.log == s.log && r.state == s.state && |r.pcs| == 4
      && r.counter - (if r.pcs[1].Store? then 1 else 0) == s.counter - (if s.pcs[1].Store? then 1 else 0)
  {
  }

  lemma TraceInvStep(s: State, a: Action)
    requires LockInv(s) && TraceInv(s)
    ensures TraceInv(Step(s, a))
  {
    if a.Thread? && Enabled(s, a) {
      if s.pcs[a.t].Store? {
        StoreKeepsTrace(s, a.t);
      } else {
        OtherKeepsTrace(s, a.t);
      }
    }
  }

  lemma WakeInvStep(s: State, a: Action)
    requires LockInv(s) && WakeInv(s)
    ensures WakeInv(Step(s, a))
  {
    var r := Step(s, a);
    if r.state in r.monitor.waiting && a.Thread? && Enabled(s, a) {
      if s.pcs[a.t].Store? {
        assert WillBroadcast(r.pcs[a.t]);
      } else {
        WaitingStep(s, a.t);
        var t :| 0 <= t < 4 && WillBroadcast(s.pcs[t]);
        assert WillBroadcast(r.pcs[t]);
      }
    }
  }

  /** Apart from a store, a step leaves the turn alone, and a thread falls asleep only
      when it is not its turn; a broadcast leaves nobody asleep. */
  lemma WaitingStep(s: State, t: nat)
    requires LockInv(s) && Enabled(s, Thread(t)) && !s.pcs[t].Store?
    ensures var r := ThreadStep(s, t);
      && r.state == s.state
      && (r.state in r.monitor.waiting ==> s.state in s.monitor.waiting && !s.pcs[t].Broadcast?)
      && |r.pcs| == 4 && (forall i :: 0 <= i < 4 && i != t ==> r.pcs[i] == s.pcs[i])
      && (s.pcs[t].Unlock? ==> r.pcs[t].Broadcast?)
  {
  }

  lemma InvStep(s: State, a: Action)
    requires Inv(s)
    ensures Inv(Step(s, a))
  {
    LockInvStep(s, a);
    TraceInvStep(s, a);
    WakeInvStep(s, a);
  }

  lemma Always(s: State, schedule: seq<Action>)
    requires Inv(s)
    ensures Inv(Exec(Step, s, schedule))
  {
    forall x, a | Inv(x) ensures Inv(Step(x, a)) {
      InvStep(x, a);
    }
    Invariant(Step, Inv, s, schedule);
  }

  /** The log is the same for every schedule, up to its length, and determines
      `state` and `counter`; s2 acts on even and s3 on odd counters only. */
  lemma TraceIsScheduleIndependent(schedule: seq<Action>)
    ensures var e := Exec(Step, START, schedule);
      && e.log == seq(|e.log|, k requires 0 <= k => Turn(k))
      && e.state == Turn(|e.log|)
      && |e.pcs| == 4
      && (e.monitor.Free() ==> e.counter == Ones(|e.log|))
      && (e.pcs[2].Act? || e.pcs[2].Store? ==> e.counter % 2 == 0)
      && (e.pcs[3].Act? || e.pcs[3].Store? ==> e.counter % 2 == 1)
  {
    Always(START, schedule);
    TurnStep(|Exec(Step, START, schedule).log|);
  }

  // ------------------------------------------------------------- wakeups and progress

  /** A thread asleep on a true condition is never forgotten: another thread still
      holds the mutex after its store or has its broadcast to send. */
  lemma NoLostWakeup(schedule: seq<Action>, i: nat)
    requires i in Exec(Step, START, schedule).monitor.waiting
    requires Exec(Step, START, schedule).state == i
    ensures var e := Exec(Step, START, schedule);
      exists t :: 0 <= t < |e.pcs| && t != i &&
        (e.pcs[t].Broadcast? || (e.pcs[t].Unlock? && e.monitor.owner == Some(t)))
  {
    Always(START, schedule);
    var e := Exec(Step, START, schedule);
    var t :| 0 <= t < 4 && WillBroadcast(e.pcs[t]);
    assert t != i;
  }

  lemma Movable(e: State)
    requires LockInv(e) && WakeInv(e) && e.state < 4
    requires e.running || !e.monitor.Free() || e.state in e.monitor.waiting
    ensures exists t :: Enabled(e, Thread(t))
  {
    if e.monitor.owner.Some? {
      assert Enabled(e, Thread(e.monitor.owner.value));
    } else if e.state in e.monitor.waiting {
      var t :| 0 <= t < 4 && WillBroadcast(e.pcs[t]);
      assert Enabled(e, Thread(t));
    } else {
      assert Enabled(e, Thread(e.state));
    }
  }

  /** While the program runs some thread can take a step without a spurious wakeup. */
  lemma NeverStuckWhileRunning(schedule: seq<Action>)
    requires Exec(Step, START, schedule).running
    ensures exists t :: Enabled(Exec(Step, START, schedule), Thread(t))
  {
    Always(START, schedule);
    Movable(Exec(Step, START, schedule));
  }

  /** Steps a thread can still take before it sleeps, exits or stores; a pending
      broadcast also pays for the (at most three) threads it wakes. */
  function LocalFuel(pc: Pc, asleep: bool): nat {
    match pc
    case Exited => 0
    case Waiting => if asleep then 0 else 4
    case Store => 1
    case Act => 2
    case Test => 3
    case WantLock => 4
    case Top => 5
    case Broadcast => 18
    case Unlock => 19
  }

  function ThreadFuel(s: State, t: nat): nat {
    if t < |s.pcs| then LocalFuel(s.pcs[t], t in s.monitor.waiting) else 0
  }

  function Fuel(s: State): int {
    ThreadFuel(s, 0) + ThreadFuel(s, 1) + ThreadFuel(s, 2) + ThreadFuel(s, 3) + if s.running then 1 else 0
  }

  function Progress(s: State): int { |s.log| }

  lemma OwnFuel(s: State, t: nat)
    requires LockInv(s) && Enabled(s, Thread(t))
    ensures var r := ThreadStep(s, t);
      && r.running == s.running
      && |r.log| == |s.log| + (if s.pcs[t].Store? then 1 else 0)
      && ThreadFuel(r, t) + 1 + (if s.pcs[t].Broadcast? then 12 else 0)
           <= ThreadFuel(s, t) + (if s.pcs[t].Store? then 19 else 0)
  {
  }

  lemma FuelStep(s: State, a: Action)
    requires LockInv(s) && Scheduled(s, a)
    ensures Fuel(Step(s, a)) + 1 <= Fuel(s) + 19 * (Progress(Step(s, a)) - Progress(s))
  {
    var r := Step(s, a);
    if a.Thread? {
      var t := a.t;
      forall i | 0 <= i < 4 && i != t
        ensures ThreadFuel(r, i) <= ThreadFuel(s, i) + if s.pcs[t].Broadcast? then 4 else 0
      {
        assert r.pcs[i] == s.pcs[i];
        assert i in r.monitor.waiting <==> i in s.monitor.waiting && !s.pcs[t].Broadcast?;
      }
      OwnFuel(s, t);
    }
  }

  /** Throughput: in any stretch of a run without spurious wakeups, the number of
      steps is bounded by the fuel at its start and 19 for each action made. */
  lemma StepsNeedProgress(s: State, schedule: seq<Action>)
    requires Inv(s) && Effective(Scheduled, Step, s, schedule)
    ensures var e := Exec(Step, s, schedule);
      |schedule| <= Fuel(s) + 19 * (|e.log| - |s.log|)
  {
    forall x, a | LockInv(x) && Scheduled(x, a)
      ensures LockInv(Step(x, a)) && Fuel(Step(x, a)) + 1 <= Fuel(x) + 19 * (Progress(Step(x, a)) - Progress(x))
    {
      LockInvStep(x, a);
      FuelStep(x, a);
    }
    Budget(Scheduled, Step, LockInv, Fuel, Progress, 19, s, schedule);
  }

  /** From the start, m actions have happened after at most 21 + 19 * m steps. */
  lemma Throughput(schedule: seq<Action>)
    requires Effective(Scheduled, Step, START, schedule)
    ensures |schedule| <= 21 + 19 * |Exec(Step, START, schedule).log|
  {
    StepsNeedProgress(START, schedule);
  }

  // ------------------------------------------------------------------------ shutdown

  /** Actions a thread can still make once `running` is false. */
  function Left(pc: Pc): nat {
    if pc.Unlock? || pc.Broadcast? || pc.Top? || pc.Exited? then 0 else 1
  }

  ghost predicate WindingDown(base: seq<nat>, s: State) {
    && |s.pcs| == 4 && !s.running && base <= s.log
    && (forall t :: 0 <= t < 4 ==> multiset(s.log[|base|..])[t] + Left(s.pcs[t]) <= 1)
    && |s.log| - |base| + Left(s.pcs[0]) + Left(s.pcs[1]) + Left(s.pcs[2]) + Left(s.pcs[3]) <= 4
  }

  lemma LeftStep(s: State, t: nat)
    requires Enabled(s, Thread(t)) && !s.running
    ensures var r := ThreadStep(s, t);
      && |r.pcs| == |s.pcs| && !r.running
      && r.log == (if s.pcs[t].Store? then s.log + [t] else s.log)
      && Left(r.pcs[t]) + (if s.pcs[t].Store? then 1 else 0) <= Left(s.pcs[t])
      && forall i :: 0 <= i < |s.pcs| && i != t ==> r.pcs[i] == s.pcs[i]
  {
  }

  lemma WindingDownStep(base: seq<nat>, s: State, a: Action)
    requires WindingDown(base, s)
    ensures WindingDown(base, Step(s, a))
  {
    var r := Step(s, a);
    if a.Thread? && Enabled(s, a) {
      LeftStep(s, a.t);
      if s.pcs[a.t].Store? {
        assert r.log[|base|..] == s.log[|base|..] + [a.t];
      }
    }
  }

  /** After `running` is cleared each thread makes at most one more action, so there
      are at most four, whatever the schedule. */
  lemma AtMostOneMoreEach(s: State, schedule: seq<Action>)
    requires |s.pcs| == 4 && !s.running
    ensures var e := Exec(Step, s, schedule);
      && s.log <= e.log && |e.log| <= |s.log| + 4
      && forall t :: 0 <= t < 4 ==> multiset(e.log[|s.log|..])[t] <= 1
  {
    assert s.log[|s.log|..] == [];
    assert WindingDown(s.log, s);
    var inv := (x: State) => WindingDown(s.log, x);
    forall x, a | inv(x) ensures inv(Step(x, a)) {
      WindingDownStep(s.log, x, a);
    }
    Invariant(Step, inv, s, schedule);
  }

  /** So the shutdown phase ends: without spurious wakeups at most Fuel + 76 steps
      remain, and the fuel is at most 76. */
  lemma ShutdownTerminates(s: State, schedule: seq<Action>)
    requires Inv(s) && !s.running && Effective(Scheduled, Step, s, schedule)
    ensures |schedule| <= Fuel(s) + 76 <= 152
  {
    AtMostOneMoreEach(s, schedule);
    StepsNeedProgress(s, schedule);
  }

  /** Where a run comes to rest after shutdown, the mutex is free, every thread has
      exited or sleeps, and the thread whose turn it would be has exited: no thread
      sleeps on a true condition. */
  lemma Quiescence(schedule: seq<Action>)
    requires var e := Exec(Step, START, schedule);
      !e.running && forall t :: !Enabled(e, Thread(t))
    ensures var e := Exec(Step, START, schedule);
      && e.monitor.Free() && |e.pcs| == 4 && e.state < 4
      && e.pcs[e.state].Exited?
      && forall t :: 0 <= t < 4 ==>
           e.pcs[t].Exited? || (e.pcs[t].Waiting? && t in e.monitor.waiting && t != e.state)
  {
    Always(START, schedule);
    var e := Exec(Step, START, schedule);
    if !e.monitor.Free() || e.state in e.monitor.waiting {
      Movable(e);
    }
    forall t | 0 <= t < 4
      ensures e.pcs[t].Exited? || (e.pcs[t].Waiting? && t in e.monitor.waiting && t != e.state)
    {
      assert !Enabled(e, Thread(t));
    }
    assert e.state < 4;
  }

  /** A run that comes to rest with a sleeper: s1 sleeps until its turn, `running` is
      cleared, and the others leave without acting. */
  lemma OneSleepsForEver() returns (schedule: seq<Action>)
    ensures var e := Exec(Step, START, schedule);
      !e.running && (forall t :: !Enabled(e, Thread(t))) && 1 in e.monitor.waiting
  {
    var asleep := [Thread(1)] + [Thread(1)] + [Thread(1)];
    ExecAppend(Step, START, [Thread(1)], Thread(1));
    ExecAppend(Step, START, [Thread(1)] + [Thread(1)], Thread(1));
    assert Exec(Step, START, asleep) == State(true, 0, 0, Monitor(None, {1}), [Top, Waiting, Top, Top], []);
    ExecAppend(Step, START, asleep, Stop);
    ExecAppend(Step, START, asleep + [Stop], Thread(0));
    ExecAppend(Step, START, asleep + [Stop] + [Thread(0)], Thread(2));
    ExecAppend(Step, START, asleep + [Stop] + [Thread(0)] + [Thread(2)], Thread(3));
    schedule := asleep + [Stop] + [Thread(0)] + [Thread(2)] + [Thread(3)];
  }

  // -------------------------------------------------------------- the program's state

  class StateMachineLab {
    var running: bool
    var state: nat
    var counter: int
    var monitor: Monitor
    var pcs: seq<Pc>
    ghost var log: seq<nat>

    constructor ()
      ensures View() == START
    {
      running, state, counter, monitor := true, 0, 0, FRESH;
      pcs, log := [Top, Top, Top, Top], [];
    }

    ghost function View(): State
      reads this
    {
      State(running, state, counter, monitor, pcs, log)
    }

    method ClearRunning()
      modifies this
      ensures View() == Step(old(View()), Stop)
    {
      running := false;
    }

    method WakeSpuriously(t: nat)
      modifies this
      ensures View() == Step(old(View()), Spurious(t))
    {
      monitor := monitor.Signal(t);
    }

    /** The next call or shared access of state_zero (t = 0) to state_three (t = 3);
        a call that has to block leaves everything as it is. */
    method StateThread(t: nat)
      requires |pcs| == 4 && t < 4
      modifies this
      ensures View() == Step(old(View()), Thread(t))
    {
      match pcs[t] {
        case Top =>
          pcs := pcs[t := if running then WantLock else Exited];
        case WantLock =>
          if monitor.Free() {
            monitor := monitor.Lock(t);
            pcs := pcs[t := Test];
          }
        case Test =>
          if state != t {
            monitor := monitor.Wait(t);
            pcs := pcs[t := Waiting];
          } else {
            pcs := pcs[t := Act];
          }
        case Waiting =>
          if t !in monitor.waiting && monitor.Free() {
            monitor := monitor.Lock(t);
            pcs := pcs[t := Test];
          }
        case Act =>
          if t == 1 {
            counter := counter + 1;
          }
          pcs := pcs[t := Store];
        case Store =>
          if t == 0 {
            state := 1;
          } else if t == 1 {
            state := if counter % 2 == 0 then 2 else 3;
          } else {
            state := 0;
          }
          log := log + [t];
          pcs := pcs[t := Unlock];
        case Unlock =>
          monitor := monitor.Unlock();
          pcs := pcs[t := Broadcast];
        case Broadcast =>
          monitor := monitor.Broadcast();
          pcs := pcs[t := Top];
        case Exited =>
      }
    }
  }
}
