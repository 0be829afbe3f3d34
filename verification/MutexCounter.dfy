/** N threads that each make U passes of lock, load, store, unlock over one counter,
    and the proof that they behave like N threads that fetch-add atomically. */
module MutexCounter {
  import opened Runs
  import opened Sums
  import opened Monitors
  import C = Counter

  datatype Pc = Start | Holding | Loaded(local: int) | Stored
  datatype Worker = Worker(pc: Pc, i: nat)
  datatype State = State(passes: nat, counter: int, mutex: Monitor, workers: seq<Worker>)

  function Init(n: nat, u: nat): State {
    State(u, 0, FRESH, seq(n, _ => Worker(Start, 0)))
  }

  function Step(s: State, t: nat): State {
    if t >= |s.workers| || s.workers[t].i >= s.passes then s else
    var w := s.workers[t];
    match w.pc
    case Start =>
      if s.mutex.Free() then s.(mutex := s.mutex.Lock(t), workers := s.workers[t := w.(pc := Holding)]) else s
    case Holding => s.(workers := s.workers[t := w.(pc := Loaded(s.counter))])
    case Loaded(local) => s.(counter := local + 1, workers := s.workers[t := w.(pc := Stored)])
    case Stored => s.(mutex := s.mutex.Unlock(), workers := s.workers[t := Worker(Start, w.i + 1)])
  }

  predicate Complete(s: State) {
    forall t :: 0 <= t < |s.workers| ==> s.workers[t].i == s.passes
  }

  /** Only the owner of the mutex is past the lock call, and what it has loaded is
      still the value of the counter. */
  ghost predicate Inv(s: State) {
    && (forall t :: 0 <= t < |s.workers| ==>
          var w := s.workers[t];
          && w.i <= s.passes
          && (w.pc.Start? || (w.i < s.passes && s.mutex.owner == Some(t)))
          && (w.pc.Loaded? ==> w.pc.local == s.counter))
    && (s.mutex.owner.Some? ==>
          s.mutex.owner.value < |s.workers| && !s.workers[s.mutex.owner.value].pc.Start?)
  }

  /** The atomic counter this state stands for: a pass counts from its store on. */
  function AbsWorker(w: Worker): C.Worker {
    C.Worker(C.Idle, w.i + if w.pc.Stored? then 1 else 0)
  }

  function Abs(s: State): C.State {
    C.State(s.passes, s.counter, seq(|s.workers|, t requires 0 <= t < |s.workers| => AbsWorker(s.workers[t])))
  }

  /** The store is the fetch-add; every other step is invisible. */
  function Matching(s: State, t: nat): seq<nat> {
    if t < |s.workers| && s.workers[t].i < s.passes && s.workers[t].pc.Loaded? then [t] else []
  }

  lemma StepRefines(s: State, t: nat)
    requires Inv(s)
    ensures Inv(Step(s, t))
    ensures Abs(Step(s, t)) == Exec(C.AtomicStep, Abs(s), Matching(s, t))
  {
    var r := Step(s, t);
    if Matching(s, t) == [t] {
      assert Exec(C.AtomicStep, Abs(s), [t]) == C.AtomicStep(Abs(s), t);
      assert Abs(r).workers == C.AtomicStep(Abs(s), t).workers;
    } else {
      assert Abs(r).workers == Abs(s).workers;
    }
  }

  /** The fetch-adds of a locked run, in the order of its stores. */
  function AtomicRun(s: State, schedule: seq<nat>): seq<nat> { Matched(Step, Matching, s, schedule) }

  /** Every interleaving of the locked program is a run of the atomic one. */
  lemma RefinesAtomic(n: nat, u: nat, schedule: seq<nat>)
    ensures Inv(Exec(Step, Init(n, u), schedule))
    ensures Abs(Exec(Step, Init(n, u), schedule))
         == Exec(C.AtomicStep, C.Init(n, u), AtomicRun(Init(n, u), schedule))
  {
    forall s, t | Inv(s)
      ensures Inv(Step(s, t)) && Abs(Step(s, t)) == Exec(C.AtomicStep, Abs(s), Matching(s, t))
    {
      StepRefines(s, t);
    }
    Invariant(Step, Inv, Init(n, u), schedule);
    Simulation(Step, Inv, Abs, C.AtomicStep, Matching, Init(n, u), schedule);
    assert Abs(Init(n, u)).workers == C.Init(n, u).workers;
  }

  /** And it is so step for step: after each prefix of the schedule the two agree, and
      the fetch-adds matched so far are a prefix of those of the whole run. */
  lemma RefinesAtomicStepForStep(n: nat, u: nat, schedule: seq<nat>, i: nat)
    requires i <= |schedule|
    ensures var atomic := AtomicRun(Init(n, u), schedule[..i]);
      && atomic <= AtomicRun(Init(n, u), schedule)
      && Abs(Exec(Step, Init(n, u), schedule[..i])) == Exec(C.AtomicStep, C.Init(n, u), atomic)
  {
    RefinesAtomic(n, u, schedule[..i]);
    MatchedPrefix(Step, Matching, Init(n, u), schedule, i);
  }

  /** Lock, load, store, unlock. */
  function FourSteps(t: nat): seq<nat> { [t, t, t, t] }

  /** One whole pass of thread t, from a state in which the mutex is free. */
  lemma OnePass(s: State, t: nat)
    requires Inv(s) && s.mutex.Free() && t < |s.workers| && s.workers[t].i < s.passes
    ensures var r := Exec(Step, s, FourSteps(t));
            Inv(r) && r.mutex.Free() && Abs(r) == C.AtomicStep(Abs(s), t)
  {
    var s1 := Step(s, t);
    var s2 := Step(s1, t);
    var s3 := Step(s2, t);
    StepRefines(s, t); StepRefines(s1, t); StepRefines(s2, t); StepRefines(s3, t);
    var four := FourSteps(t);
    assert Exec(Step, s, four) == Exec(Step, s1, four[1..]);
    assert Exec(Step, s1, four[1..]) == Exec(Step, s2, four[1..][1..]);
    assert Exec(Step, s2, four[1..][1..]) == Exec(Step, s3, four[1..][1..][1..]);
    assert Exec(Step, s3, four[1..][1..][1..]) == Step(s3, t);
    assert Abs(Step(s3, t)).workers == C.AtomicStep(Abs(s), t).workers;
  }

  /** And the other way round: the lock excludes no behaviour of the atomic program. */
  lemma {:induction false} RealisesAtomic(s: State, atomic: seq<nat>) returns (schedule: seq<nat>)
    requires Inv(s) && s.mutex.Free()
    ensures Inv(Exec(Step, s, schedule)) && Exec(Step, s, schedule).mutex.Free()
    ensures Abs(Exec(Step, s, schedule)) == Exec(C.AtomicStep, Abs(s), atomic)
    decreases |atomic|
  {
    if atomic == [] {
      schedule := [];
    } else {
      var t := atomic[0];
      if t < |s.workers| && s.workers[t].i < s.passes {
        OnePass(s, t);
        var rest := RealisesAtomic(Exec(Step, s, FourSteps(t)), atomic[1..]);
        ExecConcat(Step, s, FourSteps(t), rest);
        schedule := FourSteps(t) + rest;
      } else {
        schedule := RealisesAtomic(s, atomic[1..]);
      }
    }
  }

  /** In every interleaving the counter is the number of finished stores, and a
      complete run ends at exactly N*U. */
  lemma LockedExact(n: nat, u: nat, schedule: seq<nat>)
    ensures var e := Exec(Step, Init(n, u), schedule);
            e.counter == C.Total(Abs(e)) && (Complete(e) ==> e.counter == n * u)
  {
    RefinesAtomic(n, u, schedule);
    C.AtomicExact(n, u, AtomicRun(Init(n, u), schedule));
    var e := Exec(Step, Init(n, u), schedule);
    Invariant(Step, (x: State) => x.passes == u && |x.workers| == n, Init(n, u), schedule);
    if Complete(e) {
      assert forall t :: 0 <= t < n ==> Abs(e).workers[t].done == u;
      assert C.Complete(Abs(e));
    }
  }

  predicate Moves(s: State, t: nat) { Step(s, t) != s }

  /** Calls and accesses a worker still has to make. */
  function Remaining(u: nat): Worker -> int {
    (w: Worker) => 4 * (u - w.i) - (match w.pc case Start => 0 case Holding => 1 case Loaded(_) => 2 case Stored => 3)
  }

  ghost predicate Bounded(u: nat, s: State) { Inv(s) && s.passes == u }

  lemma MoveStep(u: nat, s: State, t: nat)
    requires Bounded(u, s)
    ensures Bounded(u, Step(s, t))
    ensures Moves(s, t) ==> Sum(Step(s, t).workers, Remaining(u)) + 1 <= Sum(s.workers, Remaining(u))
  {
    StepRefines(s, t);
    if t < |s.workers| {
      SumUpdate(s.workers, Remaining(u), t, Step(s, t).workers[t]);
    }
  }

  lemma RunBounded(n: nat, u: nat, schedule: seq<nat>)
    ensures Bounded(u, Exec(Step, Init(n, u), schedule))
  {
    forall s, t: nat | Bounded(u, s) ensures Bounded(u, Step(s, t)) {
      MoveStep(u, s, t);
    }
    Invariant(Step, (s: State) => Bounded(u, s), Init(n, u), schedule);
  }

  function Fuel(s: State): int { Sum(s.workers, Remaining(s.passes)) }

  lemma FuelRange(n: nat, u: nat, e: State)
    requires Bounded(u, e)
    ensures Fuel(Init(n, u)) == n * (4 * u) && 0 <= Fuel(e)
  {
    SumBounds(Init(n, u).workers, Remaining(u), 4 * u, 4 * u);
    forall w | w in e.workers ensures 0 <= Remaining(u)(w) {
      var t :| 0 <= t < |e.workers| && e.workers[t] == w;
    }
    LowerBound(e.workers, Remaining(u), 0);
  }

  /** A run in which every step moves has at most 4 U steps for each thread. */
  lemma RunsEnd(n: nat, u: nat, schedule: seq<nat>)
    requires Effective(Moves, Step, Init(n, u), schedule)
    ensures |schedule| <= n * (4 * u)
  {
    forall s, t: nat | Bounded(u, s) && Moves(s, t)
      ensures Bounded(u, Step(s, t)) && Fuel(Step(s, t)) + 1 <= Fuel(s)
    {
      MoveStep(u, s, t);
    }
    Budget(Moves, Step, (s: State) => Bounded(u, s), Fuel, (s: State) => 0, 0, Init(n, u), schedule);
    RunBounded(n, u, schedule);
    FuelRange(n, u, Exec(Step, Init(n, u), schedule));
  }

  /** And where no thread can move, all have ended: nobody waits for the mutex for ever. */
  lemma RestIsComplete(n: nat, u: nat, schedule: seq<nat>)
    requires forall t: nat :: !Moves(Exec(Step, Init(n, u), schedule), t)
    ensures Complete(Exec(Step, Init(n, u), schedule)) && Exec(Step, Init(n, u), schedule).counter == n * u
  {
    RunBounded(n, u, schedule);
    LockedExact(n, u, schedule);
    var e := Exec(Step, Init(n, u), schedule);
    if e.mutex.owner.Some? {
      OwnerMoves(u, e);
    }
    forall t | 0 <= t < |e.workers| ensures e.workers[t].i == e.passes {
      assert !Moves(e, t);
    }
  }

  lemma OwnerMoves(u: nat, s: State)
    requires Bounded(u, s) && s.mutex.owner.Some?
    ensures Moves(s, s.mutex.owner.value)
  {
    var t := s.mutex.owner.value;
    assert Step(s, t).workers[t] != s.workers[t];
  }

  class MutexLab {
    const passes: nat
    var counter: int
    var mutex: Monitor
    var workers: seq<Worker>

    constructor (n: nat, u: nat)
      ensures View() == Init(n, u)
    {
      passes, counter, mutex := u, 0, FRESH;
      workers := seq(n, _ => Worker(Start, 0));
    }

    function View(): State
      reads this
    {
      State(passes, counter, mutex, workers)
    }

    /** The next call or access of thread t; a lock call on a held mutex waits. */
    method ThreadWork(t: nat)
      modifies this
      ensures View() == Step(old(View()), t)
    {
      if t < |workers| && workers[t].i < passes {
        var w := workers[t];
        match w.pc
        case Start =>
          if mutex.Free() {
            mutex := mutex.Lock(t);
            workers := workers[t := w.(pc := Holding)];
          }
        case Holding =>
          workers := workers[t := w.(pc := Loaded(counter))];
        case Loaded(local) =>
          counter := local + 1;
          workers := workers[t := w.(pc := Stored)];
        case Stored =>
          mutex := mutex.Unlock();
          workers := workers[t := Worker(Start, w.i + 1)];
      }
    }
  }
}
