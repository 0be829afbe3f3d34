/** N threads that each increment one shared counter U times: with a split load and
    store, with an atomic fetch-add, and with a mutex around the split form. */
module Counter {
  import opened Runs
  import opened Sums
  import opened Monitors

  // ---------------------------------------------------------------- the split form

  datatype Pc = Idle | Loaded(oldValue: int)
  datatype Worker = Worker(pc: Pc, done: nat)
  datatype State = State(updates: nat, value: int, workers: seq<Worker>)

  function Init(n: nat, u: nat): State {
    State(u, 0, seq(n, _ => Worker(Idle, 0)))
  }

  /** One load or one store of thread t; nothing once its loop has ended. */
  function SplitStep(s: State, t: nat): State {
    if t >= |s.workers| || s.workers[t].done >= s.updates then s else
    var w := s.workers[t];
    match w.pc
    case Idle => s.(workers := s.workers[t := w.(pc := Loaded(s.value))])
    case Loaded(v) => s.(value := v + 1, workers := s.workers[t := Worker(Idle, w.done + 1)])
  }

  /** One fetch-add of thread t. */
  function AtomicStep(s: State, t: nat): State {
    if t >= |s.workers| || s.workers[t].done >= s.updates then s else
    s.(value := s.value + 1, workers := s.workers[t := Worker(Idle, s.workers[t].done + 1)])
  }

  function Done(w: Worker): int { w.done }

  function Total(s: State): int { Sum(s.workers, Done) }

  predicate Complete(s: State) {
    forall t :: 0 <= t < |s.workers| ==> s.workers[t].done == s.updates
  }

  ghost predicate WellFormed(s: State) {
    forall w :: w in s.workers ==>
      w.done <= s.updates && (w.pc.Loaded? ==> w.done < s.updates)
  }

  /** What every interleaving keeps: the counter never exceeds the completed stores;
      it is positive once a store was made, and below 2 only while some thread has
      made at most one store; a lone thread loses nothing. */
  ghost predicate SplitInv(s: State) {
    && WellFormed(s)
    && 0 <= s.value <= Total(s)
    && (forall w :: w in s.workers ==> w.done >= 1 ==> s.value >= 1)
    && (forall w :: w in s.workers && w.pc.Loaded? ==>
          0 <= w.pc.oldValue <= Total(s) && (w.done >= 1 ==> w.pc.oldValue >= 1))
    && (s.value >= 2 || s.workers == [] || exists t :: 0 <= t < |s.workers| && s.workers[t].done <= 1)
    && (|s.workers| == 1 ==>
          s.value == s.workers[0].done && (s.workers[0].pc.Loaded? ==> s.workers[0].pc.oldValue == s.value))
  }

  lemma InitTotal(n: nat, u: nat)
    ensures Total(Init(n, u)) == 0
  {
    SumBounds(Init(n, u).workers, Done, 0, 0);
  }

  lemma SplitInvInit(n: nat, u: nat)
    ensures SplitInv(Init(n, u))
  {
    InitTotal(n, u);
    if n > 0 {
      assert Init(n, u).workers[0].done <= 1;
    }
  }

  lemma SplitInvStep(s: State, t: nat)
    requires SplitInv(s)
    ensures SplitInv(SplitStep(s, t))
  {
    var r := SplitStep(s, t);
    if r != s {
      SumUpdate(s.workers, Done, t, r.workers[t]);
      assert s.workers[t] in s.workers;
      assert forall w :: w in r.workers ==> w == r.workers[t] || w in s.workers;
      if r.value < 2 {
        if s.workers[t].pc.Idle? {
          var j :| 0 <= j < |s.workers| && s.workers[j].done <= 1;
          assert r.workers[j].done <= 1;
        } else {
          assert r.workers[t].done <= 1;
        }
      }
    }
  }

  lemma SplitAlways(n: nat, u: nat, schedule: seq<nat>)
    ensures SplitInv(Exec(SplitStep, Init(n, u), schedule))
  {
    SplitInvInit(n, u);
    forall s, t | SplitInv(s) ensures SplitInv(SplitStep(s, t)) {
      SplitInvStep(s, t);
    }
    Invariant(SplitStep, SplitInv, Init(n, u), schedule);
  }

  // ------------------------------------------------------------ the exact final range

  ghost predicate Reaches(n: nat, u: nat, schedule: seq<nat>, v: int) {
    var e := Exec(SplitStep, Init(n, u), schedule);
    Complete(e) && e.value == v
  }

  ghost predicate Attainable(n: nat, u: nat, v: int) {
    exists schedule :: Reaches(n, u, schedule, v)
  }

  /** The smallest final value. */
  function Least(n: nat, u: nat): nat {
    if n == 0 then 0 else if n == 1 || u < 2 then u else 2
  }

  lemma Frame(s: State, schedule: seq<nat>)
    ensures Exec(SplitStep, s, schedule).updates == s.updates
    ensures |Exec(SplitStep, s, schedule).workers| == |s.workers|
  {
    Invariant(SplitStep, (x: State) => x.updates == s.updates && |x.workers| == |s.workers|, s, schedule);
  }

  /** A complete run never ends outside the range, whatever the schedule. */
  lemma FinalInRange(n: nat, u: nat, schedule: seq<nat>)
    requires Complete(Exec(SplitStep, Init(n, u), schedule))
    ensures Least(n, u) <= Exec(SplitStep, Init(n, u), schedule).value <= n * u
  {
    SplitAlways(n, u, schedule);
    Frame(Init(n, u), schedule);
    var e := Exec(SplitStep, Init(n, u), schedule);
    SumBounds(e.workers, Done, 0, u);
    if n > 0 {
      assert e.workers[0] in e.workers;
    }
  }

  /** At every moment of every run the counter is within 0 .. N*U, so with N*U in
      the range of int no increment overflows. */
  lemma NeverAboveTotal(n: nat, u: nat, schedule: seq<nat>)
    ensures 0 <= Exec(SplitStep, Init(n, u), schedule).value <= n * u
  {
    SplitAlways(n, u, schedule);
    Frame(Init(n, u), schedule);
    var e := Exec(SplitStep, Init(n, u), schedule);
    SumBounds(e.workers, Done, 0, u);
  }

  /** Every thread but `skip` is between two increments. */
  ghost predicate Quiet(s: State, skip: nat) {
    && WellFormed(s)
    && forall t :: 0 <= t < |s.workers| && t != skip ==> s.workers[t].pc.Idle?
  }

  /** Increments the threads other than `skip` still have to make. */
  function Room(s: State, skip: nat): int {
    |s.workers| * s.updates - Total(s)
      - if skip < |s.workers| then s.updates - s.workers[skip].done else 0
  }

  /** `r` is `s` after b undisturbed increments of threads other than `skip`. */
  ghost predicate Spun(s: State, skip: nat, b: nat, r: State) {
    && r.updates == s.updates && |r.workers| == |s.workers|
    && r.value == s.value + b
    && Quiet(r, skip) && Room(r, skip) == Room(s, skip) - b
    && (skip < |s.workers| ==> r.workers[skip] == s.workers[skip])
  }

  /** A thread that is Idle and has work left makes one undisturbed increment. */
  lemma OneIncrement(s: State, t: nat)
    requires t < |s.workers| && s.workers[t].pc.Idle? && s.workers[t].done < s.updates
    ensures Exec(SplitStep, s, [t, t])
         == s.(value := s.value + 1, workers := s.workers[t := Worker(Idle, s.workers[t].done + 1)])
    ensures Total(Exec(SplitStep, s, [t, t])) == Total(s) + 1
  {
    var m := SplitStep(s, t);
    assert [t, t][1..] == [t];
    assert Exec(SplitStep, s, [t, t]) == Exec(SplitStep, m, [t]) == SplitStep(m, t);
    SumUpdate(s.workers, Done, t, Worker(Idle, s.workers[t].done + 1));
    assert m.workers[t := Worker(Idle, s.workers[t].done + 1)]
        == s.workers[t := Worker(Idle, s.workers[t].done + 1)];
  }

  lemma FindRoom(s: State, skip: nat) returns (t: nat)
    requires Quiet(s, skip) && Room(s, skip) > 0
    ensures t < |s.workers| && t != skip && s.workers[t].done < s.updates
  {
    if forall t :: 0 <= t < |s.workers| && t != skip ==> s.workers[t].done == s.updates {
      var full := if skip < |s.workers| then s.workers[skip := Worker(Idle, s.updates)] else s.workers;
      if skip < |s.workers| {
        SumUpdate(s.workers, Done, skip, Worker(Idle, s.updates));
      }
      SumBounds(full, Done, s.updates, s.updates);
      assert false;
    }
    var k :| 0 <= k < |s.workers| && k != skip && s.workers[k].done != s.updates;
    assert s.workers[k] in s.workers;
    t := k;
  }

  lemma {:induction false} SpinOthers(s: State, skip: nat, b: nat) returns (schedule: seq<nat>)
    requires Quiet(s, skip) && b <= Room(s, skip)
    ensures Spun(s, skip, b, Exec(SplitStep, s, schedule))
    decreases b
  {
    if b == 0 {
      schedule := [];
    } else {
      var t := FindRoom(s, skip);
      OneIncrement(s, t);
      var m := Exec(SplitStep, s, [t, t]);
      assert forall w :: w in m.workers ==> w == m.workers[t] || w in s.workers;
      var rest := SpinOthers(m, skip, b - 1);
      schedule := [t, t] + rest;
      ExecConcat(SplitStep, s, [t, t], rest);
    }
  }

  lemma {:induction false} SpinOne(s: State, t: nat, a: nat) returns (schedule: seq<nat>)
    requires t < |s.workers| && s.workers[t].pc.Idle? && s.workers[t].done + a <= s.updates
    ensures Exec(SplitStep, s, schedule)
         == s.(value := s.value + a, workers := s.workers[t := Worker(Idle, s.workers[t].done + a)])
    ensures Total(Exec(SplitStep, s, schedule)) == Total(s) + a
    decreases a
  {
    if a == 0 {
      schedule := [];
      assert s.workers[t := Worker(Idle, s.workers[t].done)] == s.workers;
    } else {
      OneIncrement(s, t);
      var m := Exec(SplitStep, s, [t, t]);
      var rest := SpinOne(m, t, a - 1);
      schedule := [t, t] + rest;
      ExecConcat(SplitStep, s, [t, t], rest);
      assert m.workers[t := Worker(Idle, s.workers[t].done + a)]
          == s.workers[t := Worker(Idle, s.workers[t].done + a)];
    }
  }

  /** With all threads between increments, run everything that is left. */
  lemma Finish(s: State) returns (schedule: seq<nat>)
    requires Quiet(s, |s.workers|)
    ensures var e := Exec(SplitStep, s, schedule);
            Complete(e) && e.value == s.value + |s.workers| * s.updates - Total(s)
  {
    var skip := |s.workers|;
    SumBounds(s.workers, Done, 0, s.updates);
    schedule := SpinOthers(s, skip, Room(s, skip));
    var e := Exec(SplitStep, s, schedule);
    forall t | 0 <= t < |e.workers| ensures e.workers[t].done == e.updates {
      assert e.workers[t] in e.workers;
      if e.workers[t].done != e.updates {
        assert forall w :: w in e.workers ==> 0 <= Done(w) <= e.updates;
        SumGap(e.workers, Done, 0, e.updates, t, 1);
        assert false;
      }
    }
  }

  lemma Load(s: State, t: nat)
    requires t < |s.workers| && s.workers[t].pc.Idle? && s.workers[t].done < s.updates
    ensures Exec(SplitStep, s, [t]) == s.(workers := s.workers[t := s.workers[t].(pc := Loaded(s.value))])
    ensures Total(Exec(SplitStep, s, [t])) == Total(s)
  {
    assert Exec(SplitStep, s, [t]) == SplitStep(s, t);
    SumUpdate(s.workers, Done, t, s.workers[t].(pc := Loaded(s.value)));
  }

  lemma Store(s: State, t: nat)
    requires t < |s.workers| && s.workers[t].pc.Loaded? && s.workers[t].done < s.updates
    ensures Exec(SplitStep, s, [t])
         == s.(value := s.workers[t].pc.oldValue + 1, workers := s.workers[t := Worker(Idle, s.workers[t].done + 1)])
    ensures Total(Exec(SplitStep, s, [t])) == Total(s) + 1
  {
    assert Exec(SplitStep, s, [t]) == SplitStep(s, t);
    SumUpdate(s.workers, Done, t, Worker(Idle, s.workers[t].done + 1));
  }

  /** First half of the losing schedule: thread 0 loads 0, thread 1 makes a
      increments, thread 0 stores 1 over them. */
  lemma LoseUnderZero(n: nat, u: nat, a: nat) returns (schedule: seq<nat>)
    requires n >= 2 && a <= u && u >= 1
    ensures var e := Exec(SplitStep, Init(n, u), schedule);
            && e.updates == u && |e.workers| == n && e.value == 1 && Total(e) == a + 1
            && Quiet(e, n) && e.workers[1].done == a
  {
    var s0 := Init(n, u);
    InitTotal(n, u);
    Load(s0, 0);
    var s1 := Exec(SplitStep, s0, [0]);
    var mid := SpinOne(s1, 1, a);
    var s2 := Exec(SplitStep, s1, mid);
    Store(s2, 0);
    ExecConcat(SplitStep, s0, [0], mid);
    ExecConcat(SplitStep, s0, [0] + mid, [0]);
    schedule := [0] + mid + [0];
  }

  /** Second half: thread 1 loads 1, the others make b increments, thread 1 stores
      2 over them, and everything left runs undisturbed. */
  lemma LoseUnderOne(s: State, b: nat) returns (schedule: seq<nat>)
    requires |s.workers| >= 2 && s.value == 1 && Quiet(s, |s.workers|)
    requires s.workers[1].done < s.updates && b <= Room(s, 1)
    ensures var e := Exec(SplitStep, s, schedule);
            Complete(e) && e.value == 1 + |s.workers| * s.updates - Total(s) - b
  {
    Load(s, 1);
    var s1 := Exec(SplitStep, s, [1]);
    assert forall w :: w in s1.workers ==> w == s1.workers[1] || w in s.workers;
    assert s.workers[1] in s.workers;
    assert Quiet(s1, 1);
    var mid := SpinOthers(s1, 1, b);
    var s2 := Exec(SplitStep, s1, mid);
    Store(s2, 1);
    var s3 := Exec(SplitStep, s2, [1]);
    assert forall w :: w in s3.workers ==> w == s3.workers[1] || w in s2.workers;
    var rest := Finish(s3);
    ExecConcat(SplitStep, s, [1], mid);
    ExecConcat(SplitStep, s, [1] + mid, [1]);
    ExecConcat(SplitStep, s, [1] + mid + [1], rest);
    schedule := [1] + mid + [1] + rest;
  }

  /** With a single update each, only one load can go stale, the one under 0. */
  lemma LoseOnce(n: nat, lost: nat) returns (schedule: seq<nat>)
    requires n >= 2 && lost <= n - 1
    ensures Reaches(n, 1, schedule, n - lost)
  {
    var s0 := Init(n, 1);
    InitTotal(n, 1);
    Load(s0, 0);
    var s1 := Exec(SplitStep, s0, [0]);
    assert Quiet(s1, 0);
    var mid := SpinOthers(s1, 0, lost);
    var s2 := Exec(SplitStep, s1, mid);
    Store(s2, 0);
    var s3 := Exec(SplitStep, s2, [0]);
    assert forall w :: w in s3.workers ==> w == s3.workers[0] || w in s2.workers;
    var rest := Finish(s3);
    ExecConcat(SplitStep, s0, [0], mid);
    ExecConcat(SplitStep, s0, [0] + mid, [0]);
    ExecConcat(SplitStep, s0, [0] + mid + [0], rest);
    schedule := [0] + mid + [0] + rest;
  }

  lemma RoomEnough(n: nat, u: nat, lost: nat, a: nat)
    requires n >= 2 && u >= 2 && lost <= n * u - 2 && a == if lost <= u - 1 then lost else u - 1
    ensures lost - a <= n * u - (a + 1) - (u - a)
  {
    assert (n - 2) * u >= 0;
  }

  /** With more updates, a loads go stale under 0 and the rest under 1. */
  lemma LoseTwice(n: nat, u: nat, lost: nat) returns (schedule: seq<nat>)
    requires n >= 2 && u >= 2 && lost <= n * u - 2
    ensures Reaches(n, u, schedule, n * u - lost)
  {
    var s0 := Init(n, u);
    var a := if lost <= u - 1 then lost else u - 1;
    var first := LoseUnderZero(n, u, a);
    var s1 := Exec(SplitStep, s0, first);
    RoomEnough(n, u, lost, a);
    var second := LoseUnderOne(s1, lost - a);
    ExecConcat(SplitStep, s0, first, second);
    schedule := first + second;
  }

  /** Every value in the range is the end of some run. */
  lemma Witness(n: nat, u: nat, v: int) returns (schedule: seq<nat>)
    requires Least(n, u) <= v <= n * u
    ensures Reaches(n, u, schedule, v)
  {
    var s0 := Init(n, u);
    InitTotal(n, u);
    if v == n * u {
      schedule := Finish(s0);
      Frame(s0, schedule);
    } else if n == 1 {
      assert false;
    } else if n == 0 || u == 0 {
      assert false;
    } else {
      var lost := n * u - v;
      if u == 1 {
        schedule := LoseOnce(n, lost);
      } else {
        schedule := LoseTwice(n, u, lost);
      }
    }
  }

  /** The final values of the split counter are exactly Least(N,U) .. N*U; for at
      least two threads and two updates that is 2 .. N*U. */
  lemma FinalValues(n: nat, u: nat, v: int)
    ensures Attainable(n, u, v) <==> Least(n, u) <= v <= n * u
  {
    if Attainable(n, u, v) {
      var schedule :| Reaches(n, u, schedule, v);
      FinalInRange(n, u, schedule);
    }
    if Least(n, u) <= v <= n * u {
      var schedule := Witness(n, u, v);
    }
  }

  // ---------------------------------------------------------------- the atomic form

  ghost predicate AtomicInv(s: State) {
    && s.value == Total(s)
    && forall w :: w in s.workers ==> w.done <= s.updates && w.pc.Idle?
  }

  lemma AtomicInvStep(s: State, t: nat)
    requires AtomicInv(s)
    ensures AtomicInv(AtomicStep(s, t))
  {
    var r := AtomicStep(s, t);
    if r != s {
      SumUpdate(s.workers, Done, t, r.workers[t]);
      assert forall w :: w in r.workers ==> w == r.workers[t] || w in s.workers;
    }
  }

  /** The atomic counter equals the increments made at every moment, and N*U at the end. */
  lemma AtomicExact(n: nat, u: nat, schedule: seq<nat>)
    ensures var e := Exec(AtomicStep, Init(n, u), schedule);
            AtomicInv(e) && |e.workers| == n && (Complete(e) ==> e.value == n * u)
  {
    InitTotal(n, u);
    var inv := (x: State) => AtomicInv(x) && x.updates == u && |x.workers| == n;
    forall s, t | inv(s) ensures inv(AtomicStep(s, t)) {
      AtomicInvStep(s, t);
    }
    Invariant(AtomicStep, inv, Init(n, u), schedule);
    var e := Exec(AtomicStep, Init(n, u), schedule);
    if Complete(e) {
      SumBounds(e.workers, Done, u, u);
    }
  }

  // ------------------------------------------------------------------- every run ends

  predicate SplitMoves(s: State, t: nat) { SplitStep(s, t) != s }

  predicate AtomicMoves(s: State, t: nat) { AtomicStep(s, t) != s }

  /** Loads and stores a worker still has to make. */
  function Remaining(u: nat): Worker -> int {
    (w: Worker) => 2 * (u - w.done) - if w.pc.Loaded? then 1 else 0
  }

  ghost predicate Bounded(u: nat, s: State) { WellFormed(s) && s.updates == u }

  lemma MoveStep(u: nat, s: State, t: nat)
    requires Bounded(u, s)
    ensures Bounded(u, SplitStep(s, t)) && Bounded(u, AtomicStep(s, t))
    ensures SplitMoves(s, t) ==> Sum(SplitStep(s, t).workers, Remaining(u)) + 1 <= Sum(s.workers, Remaining(u))
    ensures AtomicMoves(s, t) ==> Sum(AtomicStep(s, t).workers, Remaining(u)) + 1 <= Sum(s.workers, Remaining(u))
  {
    if t < |s.workers| {
      var r, q := SplitStep(s, t), AtomicStep(s, t);
      assert s.workers[t] in s.workers;
      SumUpdate(s.workers, Remaining(u), t, r.workers[t]);
      SumUpdate(s.workers, Remaining(u), t, q.workers[t]);
      assert forall w :: w in r.workers ==> w == r.workers[t] || w in s.workers;
      assert forall w :: w in q.workers ==> w == q.workers[t] || w in s.workers;
    }
  }

  function Fuel(s: State): int { Sum(s.workers, Remaining(s.updates)) }

  lemma FuelRange(n: nat, u: nat, e: State)
    requires Bounded(u, e)
    ensures Fuel(Init(n, u)) == n * (2 * u) && 0 <= Fuel(e)
  {
    SumBounds(Init(n, u).workers, Remaining(u), 2 * u, 2 * u);
    LowerBound(e.workers, Remaining(u), 0);
  }

  lemma RunBounded(n: nat, u: nat, schedule: seq<nat>)
    ensures Bounded(u, Exec(SplitStep, Init(n, u), schedule))
    ensures Bounded(u, Exec(AtomicStep, Init(n, u), schedule))
  {
    forall s, t: nat | Bounded(u, s) ensures Bounded(u, SplitStep(s, t)) && Bounded(u, AtomicStep(s, t)) {
      MoveStep(u, s, t);
    }
    Invariant(SplitStep, (s: State) => Bounded(u, s), Init(n, u), schedule);
    Invariant(AtomicStep, (s: State) => Bounded(u, s), Init(n, u), schedule);
  }

  /** In the split form a run in which every step moves has at most 2 U steps for each
      thread. */
  lemma SplitRunsEnd(n: nat, u: nat, schedule: seq<nat>)
    requires Effective(SplitMoves, SplitStep, Init(n, u), schedule)
    ensures |schedule| <= n * (2 * u)
  {
    forall s, t: nat | Bounded(u, s) && SplitMoves(s, t)
      ensures Bounded(u, SplitStep(s, t)) && Fuel(SplitStep(s, t)) + 1 <= Fuel(s)
    {
      MoveStep(u, s, t);
    }
    var zero := (s: State) => 0;
    Budget(SplitMoves, SplitStep, (s: State) => Bounded(u, s), Fuel, zero, 0, Init(n, u), schedule);
    RunBounded(n, u, schedule);
    FuelRange(n, u, Exec(SplitStep, Init(n, u), schedule));
  }

  /** And no more with the fetch-add. */
  lemma AtomicRunsEnd(n: nat, u: nat, schedule: seq<nat>)
    requires Effective(AtomicMoves, AtomicStep, Init(n, u), schedule)
    ensures |schedule| <= n * (2 * u)
  {
    forall s, t: nat | Bounded(u, s) && AtomicMoves(s, t)
      ensures Bounded(u, AtomicStep(s, t)) && Fuel(AtomicStep(s, t)) + 1 <= Fuel(s)
    {
      MoveStep(u, s, t);
    }
    var zero := (s: State) => 0;
    Budget(AtomicMoves, AtomicStep, (s: State) => Bounded(u, s), Fuel, zero, 0, Init(n, u), schedule);
    RunBounded(n, u, schedule);
    FuelRange(n, u, Exec(AtomicStep, Init(n, u), schedule));
  }

  lemma RestingWorkers(u: nat, e: State)
    requires Bounded(u, e) && ((forall t: nat :: !SplitMoves(e, t)) || (forall t: nat :: !AtomicMoves(e, t)))
    ensures Complete(e)
  {
    forall t | 0 <= t < |e.workers| ensures e.workers[t].done == e.updates {
      assert e.workers[t] in e.workers;
      if e.workers[t].done < e.updates {
        assert SplitStep(e, t).workers[t] != e.workers[t] && AtomicStep(e, t).workers[t] != e.workers[t];
        assert SplitMoves(e, t) && AtomicMoves(e, t);
      }
    }
  }

  /** And where no thread can move, all have made their U increments. */
  lemma RestIsComplete(n: nat, u: nat, schedule: seq<nat>)
    ensures var e := Exec(SplitStep, Init(n, u), schedule);
      (forall t: nat :: !SplitMoves(e, t)) ==> Complete(e)
    ensures var e := Exec(AtomicStep, Init(n, u), schedule);
      (forall t: nat :: !AtomicMoves(e, t)) ==> Complete(e)
  {
    RunBounded(n, u, schedule);
    if forall t: nat :: !SplitMoves(Exec(SplitStep, Init(n, u), schedule), t) {
      RestingWorkers(u, Exec(SplitStep, Init(n, u), schedule));
    }
    if forall t: nat :: !AtomicMoves(Exec(AtomicStep, Init(n, u), schedule), t) {
      RestingWorkers(u, Exec(AtomicStep, Init(n, u), schedule));
    }
  }

  // --------------------------------------------------- when the split form is exact

  /** The step is no store over a value that has changed since it was loaded. */
  predicate UpToDate(s: State, t: nat) {
    t < |s.workers| && s.workers[t].done < s.updates && s.workers[t].pc.Loaded? ==>
      s.workers[t].pc.oldValue == s.value
  }

  ghost predicate Exact(s: State) { SplitInv(s) && s.value == Total(s) }

  /** An increment is lost, and no loaded value brings it back. */
  ghost predicate Behind(s: State) {
    && SplitInv(s) && s.value < Total(s)
    && forall w :: w in s.workers && w.pc.Loaded? ==> w.pc.oldValue < Total(s)
  }

  lemma ExactStep(s: State, t: nat)
    requires Exact(s)
    ensures if UpToDate(s, t) then Exact(SplitStep(s, t)) else Behind(SplitStep(s, t))
  {
    var r := SplitStep(s, t);
    SplitInvStep(s, t);
    if r != s {
      SumUpdate(s.workers, Done, t, r.workers[t]);
      assert s.workers[t] in s.workers;
      assert forall w :: w in r.workers ==> w == r.workers[t] || w in s.workers;
    }
  }

  lemma BehindStep(s: State, t: nat)
    requires Behind(s)
    ensures Behind(SplitStep(s, t))
  {
    var r := SplitStep(s, t);
    SplitInvStep(s, t);
    if r != s {
      SumUpdate(s.workers, Done, t, r.workers[t]);
      assert s.workers[t] in s.workers;
      assert forall w :: w in r.workers ==> w == r.workers[t] || w in s.workers;
    }
  }

  /** A complete split run ends at N * U if and only if every store of the run finds the
      counter equal to the value it loaded. */
  lemma ExactTotal(n: nat, u: nat, schedule: seq<nat>)
    requires Complete(Exec(SplitStep, Init(n, u), schedule))
    ensures Exec(SplitStep, Init(n, u), schedule).value == n * u <==>
            Effective(UpToDate, SplitStep, Init(n, u), schedule)
  {
    SplitInvInit(n, u);
    InitTotal(n, u);
    forall s, t: nat | Exact(s) ensures if UpToDate(s, t) then Exact(SplitStep(s, t)) else Behind(SplitStep(s, t)) {
      ExactStep(s, t);
    }
    forall s, t: nat | Behind(s) ensures Behind(SplitStep(s, t)) {
      BehindStep(s, t);
    }
    AllowedOrNot(UpToDate, SplitStep, Exact, Behind, Init(n, u), schedule);
    Frame(Init(n, u), schedule);
    SumBounds(Exec(SplitStep, Init(n, u), schedule).workers, Done, u, u);
  }

  // ------------------------------------------------------------- the program itself

  function ModeStep(useAtomic: bool): (State, nat) -> State {
    (s: State, t: nat) => if useAtomic then AtomicStep(s, t) else SplitStep(s, t)
  }

  lemma ModeRun(useAtomic: bool, s: State, schedule: seq<nat>)
    ensures Exec(ModeStep(useAtomic), s, schedule)
         == if useAtomic then Exec(AtomicStep, s, schedule) else Exec(SplitStep, s, schedule)
    decreases |schedule|
  {
    if schedule != [] {
      ModeRun(useAtomic, ModeStep(useAtomic)(s, schedule[0]), schedule[1..]);
    }
  }

  class AtomicLab {
    const updates: nat
    const useAtomic: bool
    var atValue: int
    var value: int
    var workers: seq<Worker>

    constructor (n: nat, u: nat, useAtomic: bool)
      ensures View() == Init(n, u) && this.useAtomic == useAtomic && atValue == value == 0
    {
      updates, this.useAtomic, atValue, value := u, useAtomic, 0, 0;
      workers := seq(n, _ => Worker(Idle, 0));
    }

    /** The counter of the chosen mode with all thread-local state. */
    function View(): State
      reads this
    {
      State(updates, if useAtomic then atValue else value, workers)
    }

    /** The next access of thread t to the shared counter. */
    method ThreadWork(t: nat)
      modifies this
      ensures View() == ModeStep(useAtomic)(old(View()), t)
      ensures if useAtomic then value == old(value) else atValue == old(atValue)
    {
      if t < |workers| && workers[t].done < updates {
        var w := workers[t];
        if useAtomic {
          atValue := atValue + 1;
          workers := workers[t := Worker(Idle, w.done + 1)];
        } else {
          match w.pc
          case Idle =>
            workers := workers[t := w.(pc := Loaded(value))];
          case Loaded(oldValue) =>
            value := oldValue + 1;
            workers := workers[t := Worker(Idle, w.done + 1)];
        }
      }
    }
  }

  /** The lab's main function under a given interleaving that lets every thread
      finish, as the joins demand: the value read at the end, and whether the
      program reports an error, which is when some split store was over a stale value. */
  method QnxLabAtomic(n: nat, u: nat, useAtomic: bool, schedule: seq<nat>)
    returns (v: int, error: bool)
    requires Complete(Exec(ModeStep(useAtomic), Init(n, u), schedule))
    ensures useAtomic ==> v == n * u && !error
    ensures Least(n, u) <= v <= n * u
    ensures error <==> v != u * n
    ensures error <==> !useAtomic && !Effective(UpToDate, SplitStep, Init(n, u), schedule)
    ensures v == Exec(ModeStep(useAtomic), Init(n, u), schedule).value
  {
    var lab := new AtomicLab(n, u, useAtomic);
    var i := 0;
    while i < |schedule|
      invariant 0 <= i <= |schedule|
      invariant lab.useAtomic == useAtomic && (useAtomic ==> lab.value == 0)
      invariant Exec(ModeStep(useAtomic), lab.View(), schedule[i..])
             == Exec(ModeStep(useAtomic), Init(n, u), schedule)
    {
      assert schedule[i..][0] == schedule[i] && schedule[i..][1..] == schedule[i + 1..];
      lab.ThreadWork(schedule[i]);
      i := i + 1;
    }
    v := lab.value;
    if useAtomic {
      v := lab.atValue;
    }
    error := v != u * n;
    ModeRun(useAtomic, Init(n, u), schedule);
    if useAtomic {
      AtomicExact(n, u, schedule);
      if n > 0 && u > 0 {
        LeastBound(n, u);
      }
    } else {
      FinalInRange(n, u, schedule);
      ExactTotal(n, u, schedule);
    }
  }

  lemma LeastBound(n: nat, u: nat)
    ensures Least(n, u) <= n * u
  {
    if n >= 1 && u >= 1 {
      assert n * u >= u && n * u >= n;
      assert n >= 2 ==> n * u >= 2;
    }
  }
}
