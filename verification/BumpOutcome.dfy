/** How the chunk workers end: every run reaches a point where no thread can move; with
    the mutex all threads have finished there exactly when the array has room for all
    chunks, and otherwise an allocation has failed; and what can happen with the mutex
    can happen without it. */
module BumpOutcome {
  import opened Runs
  import opened Sums
  import opened Monitors
  import opened BumpAllocator
  import opened BumpTiling

  /** The step of thread t changes something. */
  predicate Moves(s: State, t: nat) { Step(s, t) != s }

  ghost predicate AtRest(s: State) { forall t: nat :: !Moves(s, t) }

  ghost predicate SomeFailed(s: State) {
    exists t :: 0 <= t < |s.workers| && s.workers[t].pc.Failed?
  }

  // ------------------------------------------------- pace: for any mode and any array

  predicate WorkerPaced(s: State, w: Worker) {
    && s.a > 0 && w.workDone == w.chunks * s.a && w.chunks <= s.k
    && (Allocating(w.pc) ==> w.chunks < s.k)
    && (Working(w.pc) ==> 1 <= w.chunks && w.pc.i <= s.a)
    && (w.pc.StoreCell? ==> w.pc.i < s.a)
    && (w.pc.Done? ==> w.chunks == s.k)
    && (!s.sync ==> !w.pc.WantLock?)
  }

  ghost predicate PacedInv(s: State) {
    && s.a > 0 && s.k == Chunks(s.work, s.a)
    && (!s.sync ==> s.mutex.Free())
    && forall w :: w in s.workers ==> WorkerPaced(s, w)
  }

  /** Steps one chunk takes: nine around the allocator and the loop, two for each cell. */
  function Round(a: nat): nat { 9 + 2 * a }

  /** Steps a worker can still take, `rest` being those of the chunks it still needs. */
  function FuelFrom(rest: int, a: nat, pc: Pc): int {
    match pc
    case Top => rest + 1
    case WantLock => rest
    case Check => rest - 1
    case CheckEnd => rest - 2
    case Take => rest - 3
    case LoadAlloc(_) => rest - 4
    case StoreAlloc(_, _) => rest - 5
    case Returned(_) => rest - 6
    case LoadCell(_, i) => rest + 2 + 2 * (a - i)
    case StoreCell(_, i, _) => rest + 1 + 2 * (a - i)
    case _ => 0
  }

  function WorkerFuel(a: nat, k: nat, w: Worker): int {
    FuelFrom((k - w.chunks) * Round(a), a, w.pc)
  }

  function FuelIn(a: nat, k: nat): Worker -> int { (w: Worker) => WorkerFuel(a, k, w) }

  function Fuel(s: State): int { Sum(s.workers, FuelIn(s.a, s.k)) }

  lemma RestLeft(a: nat, k: nat, c: nat)
    requires c <= k
    ensures 0 <= (k - c) * Round(a) && (c < k ==> Round(a) <= (k - c) * Round(a))
    ensures (k - (c + 1)) * Round(a) == (k - c) * Round(a) - Round(a)
  {
    if c < k {
      assert (k - c - 1) * Round(a) >= 0;
    }
  }

  lemma WorkerFuelBound(s: State, w: Worker)
    requires WorkerPaced(s, w)
    ensures 0 <= WorkerFuel(s.a, s.k, w)
  {
    RestLeft(s.a, s.k, w.chunks);
  }

  lemma PaceStep(s: State, t: nat)
    requires PacedInv(s) && t < |s.workers|
    ensures var r := Step(s, t);
      && |r.workers| == |s.workers| && r.workers == s.workers[t := r.workers[t]] && |r.cells| == |s.cells|
      && r.a == s.a && r.k == s.k && r.work == s.work && r.sync == s.sync
      && (!r.sync ==> r.mutex.Free())
      && WorkerPaced(r, r.workers[t])
  {
    var w := s.workers[t];
    assert w in s.workers && WorkerPaced(s, w);
    if w.pc.Top? {
      ChunksLess(s.work, s.a, w.chunks);
    } else if w.pc.Returned? {
      assert (w.chunks + 1) * s.a == w.chunks * s.a + s.a;
    }
  }

  lemma PacedInvStep(s: State, t: nat)
    requires PacedInv(s)
    ensures PacedInv(Step(s, t))
  {
    if t < |s.workers| {
      PaceStep(s, t);
      var r := Step(s, t);
      forall w | w in r.workers ensures WorkerPaced(r, w) {
        assert w == r.workers[t] || WorkerPaced(s, w);
      }
    }
  }

  /** The fuel of one thread for a step that leaves its number of chunks alone. */
  lemma PcFuelStep(s: State, t: nat, rest: int)
    requires t < |s.workers| && Moves(s, t) && !s.workers[t].pc.Returned?
    requires var pc := s.workers[t].pc;
      && rest >= 0 && (Allocating(pc) ==> rest >= Round(s.a)) && (Working(pc) ==> pc.i <= s.a)
      && (pc.StoreCell? ==> pc.i < s.a)
    ensures FuelFrom(rest, s.a, Step(s, t).workers[t].pc) + 1 <= FuelFrom(rest, s.a, s.workers[t].pc)
    ensures Step(s, t).workers[t].chunks == s.workers[t].chunks
  {
  }

  lemma OwnFuelStep(s: State, t: nat)
    requires PacedInv(s) && t < |s.workers| && Moves(s, t)
    ensures WorkerFuel(s.a, s.k, Step(s, t).workers[t]) + 1 <= WorkerFuel(s.a, s.k, s.workers[t])
  {
    var w := s.workers[t];
    assert w in s.workers && WorkerPaced(s, w);
    RestLeft(s.a, s.k, w.chunks);
    if !w.pc.Returned? {
      PcFuelStep(s, t, (s.k - w.chunks) * Round(s.a));
    }
  }

  lemma FuelStep(s: State, t: nat)
    requires PacedInv(s) && Moves(s, t)
    ensures PacedInv(Step(s, t)) && Fuel(Step(s, t)) + 1 <= Fuel(s)
  {
    PacedInvStep(s, t);
    PaceStep(s, t);
    OwnFuelStep(s, t);
    SumUpdate(s.workers, FuelIn(s.a, s.k), t, Step(s, t).workers[t]);
  }

  lemma FuelBound(s: State)
    requires PacedInv(s)
    ensures 0 <= Fuel(s)
  {
    forall w | w in s.workers ensures 0 <= FuelIn(s.a, s.k)(w) {
      WorkerFuelBound(s, w);
    }
    LowerBound(s.workers, FuelIn(s.a, s.k), 0);
  }

  lemma PacedInit(n: nat, size: nat, work: nat, a: nat, sync: bool)
    requires a > 0
    ensures var s := Init(n, size, work, a, sync);
      PacedInv(s) && Fuel(s) == n * (Chunks(work, a) * Round(a) + 1)
  {
    var s := Init(n, size, work, a, sync);
    var each := s.k * Round(a) + 1;
    SumBounds(s.workers, FuelIn(s.a, s.k), each, each);
  }

  lemma AlwaysPaced(n: nat, size: nat, work: nat, a: nat, sync: bool, schedule: seq<nat>)
    requires a > 0
    ensures PacedInv(Exec(Step, Init(n, size, work, a, sync), schedule))
  {
    PacedInit(n, size, work, a, sync);
    forall s, t: nat | PacedInv(s) ensures PacedInv(Step(s, t)) {
      PacedInvStep(s, t);
    }
    Invariant(Step, PacedInv, Init(n, size, work, a, sync), schedule);
  }

  /** In either mode and any array no run in which every step moves is longer than
      N * (k * (9 + 2 a) + 1). */
  lemma RunsEnd(n: nat, size: nat, work: nat, a: nat, sync: bool, schedule: seq<nat>)
    requires a > 0 && Effective(Moves, Step, Init(n, size, work, a, sync), schedule)
    ensures |schedule| <= n * (Chunks(work, a) * Round(a) + 1)
  {
    var s0 := Init(n, size, work, a, sync);
    PacedInit(n, size, work, a, sync);
    forall s, t: nat | PacedInv(s) && Moves(s, t)
      ensures PacedInv(Step(s, t)) && Fuel(Step(s, t)) + 1 <= Fuel(s)
    {
      FuelStep(s, t);
    }
    Budget(Moves, Step, PacedInv, Fuel, (s: State) => 0, 0, s0, schedule);
    AlwaysPaced(n, size, work, a, sync, schedule);
    FuelBound(Exec(Step, s0, schedule));
  }

  /** And from every state that paces its workers some run gets to rest. */
  lemma {:induction false} GoesToRest(s: State) returns (schedule: seq<nat>)
    requires PacedInv(s)
    ensures AtRest(Exec(Step, s, schedule))
    decreases Fuel(s)
  {
    if AtRest(s) {
      schedule := [];
    } else {
      var t: nat :| Moves(s, t);
      FuelStep(s, t);
      FuelBound(Step(s, t));
      var rest := GoesToRest(Step(s, t));
      schedule := [t] + rest;
      assert schedule[1..] == rest;
    }
  }

  // ---------------------------------------------- with the mutex, for any array at all

  /** Chunks a worker has really been given. */
  function Got(w: Worker): int {
    if w.pc.Returned? then w.chunks + (if w.pc.chunk.Some? then 1 else 0)
    else if w.pc.Failed? then w.chunks - 1
    else w.chunks
  }

  predicate Inside(s: State, start: int) { 0 <= start && start + s.a <= |s.cells| }

  predicate WorkerGot(s: State, w: Worker) {
    && (w.pc.Take? ==> s.nAllocated + s.a <= |s.cells|)
    && (w.pc.LoadAlloc? ==> w.pc.start == s.nAllocated && Inside(s, w.pc.start))
    && (w.pc.StoreAlloc? ==> w.pc.start == w.pc.before == s.nAllocated && Inside(s, w.pc.start))
    && (w.pc.Returned? && w.pc.chunk.Some? ==> Inside(s, w.pc.chunk.value))
    && (Working(w.pc) ==> Inside(s, w.pc.start))
    && !w.pc.OutOfBounds?
  }

  /** Without any assumption on the size of the array. */
  ghost predicate GotInv(s: State) {
    && LockInv(s) && PacedInv(s)
    && s.nAllocated == s.a * Sum(s.workers, Got) && 0 <= s.nAllocated <= |s.cells|
    && forall w :: w in s.workers ==> WorkerGot(s, w)
  }

  lemma OwnGot(s: State, t: nat)
    requires PacedInv(s) && 0 <= s.nAllocated <= |s.cells| && t < |s.workers| && WorkerGot(s, s.workers[t])
    ensures var r := Step(s, t);
      && |r.workers| == |s.workers|
      && Got(r.workers[t]) == Got(s.workers[t]) + (if s.workers[t].pc.StoreAlloc? then 1 else 0)
      && r.nAllocated == s.nAllocated + (if s.workers[t].pc.StoreAlloc? then s.a else 0) <= |r.cells|
      && WorkerGot(r, r.workers[t])
  {
    var w := s.workers[t];
    assert w in s.workers && WorkerPaced(s, w);
  }

  lemma OthersGot(s: State, t: nat, r: State)
    requires GotInv(s) && t < |s.workers| && |r.workers| == |s.workers| && r.workers == s.workers[t := r.workers[t]]
    requires r.a == s.a && |r.cells| == |s.cells|
    requires r.nAllocated == s.nAllocated || s.workers[t].pc.StoreAlloc?
    requires WorkerGot(r, r.workers[t])
    ensures forall w :: w in r.workers ==> WorkerGot(r, w)
  {
    forall u | 0 <= u < |r.workers| && u != t ensures WorkerGot(r, r.workers[u]) {
      assert r.workers[u] == s.workers[u] && s.workers[u] in s.workers && WorkerGot(s, s.workers[u]);
      assert s.workers[t].pc.StoreAlloc? ==> !InCritical(s.workers[u].pc);
    }
  }

  lemma GotInvStep(s: State, t: nat)
    requires GotInv(s)
    ensures GotInv(Step(s, t))
  {
    if t < |s.workers| {
      var r := Step(s, t);
      LockInvStep(s, t);
      PacedInvStep(s, t);
      PaceStep(s, t);
      assert s.workers[t] in s.workers;
      OwnGot(s, t);
      OthersGot(s, t, r);
      SumUpdate(s.workers, Got, t, r.workers[t]);
      assert s.a * (Sum(s.workers, Got) + 1) == s.a * Sum(s.workers, Got) + s.a;
    }
  }

  lemma AlwaysGot(n: nat, size: nat, work: nat, a: nat, schedule: seq<nat>)
    requires a > 0
    ensures var e := Exec(Step, Init(n, size, work, a, true), schedule);
      GotInv(e) && e.a == a && e.work == work && |e.cells| == size && |e.workers| == n
  {
    var s0 := Init(n, size, work, a, true);
    PacedInit(n, size, work, a, true);
    SumBounds(s0.workers, Got, 0, 0);
    var inv := (x: State) => GotInv(x) && x.a == a && x.work == work && |x.cells| == size && |x.workers| == n;
    forall s, t: nat | inv(s) ensures inv(Step(s, t)) {
      GotInvStep(s, t);
      if t < |s.workers| {
        PaceStep(s, t);
      }
    }
    Invariant(Step, inv, s0, schedule);
  }

  lemma AllGot(e: State)
    requires GotInv(e) && Complete(e)
    ensures Enough(|e.workers|, |e.cells|, e.work, e.a)
  {
    forall w | w in e.workers ensures Got(w) >= e.k {
      assert WorkerPaced(e, w);
    }
    LowerBound(e.workers, Got, e.k);
    MulMono(e.a, |e.workers| * e.k, Sum(e.workers, Got));
  }

  /** Nothing inside the critical section waits. */
  lemma OwnerMoves(e: State)
    requires GotInv(e) && e.mutex.owner.Some?
    ensures Moves(e, e.mutex.owner.value)
  {
  }

  lemma RestingWorker(e: State, t: nat)
    requires GotInv(e) && AtRest(e) && t < |e.workers|
    ensures e.workers[t].pc.Done? || e.workers[t].pc.Failed?
  {
    assert !Moves(e, t);
    assert e.workers[t] in e.workers && WorkerGot(e, e.workers[t]) && WorkerPaced(e, e.workers[t]);
    if e.mutex.owner.Some? {
      OwnerMoves(e);
    }
  }

  /** With the mutex, where a run comes to rest every thread has finished if and only if
      the array has room for all chunks, and an allocation has failed if and only if it
      has not. */
  lemma OutcomeWithMutex(n: nat, size: nat, work: nat, a: nat, schedule: seq<nat>)
    requires a > 0 && AtRest(Exec(Step, Init(n, size, work, a, true), schedule))
    ensures var e := Exec(Step, Init(n, size, work, a, true), schedule);
      && (Complete(e) <==> Enough(n, size, work, a))
      && (SomeFailed(e) <==> !Enough(n, size, work, a))
  {
    AlwaysGot(n, size, work, a, schedule);
    var e := Exec(Step, Init(n, size, work, a, true), schedule);
    forall t | 0 <= t < n ensures e.workers[t].pc.Done? || e.workers[t].pc.Failed? {
      RestingWorker(e, t);
    }
    if Complete(e) {
      AllGot(e);
    }
    if Enough(n, size, work, a) {
      NoFailureInAnyMode(n, size, work, a, true, schedule);
      assert forall t :: 0 <= t < n ==> e.workers[t] in e.workers;
    }
  }

  /** With room for all chunks every run of either mode that comes to rest has finished. */
  lemma FinishesInAnyMode(n: nat, size: nat, work: nat, a: nat, sync: bool, schedule: seq<nat>)
    requires Enough(n, size, work, a) && AtRest(Exec(Step, Init(n, size, work, a, sync), schedule))
    ensures Complete(Exec(Step, Init(n, size, work, a, sync), schedule))
  {
    if sync {
      OutcomeWithMutex(n, size, work, a, schedule);
    } else {
      NoFailureInAnyMode(n, size, work, a, sync, schedule);
      AlwaysPaced(n, size, work, a, sync, schedule);
      Invariant(Step, (x: State) => x.sync == sync, Init(n, size, work, a, sync), schedule);
      var e := Exec(Step, Init(n, size, work, a, sync), schedule);
      forall t | 0 <= t < |e.workers| ensures e.workers[t].pc.Done? {
        assert !Moves(e, t) && e.workers[t] in e.workers && WorkerPaced(e, e.workers[t]);
      }
    }
  }

  // -------------------------------------- what the mutex allows is possible without it

  function EraseWorker(w: Worker): Worker { if w.pc.WantLock? then w.(pc := Top) else w }

  /** The same state of a program that does not use the mutex. */
  function Erase(s: State): State {
    s.(sync := false, mutex := FRESH,
       workers := seq(|s.workers|, t requires 0 <= t < |s.workers| => EraseWorker(s.workers[t])))
  }

  /** Asking for the mutex is invisible; taking it is the loop test. */
  function Visible(s: State, t: nat): seq<nat> {
    if t >= |s.workers| then [] else
    var w := s.workers[t];
    if (w.pc.Top? && w.workDone < s.work) || (w.pc.WantLock? && !s.mutex.Free()) then [] else [t]
  }

  ghost predicate SyncPaced(s: State) { s.sync && PacedInv(s) }

  /** The step that gets past the loop test, and the wait before it. */
  lemma EraseEntry(s: State, t: nat)
    requires SyncPaced(s) && t < |s.workers| && (s.workers[t].pc.Top? || s.workers[t].pc.WantLock?)
    ensures Erase(Step(s, t)) == if Visible(s, t) == [] then Erase(s) else Step(Erase(s), t)
  {
    var w := s.workers[t];
    assert w in s.workers && WorkerPaced(s, w);
    ChunksLess(s.work, s.a, w.chunks);
    var r := Step(s, t);
    assert Erase(r).workers == Erase(s).workers[t := EraseWorker(r.workers[t])];
    assert Visible(s, t) == [] ==> Erase(r).workers == Erase(s).workers;
  }

  lemma EraseInside(s: State, t: nat)
    requires SyncPaced(s) && t < |s.workers| && Allocating(s.workers[t].pc) && !s.workers[t].pc.WantLock?
    ensures Erase(Step(s, t)) == Step(Erase(s), t)
  {
    var r := Step(s, t);
    assert Erase(r).workers == Erase(s).workers[t := r.workers[t]];
  }

  lemma EraseOutside(s: State, t: nat)
    requires SyncPaced(s) && t < |s.workers| && !Allocating(s.workers[t].pc) && !s.workers[t].pc.Top?
    ensures Erase(Step(s, t)) == Step(Erase(s), t)
  {
    var r := Step(s, t);
    assert Erase(r).workers == Erase(s).workers[t := r.workers[t]];
  }

  lemma EraseStep(s: State, t: nat)
    requires SyncPaced(s)
    ensures SyncPaced(Step(s, t))
    ensures Erase(Step(s, t)) == Exec(Step, Erase(s), Visible(s, t))
  {
    PacedInvStep(s, t);
    if t < |s.workers| {
      PaceStep(s, t);
      assert Exec(Step, Erase(s), [t]) == Step(Erase(s), t);
      if s.workers[t].pc.Top? || s.workers[t].pc.WantLock? {
        EraseEntry(s, t);
      } else if Allocating(s.workers[t].pc) {
        EraseInside(s, t);
      } else {
        EraseOutside(s, t);
      }
    }
  }

  /** Every run with the mutex is, the mutex erased, a run without it. */
  lemma MutexRunsAreFreeRuns(n: nat, size: nat, work: nat, a: nat, schedule: seq<nat>)
    requires a > 0
    ensures var s0 := Init(n, size, work, a, true);
      Erase(Exec(Step, s0, schedule))
        == Exec(Step, Init(n, size, work, a, false), Matched(Step, Visible, s0, schedule))
  {
    var s0 := Init(n, size, work, a, true);
    PacedInit(n, size, work, a, true);
    forall s, t: nat | SyncPaced(s)
      ensures SyncPaced(Step(s, t)) && Erase(Step(s, t)) == Exec(Step, Erase(s), Visible(s, t))
    {
      EraseStep(s, t);
    }
    Simulation(Step, SyncPaced, Erase, Step, Visible, s0, schedule);
    assert Erase(s0).workers == Init(n, size, work, a, false).workers;
  }

  /** In an array that is too small an allocation can fail in either mode. */
  lemma TooSmallFails(n: nat, size: nat, work: nat, a: nat, sync: bool) returns (schedule: seq<nat>)
    requires a > 0 && !Enough(n, size, work, a)
    ensures SomeFailed(Exec(Step, Init(n, size, work, a, sync), schedule))
  {
    var s0 := Init(n, size, work, a, true);
    PacedInit(n, size, work, a, true);
    schedule := GoesToRest(s0);
    OutcomeWithMutex(n, size, work, a, schedule);
    if !sync {
      var e := Exec(Step, s0, schedule);
      MutexRunsAreFreeRuns(n, size, work, a, schedule);
      var t :| 0 <= t < |e.workers| && e.workers[t].pc.Failed?;
      assert Erase(e).workers[t].pc.Failed?;
      schedule := Matched(Step, Visible, s0, schedule);
    }
  }

  ghost predicate RunFails(n: nat, size: nat, work: nat, a: nat, sync: bool, schedule: seq<nat>)
    requires a > 0
  {
    SomeFailed(Exec(Step, Init(n, size, work, a, sync), schedule))
  }

  /** So, in either mode, an allocation fails in some interleaving if and only if the
      array has no room for all chunks. */
  lemma FailsExactly(n: nat, size: nat, work: nat, a: nat, sync: bool)
    requires a > 0
    ensures (exists schedule :: RunFails(n, size, work, a, sync, schedule)) <==> !Enough(n, size, work, a)
  {
    if Enough(n, size, work, a) {
      forall schedule ensures !RunFails(n, size, work, a, sync, schedule) {
        NoFailureInAnyMode(n, size, work, a, sync, schedule);
        var e := Exec(Step, Init(n, size, work, a, sync), schedule);
        assert forall t :: 0 <= t < |e.workers| ==> e.workers[t] in e.workers;
      }
    } else {
      var schedule := TooSmallFails(n, size, work, a, sync);
      assert RunFails(n, size, work, a, sync, schedule);
    }
  }

  /** The sizes the source derives from its constants: the bytes per thread and the
      chunk size for n threads. */
  function WorkPerThread(size: nat, n: nat): nat
    requires n > 0
  {
    size / n
  }

  function AllocSize(size: nat, n: nat): nat
    requires n > 0
  {
    WorkPerThread(size, n) / 10
  }

  lemma SourceConstants()
    ensures WorkPerThread(1000, 4) == 250 && AllocSize(1000, 4) == 25 && Chunks(250, 25) == 10
    ensures WorkPerThread(1000, 3) == 333 && AllocSize(1000, 3) == 33 && Chunks(333, 33) == 11
    ensures Enough(4, 1000, 250, 25) && !Enough(3, 1000, 333, 33)
  {
  }

  lemma ThreeThreads(work: nat, a: nat, schedule: seq<nat>)
    requires a > 0 && !Enough(3, 1000, work, a)
    ensures var e := Exec(Step, Init(3, 1000, work, a, true), schedule);
      AtRest(e) ==> SomeFailed(e)
  {
    if AtRest(Exec(Step, Init(3, 1000, work, a, true), schedule)) {
      OutcomeWithMutex(3, 1000, work, a, schedule);
    }
  }

  /** With the constants of the source, 1000 cells and 4 threads, no allocation fails in
      any run, with or without the mutex; with 3 threads in the same array one fails in
      every run that comes to rest under the mutex. */
  lemma SourceSizes(schedule: seq<nat>, sync: bool)
    ensures !RunFails(4, 1000, WorkPerThread(1000, 4), AllocSize(1000, 4), sync, schedule)
    ensures var e := Exec(Step, Init(3, 1000, WorkPerThread(1000, 3), AllocSize(1000, 3), true), schedule);
      AtRest(e) ==> SomeFailed(e)
  {
    SourceConstants();
    FailsExactly(4, 1000, 250, 25, sync);
    ThreeThreads(333, 33, schedule);
  }
}
