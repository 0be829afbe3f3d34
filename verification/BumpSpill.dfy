/** When a chunk worker gets a chunk that reaches past the end of the array: never with
    the mutex; without it exactly when there are two threads, a chunk fits the array, and
    the array has no room for all chunks.  The test of the size and the load that fixes
    the chunk are separate loads of `allocated`. */
module BumpSpill {
  import opened Runs
  import opened Sums
  import opened Monitors
  import opened BumpAllocator
  import opened BumpOutcome

  ghost predicate SomeOutside(s: State) {
    exists t :: 0 <= t < |s.workers| && s.workers[t].pc.OutOfBounds?
  }

  ghost predicate RunSpills(n: nat, size: nat, work: nat, a: nat, sync: bool, schedule: seq<nat>)
    requires a > 0
  {
    SomeOutside(Exec(Step, Init(n, size, work, a, sync), schedule))
  }

  // ------------------------------------------------------ one thread for a whole chunk

  /** Nothing but thread t, `allocated`, the cells and the log has changed. */
  predicate Only(s: State, t: nat, r: State)
    requires t < |s.workers|
  {
    && |r.workers| == |s.workers| && r.workers == s.workers[t := r.workers[t]] && |r.cells| == |s.cells|
    && r.a == s.a && r.k == s.k && r.work == s.work && r.sync == s.sync
  }

  /** From its i-th cell a worker ends its chunk, or leaves the array if that is shorter. */
  lemma {:induction false} WorkOut(s: State, t: nat) returns (schedule: seq<nat>)
    requires t < |s.workers| && s.workers[t].pc.LoadCell?
    requires var pc := s.workers[t].pc; 0 <= pc.start && pc.i <= s.a && pc.start + pc.i <= |s.cells|
    ensures var e := Exec(Step, s, schedule);
      && Only(s, t, e) && e.nAllocated == s.nAllocated
      && e.workers[t] ==
           s.workers[t].(pc := if s.workers[t].pc.start + s.a <= |s.cells| then Top else OutOfBounds)
    decreases s.a - s.workers[t].pc.i
  {
    var pc := s.workers[t].pc;
    var m := Step(s, t);
    if pc.i == s.a || pc.start + pc.i == |s.cells| {
      schedule := [t];
      assert Exec(Step, s, schedule) == m;
    } else {
      var rest := WorkOut(Step(m, t), t);
      schedule := [t] + ([t] + rest);
      assert schedule[1..] == [t] + rest && ([t] + rest)[1..] == rest;
      assert Exec(Step, s, schedule) == Exec(Step, m, [t] + rest);
    }
  }

  lemma FixedAndStored(s: State, t: nat)
    requires t < |s.workers| && s.workers[t].pc.Take? && !s.sync
    ensures var r := Four(s, t);
      && Only(s, t, r) && r.nAllocated == s.nAllocated + s.a
      && r.workers[t] == Worker(LoadCell(s.nAllocated, 0), s.workers[t].workDone + s.a,
                                s.workers[t].chunks + 1, |s.handed|)
  {
  }

  /** A worker past the test fixes its chunk and works on it. */
  lemma TakeChunk(s: State, t: nat) returns (schedule: seq<nat>)
    requires t < |s.workers| && s.workers[t].pc.Take? && !s.sync && 0 <= s.nAllocated <= |s.cells|
    ensures var e := Exec(Step, s, schedule);
      && Only(s, t, e) && e.nAllocated == s.nAllocated + s.a
      && e.workers[t].pc == (if s.nAllocated + s.a <= |s.cells| then Top else OutOfBounds)
      && e.workers[t].workDone == s.workers[t].workDone + s.a
      && e.workers[t].chunks == s.workers[t].chunks + 1
  {
    FixedAndStored(s, t);
    var rest := WorkOut(Four(s, t), t);
    FourSteps(s, t, rest);
    schedule := [t, t, t, t] + rest;
  }

  lemma PassTest(s: State, t: nat)
    requires t < |s.workers| && s.workers[t].pc.Top? && !s.sync && s.workers[t].workDone < s.work
    requires 0 < s.a && s.nAllocated + s.a <= |s.cells|
    ensures Exec(Step, s, [t, t, t]) == Goto(s, t, Take)
  {
    ExecAppend(Step, s, [t, t], t);
    ExecAppend(Step, s, [t], t);
    assert [t] + [t] == [t, t] && [t, t] + [t] == [t, t, t];
    assert Exec(Step, s, [t]) == Goto(s, t, Check);
  }

  /** One chunk for thread t, from the loop test to the next one. */
  lemma OneChunk(s: State, t: nat) returns (schedule: seq<nat>)
    requires t < |s.workers| && s.workers[t].pc.Top? && !s.sync && s.workers[t].workDone < s.work
    requires 0 < s.a && 0 <= s.nAllocated && s.nAllocated + s.a <= |s.cells|
    ensures var e := Exec(Step, s, schedule);
      && Only(s, t, e) && e.nAllocated == s.nAllocated + s.a && e.workers[t].pc == Top
      && e.workers[t].workDone == s.workers[t].workDone + s.a
      && e.workers[t].chunks == s.workers[t].chunks + 1
  {
    PassTest(s, t);
    var rest := TakeChunk(Goto(s, t, Take), t);
    ExecConcat(Step, s, [t, t, t], rest);
    schedule := [t, t, t] + rest;
  }

  // ------------------------------------------- m chunks handed out one after the other

  function ChunksOf(w: Worker): int { w.chunks }

  /** Chunks a thread may get so that threads 0 and 1 still want one more. */
  function Share(k: nat, t: nat): int { if t < 2 then k - 1 else k }

  /** Between chunks, with one chunk still to come for threads 0 and 1. */
  ghost predicate Between(s: State) {
    && s.a > 0 && !s.sync && s.k == Chunks(s.work, s.a) && |s.workers| >= 2
    && s.nAllocated == s.a * Sum(s.workers, ChunksOf)
    && forall t :: 0 <= t < |s.workers| ==>
         && s.workers[t].pc.Top? && s.workers[t].workDone == s.workers[t].chunks * s.a
         && s.workers[t].chunks <= Share(s.k, t)
  }

  lemma SomeWants(s: State) returns (t: nat)
    requires Between(s)
    ensures Sum(s.workers, ChunksOf) < |s.workers| * s.k - 2 ==>
            t < |s.workers| && s.workers[t].chunks < Share(s.k, t)
  {
    if u :| 0 <= u < |s.workers| && s.workers[u].chunks < Share(s.k, u) {
      t := u;
    } else {
      var full := Worker(Top, 0, s.k, 0);
      var one := s.workers[0 := full];
      SumUpdate(s.workers, ChunksOf, 0, full);
      SumUpdate(one, ChunksOf, 1, full);
      SumBounds(one[1 := full], ChunksOf, s.k, s.k);
      t := 0;
    }
  }

  lemma BetweenKept(s: State, t: nat, e: State)
    requires Between(s) && t < |s.workers| && s.workers[t].chunks < Share(s.k, t)
    requires Only(s, t, e) && e.nAllocated == s.nAllocated + s.a && e.workers[t].pc == Top
    requires e.workers[t].workDone == s.workers[t].workDone + s.a
    requires e.workers[t].chunks == s.workers[t].chunks + 1
    ensures Between(e) && Sum(e.workers, ChunksOf) == Sum(s.workers, ChunksOf) + 1
  {
    SumUpdate(s.workers, ChunksOf, t, e.workers[t]);
    assert s.a * (Sum(s.workers, ChunksOf) + 1) == s.a * Sum(s.workers, ChunksOf) + s.a;
    assert (s.workers[t].chunks + 1) * s.a == s.workers[t].chunks * s.a + s.a;
  }

  lemma {:induction false} HandOut(s: State, m: nat) returns (schedule: seq<nat>)
    requires Between(s) && 0 <= Sum(s.workers, ChunksOf) <= m <= |s.workers| * s.k - 2 && s.a * m <= |s.cells|
    ensures var e := Exec(Step, s, schedule);
      && Between(e) && e.nAllocated == e.a * m && e.a == s.a && e.k == s.k
      && |e.workers| == |s.workers| && |e.cells| == |s.cells|
    decreases m - Sum(s.workers, ChunksOf)
  {
    var given := Sum(s.workers, ChunksOf);
    if given == m {
      schedule := [];
    } else {
      MulStrict(s.a, given, m);
      MulMono(s.a, 0, given);
      var t := SomeWants(s);
      ChunksLess(s.work, s.a, s.workers[t].chunks);
      var chunk := OneChunk(s, t);
      var e := Exec(Step, s, chunk);
      BetweenKept(s, t, e);
      var rest := HandOut(e, m);
      ExecConcat(Step, s, chunk, rest);
      schedule := chunk + rest;
    }
  }

  /** Where exactly one more chunk fits, thread 0 passes the test, thread 1 takes that
      chunk, and thread 0 takes one that does not fit. */
  lemma LastChunkTwice(s: State) returns (schedule: seq<nat>)
    requires Between(s) && s.k >= 1 && 0 <= s.nAllocated
    requires s.nAllocated + s.a <= |s.cells| < s.nAllocated + 2 * s.a
    ensures SomeOutside(Exec(Step, s, schedule))
  {
    ChunksLess(s.work, s.a, s.workers[0].chunks);
    ChunksLess(s.work, s.a, s.workers[1].chunks);
    PassTest(s, 0);
    var tested := Goto(s, 0, Take);
    var last := OneChunk(tested, 1);
    var full := Exec(Step, tested, last);
    var spill := TakeChunk(full, 0);
    ExecConcat(Step, tested, last, spill);
    ExecConcat(Step, s, [0, 0, 0], last + spill);
    schedule := [0, 0, 0] + (last + spill);
    assert Exec(Step, full, spill).workers[0].pc.OutOfBounds?;
  }

  lemma BetweenInit(n: nat, size: nat, work: nat, a: nat)
    requires a > 0 && n >= 2 && Chunks(work, a) >= 1
    ensures Between(Init(n, size, work, a, false)) && Sum(Init(n, size, work, a, false).workers, ChunksOf) == 0
  {
    SumBounds(Init(n, size, work, a, false).workers, ChunksOf, 0, 0);
  }

  /** Chunks that fit the array, when some fit and not all do. */
  lemma Fitting(n: nat, size: nat, work: nat, a: nat) returns (m: nat)
    requires a > 0 && a <= size && !Enough(n, size, work, a)
    ensures m >= 1 && a * m <= size < a * m + a && m < n * Chunks(work, a) && Chunks(work, a) >= 1
  {
    m := size / a;
    var k := Chunks(work, a);
    assert size == a * m + size % a;
    assert m == 0 ==> a * m == 0;
    assert k == 0 ==> n * k == 0;
    if n * k <= m {
      MulMono(a, n * k, m);
    }
  }

  lemma SpillingRun(n: nat, size: nat, work: nat, a: nat) returns (schedule: seq<nat>)
    requires a > 0 && n >= 2 && a <= size && !Enough(n, size, work, a)
    ensures RunSpills(n, size, work, a, false, schedule)
  {
    var s0 := Init(n, size, work, a, false);
    var m := Fitting(n, size, work, a);
    BetweenInit(n, size, work, a);
    assert a * (m - 1) == a * m - a;
    var first := HandOut(s0, m - 1);
    var second := LastChunkTwice(Exec(Step, s0, first));
    ExecConcat(Step, s0, first, second);
    schedule := first + second;
  }

  // --------------------------------------------------------- the runs that cannot spill

  /** A lone thread finds `allocated` as its test left it. */
  ghost predicate LoneInv(s: State) {
    && PacedInv(s) && |s.workers| <= 1 && 0 <= s.nAllocated <= |s.cells|
    && forall w :: w in s.workers ==> WorkerGot(s, w)
  }

  lemma LoneInvStep(s: State, t: nat)
    requires LoneInv(s)
    ensures LoneInv(Step(s, t))
  {
    if t < |s.workers| {
      assert s.workers[t] in s.workers;
      PacedInvStep(s, t);
      PaceStep(s, t);
      OwnGot(s, t);
    }
  }

  /** When not even one chunk fits, no thread passes the test. */
  predicate Refused(pc: Pc) {
    pc.Top? || pc.Check? || pc.CheckEnd? || pc == Returned(None) || pc.Done? || pc.Failed?
  }

  ghost predicate RefusedInv(s: State) {
    !s.sync && s.a > |s.cells| && s.nAllocated == 0 && forall w :: w in s.workers ==> Refused(w.pc)
  }

  lemma RefusedInvStep(s: State, t: nat)
    requires RefusedInv(s)
    ensures RefusedInv(Step(s, t))
  {
    if t < |s.workers| {
      var r := Step(s, t);
      assert s.workers[t] in s.workers;
      assert Refused(r.workers[t].pc);
      assert forall w :: w in r.workers ==> w == r.workers[t] || w in s.workers;
    }
  }

  lemma NeverSpills(n: nat, size: nat, work: nat, a: nat, sync: bool, schedule: seq<nat>)
    requires a > 0 && (sync || n <= 1 || a > size || Enough(n, size, work, a))
    ensures !RunSpills(n, size, work, a, sync, schedule)
  {
    var s0 := Init(n, size, work, a, sync);
    var e := Exec(Step, s0, schedule);
    if Enough(n, size, work, a) {
      NoFailureInAnyMode(n, size, work, a, sync, schedule);
    } else if sync {
      AlwaysGot(n, size, work, a, schedule);
      assert forall w :: w in e.workers ==> WorkerGot(e, w);
    } else if n <= 1 {
      PacedInit(n, size, work, a, sync);
      forall s, t: nat | LoneInv(s) ensures LoneInv(Step(s, t)) {
        LoneInvStep(s, t);
      }
      Invariant(Step, LoneInv, s0, schedule);
      assert forall w :: w in e.workers ==> WorkerGot(e, w);
    } else {
      forall s, t: nat | RefusedInv(s) ensures RefusedInv(Step(s, t)) {
        RefusedInvStep(s, t);
      }
      Invariant(Step, RefusedInv, s0, schedule);
      assert forall w :: w in e.workers ==> Refused(w.pc);
    }
    assert forall t :: 0 <= t < |e.workers| ==> e.workers[t] in e.workers;
  }

  /** Some run reaches past the end of the array if and only if the mutex is not used,
      there are at least two threads, a chunk fits, and not all chunks do. */
  lemma SpillsExactly(n: nat, size: nat, work: nat, a: nat, sync: bool)
    requires a > 0
    ensures (exists schedule :: RunSpills(n, size, work, a, sync, schedule)) <==>
            !sync && n >= 2 && a <= size && !Enough(n, size, work, a)
  {
    if !sync && n >= 2 && a <= size && !Enough(n, size, work, a) {
      var schedule := SpillingRun(n, size, work, a);
      assert RunSpills(n, size, work, a, sync, schedule);
    } else {
      forall schedule ensures !RunSpills(n, size, work, a, sync, schedule) {
        NeverSpills(n, size, work, a, sync, schedule);
      }
    }
  }

  /** In the source's array of 1000 cells no run of its 4 threads does, and some run of 3
      threads does without the mutex, which is the program's default. */
  lemma SourceSizesSpill(schedule: seq<nat>, sync: bool) returns (three: seq<nat>)
    ensures !RunSpills(4, 1000, WorkPerThread(1000, 4), AllocSize(1000, 4), sync, schedule)
    ensures RunSpills(3, 1000, WorkPerThread(1000, 3), AllocSize(1000, 3), false, three)
  {
    SourceConstants();
    NeverSpills(4, 1000, 250, 25, sync, schedule);
    three := SpillingRun(3, 1000, 333, 33);
  }
}
