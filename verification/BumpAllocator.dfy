/** N threads that each take chunks of `a` bytes from one array through a bump
    allocator, until they have had `work` bytes, and add one to every byte of each
    chunk, outside the mutex; with the mutex around the allocator, and without any. */
module BumpAllocator {
  import opened Runs
  import opened Sums
  import opened Monitors

  /** One constructor per call, load or store.  Check and CheckEnd are the two loads of
      the size test, Take the load that fixes the chunk, LoadAlloc and StoreAlloc the
      two halves of `allocated += alloc_size`. */
  datatype Pc =
    | Top | WantLock | Check | CheckEnd | Take | LoadAlloc(start: int) | StoreAlloc(start: int, before: int)
    | Returned(chunk: Option<int>)
    | LoadCell(start: int, i: nat) | StoreCell(start: int, i: nat, v: int)
    | Done | Failed | OutOfBounds

  /** `chunks` counts the finished calls of the allocator and `slot` is the position
      of the last one in the log; they are not part of the program. */
  datatype Worker = Worker(pc: Pc, workDone: nat, chunks: nat, slot: nat)

  datatype Handout = Handout(thread: nat, start: int)

  /** `handed` logs the chunks in the order of the stores to `allocated`, and `k` is
      the number of chunks a thread needs; no step reads either. */
  datatype State = State(
    a: nat, work: nat, k: nat, sync: bool, nAllocated: int, cells: seq<int>,
    mutex: Monitor, workers: seq<Worker>, handed: seq<Handout>)

  /** How many chunks of size a make up `work` bytes, rounded up. */
  function Chunks(work: nat, a: nat): nat
    requires a > 0
  {
    (work + a - 1) / a
  }

  function Init(n: nat, size: nat, work: nat, a: nat, sync: bool): State
    requires a > 0
  {
    State(a, work, Chunks(work, a), sync, 0, seq(size, _ => 0), FRESH, seq(n, _ => Worker(Top, 0, 0, 0)), [])
  }

  /** int8_t addition of one. */
  function Inc8(v: int): int { if v == 127 then -128 else v + 1 }

  function Goto(s: State, t: nat, pc: Pc): State
    requires t < |s.workers|
  {
    s.(workers := s.workers[t := s.workers[t].(pc := pc)])
  }

  function Step(s: State, t: nat): State {
    if t >= |s.workers| then s else
    var w := s.workers[t];
    match w.pc
    case Top =>
      Goto(s, t, if w.workDone < s.work then (if s.sync then WantLock else Check) else Done)
    case WantLock => if s.mutex.Free() then Goto(s.(mutex := s.mutex.Lock(t)), t, Check) else s
    case Check => Goto(s, t, if s.nAllocated >= |s.cells| then Returned(None) else CheckEnd)
    case CheckEnd => Goto(s, t, if s.nAllocated + s.a > |s.cells| then Returned(None) else Take)
    case Take => Goto(s, t, LoadAlloc(s.nAllocated))
    case LoadAlloc(start) => Goto(s, t, StoreAlloc(start, s.nAllocated))
    case StoreAlloc(start, before) =>
      s.(nAllocated := before + s.a, handed := s.handed + [Handout(t, start)],
         workers := s.workers[t := w.(pc := Returned(Some(start)), slot := |s.handed|)])
    case Returned(chunk) =>
      s.(mutex := if s.sync then s.mutex.Unlock() else s.mutex,
         workers := s.workers[t := w.(
           pc := if chunk.None? then Failed else LoadCell(chunk.value, 0),
           workDone := w.workDone + s.a, chunks := w.chunks + 1)])
    case LoadCell(start, i) =>
      if i >= s.a then Goto(s, t, Top)
      else if 0 <= start + i < |s.cells| then Goto(s, t, StoreCell(start, i, s.cells[start + i]))
      else Goto(s, t, OutOfBounds)
    case StoreCell(start, i, v) =>
      if 0 <= start + i < |s.cells|
      then Goto(s.(cells := s.cells[start + i := Inc8(v)]), t, LoadCell(start, i + 1))
      else Goto(s, t, OutOfBounds)
    case Done | Failed | OutOfBounds => s
  }

  predicate Complete(s: State) {
    forall t :: 0 <= t < |s.workers| ==> s.workers[t].pc.Done?
  }

  // ------------------------------------------------------------ one call, in any company

  /** The other threads leave a thread where it is. */
  lemma {:induction false} OthersRun(s: State, t: nat, between: seq<nat>)
    requires t < |s.workers| && t !in between
    ensures var m := Exec(Step, s, between);
      && |m.workers| == |s.workers| && m.workers[t] == s.workers[t] && |m.cells| == |s.cells| && m.a == s.a
    decreases |between|
  {
    if between != [] {
      assert between[0] in between && forall u :: u in between[1..] ==> u in between;
      OthersRun(Step(s, between[0]), t, between[1..]);
    }
  }

  /** Whatever the others do between its two tests, a call returns NULL if and only if
      `allocated` was not below the size at the first or left no room for the chunk at the
      second; and else it goes on to take one. */
  lemma RefusedExactly(s: State, t: nat, between: seq<nat>)
    requires t < |s.workers| && s.workers[t].pc.Check? && t !in between
    ensures var m := Exec(Step, Step(s, t), between);
      && |m.workers| == |s.workers|
      && (s.nAllocated >= |s.cells| ==> m.workers[t].pc == Returned(None))
      && (s.nAllocated < |s.cells| ==>
            Step(m, t).workers[t].pc == if m.nAllocated + s.a > |s.cells| then Returned(None) else Take)
  {
    OthersRun(Step(s, t), t, between);
  }

  // -------------------------------------------------- ranges, with or without the mutex

  predicate Allocating(pc: Pc) {
    pc.WantLock? || pc.Check? || pc.CheckEnd? || pc.Take? || pc.LoadAlloc? || pc.StoreAlloc? || pc.Returned?
  }

  predicate Working(pc: Pc) { pc.LoadCell? || pc.StoreCell? }

  /** Finished stores to `allocated`. */
  function Stores(w: Worker): int { w.chunks + if w.pc.Returned? then 1 else 0 }

  function TotalStores(s: State): int { Sum(s.workers, Stores) }

  /** The chunk at `start` is aligned and lies inside the array. */
  predicate InArray(s: State, start: int) {
    s.a > 0 && 0 <= start && start % s.a == 0 && start + s.a <= |s.cells|
  }

  predicate WorkerInRange(s: State, w: Worker) {
    && s.a > 0
    && w.chunks <= s.k && w.workDone == w.chunks * s.a
    && (Allocating(w.pc) ==> w.chunks < s.k)
    && (Working(w.pc) ==> 1 <= w.chunks)
    && match w.pc
       case LoadAlloc(start) => InArray(s, start)
       case StoreAlloc(start, before) =>
         InArray(s, start) && 0 <= before <= s.a * TotalStores(s) && before % s.a == 0
       case Returned(chunk) => chunk.Some? && InArray(s, chunk.value)
       case LoadCell(start, i) => InArray(s, start) && i <= s.a
       case StoreCell(start, i, _) => InArray(s, start) && i < s.a
       case Done => w.chunks == s.k
       case Failed => false
       case OutOfBounds => false
       case _ => true
  }

  ghost predicate RangeInv(s: State) {
    && s.a > 0 && s.k == Chunks(s.work, s.a) && |s.workers| * s.k * s.a <= |s.cells|
    && 0 <= s.nAllocated <= s.a * TotalStores(s) && s.nAllocated % s.a == 0
    && forall w :: w in s.workers ==> WorkerInRange(s, w)
  }

  lemma MulMono(a: nat, x: int, y: int)
    requires x <= y
    ensures a * x <= a * y
  {
    assert a * (y - x) >= 0;
  }

  lemma MulStrict(a: nat, x: int, y: int)
    requires x < y
    ensures a * x + a <= a * y
  {
    MulMono(a, x + 1, y);
  }

  /** A thread asks for one more chunk exactly while it has had fewer than it needs. */
  lemma ChunksLess(work: nat, a: nat, c: nat)
    requires a > 0
    ensures c * a < work <==> c < Chunks(work, a)
  {
    var k := Chunks(work, a);
    assert work + a - 1 == a * k + (work + a - 1) % a;
    if c < k {
      MulStrict(a, c, k);
    } else {
      MulMono(a, k, c);
    }
  }

  /** The array has room for the chunks of all threads. */
  predicate Enough(n: nat, size: nat, work: nat, a: nat) {
    a > 0 && n * Chunks(work, a) * a <= size
  }

  /** While some thread has not made its store, there is room for one more chunk. */
  lemma RoomForOneMore(s: State, t: nat)
    requires RangeInv(s) && t < |s.workers| && Allocating(s.workers[t].pc) && !s.workers[t].pc.Returned?
    ensures s.a * TotalStores(s) + s.a <= |s.cells|
  {
    assert s.workers[t] in s.workers;
    SumGap(s.workers, Stores, 0, s.k, t, 1);
    MulStrict(s.a, TotalStores(s), |s.workers| * s.k);
  }

  lemma AddMod(a: nat, x: int)
    requires a > 0 && x % a == 0
    ensures (x + a) % a == 0
  {
    assert x == a * (x / a);
    assert x + a == a * (x / a + 1);
    MulMod(a, x / a + 1);
  }

  lemma MulMod(a: nat, q: int)
    requires a > 0
    ensures (a * q) % a == 0
  {
    var x := a * q;
    var d := q - x / a;
    assert x % a == a * d;
    if d >= 1 {
      MulMono(a, 1, d);
    } else if d <= -1 {
      MulMono(a, d, -1);
    }
  }

  /** The frame of a step of thread t to r, and its effect on the thread's own count of
      stores. */
  predicate Framed(s: State, t: nat, r: State)
    requires t < |s.workers|
  {
    && |r.workers| == |s.workers| && r.workers == s.workers[t := r.workers[t]] && |r.cells| == |s.cells|
    && r.a == s.a && r.k == s.k && r.work == s.work && r.sync == s.sync
    && Stores(r.workers[t]) == Stores(s.workers[t]) + (if s.workers[t].pc.StoreAlloc? then 1 else 0)
    && (!s.workers[t].pc.StoreAlloc? ==> r.nAllocated == s.nAllocated)
  }

  lemma StepFrame(s: State, t: nat)
    requires RangeInv(s) && t < |s.workers|
    ensures Framed(s, t, Step(s, t))
  {
    var w := s.workers[t];
    if w.pc.Check? || w.pc.CheckEnd? {
      RoomForOneMore(s, t);
    }
  }

  lemma StoresStep(s: State, t: nat)
    requires RangeInv(s) && t < |s.workers|
    ensures Framed(s, t, Step(s, t))
    ensures TotalStores(Step(s, t)) == TotalStores(s) + (if s.workers[t].pc.StoreAlloc? then 1 else 0)
  {
    StepFrame(s, t);
    SumUpdate(s.workers, Stores, t, Step(s, t).workers[t]);
  }

  lemma OwnStepAllocating(s: State, t: nat)
    requires RangeInv(s) && t < |s.workers|
    requires var pc := s.workers[t].pc; Allocating(pc) && !pc.StoreAlloc? && !pc.Returned?
    ensures WorkerInRange(Step(s, t), Step(s, t).workers[t])
  {
    var w := s.workers[t];
    assert w in s.workers;
    RoomForOneMore(s, t);
    StoresStep(s, t);
  }

  lemma OwnStepWorking(s: State, t: nat)
    requires RangeInv(s) && t < |s.workers| && !Allocating(s.workers[t].pc)
    ensures WorkerInRange(Step(s, t), Step(s, t).workers[t])
  {
    var w := s.workers[t];
    assert w in s.workers;
    if w.pc.Top? {
      ChunksLess(s.work, s.a, w.chunks);
    }
  }

  lemma WorkerStep(s: State, t: nat)
    requires RangeInv(s) && t < |s.workers|
    ensures var r := Step(s, t);
      && s.a * TotalStores(s) <= r.a * TotalStores(r)
      && WorkerInRange(r, r.workers[t])
      && 0 <= r.nAllocated <= r.a * TotalStores(r) && r.nAllocated % r.a == 0
  {
    var r := Step(s, t);
    var w := s.workers[t];
    assert w in s.workers;
    StoresStep(s, t);
    if w.pc.StoreAlloc? {
      AddMod(s.a, w.pc.before);
      assert s.a * (TotalStores(s) + 1) == s.a * TotalStores(s) + s.a;
    } else if w.pc.Returned? {
      assert (w.chunks + 1) * s.a == w.chunks * s.a + s.a;
    } else if Allocating(w.pc) {
      OwnStepAllocating(s, t);
    } else {
      OwnStepWorking(s, t);
    }
  }

  lemma RangeInvStep(s: State, t: nat)
    requires RangeInv(s)
    ensures RangeInv(Step(s, t))
  {
    if t < |s.workers| {
      WorkerStep(s, t);
      StoresStep(s, t);
      var r := Step(s, t);
      forall w | w in r.workers ensures WorkerInRange(r, w) {
        assert w == r.workers[t] || w in s.workers;
      }
    }
  }

  lemma RangeInvInit(n: nat, size: nat, work: nat, a: nat, sync: bool)
    requires Enough(n, size, work, a)
    ensures RangeInv(Init(n, size, work, a, sync)) && TotalStores(Init(n, size, work, a, sync)) == 0
  {
    SumBounds(Init(n, size, work, a, sync).workers, Stores, 0, 0);
  }

  lemma SizesStay(n: nat, size: nat, work: nat, a: nat, sync: bool, schedule: seq<nat>)
    requires Enough(n, size, work, a)
    ensures var e := Exec(Step, Init(n, size, work, a, sync), schedule);
      RangeInv(e) && e.a == a && e.k == Chunks(work, a) && |e.workers| == n && |e.cells| == size
  {
    RangeInvInit(n, size, work, a, sync);
    var inv := (x: State) =>
      RangeInv(x) && x.a == a && x.k == Chunks(work, a) && |x.workers| == n && |x.cells| == size;
    forall s, t: nat | inv(s) ensures inv(Step(s, t)) {
      RangeInvStep(s, t);
      if t < |s.workers| {
        StepFrame(s, t);
      }
    }
    Invariant(Step, inv, Init(n, size, work, a, sync), schedule);
  }

  /** With or without the mutex, in every interleaving: `allocated` is a multiple of
      the chunk size and at most the chunk size times the stores made to it, no
      allocation fails, and every chunk in use lies inside the array. */
  lemma NoFailureInAnyMode(n: nat, size: nat, work: nat, a: nat, sync: bool, schedule: seq<nat>)
    requires Enough(n, size, work, a)
    ensures var e := Exec(Step, Init(n, size, work, a, sync), schedule);
      && e.a == a && 0 <= e.nAllocated <= a * TotalStores(e) && e.nAllocated % a == 0
      && |e.cells| == size
      && forall w :: w in e.workers ==>
           && !w.pc.Failed? && !w.pc.OutOfBounds? && w.pc != Returned(None)
           && (Working(w.pc) ==> 0 <= w.pc.start && w.pc.start % a == 0 && w.pc.start + a <= |e.cells|)
  {
    SizesStay(n, size, work, a, sync, schedule);
    var e := Exec(Step, Init(n, size, work, a, sync), schedule);
    forall w | w in e.workers
      ensures && !w.pc.Failed? && !w.pc.OutOfBounds? && w.pc != Returned(None)
              && (Working(w.pc) ==> InArray(e, w.pc.start))
    {
      assert WorkerInRange(e, w);
    }
  }

  // -------------------------------------------------------------- the first chunk

  /** A worker is given the first chunk, if at all, in its first call. */
  predicate FirstOk(w: Worker) {
    && (w.pc.LoadAlloc? || w.pc.StoreAlloc? ==> w.pc.start != 0 || w.chunks == 0)
    && (w.pc.Returned? ==> w.pc.chunk != Some(0) || w.chunks == 0)
    && (Working(w.pc) ==> w.pc.start != 0 || w.chunks == 1)
  }

  /** Once a store was made, `allocated` never goes back to 0. */
  ghost predicate FirstInv(s: State) {
    && (TotalStores(s) > 0 ==> s.nAllocated >= s.a)
    && forall w :: w in s.workers ==> FirstOk(w)
  }

  lemma FirstInvStep(s: State, t: nat)
    requires RangeInv(s) && FirstInv(s)
    ensures FirstInv(Step(s, t))
  {
    if t < |s.workers| {
      var r := Step(s, t);
      var w := s.workers[t];
      assert w in s.workers && WorkerInRange(s, w);
      StoresStep(s, t);
      SumAtLeast(s.workers, Stores, t);
      assert FirstOk(r.workers[t]);
      assert forall x :: x in r.workers ==> x == r.workers[t] || x in s.workers;
    }
  }

  // ------------------------------------------------------------------ cell values

  /** How often a worker may have added one to cell c so far: once for each finished
      chunk, and once for the current one when it has passed c; for a cell of the first
      chunk only the worker's first chunk counts. */
  function CreditOf(a: nat, w: Worker, c: int): int {
    var passed := if Working(w.pc) && w.pc.start <= c < w.pc.start + w.pc.i then 1 else 0;
    if c < a then (if Working(w.pc) && w.chunks == 1 then passed else if w.chunks >= 1 then 1 else 0)
    else if Working(w.pc) then w.chunks - 1 + passed
    else w.chunks
  }

  function Credit(a: nat, c: int): Worker -> int { (w: Worker) => CreditOf(a, w, c) }

  function TotalCredit(s: State, c: int): int { Sum(s.workers, Credit(s.a, c)) }

  /** A loaded cell value is within the credit of its cell. */
  predicate PendingOk(s: State, w: Worker) {
    w.pc.StoreCell? ==>
      w.pc.v <= TotalCredit(s, w.pc.start + w.pc.i) && (|s.workers| * s.k <= 127 ==> w.pc.v >= 0)
  }

  ghost predicate CellInv(s: State) {
    && (forall c :: 0 <= c < |s.cells| ==>
          s.cells[c] <= TotalCredit(s, c) && (|s.workers| * s.k <= 127 ==> s.cells[c] >= 0))
    && (forall w :: w in s.workers ==> PendingOk(s, w))
  }

  /** Only the first chunk reaches below a. */
  lemma AlignedStart(s: State, w: Worker)
    requires WorkerInRange(s, w) && Working(w.pc)
    ensures w.pc.start == 0 || w.pc.start >= s.a
  {
  }

  lemma CreditRange(s: State, w: Worker, c: int)
    requires WorkerInRange(s, w)
    ensures 0 <= CreditOf(s.a, w, c) <= s.k
  {
  }

  /** Before its store a worker has not yet earned the cell it is at. */
  lemma CreditMissing(s: State, w: Worker)
    requires WorkerInRange(s, w) && FirstOk(w) && w.pc.StoreCell?
    ensures CreditOf(s.a, w, w.pc.start + w.pc.i) <= s.k - 1
  {
    AlignedStart(s, w);
  }

  /** A value about to be stored is below the number of chunks of all threads. */
  lemma StoredValueBound(s: State, t: nat)
    requires RangeInv(s) && FirstInv(s) && CellInv(s) && t < |s.workers| && s.workers[t].pc.StoreCell?
    ensures s.workers[t].pc.v <= |s.workers| * s.k - 1
  {
    var pc := s.workers[t].pc;
    var f := Credit(s.a, pc.start + pc.i);
    assert s.workers[t] in s.workers && PendingOk(s, s.workers[t]);
    CreditMissing(s, s.workers[t]);
    forall w | w in s.workers ensures 0 <= f(w) <= s.k {
      CreditRange(s, w, pc.start + pc.i);
    }
    SumGap(s.workers, f, 0, s.k, t, 1);
  }

  lemma OwnCredit(s: State, t: nat, c: int)
    requires RangeInv(s) && FirstInv(s) && t < |s.workers| && 0 <= c
    ensures var pc := s.workers[t].pc;
      CreditOf(s.a, Step(s, t).workers[t], c) >=
        CreditOf(s.a, s.workers[t], c) + if pc.StoreCell? && c == pc.start + pc.i then 1 else 0
  {
    var w := s.workers[t];
    assert w in s.workers && FirstOk(w) && WorkerInRange(s, w);
    if Working(w.pc) {
      AlignedStart(s, w);
    }
  }

  lemma CreditStep(s: State, t: nat, c: int)
    requires RangeInv(s) && FirstInv(s) && t < |s.workers| && 0 <= c
    ensures var pc := s.workers[t].pc;
      TotalCredit(Step(s, t), c) >= TotalCredit(s, c) + if pc.StoreCell? && c == pc.start + pc.i then 1 else 0
  {
    OwnCredit(s, t, c);
    StoresStep(s, t);
    SumUpdate(s.workers, Credit(s.a, c), t, Step(s, t).workers[t]);
  }

  lemma OwnPending(s: State, t: nat)
    requires RangeInv(s) && FirstInv(s) && CellInv(s) && t < |s.workers|
    ensures PendingOk(Step(s, t), Step(s, t).workers[t])
  {
    var pc := s.workers[t].pc;
    if pc.LoadCell? && pc.i < s.a {
      assert s.workers[t] in s.workers;
      CreditStep(s, t, pc.start + pc.i);
      StoresStep(s, t);
    }
  }

  lemma CellsStep(s: State, t: nat, c: int)
    requires RangeInv(s) && FirstInv(s) && CellInv(s) && t < |s.workers| && 0 <= c < |s.cells|
    ensures var r := Step(s, t);
      && |r.cells| == |s.cells| && r.cells[c] <= TotalCredit(r, c)
      && (|s.workers| * s.k <= 127 ==> r.cells[c] >= 0)
  {
    CreditStep(s, t, c);
    StoresStep(s, t);
    var pc := s.workers[t].pc;
    if pc.StoreCell? && c == pc.start + pc.i {
      assert s.workers[t] in s.workers && PendingOk(s, s.workers[t]);
      StoredValueBound(s, t);
    }
  }

  lemma CellInvStep(s: State, t: nat)
    requires RangeInv(s) && FirstInv(s) && CellInv(s)
    ensures CellInv(Step(s, t))
  {
    if t < |s.workers| {
      var r := Step(s, t);
      StoresStep(s, t);
      forall c | 0 <= c < |s.cells|
        ensures r.cells[c] <= TotalCredit(r, c) && (|s.workers| * s.k <= 127 ==> r.cells[c] >= 0)
      {
        CellsStep(s, t, c);
      }
      forall w | w in r.workers ensures PendingOk(r, w) {
        if w == r.workers[t] {
          OwnPending(s, t);
        } else {
          assert w in s.workers && PendingOk(s, w);
          if w.pc.StoreCell? {
            assert WorkerInRange(s, w);
            CreditStep(s, t, w.pc.start + w.pc.i);
          }
        }
      }
    }
  }

  lemma CellsAlways(n: nat, size: nat, work: nat, a: nat, sync: bool, schedule: seq<nat>)
    requires Enough(n, size, work, a)
    ensures var e := Exec(Step, Init(n, size, work, a, sync), schedule);
      && RangeInv(e) && FirstInv(e) && CellInv(e)
      && e.a == a && e.k == Chunks(work, a) && |e.workers| == n
  {
    var s0 := Init(n, size, work, a, sync);
    RangeInvInit(n, size, work, a, sync);
    forall c ensures TotalCredit(s0, c) == 0 {
      SumBounds(s0.workers, Credit(a, c), 0, 0);
    }
    var inv := (x: State) =>
      RangeInv(x) && FirstInv(x) && CellInv(x) && x.a == a && x.k == s0.k && |x.workers| == n;
    forall s, t: nat | inv(s) ensures inv(Step(s, t)) {
      RangeInvStep(s, t);
      FirstInvStep(s, t);
      CellInvStep(s, t);
      if t < |s.workers| {
        StepFrame(s, t);
      }
    }
    Invariant(Step, inv, s0, schedule);
  }

  /** With or without the mutex no cell ever exceeds N * k, a bound that only the first
      chunk of threads with one chunk each is known to reach, and no cell of the first
      chunk N; when N * k fits int8_t the cells never wrap and never go negative. */
  lemma CellsBounded(n: nat, size: nat, work: nat, a: nat, sync: bool, schedule: seq<nat>)
    requires Enough(n, size, work, a)
    ensures var e := Exec(Step, Init(n, size, work, a, sync), schedule);
      && var k := Chunks(work, a);
      && (forall c :: 0 <= c < |e.cells| ==> e.cells[c] <= n * k && (n * k <= 127 ==> 0 <= e.cells[c]))
      && (forall c :: 0 <= c < a && c < |e.cells| ==> e.cells[c] <= n)
      && (n * k <= 127 ==> forall w :: w in e.workers && w.pc.StoreCell? ==> Inc8(w.pc.v) == w.pc.v + 1)
  {
    CellsAlways(n, size, work, a, sync, schedule);
    var e := Exec(Step, Init(n, size, work, a, sync), schedule);
    forall w | w in e.workers ensures 0 <= w.chunks <= e.k {
      assert WorkerInRange(e, w);
    }
    forall c | 0 <= c < |e.cells| ensures e.cells[c] <= n * e.k && (c < a ==> e.cells[c] <= n) {
      UpperBound(e.workers, Credit(a, c), e.k);
      if c < a {
        UpperBound(e.workers, Credit(a, c), 1);
      }
    }
    forall w | w in e.workers && w.pc.StoreCell? ensures w.pc.v <= n * e.k - 1 {
      var t :| 0 <= t < |e.workers| && e.workers[t] == w;
      StoredValueBound(e, t);
      assert PendingOk(e, w);
    }
  }

  // ------------------------------------------------ the first chunk handed out N times

  /** A worker that has fixed the first chunk and not yet stored to `allocated`. */
  const RESERVED := Worker(LoadAlloc(0), 0, 0, 0)

  /** What n additions of one make of an int8_t that starts at 0. */
  function Wrapped8(n: nat): int { (n + 128) % 256 - 128 }

  lemma OneMore8(n: nat)
    ensures Inc8(Wrapped8(n)) == Wrapped8(n + 1)
    ensures n <= 127 ==> Wrapped8(n) == n
  {
  }

  function Four(s: State, t: nat): State { Step(Step(Step(Step(s, t), t), t), t) }

  lemma FourSteps(s: State, t: nat, rest: seq<nat>)
    ensures Exec(Step, s, [t, t, t, t] + rest) == Exec(Step, Four(s, t), rest)
  {
    ExecConcat(Step, s, [t, t, t, t], rest);
    ExecAppend(Step, s, [t, t, t], t);
    ExecAppend(Step, s, [t, t], t);
    ExecAppend(Step, s, [t], t);
    assert [t] + [t] == [t, t] && [t, t] + [t] == [t, t, t] && [t, t, t] + [t] == [t, t, t, t];
  }

  /** Threads before j have fixed the first chunk, the others have not started. */
  predicate Gathered(s: State, j: nat) {
    && !s.sync && s.nAllocated == 0 && 0 < s.a <= |s.cells| && s.work > 0 && s.cells[0] == 0
    && s.handed == [] && j <= |s.workers|
    && forall t :: 0 <= t < |s.workers| ==> s.workers[t] == if t < j then RESERVED else Worker(Top, 0, 0, 0)
  }

  lemma {:induction false} Gather(s: State, j: nat) returns (schedule: seq<nat>)
    requires Gathered(s, j)
    ensures var e := Exec(Step, s, schedule); Gathered(e, |s.workers|) && |e.workers| == |s.workers|
    decreases |s.workers| - j
  {
    if j == |s.workers| {
      schedule := [];
    } else {
      var rest := Gather(Four(s, j), j + 1);
      schedule := [j, j, j, j] + rest;
      FourSteps(s, j, rest);
    }
  }

  /** The first chunk for each of the threads before j. */
  function FirstFor(j: nat): seq<Handout> { seq(j, t requires 0 <= t => Handout(t, 0)) }

  /** Threads before j have incremented cell 0 once, the others are about to. */
  predicate Sharing(s: State, j: nat) {
    && !s.sync && 0 < s.a <= |s.cells| && s.cells[0] == Wrapped8(j) && j <= |s.workers|
    && s.handed == FirstFor(j)
    && forall t :: j <= t < |s.workers| ==> s.workers[t] == RESERVED
  }

  lemma ShareOne(s: State, j: nat)
    requires Sharing(s, j) && j < |s.workers|
    ensures var r := Step(Four(s, j), j); Sharing(r, j + 1) && |r.workers| == |s.workers|
  {
    OneMore8(j);
    assert FirstFor(j) + [Handout(j, 0)] == FirstFor(j + 1);
  }

  lemma {:induction false} ShareFirst(s: State, j: nat) returns (schedule: seq<nat>)
    requires Sharing(s, j)
    ensures var e := Exec(Step, s, schedule); Sharing(e, |s.workers|) && |e.workers| == |s.workers|
    decreases |s.workers| - j
  {
    if j == |s.workers| {
      schedule := [];
    } else {
      ShareOne(s, j);
      var rest := ShareFirst(Step(Four(s, j), j), j + 1);
      schedule := [j, j, j, j] + ([j] + rest);
      FourSteps(s, j, [j] + rest);
      assert ([j] + rest)[1..] == rest;
    }
  }

  /** Without the mutex the bound of the first chunk is reached: a run in which all N
      threads are given it, and its first cell is incremented N times. */
  lemma FirstCellReachesN(n: nat, size: nat, work: nat, a: nat) returns (schedule: seq<nat>)
    requires Enough(n, size, work, a) && n > 0 && work > 0
    ensures var e := Exec(Step, Init(n, size, work, a, false), schedule);
      && e.handed == seq(n, t requires 0 <= t => Handout(t, 0))
      && |e.cells| > 0 && e.cells[0] == Wrapped8(n) && (n <= 127 ==> e.cells[0] == n)
  {
    var s0 := Init(n, size, work, a, false);
    ChunksLess(work, a, 0);
    MulMono(a, 1, n * Chunks(work, a));
    var gather := Gather(s0, 0);
    var share := ShareFirst(Exec(Step, s0, gather), 0);
    schedule := gather + share;
    ExecConcat(Step, s0, gather, share);
    OneMore8(n);
  }
}
