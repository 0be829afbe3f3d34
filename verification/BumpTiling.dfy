/** The chunk workers as long as no thread fixes its chunk while another is about to
    store to `allocated`, which the mutex around the allocator ensures: the chunks tile the
    array and every cell is incremented exactly once, although the increments themselves
    are split and unprotected. */
module BumpTiling {
  import opened Runs
  import opened Sums
  import opened Monitors
  import opened BumpAllocator

  predicate InCritical(pc: Pc) {
    pc.Check? || pc.CheckEnd? || pc.Take? || pc.LoadAlloc? || pc.StoreAlloc? || pc.Returned?
  }

  ghost predicate LockInv(s: State) {
    && s.sync
    && (forall t :: 0 <= t < |s.workers| ==>
          (InCritical(s.workers[t].pc) <==> s.mutex.owner == Some(t)))
    && (s.mutex.owner.Some? ==> s.mutex.owner.value < |s.workers|)
  }

  /** The worker has fixed its chunk and has not yet moved `allocated` past it. */
  predicate Committing(pc: Pc) { pc.LoadAlloc? || pc.StoreAlloc? }

  ghost predicate OneCommits(s: State) {
    forall t, u :: 0 <= t < u < |s.workers| ==> !Committing(s.workers[t].pc) || !Committing(s.workers[u].pc)
  }

  /** Thread t does not fix its chunk while another thread has fixed one and has not yet
      moved `allocated`. */
  predicate Solitary(s: State, t: nat) {
    t < |s.workers| && s.workers[t].pc.Take? ==>
      forall u :: 0 <= u < |s.workers| && u != t ==> !Committing(s.workers[u].pc)
  }

  /** The worker has a chunk it has not finished. */
  predicate Holds(w: Worker) { w.pc.Returned? || Working(w.pc) }

  function ChunkStart(w: Worker): int
    requires Holds(w)
  {
    if Working(w.pc) then w.pc.start else if w.pc.chunk.Some? then w.pc.chunk.value else -1
  }

  /** What a worker knows about the log. */
  predicate WorkerLogged(s: State, t: nat, w: Worker) {
    && (w.pc.LoadAlloc? ==> w.pc.start == s.nAllocated)
    && (w.pc.StoreAlloc? ==> w.pc.start == w.pc.before == s.nAllocated)
    && (Holds(w) ==>
          w.slot < |s.handed| && s.handed[w.slot].thread == t && ChunkStart(w) == w.slot * s.a)
    && (w.pc.StoreCell? ==> w.pc.v == 0)
  }

  ghost predicate LogInv(s: State) {
    && s.nAllocated == |s.handed| * s.a
    && |s.handed| == TotalStores(s)
    && (forall j :: 0 <= j < |s.handed| ==>
          s.handed[j].start == j * s.a && s.handed[j].thread < |s.workers|)
    && (forall t :: 0 <= t < |s.workers| ==> WorkerLogged(s, t, s.workers[t]))
  }

  /** Cells of the j-th chunk its owner has incremented. */
  function Passed(w: Worker, j: nat, a: nat): nat {
    if !Holds(w) || w.slot != j then a else if Working(w.pc) then w.pc.i else 0
  }

  function Cell(s: State, j: nat, o: nat): int {
    if j * s.a + o < |s.cells| then s.cells[j * s.a + o] else 0
  }

  predicate ChunkOk(s: State, j: nat)
    requires j < |s.handed| && s.handed[j].thread < |s.workers|
  {
    forall o :: 0 <= o < s.a ==>
      Cell(s, j, o) == if o < Passed(s.workers[s.handed[j].thread], j, s.a) then 1 else 0
  }

  ghost predicate CellsInv(s: State)
    requires LogInv(s)
  {
    && (forall j :: 0 <= j < |s.handed| ==> ChunkOk(s, j))
    && (forall c :: s.nAllocated <= c < |s.cells| ==> s.cells[c] == 0)
  }

  ghost predicate Inv(s: State) { RangeInv(s) && OneCommits(s) && LogInv(s) && CellsInv(s) }

  // ------------------------------------------------------------------- preservation

  lemma LockInvStep(s: State, t: nat)
    requires LockInv(s) && t < |s.workers|
    ensures LockInv(Step(s, t))
  {
    var pc := s.workers[t].pc;
    assert InCritical(pc) ==> s.mutex.owner == Some(t);
    var r := Step(s, t);
    assert forall u :: 0 <= u < |s.workers| && u != t ==> r.workers[u] == s.workers[u];
  }

  lemma OneCommitsStep(s: State, t: nat)
    requires OneCommits(s) && Solitary(s, t) && t < |s.workers|
    ensures OneCommits(Step(s, t))
  {
    var r := Step(s, t);
    assert forall u :: 0 <= u < |s.workers| && u != t ==> r.workers[u] == s.workers[u];
    assert Committing(r.workers[t].pc) ==> Committing(s.workers[t].pc) || s.workers[t].pc.Take?;
  }

  /** What a step of thread t does to the array, the allocator and the log. */
  ghost predicate Change(s: State, t: nat, r: State)
    requires t < |s.workers|
  {
    var w := s.workers[t];
    && r.a == s.a && r.k == s.k && |r.cells| == |s.cells| && |r.workers| == |s.workers|
    && (forall u :: 0 <= u < |s.workers| && u != t ==> r.workers[u] == s.workers[u])
    && (if w.pc.StoreAlloc?
        then
          && r.nAllocated == w.pc.before + s.a && r.handed == s.handed + [Handout(t, w.pc.start)]
          && r.workers[t].pc == Returned(Some(w.pc.start)) && r.workers[t].slot == |s.handed|
          && TotalStores(r) == TotalStores(s) + 1
        else
          && r.nAllocated == s.nAllocated && r.handed == s.handed && r.workers[t].slot == w.slot
          && TotalStores(r) == TotalStores(s))
    && (if w.pc.StoreCell?
        then
          && 0 <= w.pc.start + w.pc.i < |s.cells| && r.cells == s.cells[w.pc.start + w.pc.i := Inc8(w.pc.v)]
          && r.workers[t].pc == LoadCell(w.pc.start, w.pc.i + 1)
        else
          && r.cells == s.cells
          && (!w.pc.StoreAlloc? ==> forall j :: Passed(r.workers[t], j, s.a) == Passed(w, j, s.a)))
  }

  lemma StepChange(s: State, t: nat)
    requires RangeInv(s) && t < |s.workers|
    ensures Change(s, t, Step(s, t))
  {
    assert s.workers[t] in s.workers;
    StoresStep(s, t);
  }

  lemma OwnLogged(s: State, t: nat)
    requires Inv(s) && t < |s.workers|
    ensures WorkerLogged(Step(s, t), t, Step(s, t).workers[t])
  {
    var w := s.workers[t];
    assert w in s.workers && WorkerLogged(s, t, w);
    StoresStep(s, t);
    if w.pc.LoadCell? && w.pc.i < s.a {
      assert ChunkOk(s, w.slot);
      assert Cell(s, w.slot, w.pc.i) == 0;
    }
  }

  lemma LogInvChange(s: State, t: nat, r: State)
    requires Inv(s) && t < |s.workers| && Change(s, t, r) && WorkerLogged(r, t, r.workers[t])
    ensures LogInv(r)
  {
    assert WorkerLogged(s, t, s.workers[t]);
    assert (|s.handed| + 1) * s.a == |s.handed| * s.a + s.a;
    forall u | 0 <= u < |r.workers| ensures WorkerLogged(r, u, r.workers[u]) {
      if u != t {
        assert WorkerLogged(s, u, s.workers[u]);
        assert s.workers[t].pc.StoreAlloc? ==> !Committing(s.workers[u].pc);
      }
    }
  }

  lemma DifferentCells(a: nat, j: nat, o: nat, i: nat, q: nat)
    requires o < a && q < a && j != i
    ensures j * a + o != i * a + q
  {
    if j < i {
      MulStrict(a, j, i);
    } else {
      MulStrict(a, i, j);
    }
  }

  lemma ChunkInside(s: State, j: nat, o: nat)
    requires RangeInv(s) && LogInv(s) && j < |s.handed| && o < s.a
    ensures j * s.a + o < s.nAllocated <= |s.cells|
  {
    MulStrict(s.a, j, |s.handed|);
    UpperBound(s.workers, Stores, s.k);
    MulMono(s.a, TotalStores(s), |s.workers| * s.k);
  }

  /** Chunks handed out before the step. */
  lemma OldChunk(s: State, t: nat, r: State, j: nat)
    requires Inv(s) && t < |s.workers| && Change(s, t, r) && j < |s.handed|
    ensures j < |r.handed| && r.handed[j] == s.handed[j] && ChunkOk(r, j)
  {
    var w := s.workers[t];
    var u := s.handed[j].thread;
    assert WorkerLogged(s, t, w) && w in s.workers && ChunkOk(s, j);
    forall o | 0 <= o < s.a
      ensures Cell(r, j, o) == if o < Passed(r.workers[u], j, s.a) then 1 else 0
    {
      assert Cell(s, j, o) == if o < Passed(s.workers[u], j, s.a) then 1 else 0;
      if w.pc.StoreCell? {
        ChunkInside(s, j, o);
        if j == w.slot {
          assert u == t;
        } else {
          DifferentCells(s.a, j, o, w.slot, w.pc.i);
        }
      } else {
        assert Cell(r, j, o) == Cell(s, j, o);
      }
    }
  }

  /** The chunk the step hands out. */
  lemma NewChunk(s: State, t: nat, r: State)
    requires Inv(s) && t < |s.workers| && Change(s, t, r) && s.workers[t].pc.StoreAlloc?
    ensures ChunkOk(r, |s.handed|)
  {
    assert Passed(r.workers[t], |s.handed|, s.a) == 0;
    forall o | 0 <= o < s.a ensures Cell(r, |s.handed|, o) == 0 {
    }
  }

  lemma CellsInvChange(s: State, t: nat, r: State)
    requires Inv(s) && t < |s.workers| && Change(s, t, r) && LogInv(r)
    ensures CellsInv(r)
  {
    var w := s.workers[t];
    assert WorkerLogged(s, t, w) && w in s.workers;
    forall j | 0 <= j < |r.handed| ensures ChunkOk(r, j) {
      if j < |s.handed| {
        OldChunk(s, t, r, j);
      } else {
        NewChunk(s, t, r);
      }
    }
    if w.pc.StoreCell? {
      ChunkInside(s, w.slot, w.pc.i);
    }
  }

  lemma InvStep(s: State, t: nat)
    requires Inv(s) && Solitary(s, t)
    ensures Inv(Step(s, t))
  {
    if t < |s.workers| {
      RangeInvStep(s, t);
      OneCommitsStep(s, t);
      StepChange(s, t);
      OwnLogged(s, t);
      LogInvChange(s, t, Step(s, t));
      CellsInvChange(s, t, Step(s, t));
    }
  }

  /** With the mutex every run is of this kind. */
  lemma LockedIsSolitary(n: nat, size: nat, work: nat, a: nat, schedule: seq<nat>)
    requires a > 0
    ensures Effective(Solitary, Step, Init(n, size, work, a, true), schedule)
  {
    forall s, t: nat | LockInv(s) ensures Solitary(s, t) && LockInv(Step(s, t)) {
      if t < |s.workers| {
        LockInvStep(s, t);
        assert InCritical(s.workers[t].pc) ==> s.mutex.owner == Some(t);
      }
    }
    AllAllowed(Solitary, Step, LockInv, Init(n, size, work, a, true), schedule);
  }

  /** A run with the mutex, or one without it in which no thread fixes its chunk while
      another is about to move `allocated`. */
  ghost predicate Separated(n: nat, size: nat, work: nat, a: nat, sync: bool, schedule: seq<nat>)
    requires a > 0
  {
    sync || Effective(Solitary, Step, Init(n, size, work, a, sync), schedule)
  }

  lemma Always(n: nat, size: nat, work: nat, a: nat, sync: bool, schedule: seq<nat>)
    requires Enough(n, size, work, a) && Separated(n, size, work, a, sync, schedule)
    ensures var e := Exec(Step, Init(n, size, work, a, sync), schedule);
      Inv(e) && e.a == a && e.k == Chunks(work, a) && |e.workers| == n && |e.cells| == size
  {
    var s0 := Init(n, size, work, a, sync);
    RangeInvInit(n, size, work, a, sync);
    if sync {
      LockedIsSolitary(n, size, work, a, schedule);
    }
    forall s, t: nat | Inv(s) && Solitary(s, t) ensures Inv(Step(s, t)) {
      InvStep(s, t);
    }
    AllowedOrNot(Solitary, Step, Inv, (s: State) => true, s0, schedule);
    SizesStay(n, size, work, a, sync, schedule);
  }

  // ------------------------------------------------------------------- the theorems

  /** In every such run the chunks come one after the other from the start of the
      array: they never overlap, and `allocated` is the end of the last one. */
  lemma ChunksDisjoint(n: nat, size: nat, work: nat, a: nat, sync: bool, schedule: seq<nat>)
    requires Enough(n, size, work, a) && Separated(n, size, work, a, sync, schedule)
    ensures var e := Exec(Step, Init(n, size, work, a, sync), schedule);
      && e.nAllocated == |e.handed| * a <= |e.cells|
      && (forall i, j :: 0 <= i < j < |e.handed| ==> e.handed[i].start + a <= e.handed[j].start)
      && (forall j :: 0 <= j < |e.handed| ==> e.handed[j].start == j * a)
  {
    Always(n, size, work, a, sync, schedule);
    var e := Exec(Step, Init(n, size, work, a, sync), schedule);
    forall i, j | 0 <= i < j < |e.handed| ensures e.handed[i].start + a <= e.handed[j].start {
      MulStrict(a, i, j);
    }
    UpperBound(e.workers, Stores, e.k);
    MulMono(a, TotalStores(e), n * e.k);
  }

  /** No two threads ever work on the same chunk. */
  lemma ExclusiveChunks(n: nat, size: nat, work: nat, a: nat, sync: bool, schedule: seq<nat>, t: nat, u: nat)
    requires Enough(n, size, work, a) && Separated(n, size, work, a, sync, schedule) && t < n && u < n && t != u
    requires var e := Exec(Step, Init(n, size, work, a, sync), schedule);
      |e.workers| == n && Holds(e.workers[t]) && Holds(e.workers[u])
    ensures var e := Exec(Step, Init(n, size, work, a, sync), schedule);
      ChunkStart(e.workers[t]) != ChunkStart(e.workers[u])
  {
    Always(n, size, work, a, sync, schedule);
    var e := Exec(Step, Init(n, size, work, a, sync), schedule);
    assert WorkerLogged(e, t, e.workers[t]) && WorkerLogged(e, u, e.workers[u]);
    DifferentCells(a, e.workers[t].slot, 0, e.workers[u].slot, 0);
  }

  /** No cell is ever incremented twice; and a lone thread's runs are all of this kind. */
  lemma AtMostOnce(n: nat, size: nat, work: nat, a: nat, sync: bool, schedule: seq<nat>)
    requires Enough(n, size, work, a) && (n <= 1 || Separated(n, size, work, a, sync, schedule))
    ensures var e := Exec(Step, Init(n, size, work, a, sync), schedule);
      forall c :: 0 <= c < |e.cells| ==> 0 <= e.cells[c] <= 1
  {
    if n <= 1 {
      AllAllowed(Solitary, Step, (s: State) => |s.workers| <= 1, Init(n, size, work, a, sync), schedule);
    }
    Always(n, size, work, a, sync, schedule);
    var e := Exec(Step, Init(n, size, work, a, sync), schedule);
    forall c | 0 <= c < |e.cells| ensures 0 <= e.cells[c] <= 1 {
      if c < e.nAllocated {
        var j, o := ChunkOf(e, c);
      }
    }
  }

  /** A cell below `allocated` lies in a chunk that was handed out. */
  lemma ChunkOf(e: State, c: nat) returns (j: nat, o: nat)
    requires Inv(e) && c < e.nAllocated && c < |e.cells|
    ensures j < |e.handed| && o < e.a && c == j * e.a + o && e.handed[j].start == j * e.a
    ensures e.cells[c] == if o < Passed(e.workers[e.handed[j].thread], j, e.a) then 1 else 0
  {
    j, o := c / e.a, c % e.a;
    if j >= |e.handed| {
      MulMono(e.a, |e.handed|, j);
    }
    assert ChunkOk(e, j) && Cell(e, j, o) == e.cells[c];
  }

  function IsOf(t: nat): Handout -> int { (h: Handout) => if h.thread == t then 1 else 0 }

  /** Chunks handed to thread t. */
  function ShareOf(s: State, t: nat): int { Sum(s.handed, IsOf(t)) }

  ghost predicate ShareInv(s: State) {
    forall t :: 0 <= t < |s.workers| ==> ShareOf(s, t) == Stores(s.workers[t])
  }

  lemma ShareInvStep(s: State, t: nat)
    requires RangeInv(s) && ShareInv(s) && t < |s.workers|
    ensures ShareInv(Step(s, t))
  {
    var r := Step(s, t);
    StoresStep(s, t);
    forall u | 0 <= u < |r.workers| ensures ShareOf(r, u) == Stores(r.workers[u]) {
      if s.workers[t].pc.StoreAlloc? {
        SumAppend(s.handed, IsOf(u), Handout(t, s.workers[t].pc.start));
      }
    }
  }

  /** When all threads have finished, each has had as many chunks as its work takes,
      the chunks cover the front of the array without a gap, and there every cell has
      been incremented exactly once and beyond it none. */
  lemma TiledAndIncrementedOnce(n: nat, size: nat, work: nat, a: nat, sync: bool, schedule: seq<nat>)
    requires Enough(n, size, work, a) && Separated(n, size, work, a, sync, schedule)
    requires Complete(Exec(Step, Init(n, size, work, a, sync), schedule))
    ensures var e := Exec(Step, Init(n, size, work, a, sync), schedule);
      && |e.handed| == n * Chunks(work, a) && e.nAllocated == |e.handed| * a <= |e.cells| == size
      && (forall t :: 0 <= t < n ==> ShareOf(e, t) == Chunks(work, a))
      && (forall c :: 0 <= c < e.nAllocated ==>
            e.cells[c] == 1 && exists j :: 0 <= j < |e.handed| && e.handed[j].start <= c < e.handed[j].start + a)
      && (forall c :: e.nAllocated <= c < size ==> e.cells[c] == 0)
  {
    Always(n, size, work, a, sync, schedule);
    var e := Exec(Step, Init(n, size, work, a, sync), schedule);
    AllStored(e);
    ChunksDisjoint(n, size, work, a, sync, schedule);
    Shares(n, size, work, a, sync, schedule);
    forall t | 0 <= t < n ensures ShareOf(e, t) == e.k {
      assert WorkerInRange(e, e.workers[t]) by {
        assert e.workers[t] in e.workers;
      }
    }
    forall c | 0 <= c < e.nAllocated
      ensures e.cells[c] == 1 && exists j :: 0 <= j < |e.handed| && e.handed[j].start <= c < e.handed[j].start + a
    {
      var j, o := ChunkOf(e, c);
    }
  }

  lemma AllStored(e: State)
    requires RangeInv(e) && Complete(e)
    ensures TotalStores(e) == |e.workers| * e.k
  {
    forall w | w in e.workers ensures e.k <= Stores(w) <= e.k {
      assert WorkerInRange(e, w);
    }
    SumBounds(e.workers, Stores, e.k, e.k);
  }

  lemma Shares(n: nat, size: nat, work: nat, a: nat, sync: bool, schedule: seq<nat>)
    requires Enough(n, size, work, a)
    ensures ShareInv(Exec(Step, Init(n, size, work, a, sync), schedule))
  {
    RangeInvInit(n, size, work, a, sync);
    var inv := (x: State) => RangeInv(x) && ShareInv(x);
    forall s, t: nat | inv(s) ensures inv(Step(s, t)) {
      RangeInvStep(s, t);
      if t < |s.workers| {
        ShareInvStep(s, t);
      }
    }
    Invariant(Step, inv, Init(n, size, work, a, sync), schedule);
  }

  // -------------------------------------------------------------- the program's state

  class OrangeProblem {
    const a: nat
    const work: nat
    const useMutex: bool
    const cells: array<int>
    var nAllocated: int
    var mutex: Monitor
    var workers: seq<Worker>
    var handed: seq<Handout>  // only the log

    constructor (n: nat, size: nat, work: nat, a: nat, useMutex: bool)
      requires a > 0
      ensures this.a == a && View() == Init(n, size, work, a, useMutex) && fresh(cells)
    {
      this.a, this.work, this.useMutex := a, work, useMutex;
      cells := new int[size](_ => 0);
      nAllocated, mutex, handed := 0, FRESH, [];
      workers := seq(n, _ => Worker(Top, 0, 0, 0));
    }

    ghost function View(): State
      reads this, cells
    {
      State(a, work, if a > 0 then Chunks(work, a) else 0, useMutex, nAllocated, cells[..], mutex, workers, handed)
    }

    /** The calls and accesses inside the optional critical section: one step of
        buff_alloc, of taking the mutex before it, or of giving it back after. */
    method BuffAlloc(t: nat)
      requires t < |workers| && Allocating(workers[t].pc)
      modifies this
      ensures View() == Step(old(View()), t)
    {
      var w := workers[t];
      match w.pc {
        case WantLock =>
          if mutex.Free() {
            mutex := mutex.Lock(t);
            workers := workers[t := w.(pc := Check)];
          }
        case Check =>
          workers := workers[t := w.(pc := if nAllocated >= cells.Length then Returned(None) else CheckEnd)];
        case CheckEnd =>
          workers := workers[t := w.(pc := if nAllocated + a > cells.Length then Returned(None) else Take)];
        case Take =>
          workers := workers[t := w.(pc := LoadAlloc(nAllocated))];
        case LoadAlloc(start) =>
          workers := workers[t := w.(pc := StoreAlloc(start, nAllocated))];
        case StoreAlloc(start, before) =>
          nAllocated := before + a;
          workers := workers[t := w.(pc := Returned(Some(start)), slot := |handed|)];
          handed := handed + [Handout(t, start)];
        case Returned(chunk) =>
          if useMutex {
            mutex := mutex.Unlock();
          }
          workers := workers[t := w.(
            pc := if chunk.None? then Failed else LoadCell(chunk.value, 0),
            workDone := w.workDone + a, chunks := w.chunks + 1)];
      }
    }

    /** The loop of thread_work around it, one access to a cell at a time. */
    method ThreadWork(t: nat)
      modifies this, cells
      ensures View() == Step(old(View()), t)
    {
      if t >= |workers| {
        return;
      }
      if Allocating(workers[t].pc) {
        BuffAlloc(t);
        return;
      }
      var w := workers[t];
      match w.pc {
        case Top =>
          var next := if w.workDone < work then (if useMutex then WantLock else Check) else Done;
          workers := workers[t := w.(pc := next)];
        case LoadCell(start, i) =>
          var next := Top;
          if i < a {
            next := OutOfBounds;
            if 0 <= start + i < cells.Length {
              next := StoreCell(start, i, cells[start + i]);
            }
          }
          workers := workers[t := w.(pc := next)];
        case StoreCell(start, i, v) =>
          var next := OutOfBounds;
          if 0 <= start + i < cells.Length {
            cells[start + i] := Inc8(v);
            next := LoadCell(start, i + 1);
          }
          workers := workers[t := w.(pc := next)];
        case _ =>
      }
    }
  }
}
