/** A data provider appends to a linked list under a mutex and signals; a hardware
    handler waits for data and drains the list, dropping the mutex around each write.
    The first module is the concurrent protocol over the list's contents, the second
    the heap list itself and the program state built on it. */
module DriverProtocol {
  import opened Runs
  import opened Monitors

  const HANDLER := 0
  const PROVIDER := 1

  datatype HandlerPc =
    | HTop | HWantLock | HTestReady | HTestRunning | HEnterWait | HWaiting
    | HGet | HUnlockItem(data: int) | HWrite(data: int) | HRelock
    | HClear | HUnlock | HExited

  datatype ProviderPc =
    | PTop | PPick | PLoop(n: nat, i: nat)
    | PWantLock(n: nat, i: nat, data: int) | PAdd(n: nat, i: nat, data: int)
    | PReady(n: nat, i: nat) | PUnlock(n: nat, i: nat) | PSignal(n: nat, i: nat)
    | PFinalSignal | PExited

  /** `enqueued` and `written` log the items added to the list and the items written
      to the hardware; they are not part of the program. */
  datatype State = State(
    running: bool, dataReady: nat, queue: seq<int>, monitor: Monitor,
    h: HandlerPc, p: ProviderPc, enqueued: seq<int>, written: seq<int>)

  /** The provider's random number and the outcome of its malloc are inputs. */
  datatype Action = Handler | Provider(random: nat, mallocOk: bool) | Stop | Spurious

  const START := State(true, 0, [], FRESH, HTop, PTop, [], [])

  predicate Enabled(s: State, a: Action) {
    match a
    case Handler =>
      (match s.h
       case HWantLock | HRelock => s.monitor.Free()
       case HWaiting => HANDLER !in s.monitor.waiting && s.monitor.Free()
       case HExited => false
       case _ => true)
    case Provider(_, _) => !s.p.PExited? && (s.p.PWantLock? ==> s.monitor.Free())
    case Stop => s.running
    case Spurious => HANDLER in s.monitor.waiting
  }

  function Step(s: State, a: Action): State {
    if !Enabled(s, a) then s else
    match a
    case Handler => HandlerStep(s)
    case Provider(random, mallocOk) => ProviderStep(s, random, mallocOk)
    case Stop => s.(running := false)
    case Spurious => s.(monitor := s.monitor.Signal(HANDLER))
  }

  function HandlerStep(s: State): State
    requires Enabled(s, Handler)
  {
    match s.h
    case HTop => s.(h := if s.running then HWantLock else HExited)
    case HWantLock => s.(h := HTestReady, monitor := s.monitor.Lock(HANDLER))
    case HTestReady => s.(h := if s.dataReady == 0 then HTestRunning else HGet)
    case HTestRunning => s.(h := if s.running then HEnterWait else HGet)
    case HEnterWait => s.(h := HWaiting, monitor := s.monitor.Wait(HANDLER))
    case HWaiting => s.(h := HTestReady, monitor := s.monitor.Lock(HANDLER))
    case HGet =>
      if s.queue == [] then s.(h := HClear) else s.(h := HUnlockItem(s.queue[0]), queue := s.queue[1..])
    case HUnlockItem(d) => s.(h := HWrite(d), monitor := s.monitor.Unlock())
    case HWrite(d) => s.(h := HRelock, written := s.written + [d])
    case HRelock => s.(h := HGet, monitor := s.monitor.Lock(HANDLER))
    case HClear => s.(h := HUnlock, dataReady := 0)
    case HUnlock => s.(h := HTop, monitor := s.monitor.Unlock())
  }

  /** A failed allocation leaves the list as it is. */
  function Add(s: State, data: int, mallocOk: bool): State {
    if mallocOk then s.(queue := s.queue + [data], enqueued := s.enqueued + [data]) else s
  }

  function ProviderStep(s: State, random: nat, mallocOk: bool): State
    requires Enabled(s, Provider(random, mallocOk))
  {
    match s.p
    case PTop => s.(p := if s.running then PPick else PFinalSignal)
    case PPick => s.(p := PLoop(random % 10, 0))
    case PLoop(n, i) => s.(p := if i < n then PWantLock(n, i, n * 100 + i) else PTop)
    case PWantLock(n, i, data) => s.(p := PAdd(n, i, data), monitor := s.monitor.Lock(PROVIDER))
    case PAdd(n, i, data) => Add(s, data, mallocOk).(p := PReady(n, i))
    case PReady(n, i) => s.(p := PUnlock(n, i), dataReady := 1)
    case PUnlock(n, i) => s.(p := PSignal(n, i), monitor := s.monitor.Unlock())
    case PSignal(n, i) => s.(p := PLoop(n, i + 1), monitor := s.monitor.Signal(HANDLER))
    case PFinalSignal => s.(p := PExited, monitor := s.monitor.Signal(HANDLER))
  }

  // --------------------------------------------------------------- what a run keeps

  predicate HandlerInside(h: HandlerPc) {
    h.HTestReady? || h.HTestRunning? || h.HEnterWait? || h.HGet? || h.HUnlockItem? || h.HClear? || h.HUnlock?
  }

  predicate ProviderInside(p: ProviderPc) { p.PAdd? || p.PReady? || p.PUnlock? }

  ghost predicate LockInv(s: State) {
    && (HandlerInside(s.h) <==> s.monitor.owner == Some(HANDLER))
    && (ProviderInside(s.p) <==> s.monitor.owner == Some(PROVIDER))
    && (s.monitor.owner.Some? ==> s.monitor.owner.value < 2)
    && s.monitor.waiting <= {HANDLER}
    && (HANDLER in s.monitor.waiting ==> s.h.HWaiting?)
  }

  /** The item between the list and the hardware. */
  function InHand(h: HandlerPc): seq<int> {
    if h.HUnlockItem? || h.HWrite? then [h.data] else []
  }

  predicate FifoInv(s: State) { s.enqueued == s.written + InHand(s.h) + s.queue }

  predicate ReadyInv(s: State) {
    && s.dataReady <= 1
    && (s.queue != [] ==> s.dataReady == 1 || s.p.PReady?)
    && (s.p.PUnlock? ==> s.dataReady == 1)
    && (s.h.HClear? ==> s.queue == [])
    && (s.h.HTestRunning? || s.h.HEnterWait? ==> s.dataReady == 0)
    && (HANDLER in s.monitor.waiting && s.dataReady == 1 ==> s.p.PUnlock? || s.p.PSignal?)
  }

  ghost predicate Inv(s: State) { LockInv(s) && FifoInv(s) && ReadyInv(s) }

  lemma FifoInvStep(s: State, a: Action)
    requires FifoInv(s)
    ensures FifoInv(Step(s, a))
  {
    var r := Step(s, a);
    if a.Handler? && s.h.HGet? && s.queue != [] {
      assert s.queue == [s.queue[0]] + s.queue[1..];
    }
  }

  lemma LockInvStep(s: State, a: Action)
    requires LockInv(s)
    ensures LockInv(Step(s, a))
  {
  }

  lemma ReadyInvStep(s: State, a: Action)
    requires LockInv(s) && ReadyInv(s)
    ensures ReadyInv(Step(s, a))
  {
  }

  lemma Always(s: State, schedule: seq<Action>)
    requires Inv(s)
    ensures Inv(Exec(Step, s, schedule))
  {
    forall x, a | Inv(x) ensures Inv(Step(x, a)) {
      LockInvStep(x, a);
      FifoInvStep(x, a);
      ReadyInvStep(x, a);
    }
    Invariant(Step, Inv, s, schedule);
  }

  // ------------------------------------------------------------------- the theorems

  /** At every step of every run, the items enqueued so far are the items written,
      the item in the handler's hand, and the list, in this order. */
  lemma FifoConservation(schedule: seq<Action>)
    ensures var e := Exec(Step, START, schedule);
      e.enqueued == e.written + InHand(e.h) + e.queue && e.written <= e.enqueued
  {
    Always(START, schedule);
  }

  /** No item is stranded: whenever the mutex is free, also in the windows inside the
      drain loop, a non-empty list has its flag up. */
  lemma NothingStranded(schedule: seq<Action>)
    requires Exec(Step, START, schedule).monitor.Free()
    ensures var e := Exec(Step, START, schedule);
      e.queue != [] ==> e.dataReady == 1
  {
    Always(START, schedule);
  }

  /** The flag is up when the provider leaves the mutex, whether or not its malloc failed. */
  lemma FlagRaised(schedule: seq<Action>)
    ensures Exec(Step, START, schedule).p.PUnlock? ==> Exec(Step, START, schedule).dataReady == 1
  {
    Always(START, schedule);
  }

  /** The handler leaves its wait loop only for a raised flag or because the program stops:
      no wakeup makes it drain the list without one of the two. */
  lemma DrainsOnlyWhenDue(schedule: seq<Action>)
    ensures var e := Exec(Step, START, schedule);
      !e.h.HGet? && !e.h.HRelock? && Step(e, Handler).h.HGet? ==> e.dataReady == 1 || !e.running
  {
    Always(START, schedule);
  }

  /** No wakeup is lost: while the handler sleeps on a raised flag, the provider holds
      the mutex or still has to signal. */
  lemma NoLostWakeup(schedule: seq<Action>)
    requires HANDLER in Exec(Step, START, schedule).monitor.waiting
    ensures var e := Exec(Step, START, schedule);
      && (e.dataReady == 1 ==> e.p.PSignal? || e.monitor.owner == Some(PROVIDER))
      && (e.queue != [] ==> e.p.PSignal? || e.monitor.owner == Some(PROVIDER))
  {
    Always(START, schedule);
  }

  /** Once the handler has gone to sleep for good or for now, nobody is inside the
      critical section and no signal is owed, everything enqueued has been written. */
  lemma AsleepMeansDrained(schedule: seq<Action>)
    requires var e := Exec(Step, START, schedule);
      e.monitor.Free() && !Enabled(e, Handler) && !e.h.HExited? && !e.p.PSignal?
    ensures var e := Exec(Step, START, schedule);
      e.written == e.enqueued && e.queue == [] && HANDLER in e.monitor.waiting
  {
    Always(START, schedule);
  }

  /** Steps the handler can take on its own: each listed item is worth four. */
  function HandlerFuel(s: State): int {
    var testRunning := if s.running then 2 else 9;
    var testReady := if s.dataReady == 0 then testRunning + 1 else 9;
    4 * |s.queue| +
    match s.h
    case HExited => 0
    case HWaiting => if HANDLER in s.monitor.waiting then 0 else testReady + 1
    case HEnterWait => 1
    case HTestRunning => testRunning
    case HTestReady => testReady
    case HWantLock => testReady + 1
    case HTop => if s.running then testReady + 2 else 1
    case HUnlock => if s.running then testReady + 3 else 2
    case HClear => 7
    case HGet => 8
    case HRelock => 9
    case HWrite(_) => 10
    case HUnlockItem(_) => 11
  }

  predicate HandlerMoves(s: State, a: Action) { a.Handler? && Enabled(s, a) }

  lemma HandlerFuelStep(s: State)
    requires Enabled(s, Handler)
    ensures HandlerFuel(HandlerStep(s)) + 1 <= HandlerFuel(s)
  {
  }

  /** Left alone, the handler comes to rest: from any state it can take at most
      13 steps and four more for each listed item. */
  lemma HandlerComesToRest(s: State, schedule: seq<Action>)
    requires Effective(HandlerMoves, Step, s, schedule)
    ensures |schedule| <= 13 + 4 * |s.queue|
  {
    forall x, a | HandlerMoves(x, a) ensures HandlerFuel(Step(x, a)) + 1 <= HandlerFuel(x) {
      HandlerFuelStep(x);
    }
    Budget(HandlerMoves, Step, (x: State) => true, HandlerFuel, (x: State) => 0, 0, s, schedule);
  }

  // ------------------------------------------------------------------------ shutdown

  predicate Scheduled(s: State, a: Action) { Enabled(s, a) && !a.Spurious? }

  /** Nobody has left its loop while the program runs, and the provider's loop has at
      most nine rounds. */
  predicate LoopInv(s: State) {
    && (s.running ==> !s.h.HExited? && !s.p.PFinalSignal? && !s.p.PExited?)
    && (InLoop(s.p) ==> s.p.n < 10)
  }

  predicate InLoop(p: ProviderPc) {
    p.PLoop? || p.PWantLock? || p.PAdd? || p.PReady? || p.PUnlock? || p.PSignal?
  }

  lemma LoopInvStep(s: State, a: Action)
    requires LoopInv(s)
    ensures LoopInv(Step(s, a))
  {
  }

  lemma AlwaysLooping(schedule: seq<Action>)
    ensures LoopInv(Exec(Step, START, schedule))
  {
    forall x, a | LoopInv(x) ensures LoopInv(Step(x, a)) {
      LoopInvStep(x, a);
    }
    Invariant(Step, LoopInv, START, schedule);
  }

  /** Neither thread can take a step. */
  predicate AtRest(s: State) { !Enabled(s, Handler) && !Enabled(s, Provider(0, true)) }

  /** While the program runs, a thread can move without a spurious wakeup; afterwards
      one can until the provider has exited, the mutex is free and the handler has
      exited or sleeps. */
  lemma SomeThreadMoves(schedule: seq<Action>)
    ensures var e := Exec(Step, START, schedule);
      (e.running ==> !AtRest(e)) &&
      (AtRest(e) <==>
         e.p.PExited? && e.monitor.Free() && (e.h.HExited? || HANDLER in e.monitor.waiting))
  {
    Always(START, schedule);
    AlwaysLooping(schedule);
  }

  /** Where a run comes to rest, `running` is false, the provider has exited and the
      mutex is free; the handler has exited, or it sleeps on a lowered flag with an
      empty list and everything enqueued has been written. */
  lemma Quiescence(schedule: seq<Action>)
    requires AtRest(Exec(Step, START, schedule))
    ensures var e := Exec(Step, START, schedule);
      && !e.running && e.p.PExited? && e.monitor.Free()
      && (e.h.HExited? ||
          (HANDLER in e.monitor.waiting && e.dataReady == 0 && e.queue == [] && e.written == e.enqueued))
  {
    Always(START, schedule);
    AlwaysLooping(schedule);
  }

  /** The two steps after which an item stays in the list for good: the handler leaves
      its loop although the list is not empty, and an item is added when the handler
      has left. */
  predicate Strands(s: State, a: Action) {
    || (a.Handler? && s.h.HTop? && !s.running && s.queue != [])
    || (a.Provider? && s.p.PAdd? && a.mallocOk && s.h.HExited?)
  }

  predicate Serves(s: State, a: Action) { !Strands(s, a) }

  predicate Drained(s: State) { s.h.HExited? ==> s.queue == [] }

  predicate Stranded(s: State) { s.h.HExited? && s.queue != [] }

  lemma DrainedStep(s: State, a: Action)
    requires Drained(s)
    ensures if Serves(s, a) then Drained(Step(s, a)) else Stranded(Step(s, a))
  {
  }

  lemma StrandedStep(s: State, a: Action)
    requires Stranded(s)
    ensures Stranded(Step(s, a))
  {
  }

  /** Where a run has come to rest, everything enqueued has been written if and only if
      the run has no such step. */
  lemma AllWrittenExactly(schedule: seq<Action>)
    requires AtRest(Exec(Step, START, schedule))
    ensures var e := Exec(Step, START, schedule);
      e.written == e.enqueued <==> Effective(Serves, Step, START, schedule)
  {
    forall x, a | Drained(x) ensures if Serves(x, a) then Drained(Step(x, a)) else Stranded(Step(x, a)) {
      DrainedStep(x, a);
    }
    forall x, a | Stranded(x) ensures Stranded(Step(x, a)) {
      StrandedStep(x, a);
    }
    AllowedOrNot(Serves, Step, Drained, Stranded, START, schedule);
    Quiescence(schedule);
    Always(START, schedule);
  }

  lemma AppendTwo(s: State, schedule: seq<Action>, a: Action, b: Action)
    ensures Exec(Step, s, schedule + [a, b]) == Step(Step(Exec(Step, s, schedule), a), b)
  {
    ExecAppend(Step, s, schedule, a);
    ExecAppend(Step, s, schedule + [a], b);
    assert schedule + [a] + [b] == schedule + [a, b];
  }

  const HANDLER_GONE := State(false, 0, [], FRESH, HExited, PLoop(1, 0), [], [])

  lemma HandlerLeaves() returns (schedule: seq<Action>)
    ensures Exec(Step, START, schedule) == HANDLER_GONE
  {
    var p := Provider(1, true);
    AppendTwo(START, [], p, Stop);
    AppendTwo(START, [] + [p, Stop], Handler, p);
    schedule := [] + [p, Stop] + [Handler, p];
  }

  lemma OneMoreItem() returns (schedule: seq<Action>)
    ensures Exec(Step, HANDLER_GONE, schedule)
         == State(false, 1, [100], FRESH.Lock(PROVIDER), HExited, PUnlock(1, 0), [100], [])
  {
    var p := Provider(1, true);
    AppendTwo(HANDLER_GONE, [], p, p);
    AppendTwo(HANDLER_GONE, [] + [p, p], p, p);
    schedule := [] + [p, p] + [p, p];
  }

  lemma ProviderLeaves(s: State) returns (schedule: seq<Action>)
    requires s == State(false, 1, [100], FRESH.Lock(PROVIDER), HExited, PUnlock(1, 0), [100], [])
    ensures Exec(Step, s, schedule) == State(false, 1, [100], FRESH, HExited, PExited, [100], [])
  {
    var p := Provider(1, true);
    AppendTwo(s, [], p, p);
    AppendTwo(s, [] + [p, p], p, p);
    ExecAppend(Step, s, [] + [p, p] + [p, p], p);
    schedule := [] + [p, p] + [p, p] + [p];
  }

  /** Such a run exists: the provider has chosen to add one item, the program is stopped,
      the handler leaves, and the item is added. */
  lemma ItemStranded() returns (schedule: seq<Action>)
    ensures var e := Exec(Step, START, schedule);
      AtRest(e) && e.queue == [100] && e.written == [] && e.enqueued == [100]
  {
    var first := HandlerLeaves();
    var second := OneMoreItem();
    var third := ProviderLeaves(Exec(Step, HANDLER_GONE, second));
    ExecConcat(Step, HANDLER_GONE, second, third);
    ExecConcat(Step, START, first, second + third);
    schedule := first + (second + third);
  }

  /** And one in which the handler sleeps for ever: the last signal, which the provider
      sends without the mutex, comes when the handler has read both flags and does not
      yet wait. */
  lemma HandlerSleepsForEver() returns (schedule: seq<Action>)
    ensures var e := Exec(Step, START, schedule);
      AtRest(e) && HANDLER in e.monitor.waiting
  {
    var p := Provider(0, true);
    schedule := [];
    AppendTwo(START, schedule, Handler, Handler);
    schedule := schedule + [Handler, Handler];
    AppendTwo(START, schedule, Handler, Handler);
    schedule := schedule + [Handler, Handler];
    assert Exec(Step, START, schedule) == State(true, 0, [], FRESH.Lock(HANDLER), HEnterWait, PTop, [], []);
    AppendTwo(START, schedule, Stop, p);
    schedule := schedule + [Stop, p];
    AppendTwo(START, schedule, p, Handler);
    schedule := schedule + [p, Handler];
  }

  /** The handler starts to wait when nobody is left to wake it. */
  predicate WaitsTooLate(s: State, a: Action) { a.Handler? && s.h.HEnterWait? && s.p.PExited? }

  predicate WaitsInTime(s: State, a: Action) { !WaitsTooLate(s, a) }

  ghost predicate Awaited(s: State) { HANDLER in s.monitor.waiting ==> !s.p.PExited? }

  ghost predicate Abandoned(s: State) { HANDLER in s.monitor.waiting && s.p.PExited? }

  predicate NoSpurious(schedule: seq<Action>) {
    forall i :: 0 <= i < |schedule| ==> !schedule[i].Spurious?
  }

  lemma AbandonedStep(s: State, a: Action)
    requires LockInv(s) && !a.Spurious?
    ensures Abandoned(s) ==> Abandoned(Step(s, a))
    ensures Awaited(s) ==> if WaitsInTime(s, a) then Awaited(Step(s, a)) else Abandoned(Step(s, a))
  {
  }

  lemma {:induction false} AwaitedOrNot(s: State, schedule: seq<Action>)
    requires LockInv(s) && (Awaited(s) || Abandoned(s)) && NoSpurious(schedule)
    ensures var e := Exec(Step, s, schedule);
      Abandoned(e) <==> Abandoned(s) || !Effective(WaitsInTime, Step, s, schedule)
    decreases |schedule|
  {
    if schedule != [] {
      LockInvStep(s, schedule[0]);
      AbandonedStep(s, schedule[0]);
      AwaitedOrNot(Step(s, schedule[0]), schedule[1..]);
    }
  }

  /** Where a run without spurious wakeups has come to rest, the handler sleeps if and only
      if it has started to wait after the provider, with its last signal, had exited;
      otherwise it has exited too. */
  lemma SleepsAtRestExactly(schedule: seq<Action>)
    requires NoSpurious(schedule) && AtRest(Exec(Step, START, schedule))
    ensures var e := Exec(Step, START, schedule);
      && (HANDLER in e.monitor.waiting <==> !Effective(WaitsInTime, Step, START, schedule))
      && (e.h.HExited? <==> Effective(WaitsInTime, Step, START, schedule))
  {
    AwaitedOrNot(START, schedule);
    Quiescence(schedule);
    Always(START, schedule);
  }

  // ------------------------------------------------------------- what a round enqueues

  /** The items from the i-th on of a round of n. */
  function Items(n: nat, i: nat): seq<int>
    decreases n - i
  {
    if i >= n then [] else [n * 100 + i] + Items(n, i + 1)
  }

  /** The items of the round that a random number begins. */
  function Chosen(s: State, a: Action): seq<int> {
    if a.Provider? && s.p.PPick? then Items(a.random % 10, 0) else []
  }

  /** The items the provider's round has still to add. */
  function ToAdd(p: ProviderPc): seq<int> {
    match p
    case PLoop(n, i) => Items(n, i)
    case PWantLock(n, i, data) => [data] + Items(n, i + 1)
    case PAdd(n, i, data) => [data] + Items(n, i + 1)
    case PReady(n, i) => Items(n, i + 1)
    case PUnlock(n, i) => Items(n, i + 1)
    case PSignal(n, i) => Items(n, i + 1)
    case _ => []
  }

  /** The item that is added with this step, if malloc does not fail. */
  function Tried(s: State, a: Action): seq<int> {
    if a.Provider? && s.p.PAdd? then [s.p.data] else []
  }

  function Added(s: State, a: Action): seq<int> {
    if a.Provider? && a.mallocOk then Tried(s, a) else []
  }

  function Owed(s: State): seq<int> { ToAdd(s.p) }

  function Enqueued(s: State): seq<int> { s.enqueued }

  lemma TryStep(s: State, random: nat, mallocOk: bool)
    requires Enabled(s, Provider(random, mallocOk))
    ensures var a := Provider(random, mallocOk);
      Tried(s, a) + ToAdd(ProviderStep(s, random, mallocOk).p) == ToAdd(s.p) + Chosen(s, a)
  {
    if s.p.PLoop? && s.p.i < s.p.n {
      assert Items(s.p.n, s.p.i) == [s.p.n * 100 + s.p.i] + Items(s.p.n, s.p.i + 1);
    }
  }

  lemma OwedStep(s: State, a: Action)
    ensures Tried(s, a) + Owed(Step(s, a)) == Owed(s) + Chosen(s, a)
  {
    if a.Provider? && Enabled(s, a) {
      TryStep(s, a.random, a.mallocOk);
    } else {
      assert Step(s, a).p == s.p;
    }
  }

  /** For each random number r drawn the provider tries to add the r % 10 items
      (r % 10) * 100 + i, in order, and the next round begins when all have been tried;
      what is enqueued is what malloc did not fail for. */
  lemma EnqueuedIsChosen(schedule: seq<Action>)
    ensures var e := Exec(Step, START, schedule);
      && Matched(Step, Tried, START, schedule) + ToAdd(e.p) == Matched(Step, Chosen, START, schedule)
      && e.enqueued == Matched(Step, Added, START, schedule)
  {
    forall s, a ensures Tried(s, a) + Owed(Step(s, a)) == Owed(s) + Chosen(s, a) {
      OwedStep(s, a);
    }
    Ledger(Step, Owed, Tried, Chosen, START, schedule);
    forall s, a ensures Enqueued(Step(s, a)) == Enqueued(s) + Added(s, a) {
    }
    Account(Step, (s: State) => true, Enqueued, Added, START, schedule);
  }

  lemma {:induction false} ItemsAre(n: nat, i: nat, j: nat)
    requires i <= n
    ensures |Items(n, i)| == n - i && (j < n - i ==> Items(n, i)[j] == n * 100 + i + j)
    decreases n - i
  {
    if i < n {
      ItemsAre(n, i + 1, if j == 0 then 0 else j - 1);
    }
  }

  /** A thread that is not asleep and not waiting for the mutex goes on with every step. */
  lemma GoesOn(s: State, random: nat, mallocOk: bool)
    ensures Enabled(s, Handler) ==> HandlerStep(s).h != s.h
    ensures Enabled(s, Provider(random, mallocOk)) ==> ProviderStep(s, random, mallocOk).p != s.p
  {
  }

  /** Steps the handler can still take once `running` is false, a wakeup included. */
  function LastHandlerFuel(h: HandlerPc): nat {
    match h
    case HExited => 0
    case HTop => 1
    case HUnlock => 2
    case HClear => 3
    case HGet => 4
    case HRelock => 5
    case HTestRunning => 5
    case HWrite(_) => 6
    case HTestReady => 6
    case HUnlockItem(_) => 7
    case HWantLock => 7
    case HWaiting => 7
    case HEnterWait => 8
  }

  /** The provider's rounds left: six steps each, and four for the handler's item. */
  function RoundsFuel(n: nat, i: nat): nat { 3 + if i < n then 10 * (n - i) else 0 }

  function LastProviderFuel(p: ProviderPc): nat {
    match p
    case PExited => 0
    case PFinalSignal => 1
    case PTop => 2
    case PPick => RoundsFuel(9, 0) + 1
    case PLoop(n, i) => RoundsFuel(n, i)
    case PWantLock(n, i, _) => RoundsFuel(n, i + 1) + 9
    case PAdd(n, i, _) => RoundsFuel(n, i + 1) + 8
    case PReady(n, i) => RoundsFuel(n, i + 1) + 3
    case PUnlock(n, i) => RoundsFuel(n, i + 1) + 2
    case PSignal(n, i) => RoundsFuel(n, i + 1) + 1
  }

  function LastFuel(s: State): int {
    4 * |s.queue| + LastHandlerFuel(s.h) + LastProviderFuel(s.p)
  }

  predicate Stopped(s: State) { !s.running && LoopInv(s) }

  lemma LastHandlerStep(s: State)
    requires !s.running && Enabled(s, Handler)
    ensures LastFuel(HandlerStep(s)) + 1 <= LastFuel(s)
  {
  }

  lemma LastProviderStep(s: State, random: nat, mallocOk: bool)
    requires Stopped(s) && Enabled(s, Provider(random, mallocOk))
    ensures LastFuel(ProviderStep(s, random, mallocOk)) + 1 <= LastFuel(s)
  {
  }

  lemma LastFuelBound(s: State)
    requires Stopped(s)
    ensures 0 <= LastFuel(s) <= 102 + 4 * |s.queue|
  {
  }

  lemma LastStep(s: State, a: Action)
    requires Stopped(s) && Scheduled(s, a)
    ensures Stopped(Step(s, a)) && LastFuel(Step(s, a)) + 1 <= LastFuel(s)
  {
    LoopInvStep(s, a);
    if a.Handler? {
      LastHandlerStep(s);
    } else {
      LastProviderStep(s, a.random, a.mallocOk);
    }
  }

  /** After `running` is cleared the run ends: without spurious wakeups at most 102
      steps are left, and four for each item then in the list. */
  lemma ShutdownTerminates(before: seq<Action>, schedule: seq<Action>)
    requires !Exec(Step, START, before).running
    requires Effective(Scheduled, Step, Exec(Step, START, before), schedule)
    ensures |schedule| <= 102 + 4 * |Exec(Step, START, before).queue|
  {
    AlwaysLooping(before);
    var s := Exec(Step, START, before);
    forall x, a | Stopped(x) && Scheduled(x, a)
      ensures Stopped(Step(x, a)) && LastFuel(Step(x, a)) + 1 <= LastFuel(x)
    {
      LastStep(x, a);
    }
    StillStopped(s, schedule);
    Budget(Scheduled, Step, Stopped, LastFuel, (x: State) => 0, 0, s, schedule);
    LastFuelBound(s);
    LastFuelBound(Exec(Step, s, schedule));
  }

  lemma StillStopped(s: State, schedule: seq<Action>)
    requires Stopped(s)
    ensures Stopped(Exec(Step, s, schedule))
  {
    forall x, a | Stopped(x) ensures Stopped(Step(x, a)) {
      LoopInvStep(x, a);
    }
    Invariant(Step, Stopped, s, schedule);
  }
}

module DriverQueue {
  import opened Runs
  import opened Monitors
  import opened DriverProtocol

  class QueueNode {
    var next: QueueNode?
    var data: int

    constructor (data: int)
      ensures this.data == data && next == null
    {
      this.data, next := data, null;
    }
  }

  /** The i-th node of a list, or null past its end. */
  function NodeAt(nodes: seq<QueueNode>, i: nat): QueueNode? {
    if i < |nodes| then nodes[i] else null
  }

  /** The globals `queue` and `q_n_items`. */
  class NodeQueue {
    var queue: QueueNode?
    var nItems: int
    ghost var spine: seq<QueueNode>  // the nodes of the list, in order
    ghost var contents: seq<int>     // their data

    /** The list is acyclic and null-terminated and carries `contents`, and `nItems`
        is its length. */
    ghost predicate Valid()
      reads this, spine
    {
      && nItems == |spine| == |contents|
      && queue == NodeAt(spine, 0)
      && (forall i, j :: 0 <= i < j < |spine| ==> spine[i] != spine[j])
      && (forall i :: 0 <= i < |spine| ==>
            spine[i].next == NodeAt(spine, i + 1) && spine[i].data == contents[i])
    }

    constructor ()
      ensures Valid() && contents == [] && spine == []
    {
      queue, nItems, spine, contents := null, 0, [], [];
    }

    /** Append at the end, walking the list; nothing changes when malloc fails. */
    method AddElementToQueue(data: int, mallocOk: bool) returns (r: int)
      requires Valid()
      modifies this, spine
      ensures Valid() && forall n :: n in spine ==> n in old(spine) || fresh(n)
      ensures r == 0 <==> mallocOk
      ensures mallocOk ==> contents == old(contents) + [data]
      ensures !mallocOk ==>
        queue == old(queue) && nItems == old(nItems) && spine == old(spine) && contents == old(contents)
    {
      if !mallocOk {
        return 1;
      }
      var newNode := new QueueNode(data);
      if queue != null {
        var endOfQueue: QueueNode := queue;
        ghost var i := 0;
        while endOfQueue.next != null
          invariant 0 <= i < |spine| && endOfQueue == spine[i]
          decreases |spine| - i
        {
          endOfQueue := endOfQueue.next;
          i := i + 1;
        }
        endOfQueue.next := newNode;
      } else {
        queue := newNode;
      }
      spine, contents := spine + [newNode], contents + [data];
      nItems := nItems + 1;
      r := 0;
    }

    /** Take the first element off; None for an empty list. */
    method GetDataAndRemoveFromQueue() returns (data: Option<int>)
      requires Valid()
      modifies this
      ensures Valid() && spine == old(if spine == [] then [] else spine[1..])
      ensures old(contents) == [] ==> data == None && contents == []
      ensures old(contents) != [] ==>
        && data == Some(old(contents)[0])
        && contents == old(contents)[1..]
        && nItems == old(nItems) - 1
    {
      data := None;
      if queue != null {
        data := Some(queue.data);
        queue := queue.next;
        spine, contents := spine[1..], contents[1..];
        nItems := nItems - 1;
      }
    }
  }

  class DriverLab {
    const list: NodeQueue
    var running: bool
    var dataReady: nat
    var monitor: Monitor
    var h: HandlerPc
    var p: ProviderPc
    ghost var enqueued: seq<int>
    ghost var written: seq<int>

    ghost function View(): State
      reads this, list
    {
      State(running, dataReady, list.contents, monitor, h, p, enqueued, written)
    }

    constructor ()
      ensures fresh(list) && list.Valid() && list.spine == [] && View() == START
    {
      list := new NodeQueue();
      running, dataReady, monitor, h, p := true, 0, FRESH, HTop, PTop;
      enqueued, written := [], [];
    }

    /** get_data_and_remove_from_queue inside the drain loop. */
    method TakeItem()
      requires list.Valid() && h.HGet?
      modifies this`h, list
      ensures list.Valid() && View() == Step(old(View()), Handler)
      ensures forall n :: n in list.spine ==> n in old(list.spine)
    {
      var data := list.GetDataAndRemoveFromQueue();
      h := if data.None? then HClear else HUnlockItem(data.value);
    }

    /** Every other step of hardware_handler; none touches the list. */
    method HandlerControl()
      requires !h.HGet?
      modifies this`h, this`monitor, this`dataReady, this`written
      ensures View() == Step(old(View()), Handler)
    {
      match h {
        case HTop => h := if running then HWantLock else HExited;
        case HWantLock =>
          if monitor.Free() {
            monitor, h := monitor.Lock(HANDLER), HTestReady;
          }
        case HTestReady => h := if dataReady == 0 then HTestRunning else HGet;
        case HTestRunning => h := if running then HEnterWait else HGet;
        case HEnterWait => monitor, h := monitor.Wait(HANDLER), HWaiting;
        case HWaiting =>
          if HANDLER !in monitor.waiting && monitor.Free() {
            monitor, h := monitor.Lock(HANDLER), HTestReady;
          }
        case HUnlockItem(d) => monitor, h := monitor.Unlock(), HWrite(d);
        case HWrite(d) => written, h := written + [d], HRelock;
        case HRelock =>
          if monitor.Free() {
            monitor, h := monitor.Lock(HANDLER), HGet;
          }
        case HClear => dataReady, h := 0, HUnlock;
        case HUnlock => monitor, h := monitor.Unlock(), HTop;
        case HExited =>
      }
    }

    /** The next call or shared access of hardware_handler. */
    method HardwareHandler()
      requires list.Valid()
      modifies this, list
      ensures list.Valid() && View() == Step(old(View()), Handler)
      ensures forall n :: n in list.spine ==> n in old(list.spine)
    {
      if h.HGet? {
        TakeItem();
      } else {
        HandlerControl();
      }
    }

    /** add_element_to_queue inside the critical section. */
    method AddItem(n: nat, i: nat, data: int, ghost random: nat, mallocOk: bool)
      requires list.Valid() && p == PAdd(n, i, data)
      modifies this`enqueued, this`p, list, list.spine
      ensures list.Valid() && View() == Step(old(View()), Provider(random, mallocOk))
      ensures forall x :: x in list.spine ==> x in old(list.spine) || fresh(x)
    {
      var r := list.AddElementToQueue(data, mallocOk);
      if r == 0 {
        enqueued := enqueued + [data];
      }
      p := PReady(n, i);
    }

    /** Every other step of data_provider; none touches the list. */
    method ProviderControl(random: nat, mallocOk: bool)
      requires !p.PAdd?
      modifies this`p, this`monitor, this`dataReady
      ensures View() == Step(old(View()), Provider(random, mallocOk))
    {
      match p {
        case PTop => p := if running then PPick else PFinalSignal;
        case PPick => p := PLoop(random % 10, 0);
        case PLoop(n, i) => p := if i < n then PWantLock(n, i, n * 100 + i) else PTop;
        case PWantLock(n, i, data) =>
          if monitor.Free() {
            monitor, p := monitor.Lock(PROVIDER), PAdd(n, i, data);
          }
        case PReady(n, i) => dataReady, p := 1, PUnlock(n, i);
        case PUnlock(n, i) => monitor, p := monitor.Unlock(), PSignal(n, i);
        case PSignal(n, i) => monitor, p := monitor.Signal(HANDLER), PLoop(n, i + 1);
        case PFinalSignal => monitor, p := monitor.Signal(HANDLER), PExited;
        case PExited =>
      }
    }

    /** The next call or shared access of data_provider. */
    method DataProvider(random: nat, mallocOk: bool)
      requires list.Valid()
      modifies this, list, list.spine
      ensures list.Valid() && View() == Step(old(View()), Provider(random, mallocOk))
      ensures forall x :: x in list.spine ==> x in old(list.spine) || fresh(x)
    {
      match p {
        case PAdd(n, i, data) =>
          AddItem(n, i, data, random, mallocOk);
        case _ =>
          ProviderControl(random, mallocOk);
      }
    }

    method ClearRunning()
      modifies this`running
      ensures View() == Step(old(View()), Stop)
    {
      running := false;
    }

    method WakeSpuriously()
      modifies this`monitor
      ensures View() == Step(old(View()), Spurious)
    {
      if HANDLER in monitor.waiting {
        monitor := monitor.Signal(HANDLER);
      }
    }

    /** Whatever the scheduler picks next. */
    method Perform(a: Action)
      requires list.Valid()
      modifies this, list, list.spine
      ensures list.Valid() && View() == Step(old(View()), a)
      ensures forall x :: x in list.spine ==> x in old(list.spine) || fresh(x)
    {
      match a {
        case Handler => HardwareHandler();
        case Provider(random, mallocOk) => DataProvider(random, mallocOk);
        case Stop => ClearRunning();
        case Spurious => WakeSpuriously();
      }
    }
  }

  /** The program under any interleaving of its two threads: at its end, and so at
      every moment of a run, the heap list is acyclic with `nItems` its length, and
      what was enqueued is what was written, what is in hand, and the list, in order. */
  method QnxLabHwHandlerCondvar(schedule: seq<Action>) returns (lab: DriverLab)
    ensures fresh(lab) && lab.list.Valid()
    ensures lab.View() == Exec(Step, START, schedule)
    ensures lab.enqueued == lab.written + InHand(lab.h) + lab.list.contents
    ensures lab.list.nItems == |lab.enqueued| - |lab.written| - |InHand(lab.h)|
  {
    lab := new DriverLab();
    var i := 0;
    while i < |schedule|
      invariant 0 <= i <= |schedule|
      invariant fresh(lab) && fresh(lab.list) && fresh(lab.list.spine)
      invariant lab.list.Valid()
      invariant Exec(Step, lab.View(), schedule[i..]) == Exec(Step, START, schedule)
    {
      assert schedule[i..][0] == schedule[i] && schedule[i..][1..] == schedule[i + 1..];
      ghost var before := lab.list.spine;
      lab.Perform(schedule[i]);
      forall k | 0 <= k < |lab.list.spine| ensures fresh(lab.list.spine[k]) {
        assert lab.list.spine[k] in lab.list.spine;
        assert lab.list.spine[k] in before ==> exists m :: 0 <= m < |before| && before[m] == lab.list.spine[k];
      }
      i := i + 1;
    }
    FifoConservation(schedule);
  }
}
