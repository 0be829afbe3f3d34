/** How the readers of the publisher get past the gate, exactly, and that writer and
    readers then go on: moving steps need updates or recorded versions. */
module PublisherProgress {
  import opened Runs
  import opened Sums
  import opened Monitors
  import opened Publisher

  // ---------------------------------------------------- who gets past the gate, exactly

  /** What a reader meets in one step of its own: the result of a call, and init_flag. */
  datatype Try = Try(ok: bool, flag: bool)

  function Tries(r: nat): (State, Action) -> seq<Try> {
    (s: State, a: Action) => if a.ReaderStep? && a.r == r then [Try(a.ok, s.initFlag)] else []
  }

  /** Loops 0 and 1 wait for shm_open and mmap, loop 2 for the flag. */
  predicate Fails(t: Try, loop: nat) { if loop < 2 then !t.ok else !t.flag }

  /** Tries that fail before the first that does not. */
  function Failures(tries: seq<Try>, loop: nat): (f: nat)
    ensures f <= |tries|
  {
    if tries == [] || !Fails(tries[0], loop) then 0 else 1 + Failures(tries[1..], loop)
  }

  datatype Gate = Trying(loop: nat, failures: nat) | Through | GivenUp

  /** Where a reader is that makes these tries from the given loop on: it gives up when the
      first 101 of a loop fail, and passes to the next loop with the first that does not. */
  function Verdict(tries: seq<Try>, loop: nat): Gate
    requires loop <= 2
    decreases 2 - loop
  {
    var f := Failures(tries, loop);
    if f >= 101 then GivenUp
    else if f == |tries| then Trying(loop, f)
    else if loop == 2 then Through
    else Verdict(tries[f + 1..], loop + 1)
  }

  function GateOf(pc: ReaderPc): Gate {
    match pc
    case OpenObject(tries) => Trying(0, tries)
    case MapObject(tries) => Trying(1, tries)
    case Poll(tries) => Trying(2, tries)
    case GaveUp => GivenUp
    case _ => Through
  }

  /** One more try. */
  function Advance(g: Gate, t: Try): Gate {
    if !g.Trying? then g
    else if Fails(t, g.loop) then (if g.failures + 1 >= 101 then GivenUp else Trying(g.loop, g.failures + 1))
    else if g.loop == 2 then Through
    else Trying(g.loop + 1, 0)
  }

  lemma {:induction false} FailuresAppend(tries: seq<Try>, loop: nat, t: Try)
    ensures Failures(tries + [t], loop) ==
      if Failures(tries, loop) == |tries| && Fails(t, loop) then |tries| + 1 else Failures(tries, loop)
  {
    if tries == [] {
      assert [] + [t] == [t];
    } else {
      assert (tries + [t])[1..] == tries[1..] + [t];
      FailuresAppend(tries[1..], loop, t);
    }
  }

  lemma {:induction false} VerdictAppend(tries: seq<Try>, loop: nat, t: Try)
    requires loop <= 2
    ensures Verdict(tries + [t], loop) == Advance(Verdict(tries, loop), t)
    decreases 2 - loop
  {
    var f := Failures(tries, loop);
    FailuresAppend(tries, loop, t);
    if f < |tries| && f < 101 && loop < 2 {
      assert (tries + [t])[f + 1..] == tries[f + 1..] + [t];
      VerdictAppend(tries[f + 1..], loop + 1, t);
    } else if f == |tries| && !Fails(t, loop) && loop < 2 {
      assert (tries + [t])[f + 1..] == [];
    }
  }

  /** Where a reader goes with its next step. */
  function NextPc(pc: ReaderPc, t: Try, seen: bool, free: bool, asleep: bool): ReaderPc {
    match pc
    case OpenObject(tries) => if t.ok then MapObject(0) else Retry(tries, OpenObject(tries + 1))
    case MapObject(tries) => if t.ok then Poll(0) else Retry(tries, MapObject(tries + 1))
    case Poll(tries) => if t.flag then RLock else Retry(tries, Poll(tries + 1))
    case RLock => if free then RTest else RLock
    case RTest => if seen then REnterWait else RRecord
    case REnterWait => RWaiting
    case RWaiting => if free && !asleep then RTest else RWaiting
    case RRecord => RCopy
    case RCopy => RUnlock
    case RUnlock => RLock
    case GaveUp => GaveUp
  }

  /** The part of a reader's step that progress depends on. */
  ghost predicate ReaderMoved(s: State, r: nat, ok: bool, n: State)
    requires r < |s.readers|
  {
    && |n.readers| == |s.readers| && n.readers == s.readers[r := n.readers[r]]
    && var x := s.readers[r];
      && n.readers[r].pc ==
           NextPc(x.pc, Try(ok, s.initFlag), x.lastVersion == s.data, s.monitor.Free(), r + 1 in s.monitor.waiting)
      && |n.readers[r].seen| == |x.seen| + (if x.pc.RRecord? then 1 else 0)
      && n.monitor.waiting == (if x.pc.REnterWait? then s.monitor.waiting + {r + 1} else s.monitor.waiting)
      && n.writer == s.writer && n.updates == s.updates
  }

  lemma OpeningMoves(s: State, r: nat, ok: bool)
    requires r < |s.readers| && Opening(s.readers[r].pc)
    ensures ReaderMoved(s, r, ok, ReaderTurn(s, r, ok))
  {
  }

  lemma SnapshotMoves(s: State, r: nat, ok: bool)
    requires r < |s.readers| && (s.readers[r].pc.RRecord? || s.readers[r].pc.RCopy?)
    ensures ReaderMoved(s, r, ok, ReaderTurn(s, r, ok))
  {
  }

  lemma LockMoves(s: State, r: nat, ok: bool)
    requires r < |s.readers| && (s.readers[r].pc.RLock? || s.readers[r].pc.RWaiting? || s.readers[r].pc.RUnlock?)
    ensures ReaderMoved(s, r, ok, ReaderTurn(s, r, ok))
  {
  }

  lemma WaitMoves(s: State, r: nat, ok: bool)
    requires r < |s.readers| && (s.readers[r].pc.RTest? || s.readers[r].pc.REnterWait? || s.readers[r].pc.GaveUp?)
    ensures ReaderMoved(s, r, ok, ReaderTurn(s, r, ok))
  {
  }

  lemma TurnMoves(s: State, r: nat, ok: bool)
    requires r < |s.readers|
    ensures ReaderMoved(s, r, ok, ReaderTurn(s, r, ok))
  {
    if Opening(s.readers[r].pc) {
      OpeningMoves(s, r, ok);
    } else if s.readers[r].pc.RRecord? || s.readers[r].pc.RCopy? {
      SnapshotMoves(s, r, ok);
    } else if s.readers[r].pc.RLock? || s.readers[r].pc.RWaiting? || s.readers[r].pc.RUnlock? {
      LockMoves(s, r, ok);
    } else {
      WaitMoves(s, r, ok);
    }
  }

  function NextWriterPc(pc: WriterPc, free: bool): WriterPc {
    match pc
    case InitMutex => InitCond
    case InitCond => SetFlag
    case SetFlag => WLock
    case WLock => if free then WIncrement else WLock
    case WIncrement => WPrint
    case WPrint => WUnlock
    case WUnlock => WBroadcast
    case WBroadcast => WLock
  }

  ghost predicate WriterMoved(s: State, n: State) {
    && n.readers == s.readers && n.writer == NextWriterPc(s.writer, s.monitor.Free())
    && n.updates == s.updates + (if s.writer.WIncrement? then 1 else 0)
    && n.monitor.waiting == (if s.writer.WBroadcast? then {} else s.monitor.waiting)
  }

  lemma WriterMoves(s: State)
    ensures WriterMoved(s, WriterStep(s))
  {
  }

  lemma OwnAdvance(s: State, r: nat, ok: bool, n: State)
    requires r < |s.readers| && ReaderMoved(s, r, ok, n)
    ensures GateOf(n.readers[r].pc) == Advance(GateOf(s.readers[r].pc), Try(ok, s.initFlag))
  {
  }

  lemma AdvanceStep(s: State, a: Action, r: nat)
    requires r < |s.readers|
    ensures |Step(s, a).readers| == |s.readers|
    ensures GateOf(Step(s, a).readers[r].pc) ==
      if a.ReaderStep? && a.r == r then Advance(GateOf(s.readers[r].pc), Try(a.ok, s.initFlag))
      else GateOf(s.readers[r].pc)
  {
    match a
    case Writer => WriterMoves(s);
    case Spurious(_) =>
    case ReaderStep(u, ok) =>
      if u < |s.readers| {
        TurnMoves(s, u, ok);
        if u == r {
          OwnAdvance(s, r, ok, ReaderTurn(s, r, ok));
        }
      }
  }

  /** For every schedule: a reader has given up if and only if in one of the three loops its
      first 101 tries have all failed; it is past the gate if and only if each loop has had
      a success among its first 101; and else it is in the loop the tries say. */
  lemma {:induction false} GateExactly(n: nat, schedule: seq<Action>, r: nat)
    requires r < n
    ensures var e := Exec(Step, Init(n), schedule);
      && |e.readers| == n
      && GateOf(e.readers[r].pc) == Verdict(Matched(Step, Tries(r), Init(n), schedule), 0)
    decreases |schedule|
  {
    if schedule != [] {
      var front, a := schedule[..|schedule| - 1], schedule[|schedule| - 1];
      assert schedule == front + [a];
      var m := Exec(Step, Init(n), front);
      GateExactly(n, front, r);
      ExecAppend(Step, Init(n), front, a);
      MatchedAppend(Step, Tries(r), Init(n), front, a);
      AdvanceStep(m, a, r);
      if a.ReaderStep? && a.r == r {
        VerdictAppend(Matched(Step, Tries(r), Init(n), front), 0, Try(a.ok, m.initFlag));
      } else {
        assert Matched(Step, Tries(r), Init(n), schedule) == Matched(Step, Tries(r), Init(n), front);
      }
    }
  }

  function Stage(pc: WriterPc): nat {
    match pc
    case InitMutex => 0
    case InitCond => 1
    case SetFlag => 2
    case _ => 3
  }

  function WriterSteps(schedule: seq<Action>): nat {
    if schedule == [] then 0 else WriterSteps(schedule[1..]) + if schedule[0].Writer? then 1 else 0
  }

  lemma StageStep(s: State, a: Action)
    ensures Stage(Step(s, a).writer) ==
      if a.Writer? && Stage(s.writer) < 3 then Stage(s.writer) + 1 else Stage(s.writer)
  {
    match a
    case Writer => WriterMoves(s);
    case Spurious(_) =>
    case ReaderStep(r, ok) =>
      if r < |s.readers| {
        TurnMoves(s, r, ok);
      }
  }

  lemma {:induction false} StageRun(s: State, schedule: seq<Action>)
    ensures var stage := Stage(s.writer) + WriterSteps(schedule);
      Stage(Exec(Step, s, schedule).writer) == if stage < 3 then stage else 3
    decreases |schedule|
  {
    if schedule != [] {
      StageStep(s, schedule[0]);
      StageRun(Step(s, schedule[0]), schedule[1..]);
    }
  }

  /** The flag is set with the third step of the writer, so readers that keep trying find it. */
  lemma FlagExactly(n: nat, schedule: seq<Action>)
    ensures Exec(Step, Init(n), schedule).initFlag <==> WriterSteps(schedule) >= 3
  {
    Always(n, schedule);
    StageRun(Init(n), schedule);
  }

  // ------------------------------------------------------------------------ progress

  predicate Moves(s: State, a: Action) { Step(s, a) != s && !a.Spurious? }

  /** The writer waits for nothing but the mutex, and a reader for nothing but that and,
      asleep, for a broadcast; only a reader that has given up has stopped. */
  lemma WaitsOnlyFor(s: State, r: nat, ok: bool)
    requires r < |s.readers|
    ensures Moves(s, Writer) <==> !s.writer.WLock? || s.monitor.Free()
    ensures var pc := s.readers[r].pc;
      Moves(s, ReaderStep(r, ok)) <==>
        && !pc.GaveUp? && (pc.RLock? || pc.RWaiting? ==> s.monitor.Free())
        && (pc.RWaiting? ==> r + 1 !in s.monitor.waiting)
  {
    WriterMoves(s);
    TurnMoves(s, r, ok);
    if s.writer.WLock? && !s.monitor.Free() {
      assert WriterStep(s) == s;
    }
    var x, n := s.readers[r], ReaderTurn(s, r, ok);
    if x.pc.GaveUp? || ((x.pc.RLock? || x.pc.RWaiting?) && !s.monitor.Free()) ||
       (x.pc.RWaiting? && r + 1 in s.monitor.waiting) {
      assert n == s;
    } else {
      assert n.readers[r].pc != x.pc;
    }
  }

  /** Somebody can always move. */
  lemma NeverStuck(n: nat, schedule: seq<Action>)
    ensures exists a :: Moves(Exec(Step, Init(n), schedule), a)
  {
    Always(n, schedule);
    var e := Exec(Step, Init(n), schedule);
    if e.monitor.owner.Some? && e.monitor.owner.value > 0 {
      var r := e.monitor.owner.value - 1;
      WaitsOnlyFor(e, r, true);
      assert Moves(e, ReaderStep(r, true));
    } else {
      WriterMoves(e);
      assert Moves(e, Writer);
    }
  }

  /** Steps a reader can take before it sleeps, gives up or records a version. */
  function ReaderFuel(pc: ReaderPc, asleep: bool): int {
    match pc
    case GaveUp => 0
    case RWaiting => if asleep then 0 else 3
    case REnterWait => 1
    case RRecord => 1
    case RTest => 2
    case RLock => 3
    case RUnlock => 4
    case RCopy => 5
    case _ => 4 + TriesLeft(pc)
  }

  /** Steps of the writer before its next increment; a broadcast still to be sent pays
      for the n readers it wakes. */
  function WriterFuel(pc: WriterPc, n: nat): int {
    match pc
    case WIncrement => 1
    case WLock => 2
    case SetFlag => 3
    case InitCond => 4
    case InitMutex => 5
    case WBroadcast => 3 + 3 * n
    case WUnlock => 4 + 3 * n
    case WPrint => 5 + 3 * n
  }

  function FuelOf(s: State, r: nat): int
    requires r < |s.readers|
  {
    ReaderFuel(s.readers[r].pc, r + 1 in s.monitor.waiting)
  }

  function Fuels(s: State): seq<int> {
    seq(|s.readers|, r requires 0 <= r < |s.readers| => FuelOf(s, r))
  }

  function Same(x: int): int { x }

  function Fuel(s: State): int { WriterFuel(s.writer, |s.readers|) + Sum(Fuels(s), Same) }

  function Recorded(x: Reader): int { |x.seen| }

  /** Updates made and versions recorded. */
  function Progress(s: State): int { s.updates + Sum(s.readers, Recorded) }

  predicate TriesOk(s: State) {
    forall r :: 0 <= r < |s.readers| && Opening(s.readers[r].pc) ==> s.readers[r].pc.tries <= RETRIES
  }

  /** One unit of progress is worth k units of fuel. */
  lemma Worth(k: int, d: int)
    requires d == 0 || d == 1
    ensures k * d == if d == 1 then k else 0
  {
  }

  /** What an update and the broadcast after it may cost. */
  function Refill(n: nat): nat { 5 + 3 * n }

  lemma WriterFuelStep(s: State, n: State)
    requires WriterMoved(s, n) && n.writer != s.writer
    ensures Fuel(n) + 1 <= Fuel(s) + Refill(|s.readers|) * (Progress(n) - Progress(s))
  {
    Worth(Refill(|s.readers|), n.updates - s.updates);
    if s.writer.WBroadcast? {
      SumGrowth(Fuels(s), Fuels(n), Same, 3);
    } else {
      assert Fuels(n) == Fuels(s);
    }
  }

  lemma ReaderFuelStep(s: State, r: nat, ok: bool, n: State)
    requires r < |s.readers| && ReaderMoved(s, r, ok, n) && n.readers[r].pc != s.readers[r].pc
    requires Opening(s.readers[r].pc) ==> s.readers[r].pc.tries <= RETRIES
    ensures FuelOf(n, r) + 1 <= FuelOf(s, r) + 5 * (|n.readers[r].seen| - |s.readers[r].seen|)
  {
  }

  lemma OtherFuels(s: State, r: nat, ok: bool, n: State)
    requires r < |s.readers| && ReaderMoved(s, r, ok, n)
    ensures Fuels(n) == Fuels(s)[r := FuelOf(n, r)]
  {
    forall i | 0 <= i < |s.readers| && i != r ensures FuelOf(n, i) == FuelOf(s, i) {
      assert i + 1 in n.monitor.waiting <==> i + 1 in s.monitor.waiting;
    }
  }

  lemma ReaderFuelTotal(s: State, r: nat, ok: bool, n: State)
    requires r < |s.readers| && ReaderMoved(s, r, ok, n) && n.readers[r].pc != s.readers[r].pc
    requires Opening(s.readers[r].pc) ==> s.readers[r].pc.tries <= RETRIES
    ensures Fuel(n) + 1 <= Fuel(s) + Refill(|s.readers|) * (Progress(n) - Progress(s))
  {
    ReaderFuelStep(s, r, ok, n);
    OtherFuels(s, r, ok, n);
    SumUpdate(Fuels(s), Same, r, FuelOf(n, r));
    SumUpdate(s.readers, Recorded, r, n.readers[r]);
    Worth(Refill(|s.readers|), Progress(n) - Progress(s));
  }

  lemma OwnTriesOk(s: State, r: nat, ok: bool, n: State)
    requires TriesOk(s) && r < |s.readers| && ReaderMoved(s, r, ok, n)
    ensures TriesOk(n)
  {
    assert Opening(n.readers[r].pc) ==> n.readers[r].pc.tries <= RETRIES;
  }

  lemma TriesOkStep(s: State, a: Action)
    requires TriesOk(s)
    ensures |Step(s, a).readers| == |s.readers| && TriesOk(Step(s, a))
  {
    if a.Writer? {
      WriterMoves(s);
    } else if a.ReaderStep? && a.r < |s.readers| {
      TurnMoves(s, a.r, a.ok);
      OwnTriesOk(s, a.r, a.ok, Step(s, a));
    }
  }

  /** A step of one of the threads, as far as progress is concerned. */
  ghost predicate Moved(s: State, n: State) {
    || (WriterMoved(s, n) && n.writer != s.writer)
    || exists r, ok :: 0 <= r < |s.readers| && ReaderMoved(s, r, ok, n) && n.readers[r].pc != s.readers[r].pc
  }

  lemma WriterStepMoved(s: State)
    requires Moves(s, Writer)
    ensures Moved(s, WriterStep(s))
  {
    WriterMoves(s);
    assert s.writer.WLock? && !s.monitor.Free() ==> WriterStep(s) == s;
  }

  lemma ReaderStepMoved(s: State, r: nat, ok: bool)
    requires r < |s.readers| && Moves(s, ReaderStep(r, ok))
    ensures Moved(s, ReaderTurn(s, r, ok))
  {
    WaitsOnlyFor(s, r, ok);
    TurnMoves(s, r, ok);
    var n := ReaderTurn(s, r, ok);
    assert ReaderMoved(s, r, ok, n) && n.readers[r].pc != s.readers[r].pc;
  }

  lemma StepMoved(s: State, a: Action)
    requires Moves(s, a)
    ensures Moved(s, Step(s, a))
  {
    if a.Writer? {
      WriterStepMoved(s);
    } else {
      ReaderStepMoved(s, a.r, a.ok);
    }
  }

  lemma MovedFuel(s: State, n: State, k: nat)
    requires TriesOk(s) && Moved(s, n) && k == Refill(|s.readers|)
    ensures Fuel(n) + 1 <= Fuel(s) + k * (Progress(n) - Progress(s))
  {
    if WriterMoved(s, n) && n.writer != s.writer {
      WriterFuelStep(s, n);
    } else {
      var r, ok :| 0 <= r < |s.readers| && ReaderMoved(s, r, ok, n) && n.readers[r].pc != s.readers[r].pc;
      ReaderFuelTotal(s, r, ok, n);
    }
  }

  ghost predicate Sized(s: State, n: nat) { TriesOk(s) && |s.readers| == n }

  lemma FuelStep(s: State, a: Action, n: nat)
    requires Sized(s, n) && Moves(s, a)
    ensures Sized(Step(s, a), n)
    ensures Fuel(Step(s, a)) + 1 <= Fuel(s) + Refill(n) * (Progress(Step(s, a)) - Progress(s))
  {
    TriesOkStep(s, a);
    StepMoved(s, a);
    MovedFuel(s, Step(s, a), Refill(n));
  }

  ghost predicate Pays(s: State, m: State, n: nat) {
    Sized(m, n) && Fuel(m) + 1 <= Fuel(s) + Refill(n) * (Progress(m) - Progress(s))
  }

  lemma StepPays(s: State, a: Action, n: nat)
    requires Sized(s, n) && Moves(s, a)
    ensures Pays(s, Step(s, a), n)
  {
    FuelStep(s, a, n);
  }

  lemma Telescope(k: int, first: int, middle: int, last: int)
    ensures k * (middle - first) + k * (last - middle) == k * (last - first)
  {
  }

  /** For any system whose moving steps pay. */
  lemma {:induction false} Stretch(
      moves: (State, Action) -> bool, next: (State, Action) -> State, s: State, schedule: seq<Action>, n: nat)
    requires Sized(s, n) && Effective(moves, next, s, schedule)
    requires forall x, a :: Sized(x, n) && moves(x, a) ==> Pays(x, next(x, a), n)
    ensures var e := Exec(next, s, schedule);
      Sized(e, n) && |schedule| + Fuel(e) <= Fuel(s) + Refill(n) * (Progress(e) - Progress(s))
    decreases |schedule|
  {
    if schedule != [] {
      var m := next(s, schedule[0]);
      Stretch(moves, next, m, schedule[1..], n);
      Telescope(Refill(n), Progress(s), Progress(m), Progress(Exec(next, m, schedule[1..])));
    }
  }

  lemma StretchBound(s: State, schedule: seq<Action>, n: nat)
    requires Sized(s, n) && Effective(Moves, Step, s, schedule)
    ensures var e := Exec(Step, s, schedule);
      Sized(e, n) && |schedule| + Fuel(e) <= Fuel(s) + Refill(n) * (Progress(e) - Progress(s))
  {
    forall x, a | Sized(x, n) && Moves(x, a) ensures Pays(x, Step(x, a), n) {
      StepPays(x, a, n);
    }
    Stretch(Moves, Step, s, schedule, n);
  }

  lemma FuelInit(n: nat)
    ensures Fuel(Init(n)) == 5 + 307 * n && Progress(Init(n)) == 0 && Sized(Init(n), n)
  {
    assert Fuels(Init(n)) == seq(n, _ => 307);
    SumBounds(Fuels(Init(n)), Same, 307, 307);
    SumBounds(Init(n).readers, Recorded, 0, 0);
  }

  lemma FuelBound(s: State)
    requires TriesOk(s)
    ensures 0 <= Fuel(s)
  {
    LowerBound(Fuels(s), Same, 0);
  }

  /** Without spurious wakeups, steps need updates or recorded versions: from the start a run
      in which every step moves has at most 5 + 307 n steps, and Refill(n) = 5 + 3 n more for
      each update made and each version recorded. */
  lemma StepsNeedProgress(n: nat, schedule: seq<Action>)
    requires Effective(Moves, Step, Init(n), schedule)
    ensures |schedule| <= 5 + 307 * n + Refill(n) * Progress(Exec(Step, Init(n), schedule))
  {
    var e := Exec(Step, Init(n), schedule);
    FuelInit(n);
    StretchBound(Init(n), schedule, n);
    FuelBound(e);
  }
}
