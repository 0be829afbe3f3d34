/** One writer publishes numbered texts in shared memory, any number of readers wait
    for a version they have not seen and copy its text. */
module Publisher {
  import opened Runs
  import opened Monitors
  import opened DecimalText

  const WRITER := 0   // reader r is thread r + 1
  const RETRIES := 100

  datatype WriterPc =
    | InitMutex | InitCond | SetFlag | WLock | WIncrement | WPrint | WUnlock | WBroadcast

  /** OpenObject, MapObject and Poll are the three bounded loops of
      get_shared_memory_pointer: shm_open, mmap and the wait for init_flag. */
  datatype ReaderPc =
    | OpenObject(tries: nat) | MapObject(tries: nat) | Poll(tries: nat)
    | RLock | RTest | REnterWait | RWaiting | RRecord | RCopy | RUnlock | GaveUp

  /** `seen` lists the versions the reader has recorded and is not a variable of the
      program. */
  datatype Reader = Reader(pc: ReaderPc, lastVersion: nat, localText: seq<char>, seen: seq<nat>)

  /** `mutexReady` and `condReady` tell whether the writer has initialised the two
      objects, `updates` counts its increments of `data`; the three are not variables
      of the program. */
  datatype State = State(
    initFlag: bool, mutexReady: bool, condReady: bool, monitor: Monitor,
    data: nat, text: seq<char>, writer: WriterPc, readers: seq<Reader>, updates: nat)

  /** `ok` is the result of the call a reader makes to open or map the object. */
  datatype Action = Writer | ReaderStep(r: nat, ok: bool) | Spurious(r: nat)

  function Zeroed(): seq<char> { seq(MAX_TEXT_LEN, _ => NUL) }

  function Init(n: nat): State {
    State(false, false, false, FRESH, 0, Zeroed(), InitMutex,
          seq(n, _ => Reader(OpenObject(0), 0, Zeroed(), [])), 0)
  }

  function Step(s: State, a: Action): State {
    match a
    case Writer => WriterStep(s)
    case ReaderStep(r, ok) => if r < |s.readers| then ReaderTurn(s, r, ok) else s
    case Spurious(r) => s.(monitor := s.monitor.Signal(r + 1))
  }

  function WriterStep(s: State): State {
    match s.writer
    case InitMutex => s.(mutexReady := true, writer := InitCond)
    case InitCond => s.(condReady := true, writer := SetFlag)
    case SetFlag => s.(initFlag := true, writer := WLock)
    case WLock =>
      if s.monitor.Free() then s.(monitor := s.monitor.Lock(WRITER), writer := WIncrement) else s
    case WIncrement =>
      s.(data := (s.data + 1) % TWO_TO_64, updates := s.updates + 1, writer := WPrint)
    case WPrint => s.(text := PutString(s.text, Message(s.data)), writer := WUnlock)
    case WUnlock => s.(monitor := s.monitor.Unlock(), writer := WBroadcast)
    case WBroadcast => s.(monitor := s.monitor.Broadcast(), writer := WLock)
  }

  /** A failed try of one of the three loops. */
  function Retry(tries: nat, again: ReaderPc): ReaderPc {
    if tries + 1 > RETRIES then GaveUp else again
  }

  function ReaderTurn(s: State, r: nat, ok: bool): (n: State)
    requires r < |s.readers|
    ensures |n.readers| == |s.readers|
  {
    var x := s.readers[r];
    match x.pc
    case OpenObject(tries) =>
      Become(s, r, x.(pc := if ok then MapObject(0) else Retry(tries, OpenObject(tries + 1))))
    case MapObject(tries) =>
      Become(s, r, x.(pc := if ok then Poll(0) else Retry(tries, MapObject(tries + 1))))
    case Poll(tries) =>
      Become(s, r, x.(pc := if s.initFlag then RLock else Retry(tries, Poll(tries + 1))))
    case RLock =>
      if s.monitor.Free() then Become(s.(monitor := s.monitor.Lock(r + 1)), r, x.(pc := RTest)) else s
    case RTest => Become(s, r, x.(pc := if x.lastVersion == s.data then REnterWait else RRecord))
    case REnterWait => Become(s.(monitor := s.monitor.Wait(r + 1)), r, x.(pc := RWaiting))
    case RWaiting =>
      if r + 1 !in s.monitor.waiting && s.monitor.Free()
      then Become(s.(monitor := s.monitor.Lock(r + 1)), r, x.(pc := RTest)) else s
    case RRecord => Become(s, r, x.(pc := RCopy, lastVersion := s.data, seen := x.seen + [s.data]))
    case RCopy =>
      Become(s, r, x.(pc := RUnlock, localText := PutString(x.localText, CString(s.text))))
    case RUnlock => Become(s.(monitor := s.monitor.Unlock()), r, x.(pc := RLock))
    case GaveUp => s
  }

  function Become(s: State, r: nat, x: Reader): State
    requires r < |s.readers|
  {
    s.(readers := s.readers[r := x])
  }

  // --------------------------------------------------------------- what a run keeps

  predicate WriterInside(pc: WriterPc) { pc.WIncrement? || pc.WPrint? || pc.WUnlock? }

  predicate ReaderInside(pc: ReaderPc) {
    pc.RTest? || pc.REnterWait? || pc.RRecord? || pc.RCopy? || pc.RUnlock?
  }

  predicate Opening(pc: ReaderPc) { pc.OpenObject? || pc.MapObject? || pc.Poll? }

  predicate Initialising(pc: WriterPc) { pc.InitMutex? || pc.InitCond? || pc.SetFlag? }

  /** The mutex has one owner, and nobody touches it before it is initialised. */
  ghost predicate OwnerInv(s: State) {
    && (WriterInside(s.writer) <==> s.monitor.owner == Some(WRITER))
    && (s.monitor.owner.Some? ==> s.monitor.owner.value <= |s.readers|)
    && (forall r :: 0 <= r < |s.readers| ==>
          && (ReaderInside(s.readers[r].pc) <==> s.monitor.owner == Some(r + 1))
          && (!Opening(s.readers[r].pc) && !s.readers[r].pc.GaveUp? ==> s.initFlag))
    && (forall t :: t in s.monitor.waiting ==> 1 <= t <= |s.readers| && s.readers[t - 1].pc.RWaiting?)
    && (s.initFlag ==> s.mutexReady && s.condReady && !Initialising(s.writer))
    && (s.condReady ==> s.mutexReady)
    && (s.writer.InitCond? ==> s.mutexReady)
    && (s.writer.SetFlag? ==> s.mutexReady && s.condReady)
    && (!Initialising(s.writer) ==> s.initFlag)
  }

  /** The text that belongs to a version; version 0 is the zeroed buffer. */
  function TextOf(v: nat): string { if v == 0 then "" else Message(v) }

  ghost predicate WriterInv(s: State) {
    && |s.text| == MAX_TEXT_LEN
    && (s.updates < TWO_TO_64 ==> s.data == s.updates)
    && (s.updates < TWO_TO_64 && !s.writer.WPrint? ==> CString(s.text) == TextOf(s.data))
    && (s.writer.WPrint? ==> s.updates > 0)
  }

  predicate Increasing(v: seq<nat>) {
    forall i, j :: 0 <= i < j < |v| ==> v[i] < v[j]
  }

  /** What holds of one reader while fewer than 2^64 updates have been made. */
  predicate ReaderOk(data: nat, x: Reader) {
    && |x.localText| == MAX_TEXT_LEN
    && x.lastVersion <= data
    && Increasing(x.seen)
    && x.lastVersion == (if x.seen == [] then 0 else x.seen[|x.seen| - 1])
    && (forall i :: 0 <= i < |x.seen| ==> 0 < x.seen[i] <= data)
    && (!x.pc.RCopy? ==> CString(x.localText) == TextOf(x.lastVersion))
    && (x.pc.RCopy? ==> x.lastVersion == data)
    && (x.pc.RRecord? ==> x.lastVersion != data)
    && (x.pc.REnterWait? ==> x.lastVersion == data)
  }

  ghost predicate ReadersInv(s: State) {
    s.updates < TWO_TO_64 ==> forall r :: 0 <= r < |s.readers| ==> ReaderOk(s.data, s.readers[r])
  }

  predicate OwesBroadcast(pc: WriterPc) { pc.WPrint? || pc.WUnlock? || pc.WBroadcast? }

  /** A reader asleep on an old version will be woken. */
  predicate Remembered(s: State, r: nat)
    requires r < |s.readers|
  {
    r + 1 in s.monitor.waiting && s.readers[r].lastVersion != s.data ==> OwesBroadcast(s.writer)
  }

  ghost predicate WakeInv(s: State) {
    s.updates < TWO_TO_64 ==> forall r :: 0 <= r < |s.readers| ==> Remembered(s, r)
  }

  ghost predicate Inv(s: State) { OwnerInv(s) && WriterInv(s) && ReadersInv(s) && WakeInv(s) }

  lemma ZeroedText()
    ensures |Zeroed()| == MAX_TEXT_LEN && CString(Zeroed()) == ""
  {
  }

  lemma WriterKeepsOwner(s: State)
    requires OwnerInv(s)
    ensures OwnerInv(WriterStep(s))
  {
  }

  lemma OpeningKeepsOwner(s: State, r: nat, ok: bool)
    requires OwnerInv(s) && r < |s.readers| && Opening(s.readers[r].pc)
    ensures OwnerInv(ReaderTurn(s, r, ok))
  {
  }

  lemma LoopKeepsOwner(s: State, r: nat, ok: bool)
    requires OwnerInv(s) && r < |s.readers| && !Opening(s.readers[r].pc)
    ensures OwnerInv(ReaderTurn(s, r, ok))
  {
    assert ReaderInside(s.readers[r].pc) ==> s.monitor.owner == Some(r + 1);
  }

  lemma ReaderKeepsOwner(s: State, r: nat, ok: bool)
    requires OwnerInv(s) && r < |s.readers|
    ensures OwnerInv(ReaderTurn(s, r, ok))
  {
    if Opening(s.readers[r].pc) {
      OpeningKeepsOwner(s, r, ok);
    } else {
      LoopKeepsOwner(s, r, ok);
    }
  }

  lemma WriterFrame(s: State)
    ensures var n := WriterStep(s);
      && n.readers == s.readers
      && (s.writer.WIncrement? ==>
            n.text == s.text && n.writer.WPrint? && n.updates == s.updates + 1 &&
            (s.data + 1 < TWO_TO_64 ==> n.data == s.data + 1))
      && (!s.writer.WIncrement? ==>
            n.data == s.data && n.updates == s.updates && !n.writer.WPrint? && (!s.writer.WPrint? ==> n.text == s.text))
  {
  }

  lemma PrintedText(s: State)
    requires |s.text| == MAX_TEXT_LEN && 0 < s.data < TWO_TO_64
    ensures CString(PutString(s.text, Message(s.data))) == TextOf(s.data)
  {
    MessageFits(s.data);
    FitsUntruncated(s.text, Message(s.data));
  }

  lemma WriterKeepsText(s: State)
    requires WriterInv(s)
    ensures WriterInv(WriterStep(s))
  {
    WriterFrame(s);
    if s.writer.WPrint? && s.updates < TWO_TO_64 {
      PrintedText(s);
    }
  }

  lemma WriterKeepsReaders(s: State)
    requires OwnerInv(s) && WriterInv(s) && ReadersInv(s)
    ensures ReadersInv(WriterStep(s))
  {
    var n := WriterStep(s);
    WriterFrame(s);
    if n.updates < TWO_TO_64 {
      forall r | 0 <= r < |s.readers| ensures ReaderOk(n.data, s.readers[r]) {
        ReaderOlder(s.data, n.data, s.readers[r]);
      }
    }
  }

  lemma ReaderOlder(data: nat, later: nat, x: Reader)
    requires ReaderOk(data, x) && (later == data || (later == data + 1 && !ReaderInside(x.pc)))
    ensures ReaderOk(later, x)
  {
  }

  lemma WriterKeepsWakeups(s: State)
    requires WakeInv(s)
    ensures WakeInv(WriterStep(s))
  {
    var n := WriterStep(s);
    if n.updates < TWO_TO_64 {
      forall r | 0 <= r < |n.readers| ensures Remembered(n, r) {
        assert Remembered(s, r);
      }
    }
  }

  lemma CopiedText(s: State, x: Reader)
    requires WriterInv(s) && s.updates < TWO_TO_64 && !s.writer.WPrint? && ReaderOk(s.data, x) && s.data != 0
    ensures CString(PutString(x.localText, CString(s.text))) == TextOf(s.data)
  {
    MessageFits(s.data);
    FitsUntruncated(x.localText, Message(s.data));
  }

  /** The steps that take no snapshot. */
  lemma ReaderMoves(s: State, r: nat, ok: bool)
    requires OwnerInv(s) && r < |s.readers| && !s.readers[r].pc.RCopy? && !s.readers[r].pc.RRecord?
    ensures var x, y := s.readers[r], ReaderTurn(s, r, ok).readers[r];
      && y == x.(pc := y.pc) && !y.pc.RCopy?
      && (y.pc.RRecord? ==> x.lastVersion != s.data)
      && (y.pc.REnterWait? ==> x.lastVersion == s.data)
  {
  }

  lemma OwnReader(s: State, r: nat, ok: bool)
    requires OwnerInv(s) && WriterInv(s) && s.updates < TWO_TO_64
    requires r < |s.readers| && ReaderOk(s.data, s.readers[r])
    ensures ReaderOk(s.data, ReaderTurn(s, r, ok).readers[r])
  {
    var x := s.readers[r];
    assert ReaderInside(x.pc) ==> !WriterInside(s.writer);
    if x.pc.RCopy? {
      CopyOk(s, x);
    } else if x.pc.RRecord? {
      RecordOk(s.data, x);
    } else {
      ReaderMoves(s, r, ok);
    }
  }

  lemma CopyOk(s: State, x: Reader)
    requires WriterInv(s) && s.updates < TWO_TO_64 && !s.writer.WPrint? && ReaderOk(s.data, x) && x.pc.RCopy?
    ensures ReaderOk(s.data, x.(pc := RUnlock, localText := PutString(x.localText, CString(s.text))))
  {
    if s.data == 0 {
      FitsUntruncated(x.localText, "");
    } else {
      CopiedText(s, x);
    }
  }

  lemma RecordOk(data: nat, x: Reader)
    requires ReaderOk(data, x) && x.pc.RRecord?
    ensures ReaderOk(data, x.(pc := RCopy, lastVersion := data, seen := x.seen + [data]))
  {
  }

  lemma ReaderKeeps(s: State, r: nat, ok: bool)
    requires OwnerInv(s) && WriterInv(s) && ReadersInv(s) && r < |s.readers|
    ensures WriterInv(ReaderTurn(s, r, ok)) && ReadersInv(ReaderTurn(s, r, ok))
  {
    var n := ReaderTurn(s, r, ok);
    ReaderFrame(s, r, ok);
    if s.updates < TWO_TO_64 {
      OwnReader(s, r, ok);
      forall i | 0 <= i < |n.readers| ensures ReaderOk(n.data, n.readers[i]) {
        if i != r {
          assert n.readers[i] == s.readers[i] && ReaderOk(s.data, s.readers[i]);
        }
      }
    }
  }

  lemma ReaderFrame(s: State, r: nat, ok: bool)
    requires r < |s.readers|
    ensures var n := ReaderTurn(s, r, ok);
      && n.data == s.data && n.text == s.text && n.writer == s.writer && n.updates == s.updates
      && |n.readers| == |s.readers|
      && (forall i :: 0 <= i < |s.readers| && i != r ==> n.readers[i] == s.readers[i])
      && (forall t :: t in n.monitor.waiting ==> t in s.monitor.waiting || (t == r + 1 && s.readers[r].pc.REnterWait?))
      && (s.readers[r].pc.RRecord? || n.readers[r].lastVersion == s.readers[r].lastVersion)
  {
  }

  lemma ReaderKeepsWakeups(s: State, r: nat, ok: bool)
    requires OwnerInv(s) && ReadersInv(s) && WakeInv(s) && r < |s.readers|
    ensures WakeInv(ReaderTurn(s, r, ok))
  {
    var n := ReaderTurn(s, r, ok);
    ReaderFrame(s, r, ok);
    if s.updates < TWO_TO_64 {
      forall i | 0 <= i < |n.readers| ensures Remembered(n, i) {
        assert Remembered(s, i) && ReaderOk(s.data, s.readers[i]);
      }
    }
  }

  lemma InvStep(s: State, a: Action)
    requires Inv(s)
    ensures Inv(Step(s, a)) && |Step(s, a).readers| == |s.readers|
  {
    match a
    case Writer =>
      WriterKeepsOwner(s);
      WriterKeepsText(s);
      WriterKeepsReaders(s);
      WriterKeepsWakeups(s);
    case ReaderStep(r, ok) =>
      if r < |s.readers| {
        ReaderKeepsOwner(s, r, ok);
        ReaderKeeps(s, r, ok);
        ReaderKeepsWakeups(s, r, ok);
      }
    case Spurious(r) => SpuriousKeeps(s, r);
  }

  lemma SpuriousKeeps(s: State, r: nat)
    requires Inv(s)
    ensures Inv(Step(s, Spurious(r)))
  {
    var n := Step(s, Spurious(r));
    forall i | 0 <= i < |n.readers| && s.updates < TWO_TO_64 ensures Remembered(n, i) {
      assert Remembered(s, i);
    }
  }

  lemma InvInit(n: nat)
    ensures Inv(Init(n))
  {
    ZeroedText();
  }

  lemma Always(n: nat, schedule: seq<Action>)
    ensures var e := Exec(Step, Init(n), schedule);
      Inv(e) && |e.readers| == n
  {
    InvInit(n);
    var inv := (x: State) => Inv(x) && |x.readers| == n;
    forall s, a | inv(s) ensures inv(Step(s, a)) {
      InvStep(s, a);
    }
    Invariant(Step, inv, Init(n), schedule);
  }

  // ------------------------------------------------------------------- the theorems

  /** For any number of readers and every interleaving, while fewer than 2^64 updates
      have been made: each reader's versions strictly increase and are never ahead of
      the data, and outside the two steps that take a snapshot its text is that of
      exactly the version it recorded, from which the version can be read back. */
  lemma ConsistentSnapshots(n: nat, schedule: seq<Action>, r: nat)
    requires r < n && Exec(Step, Init(n), schedule).updates < TWO_TO_64
    ensures var e := Exec(Step, Init(n), schedule);
      && |e.readers| == n
      && var x := e.readers[r];
        && e.data == e.updates
        && (forall i, j :: 0 <= i < j < |x.seen| ==> x.seen[i] < x.seen[j])
        && (forall i :: 0 <= i < |x.seen| ==> x.seen[i] <= e.data)
        && (x.seen != [] ==> x.lastVersion == x.seen[|x.seen| - 1])
        && (x.lastVersion > 0 && !x.pc.RCopy? ==>
              CString(x.localText) == Message(x.lastVersion) &&
              ParseMessage(CString(x.localText)) == x.lastVersion)
  {
    Always(n, schedule);
    var e := Exec(Step, Init(n), schedule);
    assert ReaderOk(e.data, e.readers[r]);
    PublishedTextRoundTrip(e.readers[r].lastVersion, Zeroed(), Zeroed());
  }

  /** `data` counts the updates as a 64-bit number: it starts again at 0 after 2^64. */
  lemma DataCounts(n: nat, schedule: seq<Action>)
    ensures var e := Exec(Step, Init(n), schedule);
      e.data == e.updates % 0x1_0000_0000_0000_0000
  {
    forall s, a | Counted(s) ensures Counted(Step(s, a)) {
      CountedStep(s, a);
    }
    Invariant(Step, Counted, Init(n), schedule);
  }

  predicate Counted(s: State) { s.data == s.updates % 0x1_0000_0000_0000_0000 }

  lemma CountedStep(s: State, a: Action)
    requires Counted(s)
    ensures Counted(Step(s, a))
  {
    if a.Writer? {
      OneMore64(s.updates);
    } else if a.ReaderStep? && a.r < |s.readers| {
      ReaderFrame(s, a.r, a.ok);
    }
  }

  lemma OneMore64(x: nat)
    ensures (x % 0x1_0000_0000_0000_0000 + 1) % 0x1_0000_0000_0000_0000 == (x + 1) % 0x1_0000_0000_0000_0000
  {
  }

  /** No reader is past the gate before both the mutex and the condition variable are
      initialised. */
  lemma GateHolds(n: nat, schedule: seq<Action>, r: nat)
    requires r < n
    ensures var e := Exec(Step, Init(n), schedule);
      && |e.readers| == n
      && (!Opening(e.readers[r].pc) && !e.readers[r].pc.GaveUp? ==> e.initFlag && e.mutexReady && e.condReady)
      && (e.monitor != FRESH ==> e.mutexReady && e.condReady)
  {
    Always(n, schedule);
    var e := Exec(Step, Init(n), schedule);
    if e.monitor.waiting != {} {
      var t :| t in e.monitor.waiting;
      assert e.readers[t - 1].pc.RWaiting?;
    }
    if e.monitor.owner.Some? && e.monitor.owner.value != WRITER {
      assert ReaderInside(e.readers[e.monitor.owner.value - 1].pc);
    }
  }

  /** Tries a reader has left before it is past the gate or has given up. */
  function TriesLeft(pc: ReaderPc): int {
    match pc
    case OpenObject(tries) => 3 * (RETRIES + 1) - tries
    case MapObject(tries) => 2 * (RETRIES + 1) - tries
    case Poll(tries) => RETRIES + 1 - tries
    case _ => 0
  }

  /** The steps of reader r in a schedule. */
  function StepsOf(r: nat, schedule: seq<Action>): nat {
    if schedule == [] then 0 else
    StepsOf(r, schedule[1..]) + if schedule[0].ReaderStep? && schedule[0].r == r then 1 else 0
  }

  lemma GateStep(s: State, a: Action, r: nat)
    requires r < |s.readers| && (Opening(s.readers[r].pc) ==> s.readers[r].pc.tries <= RETRIES)
    ensures |Step(s, a).readers| == |s.readers|
    ensures var pc := Step(s, a).readers[r].pc;
      Opening(pc) ==>
        && Opening(s.readers[r].pc) && pc.tries <= RETRIES
        && TriesLeft(pc) + StepsOf(r, [a]) <= TriesLeft(s.readers[r].pc)
  {
    if a.ReaderStep? && a.r < |s.readers| {
      assert a.r == r || Step(s, a).readers[r] == s.readers[r];
    }
  }

  lemma {:induction false} GateRun(s: State, schedule: seq<Action>, r: nat)
    requires r < |s.readers| && (Opening(s.readers[r].pc) ==> s.readers[r].pc.tries <= RETRIES)
    ensures var e := Exec(Step, s, schedule);
      && |e.readers| == |s.readers|
      && var pc := e.readers[r].pc;
        Opening(pc) ==> pc.tries <= RETRIES && StepsOf(r, schedule) + TriesLeft(pc) <= TriesLeft(s.readers[r].pc)
    decreases |schedule|
  {
    if schedule != [] {
      GateStep(s, schedule[0], r);
      GateRun(Step(s, schedule[0]), schedule[1..], r);
    }
  }

  /** The gate does not hold a reader for ever: after 303 steps of its own, three loops
      of 101 tries, it is past the gate or has given up, whatever the others do. */
  lemma GateIsBounded(n: nat, schedule: seq<Action>, r: nat)
    requires r < n && StepsOf(r, schedule) >= 303
    ensures var e := Exec(Step, Init(n), schedule);
      |e.readers| == n && !Opening(e.readers[r].pc)
  {
    GateRun(Init(n), schedule, r);
  }

  /** A reader asleep on an old version is never forgotten: the writer holds the mutex
      after its increment or still has to broadcast. */
  lemma NoLostUpdate(n: nat, schedule: seq<Action>, r: nat)
    requires r < n && Exec(Step, Init(n), schedule).updates < TWO_TO_64
    requires r + 1 in Exec(Step, Init(n), schedule).monitor.waiting
    ensures var e := Exec(Step, Init(n), schedule);
      && |e.readers| == n
      && (e.readers[r].lastVersion != e.data ==>
            e.writer.WBroadcast? || (OwesBroadcast(e.writer) && e.monitor.owner == Some(WRITER)))
  {
    Always(n, schedule);
    assert Remembered(Exec(Step, Init(n), schedule), r);
  }

  // -------------------------------------------------------------- the program's state

  /** The shared object and the writer's loop. */
  class ShmObject {
    var initFlag: bool
    ghost var mutexReady: bool
    ghost var condReady: bool
    var monitor: Monitor
    var data: nat
    const text: array<char>
    var writer: WriterPc
    var readers: seq<Reader>
    ghost var updates: nat

    constructor (n: nat)
      ensures View() == Init(n) && text.Length == MAX_TEXT_LEN && fresh(text)
    {
      initFlag, mutexReady, condReady, monitor, data := false, false, false, FRESH, 0;
      text := new char[MAX_TEXT_LEN](_ => NUL);
      writer, readers, updates := InitMutex, seq(n, _ => Reader(OpenObject(0), 0, Zeroed(), [])), 0;
      new;
      assert text[..] == Zeroed();
    }

    ghost function View(): State
      reads this, text
    {
      State(initFlag, mutexReady, condReady, monitor, data, text[..], writer, readers, updates)
    }

    /** The next call or access of the producer. */
    method Producer()
      requires text.Length == MAX_TEXT_LEN
      modifies this, text
      ensures View() == Step(old(View()), Writer)
    {
      match writer {
        case InitMutex => mutexReady, writer := true, InitCond;
        case InitCond => condReady, writer := true, SetFlag;
        case SetFlag => initFlag, writer := true, WLock;
        case WLock =>
          if monitor.Free() {
            monitor, writer := monitor.Lock(WRITER), WIncrement;
          }
        case WIncrement =>
          data := (data + 1) % TWO_TO_64;
          updates, writer := updates + 1, WPrint;
        case WPrint =>
          Put(text, Message(data));
          writer := WUnlock;
        case WUnlock => monitor, writer := monitor.Unlock(), WBroadcast;
        case WBroadcast => monitor, writer := monitor.Broadcast(), WLock;
      }
    }

    /** The next call or access of consumer r. */
    method Consumer(r: nat, ok: bool)
      requires text.Length == MAX_TEXT_LEN && r < |readers|
      modifies this
      ensures View() == Step(old(View()), ReaderStep(r, ok))
    {
      var x := readers[r];
      match x.pc {
        case OpenObject(tries) =>
          x := x.(pc := if ok then MapObject(0) else if tries + 1 > RETRIES then GaveUp else OpenObject(tries + 1));
        case MapObject(tries) =>
          x := x.(pc := if ok then Poll(0) else if tries + 1 > RETRIES then GaveUp else MapObject(tries + 1));
        case Poll(tries) =>
          x := x.(pc := if initFlag then RLock else if tries + 1 > RETRIES then GaveUp else Poll(tries + 1));
        case RLock =>
          if monitor.Free() {
            monitor, x := monitor.Lock(r + 1), x.(pc := RTest);
          }
        case RTest => x := x.(pc := if x.lastVersion == data then REnterWait else RRecord);
        case REnterWait => monitor, x := monitor.Wait(r + 1), x.(pc := RWaiting);
        case RWaiting =>
          if r + 1 !in monitor.waiting && monitor.Free() {
            monitor, x := monitor.Lock(r + 1), x.(pc := RTest);
          }
        case RRecord => x := x.(pc := RCopy, lastVersion := data, seen := x.seen + [data]);
        case RCopy => x := x.(pc := RUnlock, localText := PutString(x.localText, CString(text[..])));
        case RUnlock => monitor, x := monitor.Unlock(), x.(pc := RLock);
        case GaveUp =>
      }
      readers := readers[r := x];
    }
  }
}
