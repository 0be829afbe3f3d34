/** A server with two threads: one receives registrations and disconnects, the other
    delivers the saved event once a second; a mutex guards the saved registration. */
module EventServer {
  import opened Runs
  import opened Monitors

  const SERVER := 0
  const NOTIFIER := 1

  /** `target` stands for what else the client has put into the event: the connection,
      the pulse code and the priority. */
  datatype SigEvent = SigEvent(updateable: bool, value: int, target: int)

  datatype Registration = Registration(rcvid: int, scoid: int, ev: SigEvent)

  /** What MsgReceive can return that matters here; the ids are never zero, and
      `verified` is the outcome of MsgVerifyEvent. */
  datatype Input =
    | Disconnect(scoid: int)
    | Request(rcvid: int, ev: SigEvent, scoid: int, verified: bool)
    | OtherInput

  datatype ServerPc =
    | Receive
    | DLock(scoid: int) | DTest(scoid: int) | DClearScoid(scoid: int) | DClearRcvid(scoid: int)
    | DClearCount(scoid: int) | SUnlock
    | RLock(rcvid: int, ev: SigEvent, scoid: int) | RStoreRcvid(rcvid: int, ev: SigEvent, scoid: int)
    | RStoreEvent(rcvid: int, ev: SigEvent, scoid: int) | RStoreScoid(rcvid: int, ev: SigEvent, scoid: int)

  datatype NotifierPc =
    | NLock | NTest | NFlag | NLoadCount | NStoreCount(n: int) | NStoreValue(n: int) | NDeliver | NUnlock

  /** The history: registrations and disconnects when they have taken effect, and
      delivery attempts with the target and the event passed to the kernel. */
  datatype Entry =
    | Registered(rcvid: int, scoid: int, ev: SigEvent)
    | Disconnected(scoid: int)
    | Attempt(rcvid: int, ev: SigEvent)

  datatype State = State(
    saveRcvid: int, saveScoid: int, saveEvent: SigEvent, notifyCount: int,
    mutex: Monitor, server: ServerPc, notifier: NotifierPc, log: seq<Entry>)

  datatype Action = Server(input: Input) | Notifier

  const START := State(0, 0, SigEvent(false, 0, 0), 0, FRESH, Receive, NLock, [])

  predicate RealInput(input: Input) {
    match input
    case Disconnect(scoid) => scoid != 0
    case Request(rcvid, _, scoid, _) => rcvid != 0 && scoid != 0
    case OtherInput => true
  }

  function Step(s: State, a: Action): State {
    if a.Notifier? then NotifierStep(s)
    else if RealInput(a.input) then ServerStep(s, a.input) else s
  }

  function ServerStep(s: State, input: Input): State {
    match s.server
    case Receive =>
      (match input
       case Disconnect(scoid) => s.(server := DLock(scoid))
       case Request(rcvid, ev, scoid, verified) =>
         if verified then s.(server := RLock(rcvid, ev, scoid)) else s
       case OtherInput => s)
    case DLock(scoid) =>
      if s.mutex.Free() then s.(mutex := s.mutex.Lock(SERVER), server := DTest(scoid)) else s
    case DTest(scoid) =>
      if s.saveScoid == scoid then s.(server := DClearScoid(scoid))
      else s.(server := SUnlock, log := s.log + [Disconnected(scoid)])
    case DClearScoid(scoid) => s.(saveScoid := 0, server := DClearRcvid(scoid))
    case DClearRcvid(scoid) => s.(saveRcvid := 0, server := DClearCount(scoid))
    case DClearCount(scoid) =>
      s.(notifyCount := 0, server := SUnlock, log := s.log + [Disconnected(scoid)])
    case SUnlock => s.(mutex := s.mutex.Unlock(), server := Receive)
    case RLock(rcvid, ev, scoid) =>
      if s.mutex.Free() then s.(mutex := s.mutex.Lock(SERVER), server := RStoreRcvid(rcvid, ev, scoid)) else s
    case RStoreRcvid(rcvid, ev, scoid) => s.(saveRcvid := rcvid, server := RStoreEvent(rcvid, ev, scoid))
    case RStoreEvent(rcvid, ev, scoid) => s.(saveEvent := ev, server := RStoreScoid(rcvid, ev, scoid))
    case RStoreScoid(rcvid, ev, scoid) =>
      s.(saveScoid := scoid, server := SUnlock, log := s.log + [Registered(rcvid, scoid, ev)])
  }

  function NotifierStep(s: State): State {
    match s.notifier
    case NLock => if s.mutex.Free() then s.(mutex := s.mutex.Lock(NOTIFIER), notifier := NTest) else s
    case NTest => s.(notifier := if s.saveRcvid != 0 then NFlag else NUnlock)
    case NFlag => s.(notifier := if s.saveEvent.updateable then NLoadCount else NDeliver)
    case NLoadCount => s.(notifier := NStoreCount(s.notifyCount))
    case NStoreCount(n) => s.(notifyCount := n + 1, notifier := NStoreValue(n))
    case NStoreValue(n) => s.(saveEvent := s.saveEvent.(value := n), notifier := NDeliver)
    case NDeliver => s.(log := s.log + [Attempt(s.saveRcvid, s.saveEvent)], notifier := NUnlock)
    case NUnlock => s.(mutex := s.mutex.Unlock(), notifier := NLock)
  }

  // ------------------------------------------------------- what the history demands

  /** The latest registration that has not been disconnected since. */
  function Current(log: seq<Entry>): Option<Registration> {
    if log == [] then None else
    var before := Current(log[..|log| - 1]);
    match log[|log| - 1]
    case Registered(rcvid, scoid, ev) => Some(Registration(rcvid, scoid, ev))
    case Disconnected(scoid) => if before.Some? && before.value.scoid == scoid then None else before
    case Attempt(_, _) => before
  }

  /** Updateable attempts since the last disconnect of the registered client. */
  function Updates(log: seq<Entry>): nat {
    if log == [] then 0 else
    var front := log[..|log| - 1];
    match log[|log| - 1]
    case Registered(_, _, _) => Updates(front)
    case Disconnected(scoid) =>
      if Current(front).Some? && Current(front).value.scoid == scoid then 0 else Updates(front)
    case Attempt(_, ev) => Updates(front) + if ev.updateable then 1 else 0
  }

  /** The event that was registered, its value replaced if it may be. */
  predicate Carries(ev: SigEvent, registered: SigEvent) {
    ev == if registered.updateable then registered.(value := ev.value) else registered
  }

  /** An attempt goes to the current registration with its event; an updateable one
      carries the number of updateable attempts before it. */
  predicate EntryOk(log: seq<Entry>, i: nat)
    requires i < |log|
  {
    log[i].Attempt? ==>
      var current := Current(log[..i]);
      && current.Some? && current.value.rcvid == log[i].rcvid && Carries(log[i].ev, current.value.ev)
      && (log[i].ev.updateable ==> log[i].ev.value == Updates(log[..i]))
  }

  predicate HistoryOk(log: seq<Entry>) {
    forall i :: 0 <= i < |log| ==> EntryOk(log, i)
  }

  lemma AppendOk(log: seq<Entry>, e: Entry)
    requires HistoryOk(log)
    requires (log + [e])[..|log|] == log ==> EntryOk(log + [e], |log|)
    ensures HistoryOk(log + [e])
    ensures (log + [e])[..|log|] == log
  {
    assert (log + [e])[..|log|] == log;
    forall i | 0 <= i < |log| + 1 ensures EntryOk(log + [e], i) {
      if i < |log| {
        assert (log + [e])[..i] == log[..i] && EntryOk(log, i);
      }
    }
  }

  // --------------------------------------------------------------- what a run keeps

  predicate ServerInside(pc: ServerPc) { !pc.Receive? && !pc.DLock? && !pc.RLock? }

  predicate NotifierInside(pc: NotifierPc) { !pc.NLock? }

  /** The saved data are those of the registration the history calls current. */
  predicate Linked(s: State) {
    var c := Current(s.log);
    if s.saveRcvid != 0 && s.saveScoid != 0
    then
      c.Some? && c.value.rcvid == s.saveRcvid && c.value.scoid == s.saveScoid && Carries(s.saveEvent, c.value.ev)
    else c == None
  }

  predicate ServerOk(s: State) {
    var c := Current(s.log);
    match s.server
    case DTest(scoid) => Linked(s) && (s.saveRcvid != 0 <==> s.saveScoid != 0) && scoid != 0
    case DClearScoid(scoid) => Linked(s) && s.saveRcvid != 0 && s.saveScoid == scoid && scoid != 0
    case DClearRcvid(scoid) => c.Some? && c.value.scoid == scoid && s.saveScoid == 0
    case DClearCount(scoid) => c.Some? && c.value.scoid == scoid && s.saveScoid == 0 && s.saveRcvid == 0
    case RStoreEvent(rcvid, _, scoid) => s.saveRcvid == rcvid && rcvid != 0 && scoid != 0
    case RStoreScoid(rcvid, ev, scoid) => s.saveRcvid == rcvid && s.saveEvent == ev && rcvid != 0 && scoid != 0
    case RStoreRcvid(rcvid, _, scoid) =>
      rcvid != 0 && scoid != 0 && Linked(s) && (s.saveRcvid != 0 <==> s.saveScoid != 0)
    case DLock(scoid) => scoid != 0 && Linked(s) && (s.saveRcvid != 0 <==> s.saveScoid != 0)
    case RLock(rcvid, _, scoid) =>
      rcvid != 0 && scoid != 0 && Linked(s) && (s.saveRcvid != 0 <==> s.saveScoid != 0)
    case _ => Linked(s) && (s.saveRcvid != 0 <==> s.saveScoid != 0)
  }

  predicate NotifierOk(s: State) {
    var n := Updates(s.log);
    && (!s.notifier.NLock? && !s.notifier.NTest? && !s.notifier.NUnlock? ==> s.saveRcvid != 0)
    && match s.notifier
       case NLoadCount => s.notifyCount == n && s.saveEvent.updateable
       case NStoreCount(v) => s.notifyCount == n == v && s.saveEvent.updateable
       case NStoreValue(v) => s.notifyCount == n + 1 && v == n && s.saveEvent.updateable
       case NDeliver =>
         if s.saveEvent.updateable then s.notifyCount == n + 1 && s.saveEvent.value == n else s.notifyCount == n
       case _ => s.notifyCount == n
  }

  ghost predicate OwnerInv(s: State) {
    && (ServerInside(s.server) <==> s.mutex.owner == Some(SERVER))
    && (NotifierInside(s.notifier) <==> s.mutex.owner == Some(NOTIFIER))
    && (s.mutex.owner.Some? ==> s.mutex.owner.value < 2)
  }

  ghost predicate Inv(s: State) {
    OwnerInv(s) && HistoryOk(s.log) && ServerOk(s) && NotifierOk(s)
  }

  /** The steps with which a registration or a disconnect takes effect. */
  lemma EffectKeeps(s: State, input: Input)
    requires Inv(s) && RealInput(input) && (s.server.DTest? || s.server.DClearCount? || s.server.RStoreScoid?)
    ensures Inv(ServerStep(s, input))
  {
    var r := ServerStep(s, input);
    if r.log != s.log {
      AppendOk(s.log, r.log[|s.log|]);
    }
  }

  lemma ServerKeeps(s: State, input: Input)
    requires Inv(s) && RealInput(input)
    ensures Inv(ServerStep(s, input))
  {
    if s.server.DTest? || s.server.DClearCount? || s.server.RStoreScoid? {
      EffectKeeps(s, input);
    } else {
      assert ServerStep(s, input).log == s.log;
    }
  }

  lemma NotifierKeeps(s: State)
    requires Inv(s)
    ensures Inv(NotifierStep(s))
  {
    if s.notifier.NDeliver? {
      AppendOk(s.log, Attempt(s.saveRcvid, s.saveEvent));
    }
  }

  lemma InvStep(s: State, a: Action)
    requires Inv(s)
    ensures Inv(Step(s, a))
  {
    if a.Notifier? {
      NotifierKeeps(s);
    } else if RealInput(a.input) {
      ServerKeeps(s, a.input);
    }
  }

  lemma Always(schedule: seq<Action>)
    ensures Inv(Exec(Step, START, schedule))
  {
    forall s, a | Inv(s) ensures Inv(Step(s, a)) {
      InvStep(s, a);
    }
    Invariant(Step, Inv, START, schedule);
  }

  // ------------------------------------------------------------------- the theorems

  /** Whenever the mutex is free, the two saved ids are set or clear together, and
      with the saved event they are the registration that is current. */
  lemma SavedIdsAgree(schedule: seq<Action>)
    requires Exec(Step, START, schedule).mutex.Free()
    ensures var e := Exec(Step, START, schedule);
      && (e.saveRcvid != 0 <==> e.saveScoid != 0)
      && (e.saveRcvid != 0 ==>
            var c := Current(e.log);
              c.Some? && c.value.rcvid == e.saveRcvid && c.value.scoid == e.saveScoid &&
              Carries(e.saveEvent, c.value.ev))
      && (e.saveRcvid == 0 ==> Current(e.log) == None)
  {
    Always(schedule);
  }

  /** Where the current registration comes from: an entry after which there is neither
      another registration nor a disconnect of that client. */
  lemma {:induction false} CurrentIsLatest(log: seq<Entry>) returns (i: nat)
    requires Current(log).Some?
    ensures i < |log| && var c := Current(log).value; log[i] == Registered(c.rcvid, c.scoid, c.ev)
    ensures forall j :: i < j < |log| ==> !log[j].Registered? && log[j] != Disconnected(Current(log).value.scoid)
  {
    var last := |log| - 1;
    if log[last].Registered? {
      i := last;
    } else {
      i := CurrentIsLatest(log[..last]);
    }
  }

  /** Every delivery attempt goes to the latest registration, whose client has not
      disconnected since, and carries the event of that registration: another client's
      event, or part of one, is never delivered. */
  lemma DeliveredToLatest(schedule: seq<Action>, i: nat) returns (k: nat, scoid: int, registered: SigEvent)
    requires i < |Exec(Step, START, schedule).log| && Exec(Step, START, schedule).log[i].Attempt?
    ensures var log := Exec(Step, START, schedule).log;
      && k < i && log[k] == Registered(log[i].rcvid, scoid, registered) && Carries(log[i].ev, registered)
      && forall j :: k < j < i ==> !log[j].Registered? && log[j] != Disconnected(scoid)
  {
    Always(schedule);
    var log := Exec(Step, START, schedule).log;
    assert EntryOk(log, i);
    scoid, registered := Current(log[..i]).value.scoid, Current(log[..i]).value.ev;
    k := CurrentIsLatest(log[..i]);
  }

  /** Entry i is the disconnect of the client registered at that point. */
  predicate ClearsRegistration(log: seq<Entry>, i: nat)
    requires i < |log|
  {
    log[i].Disconnected? && Current(log[..i]).Some? && Current(log[..i]).value.scoid == log[i].scoid
  }

  /** A stretch of the history in which the registered client does not disconnect and
      no updateable attempt is made. */
  predicate Uneventful(log: seq<Entry>, lo: nat, hi: nat)
    requires lo <= hi <= |log|
  {
    forall j :: lo <= j < hi ==>
      && (log[j].Attempt? ==> !log[j].ev.updateable)
      && !ClearsRegistration(log, j)
  }

  lemma {:induction false} UpdatesStay(log: seq<Entry>, lo: nat, hi: nat)
    requires lo <= hi <= |log| && Uneventful(log, lo, hi)
    ensures Updates(log[..hi]) == Updates(log[..lo])
    decreases hi
  {
    if lo < hi {
      UpdatesStay(log, lo, hi - 1);
      assert log[..hi][..hi - 1] == log[..hi - 1];
    }
  }

  /** The values of updateable attempts count 0, 1, 2, ...: each is one more than the
      one before it, also across re-registrations; and the first attempt, of all or
      after the registered client disconnected, carries 0. */
  lemma ConsecutiveValues(schedule: seq<Action>, i: nat, j: nat)
    requires var log := Exec(Step, START, schedule).log;
      i <= j < |log| && log[j].Attempt? && log[j].ev.updateable
    ensures var log := Exec(Step, START, schedule).log;
      && (i < j && log[i].Attempt? && log[i].ev.updateable && Uneventful(log, i + 1, j) ==>
            log[j].ev.value == log[i].ev.value + 1)
      && (i < j && ClearsRegistration(log, i) && Uneventful(log, i + 1, j) ==>
            log[j].ev.value == 0)
      && (i == 0 && Uneventful(log, 0, j) ==> log[j].ev.value == 0)
  {
    Always(schedule);
    var log := Exec(Step, START, schedule).log;
    assert EntryOk(log, j) && EntryOk(log, i);
    if i < j && Uneventful(log, i + 1, j) {
      UpdatesStay(log, i + 1, j);
      assert log[..i + 1][..i] == log[..i];
    }
    if Uneventful(log, 0, j) {
      UpdatesStay(log, 0, j);
    }
  }

  // ------------------------------------------------- the history the inputs determine

  /** What a message or pulse must lead to: a request whose event the kernel has verified
      becomes the registration, a disconnect takes effect, and nothing else does. */
  function Demanded(input: Input): seq<Entry> {
    match input
    case Disconnect(scoid) => [Disconnected(scoid)]
    case Request(rcvid, ev, scoid, verified) => if verified then [Registered(rcvid, scoid, ev)] else []
    case OtherInput => []
  }

  /** The input is what MsgReceive returns when the server comes to call it. */
  function Received(s: State, a: Action): seq<Entry> {
    if a.Server? && RealInput(a.input) && s.server.Receive? then Demanded(a.input) else []
  }

  /** What the server is about to put into effect. */
  function InProgress(pc: ServerPc): seq<Entry> {
    match pc
    case DLock(scoid) => [Disconnected(scoid)]
    case DTest(scoid) => [Disconnected(scoid)]
    case DClearScoid(scoid) => [Disconnected(scoid)]
    case DClearRcvid(scoid) => [Disconnected(scoid)]
    case DClearCount(scoid) => [Disconnected(scoid)]
    case RLock(rcvid, ev, scoid) => [Registered(rcvid, scoid, ev)]
    case RStoreRcvid(rcvid, ev, scoid) => [Registered(rcvid, scoid, ev)]
    case RStoreEvent(rcvid, ev, scoid) => [Registered(rcvid, scoid, ev)]
    case RStoreScoid(rcvid, ev, scoid) => [Registered(rcvid, scoid, ev)]
    case _ => []
  }

  /** The entries of the one or of the other thread. */
  function Only(attempts: bool, log: seq<Entry>): seq<Entry> {
    if log == [] then [] else
    var last := log[|log| - 1];
    Only(attempts, log[..|log| - 1]) + if last.Attempt? == attempts then [last] else []
  }

  lemma OnlyAppend(attempts: bool, log: seq<Entry>, e: Entry)
    ensures Only(attempts, log + [e]) == Only(attempts, log) + if e.Attempt? == attempts then [e] else []
  {
    assert (log + [e])[..|log|] == log;
  }

  function ServerAccount(s: State): seq<Entry> { Only(false, s.log) + InProgress(s.server) }

  /** A server step puts into effect what is in progress, or logs nothing. */
  lemma EffectOrProgress(s: State, input: Input)
    requires RealInput(input)
    ensures var r := ServerStep(s, input);
      var before, received := InProgress(s.server), Received(s, Server(input));
      || (r.log == s.log && InProgress(r.server) == before + received)
      || (|before| == 1 && !before[0].Attempt? && r.log == s.log + before &&
          InProgress(r.server) == [] == received)
  {
  }

  lemma NotifierEntries(s: State)
    ensures Only(false, NotifierStep(s).log) == Only(false, s.log)
  {
    if s.notifier.NDeliver? {
      OnlyAppend(false, s.log, Attempt(s.saveRcvid, s.saveEvent));
    } else {
      assert NotifierStep(s).log == s.log;
    }
  }

  lemma ServerEntries(s: State, input: Input)
    requires RealInput(input)
    ensures ServerAccount(ServerStep(s, input)) == ServerAccount(s) + Received(s, Server(input))
  {
    EffectOrProgress(s, input);
    var before, r := InProgress(s.server), ServerStep(s, input);
    if r.log == s.log {
      assert Only(false, r.log) == Only(false, s.log);
    } else {
      OnlyAppend(false, s.log, before[0]);
      assert before == [before[0]];
    }
  }

  lemma ServerAccountStep(s: State, a: Action)
    ensures ServerAccount(Step(s, a)) == ServerAccount(s) + Received(s, a)
  {
    if a.Notifier? {
      NotifierEntries(s);
      assert NotifierStep(s).server == s.server;
    } else if RealInput(a.input) {
      ServerEntries(s, a.input);
    }
  }

  /** In every run the registrations and disconnects of the history, and the one still in
      progress, are exactly the verified requests and the disconnects received, in their
      order and with their own fields. */
  lemma HistoryIsReceived(schedule: seq<Action>)
    ensures var e := Exec(Step, START, schedule);
      Only(false, e.log) + InProgress(e.server) == Matched(Step, Received, START, schedule)
  {
    forall s, a ensures ServerAccount(Step(s, a)) == ServerAccount(s) + Received(s, a) {
      ServerAccountStep(s, a);
    }
    Account(Step, (s: State) => true, ServerAccount, Received, START, schedule);
  }

  /** The attempt a history calls for: to the current registration, with its event, and
      with the number of attempts so far when that is updateable. */
  function Due(log: seq<Entry>): seq<Entry> {
    var c := Current(log);
    if c.None? then [] else
    [Attempt(c.value.rcvid, if c.value.ev.updateable then c.value.ev.(value := Updates(log)) else c.value.ev)]
  }

  /** A round of the notifier begins with taking the mutex. */
  function Begun(s: State, a: Action): seq<Entry> {
    if a.Notifier? && s.notifier.NLock? && s.mutex.Free() then Due(s.log) else []
  }

  function AttemptAccount(s: State): seq<Entry> {
    Only(true, s.log) + if s.notifier.NLock? || s.notifier.NUnlock? then [] else Due(s.log)
  }

  /** While the notifier is in its round the server logs nothing. */
  lemma ServerAttempts(s: State, input: Input)
    requires Inv(s) && RealInput(input)
    ensures AttemptAccount(ServerStep(s, input)) == AttemptAccount(s)
  {
    EffectOrProgress(s, input);
    if ServerStep(s, input).log != s.log {
      assert s.notifier.NLock?;
      OnlyAppend(true, s.log, InProgress(s.server)[0]);
    }
  }

  lemma TestIsDue(s: State)
    requires Inv(s) && NotifierInside(s.notifier) && !s.notifier.NUnlock?
    ensures s.saveRcvid == 0 <==> Due(s.log) == []
    ensures s.notifier.NDeliver? ==> Due(s.log) == [Attempt(s.saveRcvid, s.saveEvent)]
  {
  }

  lemma NotifierAttempts(s: State)
    requires Inv(s)
    ensures AttemptAccount(NotifierStep(s)) == AttemptAccount(s) + Begun(s, Notifier)
  {
    if s.notifier.NDeliver? {
      TestIsDue(s);
      OnlyAppend(true, s.log, Attempt(s.saveRcvid, s.saveEvent));
    } else {
      assert NotifierStep(s).log == s.log;
      if s.notifier.NTest? {
        TestIsDue(s);
      }
    }
  }

  /** In every run the delivery attempts, and the one of the round in progress, are exactly
      one for each round begun while some registration was current, and what it called
      for then; the other rounds make none. */
  lemma AttemptsAreDue(schedule: seq<Action>)
    ensures var e := Exec(Step, START, schedule);
      Only(true, e.log) + (if e.notifier.NLock? || e.notifier.NUnlock? then [] else Due(e.log))
        == Matched(Step, Begun, START, schedule)
  {
    forall s, a | Inv(s) ensures Inv(Step(s, a)) && AttemptAccount(Step(s, a)) == AttemptAccount(s) + Begun(s, a) {
      InvStep(s, a);
      if a.Notifier? {
        NotifierAttempts(s);
      } else if RealInput(a.input) {
        ServerAttempts(s, a.input);
      }
    }
    Account(Step, Inv, AttemptAccount, Begun, START, schedule);
  }

  // ---------------------------------------------------------------------- both go on

  predicate Moves(s: State, a: Action) { Step(s, a) != s }

  /** The notifier waits for nothing but the mutex, and the server for nothing but that
      and, at MsgReceive, a message or pulse that asks for something. */
  lemma WaitsOnlyFor(s: State, input: Input)
    requires RealInput(input)
    ensures Moves(s, Notifier) <==> !s.notifier.NLock? || s.mutex.Free()
    ensures Moves(s, Server(input)) <==>
      if s.server.Receive? then Demanded(input) != [] else ServerInside(s.server) || s.mutex.Free()
  {
    var n, r := NotifierStep(s), ServerStep(s, input);
    if !s.notifier.NLock? || s.mutex.Free() {
      assert n.notifier != s.notifier;
    }
    if s.server.Receive? {
      assert Demanded(input) != [] ==> r.server != s.server;
    } else if ServerInside(s.server) || s.mutex.Free() {
      assert r.server != s.server;
    }
  }

  /** Steps to the end of the round. */
  function RoundFuel(s: State): int {
    (match s.notifier
     case NLock => 0
     case NUnlock => 1
     case NDeliver => 2
     case NStoreValue(_) => 3
     case NStoreCount(_) => 4
     case NLoadCount => 5
     case NFlag => 6
     case NTest => 7) +
    (match s.server
     case Receive => 0
     case SUnlock => 1
     case DClearCount(_) => 2
     case DClearRcvid(_) => 3
     case DClearScoid(_) => 4
     case DTest(_) => 5
     case DLock(_) => 6
     case RStoreScoid(_, _, _) => 2
     case RStoreEvent(_, _, _) => 3
     case RStoreRcvid(_, _, _) => 4
     case RLock(_, _, _) => 5)
  }

  /** A step with which one of the two loops begins a new round. */
  function Rounds(s: State, a: Action): seq<Action> {
    if (a.Notifier? && s.notifier.NLock?) || (a.Server? && s.server.Receive?) then [a] else []
  }

  lemma RoundFuelStep(s: State, a: Action)
    requires Moves(s, a)
    ensures RoundFuel(Step(s, a)) + 1 <= RoundFuel(s) + 8 * |Rounds(s, a)|
  {
  }

  /** Every round ends: a run in which every step moves has at most eight steps for each
      round that one of the two loops begins. */
  lemma {:induction false} RoundsEnd(s: State, schedule: seq<Action>)
    requires Effective(Moves, Step, s, schedule)
    ensures |schedule| <= RoundFuel(s) + 8 * |Matched(Step, Rounds, s, schedule)|
    ensures RoundFuel(START) == 0
    decreases |schedule|
  {
    if schedule != [] {
      RoundFuelStep(s, schedule[0]);
      RoundsEnd(Step(s, schedule[0]), schedule[1..]);
    }
  }

  // -------------------------------------------------------------- the program's state

  class EventsServer {
    var saveRcvid: int
    var saveScoid: int
    var saveEvent: SigEvent
    var notifyCount: int
    var mutex: Monitor
    var server: ServerPc
    var notifier: NotifierPc
    ghost var log: seq<Entry>

    constructor ()
      ensures View() == START
    {
      saveRcvid, saveScoid, saveEvent, notifyCount := 0, 0, SigEvent(false, 0, 0), 0;
      mutex, server, notifier, log := FRESH, Receive, NLock, [];
    }

    ghost function View(): State
      reads this
    {
      State(saveRcvid, saveScoid, saveEvent, notifyCount, mutex, server, notifier, log)
    }

    /** The next step of the receive loop; `input` matters at MsgReceive only. */
    method ReceiveLoop(input: Input)
      requires RealInput(input)
      modifies this
      ensures View() == Step(old(View()), Server(input))
    {
      match server {
        case Receive =>
          match input {
            case Disconnect(scoid) => server := DLock(scoid);
            case Request(rcvid, ev, scoid, verified) =>
              if verified {
                server := RLock(rcvid, ev, scoid);
              }
            case OtherInput =>
          }
        case DLock(scoid) =>
          if mutex.Free() {
            mutex, server := mutex.Lock(SERVER), DTest(scoid);
          }
        case DTest(scoid) =>
          if saveScoid == scoid {
            server := DClearScoid(scoid);
          } else {
            server, log := SUnlock, log + [Disconnected(scoid)];
          }
        case DClearScoid(scoid) => saveScoid, server := 0, DClearRcvid(scoid);
        case DClearRcvid(scoid) => saveRcvid, server := 0, DClearCount(scoid);
        case DClearCount(scoid) =>
          notifyCount, server := 0, SUnlock;
          log := log + [Disconnected(scoid)];
        case SUnlock => mutex, server := mutex.Unlock(), Receive;
        case RLock(rcvid, ev, scoid) =>
          if mutex.Free() {
            mutex, server := mutex.Lock(SERVER), RStoreRcvid(rcvid, ev, scoid);
          }
        case RStoreRcvid(rcvid, ev, scoid) => saveRcvid, server := rcvid, RStoreEvent(rcvid, ev, scoid);
        case RStoreEvent(rcvid, ev, scoid) => saveEvent, server := ev, RStoreScoid(rcvid, ev, scoid);
        case RStoreScoid(rcvid, ev, scoid) =>
          saveScoid, server := scoid, SUnlock;
          log := log + [Registered(rcvid, scoid, ev)];
      }
    }

    /** The next step of notify_thread. */
    method NotifyThread()
      modifies this
      ensures View() == Step(old(View()), Notifier)
    {
      match notifier {
        case NLock =>
          if mutex.Free() {
            mutex, notifier := mutex.Lock(NOTIFIER), NTest;
          }
        case NTest => notifier := if saveRcvid != 0 then NFlag else NUnlock;
        case NFlag => notifier := if saveEvent.updateable then NLoadCount else NDeliver;
        case NLoadCount => notifier := NStoreCount(notifyCount);
        case NStoreCount(n) => notifyCount, notifier := n + 1, NStoreValue(n);
        case NStoreValue(n) => saveEvent, notifier := saveEvent.(value := n), NDeliver;
        case NDeliver =>
          log := log + [Attempt(saveRcvid, saveEvent)];
          notifier := NUnlock;
        case NUnlock => mutex, notifier := mutex.Unlock(), NLock;
      }
    }
  }
}
