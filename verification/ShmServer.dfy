/** The shared-memory server: one receive loop, one session at a time.  A client gets a
    mapping, announces changes inside it, and releases it or disconnects. */
module ShmServer {
  import opened Runs

  const MODULUS := 0x1_0000_0000
  const MAX_BYTES := 64 * 1024

  type uint32 = x: int | 0 <= x < MODULUS

  /** How far create_shared_memory gets. */
  datatype Outcome = OpenFails | TruncateFails | MmapFails | HandleFails | Created

  /** Pulses and messages; connection ids of clients are never zero. */
  datatype Message =
    | Disconnect(scoid: int)
    | OtherPulse
    | Get(scoid: int, nbytes: uint32, outcome: Outcome)
    | Changed(scoid: int, offset: uint32, length: uint32)
    | Release(scoid: int)
    | Unknown

  datatype Pointer = Unset | MapFailed | Mapping(id: nat)

  datatype Reply = NoReply | Ok | Einval | MapError | Eperm | Ebadmsg | Enosys

  datatype Event =
    | Mapped(id: nat, size: nat)
    | Unmapped(p: Pointer, size: nat)
    | Opened(scoid: int, id: nat, size: nat)
    | Accepted(scoid: int, offset: nat, length: nat)

  /** `live` holds the mappings that exist, with their sizes, `nextId` the name of the
      next one, and `log` what was mapped, unmapped, opened and accepted; these three stand
      for the kernel's side and are not variables of the program. */
  datatype State = State(
    clientScoid: int, size: uint32, ptr: Pointer,
    live: map<nat, nat>, nextId: nat, log: seq<Event>)

  const START := State(0, 0, Unset, map[], 0, [])

  /** munmap of the pointer with a size: the mapping goes when the size is its own. */
  function Unmap(s: State): State {
    s.(log := s.log + [Unmapped(s.ptr, s.size)],
       live := if s.ptr.Mapping? && s.ptr.id in s.live && s.live[s.ptr.id] == s.size
               then s.live - {s.ptr.id} else s.live)
  }

  /** create_shared_memory for the size just stored: true in the second component when
      it succeeds. */
  function CreateSharedMemory(s: State, outcome: Outcome): (State, bool) {
    match outcome
    case OpenFails | TruncateFails => (s, false)
    case MmapFails => (s.(ptr := MapFailed), false)
    case HandleFails => (Unmap(Map(s)), false)
    case Created => (Map(s), true)
  }

  function Map(s: State): State {
    s.(ptr := Mapping(s.nextId), nextId := s.nextId + 1, live := s.live[s.nextId := s.size],
       log := s.log + [Mapped(s.nextId, s.size)])
  }

  /** The session of a client begins. */
  function Open(s: State, scoid: int): State {
    s.(clientScoid := scoid,
       log := s.log + [Opened(scoid, if s.ptr.Mapping? then s.ptr.id else 0, s.size)])
  }

  /** One turn of the receive loop. */
  function Receive(s: State, m: Message): (State, Reply) {
    match m
    case Disconnect(scoid) =>
      (if scoid == s.clientScoid then Unmap(s.(clientScoid := 0)) else s, NoReply)
    case OtherPulse => (s, NoReply)
    case Get(scoid, nbytes, outcome) =>
      var sized := s.(size := nbytes);
      if nbytes > MAX_BYTES then (sized, Einval) else
      var (created, ok) := CreateSharedMemory(sized, outcome);
      if ok then (Open(created, scoid), Ok) else (created, MapError)
    case Changed(scoid, offset, length) =>
      if scoid != s.clientScoid then (s, Eperm)
      else if length > s.size || offset > s.size || (length + offset) % MODULUS > s.size then (s, Ebadmsg)
      else (s.(log := s.log + [Accepted(scoid, offset, length)]), Ok)
    case Release(scoid) =>
      if scoid != s.clientScoid then (s, Eperm) else (Unmap(s.(clientScoid := 0)), Ok)
    case Unknown => (s, Enosys)
  }

  function Step(s: State, m: Message): State { Receive(s, m).0 }

  predicate RealMessage(m: Message) {
    (m.Disconnect? || m.Get? || m.Changed? || m.Release?) ==> m.scoid != 0
  }

  // ------------------------------------------------------------------- the invariant

  /** One live mapping, the session's own, while a session is open, and none otherwise. */
  predicate Consistent(s: State) {
    if s.clientScoid == 0 then s.live == map[]
    else s.ptr.Mapping? && s.live == map[s.ptr.id := s.size] && s.size <= MAX_BYTES
  }

  /** Every unmap names a mapping made before with that size, and no mapping is
      unmapped twice. */
  predicate UnmapsOk(log: seq<Event>) {
    forall i :: 0 <= i < |log| && log[i].Unmapped? ==>
      && log[i].p.Mapping?
      && Mapped(log[i].p.id, log[i].size) in log[..i]
      && forall j :: 0 <= j < i && log[j].Unmapped? ==> log[j].p != log[i].p
  }

  /** The live mappings are those made and not yet unmapped; their names are used. */
  predicate LiveOk(s: State) {
    && (forall id :: id in s.live ==>
          && id < s.nextId && Mapped(id, s.live[id]) in s.log
          && forall i :: 0 <= i < |s.log| && s.log[i].Unmapped? ==> s.log[i].p != Mapping(id))
    && (forall i :: 0 <= i < |s.log| && s.log[i].Mapped? ==> s.log[i].id < s.nextId)
    && (forall i :: 0 <= i < |s.log| && s.log[i].Unmapped? && s.log[i].p.Mapping? ==> s.log[i].p.id < s.nextId)
  }

  /** Before entry i the mapping was made with that size and never unmapped. */
  predicate Stands(log: seq<Event>, id: nat, size: nat, i: nat)
    requires i <= |log|
  {
    && Mapped(id, size) in log[..i]
    && forall k :: 0 <= k < i && log[k].Unmapped? ==> log[k].p != Mapping(id)
  }

  /** Entry j opens a session on a mapping that stands; both last until i. */
  predicate Serves(log: seq<Event>, j: nat, i: nat) {
    && j < i <= |log| && log[j].Opened? && Stands(log, log[j].id, log[j].size, j)
    && forall k :: j < k < i ==> !log[k].Opened? && !log[k].Unmapped?
  }

  /** Every accepted change comes from the client of the session open at that moment
      and lies inside its mapping. */
  ghost predicate AcceptedOk(log: seq<Event>) {
    forall i :: 0 <= i < |log| && log[i].Accepted? ==> exists j :: AcceptedIn(log, j, i)
  }

  predicate AcceptedIn(log: seq<Event>, j: nat, i: nat)
    requires i < |log| && log[i].Accepted?
  {
    && Serves(log, j, i) && log[j].scoid == log[i].scoid && Stands(log, log[j].id, log[j].size, i)
    && log[i].offset + log[i].length <= log[j].size
  }

  /** The variables of the program are those of the session that is open. */
  ghost predicate SessionLogged(s: State) {
    s.clientScoid != 0 ==> s.ptr.Mapping? && exists j :: SessionFrom(s, j)
  }

  predicate SessionFrom(s: State, j: nat)
    requires s.ptr.Mapping?
  {
    Serves(s.log, j, |s.log|) && s.log[j] == Opened(s.clientScoid, s.ptr.id, s.size)
  }

  ghost predicate Inv(s: State) {
    Consistent(s) && UnmapsOk(s.log) && LiveOk(s) && SessionLogged(s) && AcceptedOk(s.log)
  }

  /** A client asks for memory only while no session is open, or in vain: for the very
      size of the open mapping, with a failure before mmap. */
  predicate Orderly(s: State, m: Message) {
    m.Get? && s.clientScoid != 0 ==>
      m.nbytes == s.size && (m.outcome.OpenFails? || m.outcome.TruncateFails?)
  }

  predicate Real(messages: seq<Message>) {
    forall i :: 0 <= i < |messages| ==> RealMessage(messages[i])
  }

  lemma UnmapKeeps(s: State)
    requires s.ptr.Mapping? && s.live == map[s.ptr.id := s.size] && UnmapsOk(s.log) && LiveOk(s)
    ensures Unmap(s).live == map[] && UnmapsOk(Unmap(s).log) && LiveOk(Unmap(s))
  {
    var r := Unmap(s);
    assert s.ptr.id in s.live;
    assert r.log[..|s.log|] == s.log;
    forall i | 0 <= i < |r.log| && r.log[i].Unmapped?
      ensures r.log[i].p.Mapping? && Mapped(r.log[i].p.id, r.log[i].size) in r.log[..i]
    {
      if i < |s.log| {
        assert r.log[..i] == s.log[..i];
      }
    }
  }

  lemma MapKeeps(s: State)
    requires s.live == map[] && UnmapsOk(s.log) && LiveOk(s)
    ensures var r := Map(s);
      r.ptr.Mapping? && r.live == map[r.ptr.id := r.size] && UnmapsOk(r.log) && LiveOk(r)
  {
    var r := Map(s);
    forall i | 0 <= i < |r.log| && r.log[i].Unmapped?
      ensures r.log[i].p.Mapping? && Mapped(r.log[i].p.id, r.log[i].size) in r.log[..i]
    {
      assert r.log[..i] == s.log[..i];
    }
    assert r.log[|s.log|] == Mapped(s.nextId, s.size);
  }

  lemma ServesAppend(log: seq<Event>, e: Event, j: nat, i: nat)
    requires Serves(log, j, i)
    ensures Serves(log + [e], j, i)
    ensures i == |log| && !e.Opened? && !e.Unmapped? ==> Serves(log + [e], j, |log| + 1)
    ensures Stands(log, log[j].id, log[j].size, i) && Stands(log + [e], log[j].id, log[j].size, i)
  {
    assert (log + [e])[..j] == log[..j] && (log + [e])[..i] == log[..i];
    assert log[..j] <= log[..i];
    assert forall k :: 0 <= k < i && log[k].Unmapped? ==> k < j || k == j || j < k;
  }

  lemma AcceptedAppend(log: seq<Event>, e: Event)
    requires AcceptedOk(log)
    requires e.Accepted? ==> exists j :: AcceptedIn(log + [e], j, |log|)
    ensures AcceptedOk(log + [e])
  {
    var r := log + [e];
    forall i | 0 <= i < |r| && r[i].Accepted? ensures exists j :: AcceptedIn(r, j, i) {
      if i < |log| {
        var j :| AcceptedIn(log, j, i);
        ServesAppend(log, e, j, i);
        assert AcceptedIn(r, j, i);
      }
    }
  }

  /** Opening the session on a mapping just made. */
  lemma OpenKeeps(s: State, scoid: int)
    requires s.ptr.Mapping? && s.live == map[s.ptr.id := s.size] && s.size <= MAX_BYTES && scoid != 0
    requires UnmapsOk(s.log) && LiveOk(s) && AcceptedOk(s.log)
    ensures Inv(Open(s, scoid))
  {
    var r := Open(s, scoid);
    assert s.ptr.id in s.live && r.log[..|s.log|] == s.log;
    assert SessionFrom(r, |s.log|);
    AcceptedAppend(s.log, r.log[|s.log|]);
    assert forall i :: 0 <= i <= |s.log| ==> r.log[..i] == s.log[..i];
  }

  /** A change passes exactly when it comes from the session's client and its range
      lies inside the mapping; the 32-bit sum in the test never wraps. */
  lemma ChangedExactly(s: State, m: Message)
    requires Consistent(s) && m.Changed? && m.scoid != 0
    ensures Receive(s, m).1 == Ok <==> m.scoid == s.clientScoid && m.offset + m.length <= s.size
    ensures Receive(s, m).1 == Eperm <==> m.scoid != s.clientScoid
    ensures Receive(s, m).1 != Ok ==> Step(s, m) == s
    ensures Receive(s, m).1 == Ok ==>
      Step(s, m) == s.(log := s.log + [Accepted(m.scoid, m.offset, m.length)])
  {
    if m.scoid == s.clientScoid && m.length <= s.size && m.offset <= s.size {
      assert (m.length + m.offset) % MODULUS == m.length + m.offset;
    }
  }

  /** An accepted change leaves the kernel's side as it was. */
  lemma AcceptKeepsMappings(s: State, e: Event)
    requires UnmapsOk(s.log) && LiveOk(s) && e.Accepted?
    ensures UnmapsOk(s.log + [e]) && LiveOk(s.(log := s.log + [e]))
  {
    var r := s.log + [e];
    assert forall i :: 0 <= i <= |s.log| ==> r[..i] == s.log[..i];
  }

  lemma ChangedKeeps(s: State, m: Message)
    requires Inv(s) && m.Changed? && m.scoid != 0
    ensures Inv(Step(s, m))
  {
    ChangedExactly(s, m);
    if Step(s, m) != s {
      AcceptKeeps(s, Accepted(m.scoid, m.offset, m.length));
    }
  }

  lemma AcceptKeeps(s: State, e: Event)
    requires Inv(s) && s.clientScoid != 0
    requires e.Accepted? && e.scoid == s.clientScoid && e.offset + e.length <= s.size
    ensures Inv(s.(log := s.log + [e]))
  {
    var j :| SessionFrom(s, j);
    ServesAppend(s.log, e, j, |s.log|);
    assert SessionFrom(s.(log := s.log + [e]), j);
    assert AcceptedIn(s.log + [e], j, |s.log|);
    AcceptedAppend(s.log, e);
    AcceptKeepsMappings(s, e);
  }

  /** Making a mapping, which opens no session yet. */
  lemma MapAlone(s: State)
    requires Inv(s) && s.clientScoid == 0
    ensures var r := Map(s);
      && r.ptr.Mapping? && r.live == map[r.ptr.id := r.size] && r.clientScoid == 0
      && UnmapsOk(r.log) && LiveOk(r) && AcceptedOk(r.log)
  {
    MapKeeps(s);
    AcceptedAppend(s.log, Mapped(s.nextId, s.size));
  }

  lemma UnmapAlone(s: State)
    requires s.clientScoid == 0 && s.ptr.Mapping? && s.live == map[s.ptr.id := s.size]
    requires UnmapsOk(s.log) && LiveOk(s) && AcceptedOk(s.log)
    ensures Inv(Unmap(s))
  {
    UnmapKeeps(s);
    AcceptedAppend(s.log, Unmapped(s.ptr, s.size));
  }

  /** Outside a session the program's other variables may hold anything. */
  lemma IdleVariables(s: State, size: uint32, ptr: Pointer)
    requires Inv(s) && s.clientScoid == 0
    ensures Inv(s.(size := size, ptr := ptr))
  {
  }

  lemma GetKeeps(s: State, m: Message)
    requires Inv(s) && m.Get? && s.clientScoid == 0 && m.scoid != 0
    ensures Inv(Step(s, m))
  {
    var sized := s.(size := m.nbytes);
    IdleVariables(s, m.nbytes, s.ptr);
    if m.nbytes > MAX_BYTES || m.outcome.OpenFails? || m.outcome.TruncateFails? {
      assert Step(s, m) == sized;
    } else if m.outcome.MmapFails? {
      IdleVariables(s, m.nbytes, MapFailed);
    } else if m.outcome.HandleFails? {
      MapAlone(sized);
      UnmapAlone(Map(sized));
    } else {
      MapAlone(sized);
      OpenKeeps(Map(sized), m.scoid);
    }
  }

  lemma CloseKeeps(s: State)
    requires Inv(s) && s.clientScoid != 0
    ensures Inv(Unmap(s.(clientScoid := 0)))
  {
    UnmapAlone(s.(clientScoid := 0));
  }

  lemma StepKeeps(s: State, m: Message)
    requires Inv(s) && RealMessage(m) && Orderly(s, m)
    ensures Inv(Step(s, m))
  {
    match m
    case Disconnect(scoid) => if scoid == s.clientScoid { CloseKeeps(s); }
    case OtherPulse =>
    case Get(_, _, _) => if s.clientScoid == 0 { GetKeeps(s, m); } else { assert Step(s, m) == s; }
    case Changed(_, _, _) => ChangedKeeps(s, m);
    case Release(scoid) => if scoid == s.clientScoid { CloseKeeps(s); }
    case Unknown =>
  }

  // ------------------------------------------------------------------- the theorems

  lemma {:induction false} OrderlyRun(s: State, messages: seq<Message>)
    requires Inv(s) && Real(messages) && Effective(Orderly, Step, s, messages)
    ensures Inv(Exec(Step, s, messages))
    decreases |messages|
  {
    if messages != [] {
      StepKeeps(s, messages[0]);
      OrderlyRun(Step(s, messages[0]), messages[1..]);
    }
  }

  /** For every orderly stream of messages: at most one mapping is live, exactly while
      a session is open, with the size the program holds; every unmap is of a mapping
      made before, with its own size, and no mapping is unmapped twice; and every
      accepted change comes from the client whose session is open and lies inside a
      mapping that was made with that size and not yet unmapped. */
  lemma SessionSafety(messages: seq<Message>)
    requires Real(messages) && Effective(Orderly, Step, START, messages)
    ensures var e := Exec(Step, START, messages);
      && (e.clientScoid == 0 ==> e.live == map[])
      && (e.clientScoid != 0 ==> e.ptr.Mapping? && e.live == map[e.ptr.id := e.size] && e.size <= MAX_BYTES)
      && UnmapsOk(e.log) && AcceptedOk(e.log)
  {
    OrderlyRun(START, messages);
  }

  /** Why the stream has to be orderly: one message keeps a consistent server
      consistent if and only if it is orderly. */
  lemma ConsistentExactly(s: State, m: Message)
    requires Consistent(s) && RealMessage(m) && s.nextId !in s.live
    ensures Consistent(Step(s, m)) <==> Orderly(s, m)
  {
    if m.Get? && s.clientScoid != 0 {
      var id := s.ptr.id;
      assert s.live[id] == s.size && id in s.live;
      var r := Step(s, m);
      if m.nbytes <= MAX_BYTES && m.outcome.Created? {
        assert id in r.live && s.nextId in r.live && id != s.nextId;
      } else if m.nbytes <= MAX_BYTES && m.outcome.HandleFails? {
        assert r.ptr == Mapping(s.nextId) && s.nextId !in r.live;
      } else {
        assert r.live == s.live;
      }
    } else if m.Disconnect? || m.Release? {
      if m.scoid == s.clientScoid {
        assert (s.live - {s.ptr.id}) == map[];
      }
    }
  }

  /** No live mapping has a name still to be given. */
  ghost predicate NamesUsed(s: State) { forall id :: id in s.live ==> id < s.nextId }

  ghost predicate ConsistentThroughout(s: State, messages: seq<Message>) {
    forall i :: 0 <= i <= |messages| ==> Consistent(Exec(Step, s, messages[..i]))
  }

  lemma FirstMessage(s: State, messages: seq<Message>)
    requires messages != [] && Consistent(s)
    ensures ConsistentThroughout(s, messages) <==> ConsistentThroughout(Step(s, messages[0]), messages[1..])
  {
    var r := Step(s, messages[0]);
    forall i | 0 <= i < |messages|
      ensures Exec(Step, s, messages[..i + 1]) == Exec(Step, r, messages[1..][..i])
    {
      assert messages[..i + 1][1..] == messages[1..][..i];
    }
    if ConsistentThroughout(s, messages) {
      forall i | 0 <= i <= |messages[1..]| ensures Consistent(Exec(Step, r, messages[1..][..i])) {
        assert Consistent(Exec(Step, s, messages[..i + 1]));
      }
    } else {
      var i :| 0 <= i <= |messages| && !Consistent(Exec(Step, s, messages[..i]));
      assert i > 0;
      assert !Consistent(Exec(Step, r, messages[1..][..i - 1]));
    }
  }

  /** And a whole stream of messages keeps the server consistent after every message if
      and only if every message of it is orderly when it comes. */
  lemma {:induction false} ConsistentThroughoutExactly(s: State, messages: seq<Message>)
    requires Consistent(s) && NamesUsed(s) && Real(messages)
    ensures ConsistentThroughout(s, messages) <==> Effective(Orderly, Step, s, messages)
    decreases |messages|
  {
    if messages == [] {
      assert forall i :: 0 <= i <= 0 ==> messages[..i] == [];
    } else {
      var r := Step(s, messages[0]);
      ConsistentExactly(s, messages[0]);
      FirstMessage(s, messages);
      if Orderly(s, messages[0]) {
        ConsistentThroughoutExactly(r, messages[1..]);
      } else {
        assert Exec(Step, r, messages[1..][..0]) == r;
      }
    }
  }

  /** From the start of the program. */
  lemma StreamExactly(messages: seq<Message>)
    requires Real(messages)
    ensures (forall i :: 0 <= i <= |messages| ==> Consistent(Exec(Step, START, messages[..i]))) <==>
            Effective(Orderly, Step, START, messages)
  {
    ConsistentThroughoutExactly(START, messages);
  }

  // --------------------------------------------------- the sessions the messages make

  /** The message opens a session of client c. */
  predicate Opens(m: Message, c: int) {
    m.Get? && m.scoid == c && m.nbytes <= 65536 && m.outcome.Created?
  }

  predicate Closes(m: Message, c: int) { (m.Disconnect? || m.Release?) && m.scoid == c }

  /** The i-th message opened a session of c and none after it closed it. */
  predicate SessionSince(messages: seq<Message>, i: int, c: int) {
    && 0 <= i < |messages| && Opens(messages[i], c)
    && forall j :: i < j < |messages| ==> !Closes(messages[j], c)
  }

  /** Where a session stands. */
  ghost predicate InSession(messages: seq<Message>, c: int, size: int) {
    exists i :: SessionSince(messages, i, c) && messages[i].nbytes == size
  }

  ghost predicate HasSession(messages: seq<Message>, c: int) {
    exists i :: SessionSince(messages, i, c)
  }

  lemma SessionAppend(front: seq<Message>, m: Message, c: int, size: int)
    ensures InSession(front + [m], c, size) <==>
            (Opens(m, c) && m.nbytes == size) || (InSession(front, c, size) && !Closes(m, c))
  {
    var all := front + [m];
    if Opens(m, c) && m.nbytes == size {
      assert SessionSince(all, |front|, c) && all[|front|].nbytes == size;
    }
    if InSession(front, c, size) && !Closes(m, c) {
      var i :| SessionSince(front, i, c) && front[i].nbytes == size;
      assert SessionSince(all, i, c) && all[i].nbytes == size;
    }
    if InSession(all, c, size) {
      var i :| SessionSince(all, i, c) && all[i].nbytes == size;
      if i < |front| {
        assert forall j :: i < j < |front| ==> all[j] == front[j];
        assert all[|front|] == m;
        assert SessionSince(front, i, c) && front[i].nbytes == size;
      }
    }
  }

  lemma SessionStep(s: State, m: Message, c: int, size: int)
    requires Consistent(s) && RealMessage(m) && Orderly(s, m) && c != 0
    ensures var r := Step(s, m);
      (r.clientScoid == c && r.size == size) <==>
      (Opens(m, c) && m.nbytes == size) || (s.clientScoid == c && s.size == size && !Closes(m, c))
  {
  }

  /** After any orderly stream the server holds a session of client c with a size if and
      only if some message is a GET of c with that size, within the limit and created, and
      no DISCONNECT or RELEASE of c comes after it. */
  lemma {:induction false} SessionExactly(messages: seq<Message>, c: int, size: int)
    requires Real(messages) && Effective(Orderly, Step, START, messages) && c != 0
    ensures var e := Exec(Step, START, messages);
      (e.clientScoid == c && e.size == size) <==> InSession(messages, c, size)
    decreases |messages|
  {
    if messages != [] {
      var front, m := messages[..|messages| - 1], messages[|messages| - 1];
      assert messages == front + [m];
      EffectiveAppend(Orderly, Step, START, front, m);
      ExecAppend(Step, START, front, m);
      SessionExactly(front, c, size);
      OrderlyRun(START, front);
      SessionStep(Exec(Step, START, front), m, c, size);
      SessionAppend(front, m, c, size);
    }
  }

  lemma ClientExactly(messages: seq<Message>, c: int)
    requires Real(messages) && Effective(Orderly, Step, START, messages) && c != 0
    ensures Exec(Step, START, messages).clientScoid == c <==> HasSession(messages, c)
  {
    var e := Exec(Step, START, messages);
    SessionExactly(messages, c, e.size);
    if HasSession(messages, c) {
      var i :| SessionSince(messages, i, c);
      assert InSession(messages, c, messages[i].nbytes);
      SessionExactly(messages, c, messages[i].nbytes);
    }
    if e.clientScoid == c {
      var i :| SessionSince(messages, i, c) && messages[i].nbytes == e.size;
    }
  }

  /** The answer to m after a stream of messages. */
  ghost predicate Answers(messages: seq<Message>, m: Message, reply: Reply) {
    match m
    case Disconnect(_) => reply == NoReply
    case OtherPulse => reply == NoReply
    case Unknown => reply == Enosys
    case Get(_, nbytes, outcome) =>
      reply == if nbytes > 65536 then Einval else if outcome.Created? then Ok else MapError
    case Release(_) => reply == if HasSession(messages, m.scoid) then Ok else Eperm
    case Changed(_, _, _) =>
      if !HasSession(messages, m.scoid) then reply == Eperm
      else if exists i :: SessionSince(messages, i, m.scoid) && m.offset + m.length <= messages[i].nbytes
      then reply == Ok
      else reply == Ebadmsg
  }

  /** What the server answers after any orderly stream, for every message. */
  lemma RepliesExactly(messages: seq<Message>, m: Message)
    requires Real(messages) && Effective(Orderly, Step, START, messages) && RealMessage(m)
    ensures Answers(messages, m, Receive(Exec(Step, START, messages), m).1)
  {
    var e := Exec(Step, START, messages);
    if m.Release? || m.Changed? {
      ClientExactly(messages, m.scoid);
    }
    if m.Changed? {
      OrderlyRun(START, messages);
      ChangedExactly(e, m);
      SessionExactly(messages, m.scoid, e.size);
      forall i | SessionSince(messages, i, m.scoid) ensures messages[i].nbytes == e.size {
        SessionExactly(messages, m.scoid, messages[i].nbytes);
        assert InSession(messages, m.scoid, messages[i].nbytes);
      }
    }
  }

  // ----------------------------------------------- mappings made and mappings given back

  /** The sizes of the mappings in a log, in order. */
  function MappedSizes(log: seq<Event>): seq<int> {
    if log == [] then [] else
    var last := log[|log| - 1];
    MappedSizes(log[..|log| - 1]) + if last.Mapped? then [last.size] else []
  }

  lemma MappedAppend(log: seq<Event>, e: Event)
    ensures MappedSizes(log + [e]) == MappedSizes(log) + if e.Mapped? then [e.size] else []
  {
    assert (log + [e])[..|log|] == log;
  }

  /** The message that gets as far as mmap, with success. */
  function Asked(s: State, m: Message): seq<int> {
    if m.Get? && m.nbytes <= MAX_BYTES && (m.outcome.HandleFails? || m.outcome.Created?) then [m.nbytes] else []
  }

  function SizesMade(s: State): seq<int> { MappedSizes(s.log) }

  lemma SizesMadeByGet(s: State, m: Message)
    requires m.Get? && m.nbytes <= MAX_BYTES && (m.outcome.HandleFails? || m.outcome.Created?)
    ensures SizesMade(Step(s, m)) == SizesMade(s) + [m.nbytes]
  {
    var mapped := Map(s.(size := m.nbytes));
    MappedAppend(s.log, Mapped(s.nextId, m.nbytes));
    if m.outcome.HandleFails? {
      MappedAppend(mapped.log, Unmapped(Mapping(s.nextId), m.nbytes));
      assert Step(s, m).log == mapped.log + [Unmapped(Mapping(s.nextId), m.nbytes)];
    } else {
      MappedAppend(mapped.log, Opened(m.scoid, s.nextId, m.nbytes));
      assert Step(s, m).log == mapped.log + [Opened(m.scoid, s.nextId, m.nbytes)];
    }
  }

  lemma SizesMadeStep(s: State, m: Message)
    ensures SizesMade(Step(s, m)) == SizesMade(s) + Asked(s, m)
  {
    if Asked(s, m) != [] {
      SizesMadeByGet(s, m);
    } else if m.Changed? {
      MappedAppend(s.log, Accepted(m.scoid, m.offset, m.length));
    } else if m.Disconnect? || m.Release? {
      MappedAppend(s.log, Unmapped(s.ptr, s.size));
    } else {
      assert Step(s, m).log == s.log;
    }
  }

  /** Entry i made a mapping, and entry k, the only one, gave it back with its size. */
  predicate GivenBack(log: seq<Event>, i: nat, k: nat)
    requires i < |log| && log[i].Mapped?
  {
    && i < k < |log| && log[k] == Unmapped(Mapping(log[i].id), log[i].size)
    && forall j :: 0 <= j < |log| && log[j].Unmapped? && log[j].p == log[k].p ==> j == k
  }

  ghost predicate Settled(s: State) {
    forall i :: 0 <= i < |s.log| && s.log[i].Mapped? ==>
      (s.log[i].id in s.live && s.live[s.log[i].id] == s.log[i].size) || exists k :: GivenBack(s.log, i, k)
  }

  lemma SettledQuiet(s: State, e: Event)
    requires Settled(s) && !e.Mapped? && !e.Unmapped?
    ensures Settled(s.(log := s.log + [e]))
  {
    var r := s.log + [e];
    forall i | 0 <= i < |r| && r[i].Mapped? && !(r[i].id in s.live && s.live[r[i].id] == r[i].size)
      ensures exists k :: GivenBack(r, i, k)
    {
      var k :| GivenBack(s.log, i, k);
      assert GivenBack(r, i, k);
    }
  }

  lemma SettledMap(s: State)
    requires Settled(s) && LiveOk(s)
    ensures Settled(Map(s))
  {
    var r := Map(s);
    forall i | 0 <= i < |r.log| && r.log[i].Mapped? && !(r.log[i].id in r.live && r.live[r.log[i].id] == r.log[i].size)
      ensures exists k :: GivenBack(r.log, i, k)
    {
      var k :| GivenBack(s.log, i, k);
      assert GivenBack(r.log, i, k);
    }
  }

  lemma SettledUnmap(s: State)
    requires Settled(s) && LiveOk(s) && s.ptr.Mapping? && s.live == map[s.ptr.id := s.size]
    ensures Settled(Unmap(s))
  {
    var r := Unmap(s);
    assert s.ptr.id in s.live;
    forall i | 0 <= i < |r.log| && r.log[i].Mapped? ensures exists k :: GivenBack(r.log, i, k) {
      if s.log[i].id == s.ptr.id && s.log[i].size == s.size {
        assert GivenBack(r.log, i, |s.log|);
      } else {
        var k :| GivenBack(s.log, i, k);
        assert GivenBack(r.log, i, k);
      }
    }
  }

  lemma SettledStep(s: State, m: Message)
    requires Inv(s) && Settled(s) && RealMessage(m) && Orderly(s, m)
    ensures Settled(Step(s, m))
  {
    match m
    case Disconnect(scoid) => if scoid == s.clientScoid { SettledUnmap(s.(clientScoid := 0)); }
    case OtherPulse =>
    case Get(_, _, _) => if s.clientScoid == 0 { SettledGet(s, m); } else { assert Step(s, m) == s; }
    case Changed(_, _, _) => SettledQuiet(s, Accepted(m.scoid, m.offset, m.length));
    case Release(scoid) => if scoid == s.clientScoid { SettledUnmap(s.(clientScoid := 0)); }
    case Unknown =>
  }

  lemma SettledGet(s: State, m: Message)
    requires Inv(s) && Settled(s) && m.Get? && s.clientScoid == 0
    ensures Settled(Step(s, m))
  {
    var sized := s.(size := m.nbytes);
    if m.nbytes <= MAX_BYTES && (m.outcome.HandleFails? || m.outcome.Created?) {
      SettledMap(sized);
      MapKeeps(sized);
      if m.outcome.HandleFails? {
        SettledUnmap(Map(sized));
      } else {
        SettledQuiet(Map(sized), Opened(m.scoid, s.nextId, m.nbytes));
      }
    }
  }

  lemma {:induction false} SettledRun(s: State, messages: seq<Message>)
    requires Inv(s) && Settled(s) && Real(messages) && Effective(Orderly, Step, s, messages)
    ensures Settled(Exec(Step, s, messages))
    decreases |messages|
  {
    if messages != [] {
      StepKeeps(s, messages[0]);
      SettledStep(s, messages[0]);
      SettledRun(Step(s, messages[0]), messages[1..]);
    }
  }

  /** After any orderly stream: mappings were made for exactly the GETs that got as far as
      mmap, in their order and with their sizes; each of them has been given back exactly
      once, with its size, or is the one of the session that stands. */
  lemma MappingsSettled(messages: seq<Message>)
    requires Real(messages) && Effective(Orderly, Step, START, messages)
    ensures var e := Exec(Step, START, messages);
      && MappedSizes(e.log) == Matched(Step, Asked, START, messages)
      && forall i :: 0 <= i < |e.log| && e.log[i].Mapped? ==>
           || (exists k :: GivenBack(e.log, i, k))
           || (e.clientScoid != 0 && e.ptr == Mapping(e.log[i].id) && e.size == e.log[i].size)
  {
    forall s, m ensures SizesMade(Step(s, m)) == SizesMade(s) + Asked(s, m) {
      SizesMadeStep(s, m);
    }
    Account(Step, (s: State) => true, SizesMade, Asked, START, messages);
    OrderlyRun(START, messages);
    SettledRun(START, messages);
  }

  class ShmSessionServer {
    var clientScoid: int
    var shmMemorySize: uint32
    var shmPtr: Pointer
    ghost var live: map<nat, nat>
    ghost var log: seq<Event>
    var nextId: nat  // names the mappings the kernel makes

    constructor ()
      ensures View() == START
    {
      clientScoid, shmMemorySize, shmPtr, live, log, nextId := 0, 0, Unset, map[], [], 0;
    }

    ghost function View(): State
      reads this
    {
      State(clientScoid, shmMemorySize, shmPtr, live, nextId, log)
    }

    method Munmap()
      modifies this`live, this`log
      ensures View() == Unmap(old(View()))
    {
      log := log + [Unmapped(shmPtr, shmMemorySize)];
      if shmPtr.Mapping? && shmPtr.id in live && live[shmPtr.id] == shmMemorySize {
        live := live - {shmPtr.id};
      }
    }

    method MakeSharedMemory(outcome: Outcome) returns (ok: bool)
      modifies this`live, this`log, this`shmPtr, this`nextId
      ensures (View(), ok) == CreateSharedMemory(old(View()), outcome)
    {
      if outcome.OpenFails? || outcome.TruncateFails? {
        return false;
      }
      if outcome.MmapFails? {
        shmPtr := MapFailed;
        return false;
      }
      shmPtr := Mapping(nextId);
      live, log := live[nextId := shmMemorySize], log + [Mapped(nextId, shmMemorySize)];
      nextId := nextId + 1;
      if outcome.HandleFails? {
        Munmap();
        return false;
      }
      return true;
    }

    /** One turn of the receive loop: the new state and the reply. */
    method HandleMessage(m: Message) returns (reply: Reply)
      modifies this
      ensures (View(), reply) == Receive(old(View()), m)
    {
      reply := NoReply;
      match m {
        case Disconnect(scoid) =>
          if scoid == clientScoid {
            clientScoid := 0;
            Munmap();
          }
        case OtherPulse =>
        case Get(scoid, nbytes, outcome) =>
          shmMemorySize := nbytes;
          if shmMemorySize > MAX_BYTES {
            return Einval;
          }
          var ok := MakeSharedMemory(outcome);
          if !ok {
            return MapError;
          }
          clientScoid := scoid;
          log := log + [Opened(scoid, if shmPtr.Mapping? then shmPtr.id else 0, shmMemorySize)];
          reply := Ok;
        case Changed(scoid, offset, length) =>
          if scoid != clientScoid {
            return Eperm;
          }
          if length > shmMemorySize || offset > shmMemorySize || (length + offset) % MODULUS > shmMemorySize {
            return Ebadmsg;
          }
          log := log + [Accepted(scoid, offset, length)];
          reply := Ok;
        case Release(scoid) =>
          if scoid != clientScoid {
            return Eperm;
          }
          clientScoid := 0;
          Munmap();
          reply := Ok;
        case Unknown => reply := Enosys;
      }
    }
  }
}
