/** When the chunk workers leave the right array without the mutex: exactly when no
    thread fixes its chunk while another has fixed one and has not yet moved `allocated`.
    Otherwise a chunk is handed out twice, so another one never is. */
module BumpSharing {
  import opened Runs
  import opened Sums
  import opened BumpAllocator
  import opened BumpTiling

  /** Thread t has been given the chunk at x, or is about to be. */
  predicate Claims(s: State, t: nat, x: int) {
    || (t < |s.workers| && Committing(s.workers[t].pc) && s.workers[t].pc.start == x)
    || Handout(t, x) in s.handed
  }

  predicate BothClaim(s: State, t: nat, u: nat, x: int) {
    t != u && Claims(s, t, x) && Claims(s, u, x)
  }

  ghost predicate Shared(s: State) {
    exists t: nat, u: nat, x: int :: BothClaim(s, t, u, x)
  }

  lemma ClaimStays(s: State, v: nat, t: nat, x: int)
    requires Claims(s, t, x)
    ensures Claims(Step(s, v), t, x)
  {
    var r := Step(s, v);
    assert s.handed <= r.handed;
    if v == t && t < |s.workers| && s.workers[t].pc.StoreAlloc? {
      assert r.handed[|s.handed|] == Handout(t, s.workers[t].pc.start);
    } else {
      assert t < |s.workers| && v != t && v < |s.workers| ==> r.workers[t] == s.workers[t];
    }
  }

  lemma SharedStep(s: State, v: nat)
    requires Shared(s)
    ensures Shared(Step(s, v))
  {
    var t: nat, u: nat, x: int :| BothClaim(s, t, u, x);
    ClaimStays(s, v, t, x);
    ClaimStays(s, v, u, x);
    assert BothClaim(Step(s, v), t, u, x);
  }

  /** The step that is not solitary fixes a chunk that another thread has fixed. */
  lemma OverlapShares(s: State, t: nat)
    requires Inv(s) && !Solitary(s, t)
    ensures Shared(Step(s, t))
  {
    var u :| 0 <= u < |s.workers| && u != t && Committing(s.workers[u].pc);
    assert WorkerLogged(s, u, s.workers[u]);
    assert BothClaim(Step(s, t), t, u, s.nAllocated);
  }

  // ----------------------------------- a chunk never handed out is never incremented

  ghost predicate Given(s: State, x: int) {
    exists j :: 0 <= j < |s.handed| && s.handed[j].start == x
  }

  ghost predicate ZeroInv(s: State) {
    && RangeInv(s) && |s.handed| == TotalStores(s)
    && (forall w :: w in s.workers && Holds(w) ==> Given(s, ChunkStart(w)))
    && (forall x :: 0 <= x < |s.cells| && x % s.a == 0 && !Given(s, x) ==> s.cells[x] == 0)
  }

  lemma GivenStays(s: State, t: nat, x: int)
    requires Given(s, x)
    ensures Given(Step(s, t), x)
  {
    var j :| 0 <= j < |s.handed| && s.handed[j].start == x;
    assert Step(s, t).handed[j].start == x;
  }

  /** An aligned cell that a worker stores to is the first of its chunk. */
  lemma FirstOfChunk(a: nat, start: int, i: nat)
    requires a > 0 && start % a == 0 && i < a && (start + i) % a == 0
    ensures i == 0
  {
    if i > 0 {
      assert start == a * (start / a) && start + i == a * ((start + i) / a);
      if (start + i) / a > start / a {
        MulMono(a, start / a + 1, (start + i) / a);
      } else {
        MulMono(a, (start + i) / a, start / a);
      }
    }
  }

  lemma OwnGiven(s: State, t: nat)
    requires ZeroInv(s) && t < |s.workers| && Holds(Step(s, t).workers[t])
    ensures Given(Step(s, t), ChunkStart(Step(s, t).workers[t]))
  {
    var w := s.workers[t];
    var r := Step(s, t);
    assert w in s.workers && WorkerInRange(s, w);
    if w.pc.StoreAlloc? {
      assert r.handed[|s.handed|].start == w.pc.start;
    } else {
      RangeInvStep(s, t);
      assert r.workers[t] in r.workers && WorkerInRange(r, r.workers[t]);
      assert Holds(w) && ChunkStart(w) == ChunkStart(r.workers[t]);
      GivenStays(s, t, ChunkStart(w));
    }
  }

  lemma ZeroCells(s: State, t: nat, x: int)
    requires ZeroInv(s) && t < |s.workers| && 0 <= x < |s.cells| && x % s.a == 0 && !Given(Step(s, t), x)
    ensures |Step(s, t).cells| == |s.cells| && Step(s, t).cells[x] == 0
  {
    var w := s.workers[t];
    assert w in s.workers && WorkerInRange(s, w);
    if Given(s, x) {
      GivenStays(s, t, x);
    }
    if w.pc.StoreCell? && x == w.pc.start + w.pc.i {
      FirstOfChunk(s.a, w.pc.start, w.pc.i);
    }
  }

  lemma ZeroInvStep(s: State, t: nat)
    requires ZeroInv(s)
    ensures ZeroInv(Step(s, t))
  {
    if t < |s.workers| {
      var r := Step(s, t);
      RangeInvStep(s, t);
      StoresStep(s, t);
      forall w | w in r.workers && Holds(w) ensures Given(r, ChunkStart(w)) {
        if w == r.workers[t] {
          OwnGiven(s, t);
        } else {
          assert w in s.workers;
          GivenStays(s, t, ChunkStart(w));
        }
      }
      forall x | 0 <= x < |r.cells| && x % r.a == 0 && !Given(r, x) ensures r.cells[x] == 0 {
        ZeroCells(s, t, x);
      }
    }
  }

  lemma AlwaysZero(n: nat, size: nat, work: nat, a: nat, sync: bool, schedule: seq<nat>)
    requires Enough(n, size, work, a)
    ensures ZeroInv(Exec(Step, Init(n, size, work, a, sync), schedule))
  {
    RangeInvInit(n, size, work, a, sync);
    forall s, t: nat | ZeroInv(s) ensures ZeroInv(Step(s, t)) {
      ZeroInvStep(s, t);
    }
    Invariant(Step, ZeroInv, Init(n, size, work, a, sync), schedule);
  }

  // ----------------------------------------------------- what is shared is also missed

  /** Fewer than m entries leave one of m numbers out. */
  lemma {:induction false} LeftOut(xs: seq<int>, m: nat) returns (q: nat)
    requires |xs| < m
    ensures q < m && q !in xs
    decreases m
  {
    if i :| 0 <= i < |xs| && xs[i] == m - 1 {
      q := LeftOut(xs[..i] + xs[i + 1..], m - 1);
      assert xs == xs[..i] + [m - 1] + xs[i + 1..];
    } else {
      q := m - 1;
    }
  }

  /** The numbers of the chunks in the log without its i-th entry. */
  function Numbers(s: State, i: nat): seq<int>
    requires i < |s.handed| && s.a > 0
  {
    seq(|s.handed| - 1, j requires 0 <= j < |s.handed| - 1 =>
      s.handed[if j < i then j else j + 1].start / s.a)
  }

  lemma NumberListed(s: State, i: nat, j: nat, g: nat)
    requires s.a > 0 && i < |s.handed| && j < |s.handed| && i != j && s.handed[i].start == s.handed[j].start
    requires g < |s.handed|
    ensures s.handed[g].start / s.a in Numbers(s, i)
  {
    var h := if g == i then j else g;
    assert Numbers(s, i)[if h < i then h else h - 1] == s.handed[g].start / s.a;
  }

  lemma QuotientOf(a: nat, q: nat)
    requires a > 0
    ensures (a * q) / a == q
  {
    var x := a * q;
    assert x == a * (x / a) + x % a;
    MulMod(a, q);
    if x / a < q {
      MulStrict(a, x / a, q);
    } else if q < x / a {
      MulStrict(a, q, x / a);
    }
  }

  /** When a chunk has been handed out twice in a finished run, some chunk of the front
      of the array has not been handed out. */
  lemma SharedLeavesOut(e: State) returns (q: nat)
    requires ZeroInv(e) && Complete(e) && Shared(e)
    ensures q < |e.workers| * e.k && !Given(e, e.a * q)
  {
    var t: nat, u: nat, x: int :| BothClaim(e, t, u, x);
    var i :| 0 <= i < |e.handed| && e.handed[i] == Handout(t, x);
    var j :| 0 <= j < |e.handed| && e.handed[j] == Handout(u, x);
    AllStored(e);
    var numbers := Numbers(e, i);
    q := LeftOut(numbers, |e.handed|);
    if Given(e, e.a * q) {
      var g :| 0 <= g < |e.handed| && e.handed[g].start == e.a * q;
      QuotientOf(e.a, q);
      NumberListed(e, i, j, g);
    }
  }

  lemma SharedLeavesZero(e: State)
    requires ZeroInv(e) && Complete(e) && Shared(e)
    ensures exists c :: 0 <= c < |e.workers| * e.k * e.a && c < |e.cells| && e.cells[c] == 0
  {
    var q := SharedLeavesOut(e);
    var c := e.a * q;
    MulStrict(e.a, q, |e.workers| * e.k);
    MulMod(e.a, q);
    assert e.cells[c] == 0;
  }

  /** One increment for each cell of the first `total`, and none beyond. */
  ghost predicate OnceEach(s: State, total: nat) {
    forall c :: 0 <= c < |s.cells| ==> s.cells[c] == if c < total then 1 else 0
  }

  /** With or without the mutex, a finished run has incremented every cell of the N * k
      chunks exactly once if and only if in no step of it a thread fixes its chunk while
      another has fixed one and not yet moved `allocated`. */
  lemma OnceEachExactly(n: nat, size: nat, work: nat, a: nat, sync: bool, schedule: seq<nat>)
    requires Enough(n, size, work, a) && Complete(Exec(Step, Init(n, size, work, a, sync), schedule))
    ensures OnceEach(Exec(Step, Init(n, size, work, a, sync), schedule), n * Chunks(work, a) * a) <==>
            Effective(Solitary, Step, Init(n, size, work, a, sync), schedule)
  {
    var s0 := Init(n, size, work, a, sync);
    var e := Exec(Step, s0, schedule);
    RangeInvInit(n, size, work, a, sync);
    forall s, t: nat | Inv(s) ensures if Solitary(s, t) then Inv(Step(s, t)) else Shared(Step(s, t)) {
      if Solitary(s, t) {
        InvStep(s, t);
      } else {
        OverlapShares(s, t);
      }
    }
    forall s, t: nat | Shared(s) ensures Shared(Step(s, t)) {
      SharedStep(s, t);
    }
    AllowedOrNot(Solitary, Step, Inv, Shared, s0, schedule);
    SizesStay(n, size, work, a, sync, schedule);
    if Effective(Solitary, Step, s0, schedule) {
      TiledAndIncrementedOnce(n, size, work, a, sync, schedule);
    } else {
      AlwaysZero(n, size, work, a, sync, schedule);
      SharedLeavesZero(e);
    }
  }

  /** The array the constants of the source make, of N * k * a cells, without the mutex:
      every cell is 1 if and only if the run is of this kind. */
  lemma FullArrayExactly(n: nat, size: nat, work: nat, a: nat, schedule: seq<nat>)
    requires a > 0 && size == n * Chunks(work, a) * a
    requires Complete(Exec(Step, Init(n, size, work, a, false), schedule))
    ensures var e := Exec(Step, Init(n, size, work, a, false), schedule);
      e.cells == seq(size, _ => 1) <==> Effective(Solitary, Step, Init(n, size, work, a, false), schedule)
  {
    OnceEachExactly(n, size, work, a, false, schedule);
    SizesStay(n, size, work, a, false, schedule);
    var e := Exec(Step, Init(n, size, work, a, false), schedule);
    if e.cells == seq(size, _ => 1) {
      assert OnceEach(e, size);
    }
  }
}
