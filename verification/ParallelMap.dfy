/** An array doubled in place by N threads, each on its own stretch of L / N elements. */
module ParallelMap {
  import opened Runs
  import opened Sums

  /** The loop index, and the element loaded and not yet stored. */
  datatype Pc = AtElement(i: nat) | Loaded(i: nat, v: int) | Ended

  datatype State = State(cells: seq<int>, chunk: nat, threads: seq<Pc>)

  function Init(input: seq<int>, n: nat): State
    requires n > 0
  {
    var chunk := |input| / n;
    State(input, chunk, seq(n, t requires 0 <= t => AtElement(t * chunk)))
  }

  function Step(s: State, t: nat): State {
    if t >= |s.threads| then s else
    match s.threads[t]
    case AtElement(i) =>
      if i < t * s.chunk + s.chunk && i < |s.cells|
      then s.(threads := s.threads[t := Loaded(i, s.cells[i])])
      else s.(threads := s.threads[t := Ended])
    case Loaded(i, v) =>
      if i < |s.cells|
      then s.(cells := s.cells[i := v * 2], threads := s.threads[t := AtElement(i + 1)])
      else s
    case Ended => s
  }

  predicate Complete(s: State) {
    forall t :: 0 <= t < |s.threads| ==> s.threads[t].Ended?
  }

  /** The input with the elements from lo up to hi doubled. */
  function Doubled(input: seq<int>, lo: nat, hi: nat): (r: seq<int>)
    ensures |r| == |input|
  {
    seq(|input|, c requires 0 <= c < |input| => if lo <= c < hi then input[c] * 2 else input[c])
  }

  /** The first element thread t has not doubled yet. */
  function Frontier(s: State, t: nat): nat
    requires t < |s.threads|
  {
    if s.threads[t].Ended? then t * s.chunk + s.chunk else s.threads[t].i
  }

  /** From lo to hi the input is doubled up to f and untouched from there on. */
  predicate Stretch(input: seq<int>, cells: seq<int>, lo: nat, hi: nat, f: nat) {
    && |cells| == |input| && lo <= f <= hi <= |input|
    && forall c :: lo <= c < hi ==> cells[c] == if c < f then input[c] * 2 else input[c]
  }

  predicate ThreadOk(input: seq<int>, s: State, t: nat)
    requires t < |s.threads|
  {
    var lo := t * s.chunk;
    && Stretch(input, s.cells, lo, lo + s.chunk, Frontier(s, t))
    && (s.threads[t].Loaded? ==>
          s.threads[t].i < lo + s.chunk && s.threads[t].v == input[s.threads[t].i])
  }

  ghost predicate Inv(input: seq<int>, s: State) {
    && |s.cells| == |input| && |s.threads| * s.chunk <= |input|
    && (forall t :: 0 <= t < |s.threads| ==> ThreadOk(input, s, t))
    && (forall c :: |s.threads| * s.chunk <= c < |input| ==> s.cells[c] == input[c])
  }

  /** The stretches of different threads do not overlap and stay inside the part of
      the array that is shared out. */
  lemma Apart(chunk: nat, n: nat, t: nat, u: nat)
    requires t < n
    ensures t * chunk + chunk <= n * chunk
    ensures t < u ==> t * chunk + chunk <= u * chunk
  {
    assert (n - t - 1) * chunk >= 0;
    if t < u {
      assert (u - t - 1) * chunk >= 0;
    }
  }

  lemma OwnStep(input: seq<int>, s: State, t: nat)
    requires t < |s.threads| && ThreadOk(input, s, t)
    ensures ThreadOk(input, Step(s, t), t)
  {
  }

  lemma Untouched(input: seq<int>, cells: seq<int>, lo: nat, hi: nat, f: nat, i: nat, v: int)
    requires Stretch(input, cells, lo, hi, f) && i < |cells| && (i < lo || hi <= i)
    ensures Stretch(input, cells[i := v], lo, hi, f)
  {
  }

  lemma OtherStep(input: seq<int>, s: State, t: nat, u: nat)
    requires t < |s.threads| && u < |s.threads| && t != u && ThreadOk(input, s, t) && ThreadOk(input, s, u)
    ensures ThreadOk(input, Step(s, t), u)
  {
    Apart(s.chunk, |s.threads|, t, u);
    Apart(s.chunk, |s.threads|, u, t);
    assert Step(s, t).threads[u] == s.threads[u];
    if s.threads[t].Loaded? && s.threads[t].i < |s.cells| {
      Untouched(input, s.cells, u * s.chunk, u * s.chunk + s.chunk, Frontier(s, u),
                s.threads[t].i, s.threads[t].v * 2);
    }
  }

  lemma InvStep(input: seq<int>, s: State, t: nat)
    requires Inv(input, s)
    ensures Inv(input, Step(s, t))
  {
    if t < |s.threads| {
      var r := Step(s, t);
      OwnStep(input, s, t);
      forall u | 0 <= u < |s.threads| ensures ThreadOk(input, r, u) {
        if u != t {
          OtherStep(input, s, t, u);
        }
      }
      assert ThreadOk(input, s, t);
      Apart(s.chunk, |s.threads|, t, t);
    }
  }

  lemma InvInit(input: seq<int>, n: nat)
    requires n > 0
    ensures Inv(input, Init(input, n))
  {
    var s0 := Init(input, n);
    assert n * s0.chunk <= |input|;
    forall t | 0 <= t < n ensures ThreadOk(input, s0, t) {
      Apart(s0.chunk, n, t, t);
    }
  }

  lemma Always(input: seq<int>, n: nat, schedule: seq<nat>)
    requires n > 0
    ensures var e := Exec(Step, Init(input, n), schedule);
      Inv(input, e) && |e.threads| == n && e.chunk == |input| / n
  {
    var chunk := |input| / n;
    InvInit(input, n);
    var inv := (x: State) => Inv(input, x) && |x.threads| == n && x.chunk == chunk;
    forall s, t: nat | inv(s) ensures inv(Step(s, t)) {
      InvStep(input, s, t);
    }
    Invariant(Step, inv, Init(input, n), schedule);
  }

  /** Every complete interleaving of the element-level loads and stores ends in the
      same array: the first N * (L / N) elements doubled and the rest untouched. */
  lemma ScheduleIndependent(input: seq<int>, n: nat, schedule: seq<nat>)
    requires n > 0 && Complete(Exec(Step, Init(input, n), schedule))
    ensures Exec(Step, Init(input, n), schedule).cells == Doubled(input, 0, n * (|input| / n))
  {
    Always(input, n, schedule);
    var e := Exec(Step, Init(input, n), schedule);
    forall c | 0 <= c < |input|
      ensures e.cells[c] == Doubled(input, 0, n * e.chunk)[c]
    {
      if c < n * e.chunk {
        var t := OwnerOf(e.chunk, n, c);
        assert ThreadOk(input, e, t) && e.threads[t].Ended?;
      }
    }
  }

  /** Every shared-out element belongs to some thread. */
  lemma {:induction false} OwnerOf(chunk: nat, n: nat, c: nat) returns (t: nat)
    requires c < n * chunk
    ensures t < n && t * chunk <= c < t * chunk + chunk
    decreases n
  {
    if n == 0 {
      assert false;
    } else if (n - 1) * chunk <= c {
      t := n - 1;
    } else {
      t := OwnerOf(chunk, n - 1, c);
    }
  }

  /** Exactly when the threads' number divides the length, or what is left over is
      zero anyway, the program doubles the whole array. */
  lemma DoublesWholeArray(input: seq<int>, n: nat, schedule: seq<nat>)
    requires n > 0 && Complete(Exec(Step, Init(input, n), schedule))
    ensures Exec(Step, Init(input, n), schedule).cells == Doubled(input, 0, |input|) <==>
            (forall c :: n * (|input| / n) <= c < |input| ==> input[c] == 0)
    ensures |input| % n == 0 ==>
            Exec(Step, Init(input, n), schedule).cells == Doubled(input, 0, |input|)
  {
    ScheduleIndependent(input, n, schedule);
    var e := Exec(Step, Init(input, n), schedule).cells;
    var d := Doubled(input, 0, |input|);
    if e == d {
      forall c | n * (|input| / n) <= c < |input| ensures input[c] == 0 {
        assert e[c] == input[c] && d[c] == input[c] * 2;
      }
    }
  }

  // ------------------------------------------------------------------- every run ends

  predicate Moves(s: State, t: nat) { Step(s, t) != s }

  ghost predicate AtRest(s: State) { forall t: nat :: !Moves(s, t) }

  /** Steps thread t can still take: two for each element and one to leave the loop. */
  function ThreadFuel(s: State, t: nat): int
    requires t < |s.threads|
  {
    match s.threads[t]
    case AtElement(i) => 2 * (t * s.chunk + s.chunk - i) + 1
    case Loaded(i, _) => 2 * (t * s.chunk + s.chunk - i)
    case Ended => 0
  }

  function Fuels(s: State): seq<int> {
    seq(|s.threads|, t requires 0 <= t < |s.threads| => ThreadFuel(s, t))
  }

  function Same(x: int): int { x }

  function Fuel(s: State): int { Sum(Fuels(s), Same) }

  lemma FuelStep(input: seq<int>, s: State, t: nat)
    requires Inv(input, s) && Moves(s, t)
    ensures Fuel(Step(s, t)) + 1 <= Fuel(s)
  {
    var r := Step(s, t);
    assert ThreadOk(input, s, t);
    assert Fuels(r) == Fuels(s)[t := ThreadFuel(r, t)];
    SumUpdate(Fuels(s), Same, t, ThreadFuel(r, t));
  }

  lemma FuelBound(input: seq<int>, s: State)
    requires Inv(input, s)
    ensures 0 <= Fuel(s)
  {
    forall x | x in Fuels(s) ensures 0 <= Same(x) {
      var t :| 0 <= t < |s.threads| && Fuels(s)[t] == x;
      assert ThreadOk(input, s, t);
    }
    LowerBound(Fuels(s), Same, 0);
  }

  lemma FuelInit(input: seq<int>, n: nat)
    requires n > 0
    ensures Fuel(Init(input, n)) == n * (2 * (|input| / n) + 1)
  {
    var s0 := Init(input, n);
    var each := 2 * s0.chunk + 1;
    assert Fuels(s0) == seq(n, _ => each);
    SumBounds(Fuels(s0), Same, each, each);
  }

  /** A run in which every step moves has at most N * (2 * (L / N) + 1) steps. */
  lemma RunsEnd(input: seq<int>, n: nat, schedule: seq<nat>)
    requires n > 0 && Effective(Moves, Step, Init(input, n), schedule)
    ensures |schedule| <= n * (2 * (|input| / n) + 1)
  {
    var s0 := Init(input, n);
    InvInit(input, n);
    forall s, t: nat | Inv(input, s) && Moves(s, t)
      ensures Inv(input, Step(s, t)) && Fuel(Step(s, t)) + 1 <= Fuel(s)
    {
      InvStep(input, s, t);
      FuelStep(input, s, t);
    }
    Budget(Moves, Step, (s: State) => Inv(input, s), Fuel, (s: State) => 0, 0, s0, schedule);
    Always(input, n, schedule);
    FuelBound(input, Exec(Step, s0, schedule));
    FuelInit(input, n);
  }

  /** And where no thread can move, all have ended, so the array is as above. */
  lemma RestIsComplete(input: seq<int>, n: nat, schedule: seq<nat>)
    requires n > 0 && AtRest(Exec(Step, Init(input, n), schedule))
    ensures var e := Exec(Step, Init(input, n), schedule);
      Complete(e) && e.cells == Doubled(input, 0, n * (|input| / n))
  {
    Always(input, n, schedule);
    var e := Exec(Step, Init(input, n), schedule);
    forall t | 0 <= t < n ensures e.threads[t].Ended? {
      assert ThreadOk(input, e, t) && !Moves(e, t);
    }
    ScheduleIndependent(input, n, schedule);
  }

  /** double_array alone on its stretch of the heap array. */
  method DoubleArray(a: array<int>, startIdx: nat, length: nat)
    requires startIdx + length <= a.Length
    modifies a
    ensures a[..] == Doubled(old(a[..]), startIdx, startIdx + length)
  {
    var i := startIdx;
    var e := startIdx + length;
    while i < e
      invariant startIdx <= i <= e
      invariant a[..] == Doubled(old(a[..]), startIdx, i)
    {
      a[i] := a[i] * 2;
      i := i + 1;
    }
  }

  /** The main function with the threads run one after the other. */
  method QnxLabAssignmentOne(a: array<int>, n: nat)
    requires n > 0
    modifies a
    ensures a[..] == Doubled(old(a[..]), 0, n * (a.Length / n))
  {
    var chunkSize := a.Length / n;
    assert n * chunkSize <= a.Length;
    var t := 0;
    assert a[..] == Doubled(a[..], 0, 0);
    while t < n
      invariant 0 <= t <= n
      invariant a[..] == Doubled(old(a[..]), 0, t * chunkSize)
    {
      Apart(chunkSize, n, t, t + 1);
      DoubleArray(a, t * chunkSize, chunkSize);
      assert (t + 1) * chunkSize == t * chunkSize + chunkSize;
      t := t + 1;
    }
  }

  class ArrayLab {
    const chunk: nat
    const cells: array<int>
    var threads: seq<Pc>

    constructor (input: array<int>, n: nat)
      requires n > 0
      ensures cells == input && View() == Init(input[..], n)
    {
      var size := input.Length / n;
      chunk, cells := size, input;
      threads := seq(n, t requires 0 <= t => AtElement(t * size));
    }

    function View(): State
      reads this, cells
    {
      State(cells[..], chunk, threads)
    }

    /** The next load or store of thread t. */
    method DoubleElement(t: nat)
      modifies this, cells
      ensures View() == Step(old(View()), t)
    {
      if t < |threads| {
        match threads[t] {
          case AtElement(i) =>
            if i < t * chunk + chunk && i < cells.Length {
              threads := threads[t := Loaded(i, cells[i])];
            } else {
              threads := threads[t := Ended];
            }
          case Loaded(i, v) =>
            if i < cells.Length {
              cells[i] := v * 2;
              threads := threads[t := AtElement(i + 1)];
            }
          case Ended =>
        }
      }
    }
  }
}
