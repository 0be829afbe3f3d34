/** Runs of a step system: a schedule is a sequence of actions, and a run is what
    the total step function makes of it.  Every system of this project lets an
    action that is not enabled leave the state as it is, so quantifying over all
    schedules quantifies over all interleavings. */
module Runs {

  function Exec<S, A>(next: (S, A) -> S, s: S, schedule: seq<A>): S {
    if schedule == [] then s else Exec(next, next(s, schedule[0]), schedule[1..])
  }

  /** Every action of the schedule is enabled when its turn comes. */
  ghost predicate Effective<S, A>(enabled: (S, A) -> bool, next: (S, A) -> S, s: S, schedule: seq<A>) {
    schedule == [] ||
    (enabled(s, schedule[0]) && Effective(enabled, next, next(s, schedule[0]), schedule[1..]))
  }

  lemma {:induction false} ExecConcat<S, A>(next: (S, A) -> S, s: S, first: seq<A>, second: seq<A>)
    ensures Exec(next, s, first + second) == Exec(next, Exec(next, s, first), second)
  {
    if first == [] {
      assert first + second == second;
    } else {
      assert (first + second)[1..] == first[1..] + second;
      ExecConcat(next, next(s, first[0]), first[1..], second);
    }
  }

  lemma ExecAppend<S, A>(next: (S, A) -> S, s: S, schedule: seq<A>, a: A)
    ensures Exec(next, s, schedule + [a]) == next(Exec(next, s, schedule), a)
  {
    ExecConcat(next, s, schedule, [a]);
    assert Exec(next, Exec(next, s, schedule), [a]) == next(Exec(next, s, schedule), a);
  }

  lemma {:induction false} EffectiveAppend<S, A>(
      enabled: (S, A) -> bool, next: (S, A) -> S, s: S, schedule: seq<A>, a: A)
    ensures Effective(enabled, next, s, schedule + [a]) <==>
            Effective(enabled, next, s, schedule) && enabled(Exec(next, s, schedule), a)
  {
    if schedule == [] {
      assert ([] + [a])[1..] == [] && ([] + [a])[0] == a;
    } else {
      assert (schedule + [a])[1..] == schedule[1..] + [a];
      EffectiveAppend(enabled, next, next(s, schedule[0]), schedule[1..], a);
    }
  }

  /** What every step keeps, every run keeps. */
  lemma {:induction false} Invariant<S(!new), A(!new)>(
      next: (S, A) -> S, inv: S -> bool, s: S, schedule: seq<A>)
    requires inv(s)
    requires forall x, a :: inv(x) ==> inv(next(x, a))
    ensures inv(Exec(next, s, schedule))
  {
    if schedule != [] {
      Invariant(next, inv, next(s, schedule[0]), schedule[1..]);
    }
  }

  /** When an invariant allows every step, every run consists of allowed steps. */
  lemma {:induction false} AllAllowed<S(!new), A(!new)>(
      allowed: (S, A) -> bool, next: (S, A) -> S, inv: S -> bool, s: S, schedule: seq<A>)
    requires inv(s)
    requires forall x, a :: inv(x) ==> allowed(x, a) && inv(next(x, a))
    ensures Effective(allowed, next, s, schedule)
    decreases |schedule|
  {
    if schedule != [] {
      AllAllowed(allowed, next, inv, next(s, schedule[0]), schedule[1..]);
    }
  }

  /** A run either consists of allowed steps only and keeps the one invariant, or its
      first step that is not allowed leads to the other, for good. */
  lemma {:induction false} AllowedOrNot<S(!new), A(!new)>(
      allowed: (S, A) -> bool, next: (S, A) -> S, good: S -> bool, bad: S -> bool, s: S, schedule: seq<A>)
    requires good(s)
    requires forall x, a :: good(x) ==> if allowed(x, a) then good(next(x, a)) else bad(next(x, a))
    requires forall x, a :: bad(x) ==> bad(next(x, a))
    ensures var e := Exec(next, s, schedule);
      if Effective(allowed, next, s, schedule) then good(e) else bad(e)
    decreases |schedule|
  {
    if schedule == [] {
    } else if allowed(s, schedule[0]) {
      AllowedOrNot(allowed, next, good, bad, next(s, schedule[0]), schedule[1..]);
    } else {
      Invariant(next, bad, next(s, schedule[0]), schedule[1..]);
    }
  }

  /** What the steps of a run contribute, one step after the other. */
  function Matched<S, A, B>(next: (S, A) -> S, matching: (S, A) -> seq<B>, s: S, schedule: seq<A>): seq<B> {
    if schedule == [] then [] else
    matching(s, schedule[0]) + Matched(next, matching, next(s, schedule[0]), schedule[1..])
  }

  lemma MatchedAppend<S, A, B>(next: (S, A) -> S, matching: (S, A) -> seq<B>, s: S, schedule: seq<A>, a: A)
    ensures Matched(next, matching, s, schedule + [a])
         == Matched(next, matching, s, schedule) + matching(Exec(next, s, schedule), a)
  {
    MatchedConcat(next, matching, s, schedule, [a]);
    var e := Exec(next, s, schedule);
    assert Matched(next, matching, e, [a]) == matching(e, a) + Matched(next, matching, next(e, a), []);
  }

  /** What every step adds to an account, a run adds. */
  lemma {:induction false} Account<S(!new), A(!new), B>(
      next: (S, A) -> S, inv: S -> bool, account: S -> seq<B>, adds: (S, A) -> seq<B>, s: S, schedule: seq<A>)
    requires inv(s)
    requires forall x, a :: inv(x) ==> inv(next(x, a)) && account(next(x, a)) == account(x) + adds(x, a)
    ensures account(Exec(next, s, schedule)) == account(s) + Matched(next, adds, s, schedule)
    decreases |schedule|
  {
    if schedule != [] {
      var m := next(s, schedule[0]);
      Account(next, inv, account, adds, m, schedule[1..]);
      assert account(s) + adds(s, schedule[0]) + Matched(next, adds, m, schedule[1..])
          == account(s) + (adds(s, schedule[0]) + Matched(next, adds, m, schedule[1..]));
    }
  }

  /** When every step keeps what is paid and still owed together at what was owed and has
      become due, a run does. */
  lemma {:induction false} Ledger<S(!new), A(!new), B>(
      next: (S, A) -> S, owed: S -> seq<B>, paid: (S, A) -> seq<B>, due: (S, A) -> seq<B>,
      s: S, schedule: seq<A>)
    requires forall x, a :: paid(x, a) + owed(next(x, a)) == owed(x) + due(x, a)
    ensures Matched(next, paid, s, schedule) + owed(Exec(next, s, schedule))
         == owed(s) + Matched(next, due, s, schedule)
    decreases |schedule|
  {
    if schedule != [] {
      var a, m, rest := schedule[0], next(s, schedule[0]), schedule[1..];
      var e := Exec(next, m, rest);
      Ledger(next, owed, paid, due, m, rest);
      calc {
        (paid(s, a) + Matched(next, paid, m, rest)) + owed(e);
        paid(s, a) + (Matched(next, paid, m, rest) + owed(e));
        paid(s, a) + (owed(m) + Matched(next, due, m, rest));
        (paid(s, a) + owed(m)) + Matched(next, due, m, rest);
        owed(s) + (due(s, a) + Matched(next, due, m, rest));
      }
    }
  }

  /** When every effective step uses up one unit of fuel and only progress brings
      fuel back, at most `refill` units for each unit of progress, then the length
      of an effective run is bounded by its progress. */
  lemma {:induction false} Budget<S(!new), A(!new)>(
      enabled: (S, A) -> bool, next: (S, A) -> S, inv: S -> bool,
      fuel: S -> int, progress: S -> int, refill: int, s: S, schedule: seq<A>)
    requires inv(s)
    requires Effective(enabled, next, s, schedule)
    requires forall x, a :: inv(x) && enabled(x, a) ==>
               && inv(next(x, a))
               && fuel(next(x, a)) + 1 <= fuel(x) + refill * (progress(next(x, a)) - progress(x))
    ensures var e := Exec(next, s, schedule);
            |schedule| + fuel(e) <= fuel(s) + refill * (progress(e) - progress(s))
  {
    if schedule != [] {
      var m := next(s, schedule[0]);
      Budget(enabled, next, inv, fuel, progress, refill, m, schedule[1..]);
      var e := Exec(next, s, schedule);
      assert refill * (progress(e) - progress(m)) + refill * (progress(m) - progress(s))
          == refill * (progress(e) - progress(s));
    }
  }

  lemma {:induction false} MatchedConcat<S, A, B>(
      next: (S, A) -> S, matching: (S, A) -> seq<B>, s: S, first: seq<A>, second: seq<A>)
    ensures Matched(next, matching, s, first + second)
         == Matched(next, matching, s, first) + Matched(next, matching, Exec(next, s, first), second)
  {
    if first == [] {
      assert first + second == second;
    } else {
      assert (first + second)[1..] == first[1..] + second;
      MatchedConcat(next, matching, next(s, first[0]), first[1..], second);
    }
  }

  /** Forward simulation: when each concrete step is matched by a (possibly empty)
      abstract schedule, each concrete run is by the concatenation of these. */
  lemma {:induction false} Simulation<S(!new), A(!new), T, B>(
      next: (S, A) -> S, inv: S -> bool, abs: S -> T,
      nextT: (T, B) -> T, matching: (S, A) -> seq<B>, s: S, schedule: seq<A>)
    requires inv(s)
    requires forall x, a :: inv(x) ==>
               inv(next(x, a)) && abs(next(x, a)) == Exec(nextT, abs(x), matching(x, a))
    ensures abs(Exec(next, s, schedule)) == Exec(nextT, abs(s), Matched(next, matching, s, schedule))
  {
    if schedule != [] {
      var m := next(s, schedule[0]);
      Simulation(next, inv, abs, nextT, matching, m, schedule[1..]);
      ExecConcat(nextT, abs(s), matching(s, schedule[0]), Matched(next, matching, m, schedule[1..]));
    }
  }

  /** The matching run of a prefix is a prefix of the matching run. */
  lemma MatchedPrefix<S, A, B>(
      next: (S, A) -> S, matching: (S, A) -> seq<B>, s: S, schedule: seq<A>, i: nat)
    requires i <= |schedule|
    ensures Matched(next, matching, s, schedule[..i]) <= Matched(next, matching, s, schedule)
  {
    assert schedule == schedule[..i] + schedule[i..];
    MatchedConcat(next, matching, s, schedule[..i], schedule[i..]);
  }
}
