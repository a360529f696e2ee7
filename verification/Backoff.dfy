/** The worker's retry backoff (internal/reconcile/worker.go): times and delays
    are int64 nanoseconds, and the shift wraps. */
module Backoff {
  const BASE: int := 30_000_000_000        // 30 seconds
  const MAX: int := 600_000_000_000        // 10 minutes
  const TWO63: int := 0x8000_0000_0000_0000
  const TWO64: int := 0x1_0000_0000_0000_0000

  function Pow2(k: nat): nat { if k == 0 then 1 else 2 * Pow2(k - 1) }

  /** The int64 that the low 64 bits of x spell. */
  function Wrapped(x: int): int { if x % TWO64 < TWO63 then x % TWO64 else x % TWO64 - TWO64 }

  /** Go's x << k on int64: zero once k reaches 64. */
  function ShiftLeft(x: int, k: nat): int { Wrapped(x * Pow2(k)) }

  /** The delay after the n-th consecutive failure. */
  function Delay(n: nat): int
    requires n >= 1
  {
    var delay := ShiftLeft(BASE, n - 1);
    if delay > MAX || delay <= 0 then MAX else delay
  }

  function Min(a: int, b: int): int { if a < b then a else b }

  lemma {:induction false} Pow2Grows(j: nat, k: nat)
    requires j <= k
    ensures Pow2(j) <= Pow2(k)
    decreases k
  {
    if j < k {
      Pow2Grows(j, k - 1);
    }
  }

  lemma Pow2Values()
    ensures Pow2(5) == 32 && Pow2(10) == 1024 && Pow2(28) == 0x1000_0000
  {
    assert Pow2(20) == 1024 * Pow2(10) by { assert Pow2(15) == 32 * Pow2(10); }
    assert Pow2(25) == 32 * Pow2(20);
  }

  lemma {:induction false} Pow2Splits(j: nat, k: nat)
    ensures Pow2(j + k) == Pow2(j) * Pow2(k)
    decreases k
  {
    if k > 0 {
      Pow2Splits(j, k - 1);
    }
  }

  /** Shifting by thirty or more leaves a multiple of 2^40: zero, negative, or
      above ten minutes. */
  lemma LongShift(m: nat)
    ensures var x := Wrapped(0x100_0000_0000 * m); x <= 0 || x > MAX
  {
    var q, r := m / 0x100_0000, m % 0x100_0000;
    assert 0x100_0000_0000 * m == TWO64 * q + 0x100_0000_0000 * r;
    assert (0x100_0000_0000 * m) % TWO64 == 0x100_0000_0000 * r by {
      Remainder(q, 0x100_0000_0000 * r);
    }
  }

  lemma Remainder(q: int, r: int)
    requires 0 <= r < TWO64
    ensures (TWO64 * q + r) % TWO64 == r
  {
  }

  /** Thirty seconds are 29296875 times 2^10 nanoseconds. */
  lemma BaseShiftedFar(k: nat)
    requires k >= 30
    ensures BASE * Pow2(k) == 0x100_0000_0000 * (29_296_875 * Pow2(k - 30))
  {
    Pow2Splits(30, k - 30);
    Pow2Splits(20, 10);
    Pow2Splits(10, 10);
    Pow2Values();
    assert Pow2(30) == 0x4000_0000;
  }

  /** However many failures came before, the wrapping shift and its guard give
      exactly thirty seconds doubled n - 1 times, capped at ten minutes. */
  lemma DelayIsCappedDoubling(n: nat)
    requires n >= 1
    ensures Delay(n) == Min(BASE * Pow2(n - 1), MAX)
  {
    var k := n - 1;
    Pow2Values();
    if k >= 5 {
      Pow2Grows(5, k);
    }
    if k <= 28 {
      Pow2Grows(k, 28);
    } else if k == 29 {
      assert Pow2(29) == 2 * Pow2(28);
    } else {
      BaseShiftedFar(k);
      LongShift(29_296_875 * Pow2(k - 30));
    }
  }

  // ---- The worker --------------------------------------------------------

  datatype Outcome = Projected | Incompatible | Failed

  /** One turn of the sweep over one pass. */
  datatype Visit = Visit(pass: nat, reconcilable: bool, now: int, outcome: Outcome)

  datatype Retry = Retry(until: map<nat, int>, count: map<nat, nat>, incompatible: set<nat>)

  predicate InBackoff(r: Retry, pass: nat, now: int) { pass in r.until && now < r.until[pass] }

  /** poll gets as far as projecting the pass. */
  predicate Polls(r: Retry, v: Visit) { v.reconcilable && !InBackoff(r, v.pass, v.now) && v.pass !in r.incompatible }

  function CountOf(r: Retry, pass: nat): nat { if pass in r.count then r.count[pass] else 0 }

  function AfterVisit(r: Retry, v: Visit): Retry {
    if !Polls(r, v) then r
    else
      match v.outcome
      case Incompatible => r.(incompatible := r.incompatible + {v.pass})
      case Failed =>
        var n := CountOf(r, v.pass) + 1;
        r.(count := r.count[v.pass := n], until := r.until[v.pass := v.now + Delay(n)])
      case Projected => r.(count := r.count - {v.pass}, until := r.until - {v.pass})
  }

  class Worker {
    var backoffUntil: map<nat, int>
    var backoffCount: map<nat, nat>
    var incompatible: set<nat>

    ghost function Contents(): Retry
      reads this
    {
      Retry(backoffUntil, backoffCount, incompatible)
    }

    constructor ()
      ensures Contents() == Retry(map[], map[], {})
    {
      backoffUntil, backoffCount, incompatible := map[], map[], {};
    }

    method NoteFailure(pass: nat, now: int)
      modifies this
      ensures var n := CountOf(old(Contents()), pass) + 1;
              Contents() == old(Contents()).(count := old(backoffCount)[pass := n],
                                             until := old(backoffUntil)[pass := now + Min(BASE * Pow2(n - 1), MAX)])
    {
      var n := 1;
      if pass in backoffCount {
        n := backoffCount[pass] + 1;
      }
      DelayIsCappedDoubling(n);
      backoffCount := backoffCount[pass := n];
      var delay := ShiftLeft(BASE, n - 1);
      if delay > MAX || delay <= 0 {
        delay := MAX;
      }
      backoffUntil := backoffUntil[pass := now + delay];
    }

    method ClearFailure(pass: nat)
      modifies this
      ensures Contents() == old(Contents()).(count := old(backoffCount) - {pass}, until := old(backoffUntil) - {pass})
    {
      backoffCount := backoffCount - {pass};
      backoffUntil := backoffUntil - {pass};
    }

    /** The loop of poll, with what each projection came to. */
    method Poll(visits: seq<Visit>) returns (polled: seq<Visit>)
      modifies this
      ensures Contents() == AfterVisits(old(Contents()), visits)
      ensures polled == Polled(old(Contents()), visits)
    {
      polled := [];
      var i := 0;
      while i < |visits|
        invariant 0 <= i <= |visits|
        invariant AfterVisits(old(Contents()), visits) == AfterVisits(Contents(), visits[i..])
        invariant Polled(old(Contents()), visits) == polled + Polled(Contents(), visits[i..])
      {
        var v := visits[i];
        ghost var before := Contents();
        VisitsUnroll(before, visits[i..]);
        assert visits[i..][1..] == visits[i + 1..];
        i := i + 1;
        if !v.reconcilable || (v.pass in backoffUntil && v.now < backoffUntil[v.pass]) || v.pass in incompatible {
          continue;
        }
        polled := polled + [v];
        match v.outcome {
          case Incompatible => incompatible := incompatible + {v.pass};
          case Failed =>
            DelayIsCappedDoubling(CountOf(Contents(), v.pass) + 1);
            NoteFailure(v.pass, v.now);
          case Projected => ClearFailure(v.pass);
        }
        assert Contents() == AfterVisit(before, v);
      }
    }
  }

  function AfterVisits(r: Retry, visits: seq<Visit>): Retry
    decreases |visits|
  {
    if visits == [] then r else AfterVisits(AfterVisit(r, visits[0]), visits[1..])
  }

  lemma VisitsUnroll(r: Retry, visits: seq<Visit>)
    requires visits != []
    ensures AfterVisits(r, visits) == AfterVisits(AfterVisit(r, visits[0]), visits[1..])
    ensures Polled(r, visits) == (if Polls(r, visits[0]) then [visits[0]] else []) + Polled(AfterVisit(r, visits[0]), visits[1..])
  {
  }

  function Polled(r: Retry, visits: seq<Visit>): seq<Visit>
    decreases |visits|
  {
    if visits == [] then []
    else (if Polls(r, visits[0]) then [visits[0]] else []) + Polled(AfterVisit(r, visits[0]), visits[1..])
  }

  // ---- Consecutive failures ----------------------------------------------

  /** How many of the pass's latest polls failed in a row. */
  function Streak(polled: seq<Visit>, pass: nat): nat
    decreases |polled|
  {
    if polled == [] then 0
    else
      var last, before := polled[|polled| - 1], polled[..|polled| - 1];
      if last.pass != pass || last.outcome.Incompatible? then Streak(before, pass)
      else if last.outcome.Failed? then Streak(before, pass) + 1
      else 0
  }

  lemma StreakOfOneMore(polled: seq<Visit>, v: Visit, pass: nat)
    ensures Streak(polled + [v], pass)
            == if v.pass != pass || v.outcome.Incompatible? then Streak(polled, pass)
               else if v.outcome.Failed? then Streak(polled, pass) + 1 else 0
  {
    assert (polled + [v])[..|polled|] == polled;
  }

  /** The worker's counter is the number of consecutive failures. */
  lemma {:induction false} CountIsStreak(r: Retry, earlier: seq<Visit>, visits: seq<Visit>, pass: nat)
    requires CountOf(r, pass) == Streak(earlier, pass)
    ensures CountOf(AfterVisits(r, visits), pass) == Streak(earlier + Polled(r, visits), pass)
    decreases |visits|
  {
    if visits == [] {
      assert earlier + [] == earlier;
    } else {
      var v, rest := visits[0], Polled(AfterVisit(r, visits[0]), visits[1..]);
      if Polls(r, v) {
        StreakOfOneMore(earlier, v, pass);
        CountIsStreak(AfterVisit(r, v), earlier + [v], visits[1..], pass);
        assert earlier + Polled(r, visits) == (earlier + [v]) + rest;
      } else {
        CountIsStreak(r, earlier, visits[1..], pass);
        assert earlier + Polled(r, visits) == earlier + rest;
      }
    }
  }

  lemma {:induction false} UnpolledKeepsDeadline(r: Retry, visits: seq<Visit>, pass: nat)
    requires forall i | 0 <= i < |Polled(r, visits)| :: Polled(r, visits)[i].pass != pass
    ensures pass in r.until <==> pass in AfterVisits(r, visits).until
    ensures pass in r.until ==> AfterVisits(r, visits).until[pass] == r.until[pass]
    decreases |visits|
  {
    if visits != [] {
      var rest := Polled(AfterVisit(r, visits[0]), visits[1..]);
      forall i | 0 <= i < |rest|
        ensures rest[i].pass != pass
      {
        assert rest[i] == Polled(r, visits)[if Polls(r, visits[0]) then i + 1 else i];
      }
      assert Polls(r, visits[0]) ==> Polled(r, visits)[0] == visits[0];
      UnpolledKeepsDeadline(AfterVisit(r, visits[0]), visits[1..], pass);
    }
  }

  /** From a fresh worker: when a poll is the k-th failure of a pass in a row,
      the pass is not polled again before min(30 s · 2^(k-1), 10 min) later. */
  lemma NextPollWaits(before: seq<Visit>, failing: Visit, between: seq<Visit>, next: Visit)
    requires var r := AfterVisits(Retry(map[], map[], {}), before);
             && Polls(r, failing) && failing.outcome.Failed? && next.pass == failing.pass
             && (forall i | 0 <= i < |Polled(AfterVisit(r, failing), between)| ::
                   Polled(AfterVisit(r, failing), between)[i].pass != failing.pass)
             && Polls(AfterVisits(AfterVisit(r, failing), between), next)
    ensures var k := Streak(Polled(Retry(map[], map[], {}), before) + [failing], failing.pass);
            k >= 1 && next.now >= failing.now + Min(BASE * Pow2(k - 1), MAX)
  {
    var idle := Retry(map[], map[], {});
    var r := AfterVisits(idle, before);
    var pass := failing.pass;
    CountIsStreak(idle, [], before, pass);
    assert [] + Polled(idle, before) == Polled(idle, before);
    StreakOfOneMore(Polled(idle, before), failing, pass);
    DelayIsCappedDoubling(CountOf(r, pass) + 1);
    UnpolledKeepsDeadline(AfterVisit(r, failing), between, pass);
  }

  // ---- Exactly when a pass is polled -------------------------------------

  /** When the pass's latest failed poll was. */
  function LastFailure(polled: seq<Visit>, pass: nat): int
    decreases |polled|
  {
    if polled == [] then 0
    else
      var last := polled[|polled| - 1];
      if last.pass == pass && last.outcome.Failed? then last.now else LastFailure(polled[..|polled| - 1], pass)
  }

  ghost predicate FoundIncompatible(polled: seq<Visit>, pass: nat) {
    exists i | 0 <= i < |polled| :: polled[i].pass == pass && polled[i].outcome.Incompatible?
  }

  /** What the worker remembers of the pass is what its polls came to. */
  ghost predicate Remembers(r: Retry, polled: seq<Visit>, pass: nat) {
    var k := Streak(polled, pass);
    && CountOf(r, pass) == k
    && (pass in r.incompatible <==> FoundIncompatible(polled, pass))
    && (pass in r.until <==> k > 0)
    && (k > 0 ==> r.until[pass] == LastFailure(polled, pass) + Min(30_000_000_000 * Pow2(k - 1), 600_000_000_000))
  }

  lemma OneMoreRemembered(r: Retry, polled: seq<Visit>, v: Visit, pass: nat)
    requires Remembers(r, polled, pass) && Polls(r, v)
    ensures Remembers(AfterVisit(r, v), polled + [v], pass)
  {
    var more := polled + [v];
    StreakOfOneMore(polled, v, pass);
    DelayIsCappedDoubling(CountOf(r, v.pass) + 1);
    assert more[..|polled|] == polled && more[|polled|] == v;
    if FoundIncompatible(polled, pass) {
      var i :| 0 <= i < |polled| && polled[i].pass == pass && polled[i].outcome.Incompatible?;
      assert more[i] == polled[i];
    }
    assert v.pass == pass && v.outcome.Incompatible? ==> FoundIncompatible(more, pass);
  }

  lemma {:induction false} AllRemembered(r: Retry, earlier: seq<Visit>, visits: seq<Visit>, pass: nat)
    requires Remembers(r, earlier, pass)
    ensures Remembers(AfterVisits(r, visits), earlier + Polled(r, visits), pass)
    decreases |visits|
  {
    if visits == [] {
      assert earlier + [] == earlier;
    } else {
      var v := visits[0];
      var rest := Polled(AfterVisit(r, v), visits[1..]);
      if Polls(r, v) {
        OneMoreRemembered(r, earlier, v, pass);
        AllRemembered(AfterVisit(r, v), earlier + [v], visits[1..], pass);
        assert earlier + Polled(r, visits) == (earlier + [v]) + rest;
      } else {
        AllRemembered(r, earlier, visits[1..], pass);
        assert earlier + Polled(r, visits) == earlier + rest;
      }
    }
  }

  /** From a fresh worker, a sweep polls a pass exactly when the pass can be
      reconciled, no poll of it found it incompatible, and after k failed polls
      in a row min(30 s · 2^(k-1), 10 min) have gone by since the last. */
  lemma PolledExactly(before: seq<Visit>, next: Visit)
    ensures var idle := Retry(map[], map[], {});
            var polled := Polled(idle, before);
            var k := Streak(polled, next.pass);
            Polls(AfterVisits(idle, before), next)
            <==> next.reconcilable && !FoundIncompatible(polled, next.pass)
                 && (k > 0 ==> next.now >= LastFailure(polled, next.pass) + Min(30_000_000_000 * Pow2(k - 1), 600_000_000_000))
  {
    var idle := Retry(map[], map[], {});
    AllRemembered(idle, [], before, next.pass);
    assert [] + Polled(idle, before) == Polled(idle, before);
  }
}
