/** The fixed-window limiter of the unauthenticated route
    (internal/httpapi/ratelimit.go). */
module RateLimiter {
  import opened Base

  datatype Window = Window(count: int, reset: int)

  datatype Request = Request(key: nat, now: int)

  function At(hits: map<nat, Window>, key: nat): Option<Window> { if key in hits then Some(hits[key]) else None }

  predicate Allowed(w: Option<Window>, now: int, limit: int) {
    w.None? || now > w.value.reset || w.value.count < limit
  }

  function WindowAfter(w: Option<Window>, now: int, limit: int, length: nat): Window {
    if w.None? || now > w.value.reset then Window(1, now + length)
    else if w.value.count < limit then w.value.(count := w.value.count + 1)
    else w.value
  }

  class Limiter {
    var hits: map<nat, Window>
    const limit: int
    const length: nat

    constructor (limit: int, length: nat)
      ensures hits == map[] && this.limit == limit && this.length == length
    {
      hits := map[];
      this.limit, this.length := limit, length;
    }

    method Allow(key: nat, now: int) returns (ok: bool)
      modifies this
      ensures ok == Allowed(At(old(hits), key), now, limit)
      ensures hits == old(hits)[key := WindowAfter(At(old(hits), key), now, limit, length)]
    {
      if key !in hits || now > hits[key].reset {
        hits := hits[key := Window(1, now + length)];
        return true;
      }
      if hits[key].count >= limit {
        assert hits == hits[key := hits[key]];
        return false;
      }
      hits := hits[key := hits[key].(count := hits[key].count + 1)];
      return true;
    }
  }

  // ---- How many requests an interval admits ------------------------------

  function After(hits: map<nat, Window>, r: Request, limit: int, length: nat): map<nat, Window> {
    hits[r.key := WindowAfter(At(hits, r.key), r.now, limit, length)]
  }

  /** Requests of one key admitted within [from, from + length]. */
  function Admitted(hits: map<nat, Window>, rs: seq<Request>, key: nat, from: int, limit: int, length: nat): nat
    decreases |rs|
  {
    if rs == [] then 0
    else
      var counts := rs[0].key == key && from <= rs[0].now <= from + length && Allowed(At(hits, key), rs[0].now, limit);
      (if counts then 1 else 0) + Admitted(After(hits, rs[0], limit, length), rs[1..], key, from, limit, length)
  }

  ghost predicate Nondecreasing(rs: seq<Request>) { forall i, j | 0 <= i < j < |rs| :: rs[i].now <= rs[j].now }

  function PerWindow(limit: int): nat { if limit < 1 then 1 else limit }

  /** A window has admitted at least its first request and never too many. */
  predicate Counted(w: Option<Window>, limit: int) { w.Some? ==> 1 <= w.value.count <= PerWindow(limit) }

  /** What can still be admitted once the interval has begun: the rest of a
      window that outlives it, or the rest of this window and one more. */
  function Remaining(w: Option<Window>, from: int, limit: int, length: nat): int {
    if w.None? then PerWindow(limit)
    else if w.value.reset >= from + length then PerWindow(limit) - w.value.count
    else 2 * PerWindow(limit) - w.value.count
  }

  lemma {:induction false} NothingAfterTheInterval(hits: map<nat, Window>, rs: seq<Request>, key: nat, from: int, limit: int, length: nat)
    requires Nondecreasing(rs) && (rs != [] ==> rs[0].now > from + length)
    ensures Admitted(hits, rs, key, from, limit, length) == 0
    decreases |rs|
  {
    if rs != [] {
      NothingAfterTheInterval(After(hits, rs[0], limit, length), rs[1..], key, from, limit, length);
    }
  }

  lemma {:induction false} AdmitsAtMost(hits: map<nat, Window>, rs: seq<Request>, key: nat, from: int, limit: int, length: nat)
    requires Nondecreasing(rs) && Counted(At(hits, key), limit)
    ensures Admitted(hits, rs, key, from, limit, length)
            <= if rs != [] && rs[0].now < from then 2 * PerWindow(limit) - 1 else Remaining(At(hits, key), from, limit, length)
    decreases |rs|
  {
    if rs != [] {
      var next := After(hits, rs[0], limit, length);
      if rs[0].now > from + length {
        NothingAfterTheInterval(hits, rs, key, from, limit, length);
      } else {
        AdmitsAtMost(next, rs[1..], key, from, limit, length);
      }
    }
  }

  /** For any nondecreasing clock, any closed interval as long as the window
      admits at most 2·limit - 1 requests per key (one, if limit is below
      one): the first request of the older window lies before it. */
  lemma IntervalAdmitsAtMost(rs: seq<Request>, key: nat, from: int, limit: int, length: nat)
    requires Nondecreasing(rs)
    ensures Admitted(map[], rs, key, from, limit, length) <= 2 * PerWindow(limit) - 1
  {
    AdmitsAtMost(map[], rs, key, from, limit, length);
  }

  // ---- The bound is reached ----------------------------------------------

  function Burst(key: nat, now: int, n: nat): seq<Request> { seq(n, _ => Request(key, now)) }

  lemma {:induction false} BurstIsAdmitted(hits: map<nat, Window>, rest: seq<Request>, key: nat, now: int, n: nat, from: int, limit: int, length: nat)
    requires key in hits && now <= hits[key].reset && hits[key].count + n <= limit && from <= now <= from + length
    ensures Admitted(hits, Burst(key, now, n) + rest, key, from, limit, length)
            == n + Admitted(hits[key := hits[key].(count := hits[key].count + n)], rest, key, from, limit, length)
    decreases n
  {
    if n == 0 {
      assert Burst(key, now, 0) + rest == rest;
      assert hits == hits[key := hits[key].(count := hits[key].count)];
    } else {
      var all := Burst(key, now, n) + rest;
      var next := After(hits, all[0], limit, length);
      assert all[1..] == Burst(key, now, n - 1) + rest;
      BurstIsAdmitted(next, rest, key, now, n - 1, from, limit, length);
      assert next[key := next[key].(count := next[key].count + (n - 1))]
          == hits[key := hits[key].(count := hits[key].count + n)];
    }
  }

  /** One request opens a window; limit - 1 more arrive as it ends and limit in
      the next instant: 2·limit - 1 within one window's length. */
  lemma BoundIsReached(limit: nat, length: nat)
    requires limit >= 1 && length >= 1
    ensures var rs := [Request(0, 0)] + (Burst(0, length, limit - 1) + ([Request(0, length + 1)] + (Burst(0, length + 1, limit - 1) + [])));
            Nondecreasing(rs) && Admitted(map[], rs, 0, 1, limit, length) == 2 * limit - 1
  {
    var last := Burst(0, length + 1, limit - 1) + [];
    var second := [Request(0, length + 1)] + last;
    var first := Burst(0, length, limit - 1) + second;
    var rs := [Request(0, 0)] + first;
    assert rs[1..] == first && second[1..] == last;
    var h1 := map[0 := Window(1, length)];
    assert After(map[], rs[0], limit, length) == h1;
    BurstIsAdmitted(h1, second, 0, length, limit - 1, 1, limit, length);
    var h2 := h1[0 := Window(limit, length)];
    assert h1[0 := h1[0].(count := h1[0].count + (limit - 1))] == h2;
    var h3 := After(h2, second[0], limit, length);
    assert h3[0] == Window(1, 2 * length + 1);
    BurstIsAdmitted(h3, [], 0, length + 1, limit - 1, 1, limit, length);
  }
}
