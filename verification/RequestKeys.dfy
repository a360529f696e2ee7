/** Opening a draft under one idempotency key: claims, waits, releases and
    reclaims by any number of attempts (internal/missionpass/proposal.go and
    the request-key table in internal/store/sqlite.go).

    Every statement on the table is its own step: the claim is an insert and
    a separate read of the winner, and a release deletes by key alone. */
module RequestKeys {
  import opened Base

  const DANGLING_AFTER: int := 600         // seconds

  datatype Claim = Claim(pass: nat, at: int)

  datatype Pc =
    | Opened
    | Waiting(pass: nat, lost: bool)       // for the owner's row; lost: after losing the claim
    | Aging                                // gave up waiting, about to read the claim's age
    | Reclaiming                           // found the claim dangling, about to delete the key
    | Unclaimed                            // about to claim
    | Inserted(pass: nat)                  // about to read the winner
    | Owning(pass: nat)
    | Releasing(pass: nat)                 // failed without a row, about to delete the key
    | Saved(pass: nat)

  datatype State = State(
    claim: Option<Claim>, rows: set<nat>, attempts: map<nat, Pc>,
    minted: set<nat>, returned: seq<nat>)

  datatype Action =
    | Open(attempt: nat)
    | LookUp(attempt: nat)
    | SeeRow(attempt: nat)
    | GiveUp(attempt: nat)
    | ReadAge(attempt: nat, now: int)
    | Reclaim(attempt: nat)
    | Insert(attempt: nat, pass: nat, now: int)
    | ReadWinner(attempt: nat)
    | Persist(attempt: nat)
    | Fail(attempt: nat)
    | Release(attempt: nat)
    | Return(attempt: nat)
    | Crash(attempt: nat)

  function Goto(s: State, t: nat, pc: Pc): State { s.(attempts := s.attempts[t := pc]) }

  function End(s: State, t: nat): State { s.(attempts := s.attempts - {t}) }

  /** Zero when the clock ran backwards. */
  function Age(claim: Claim, now: int): int { if now < claim.at then 0 else now - claim.at }

  predicate Dangling(claim: Claim, now: int) { Age(claim, now) >= DANGLING_AFTER }

  function Step(s: State, a: Action): State {
    var t := a.attempt;
    if a.Open? then (if t in s.attempts then s else Goto(s, t, Opened))
    else if t !in s.attempts then s
    else
      match (a, s.attempts[t])
      case (LookUp(_), Opened) => Goto(s, t, if s.claim.None? then Unclaimed else Waiting(s.claim.value.pass, false))
      case (SeeRow(_), Waiting(p, _)) => if p in s.rows then End(s, t).(returned := s.returned + [p]) else s
      case (GiveUp(_), Waiting(p, lost)) => if lost then End(s, t) else Goto(s, t, Aging)
      case (ReadAge(_, now), Aging) =>
        if s.claim.Some? && Dangling(s.claim.value, now) then Goto(s, t, Reclaiming) else End(s, t)
      case (Reclaim(_), Reclaiming) => Goto(s, t, Unclaimed).(claim := None)
      case (Insert(_, p, now), Unclaimed) =>
        // newPassID never repeats; INSERT OR IGNORE keeps an existing claim.
        if p in s.minted then s
        else Goto(s, t, Inserted(p)).(minted := s.minted + {p},
                                      claim := if s.claim.None? then Some(Claim(p, now)) else s.claim)
      case (ReadWinner(_), Inserted(p)) =>
        if s.claim.None? then End(s, t)
        else Goto(s, t, if s.claim.value.pass == p then Owning(p) else Waiting(s.claim.value.pass, true))
      case (Persist(_), Owning(p)) => Goto(s, t, Saved(p)).(rows := s.rows + {p})
      case (Fail(_), Owning(p)) => Goto(s, t, Releasing(p))
      case (Release(_), Releasing(p)) => End(s, t).(claim := None)
      case (Return(_), Saved(p)) => End(s, t).(returned := s.returned + [p])
      case (Crash(_), _) => End(s, t)
      case _ => s
  }

  function Run(s: State, actions: seq<Action>): State
    decreases |actions|
  {
    if actions == [] then s else Run(Step(s, actions[0]), actions[1..])
  }

  predicate Initial(s: State) {
    s.claim.None? && s.rows == {} && s.attempts == map[] && s.returned == []
  }

  // ---- Deleting a claim that is in use -----------------------------------

  predicate Deletes(s: State, a: Action) {
    a.attempt in s.attempts
    && ((a.Reclaim? && s.attempts[a.attempt].Reclaiming?) || (a.Release? && s.attempts[a.attempt].Releasing?))
  }

  /** Some other attempt owns the claim on p and may still store its pass. */
  predicate Live(s: State, t: nat, p: nat) {
    exists u | u in s.attempts && u != t :: s.attempts[u] == Owning(p)
  }

  /** The key is deleted while its claim belongs to a stored pass or to an
      attempt that may still store one. */
  predicate Steals(s: State, a: Action) {
    Deletes(s, a) && s.claim.Some? && (s.claim.value.pass in s.rows || Live(s, a.attempt, s.claim.value.pass))
  }

  predicate NoSteal(s: State, actions: seq<Action>)
    decreases |actions|
  {
    actions == [] || (!Steals(s, actions[0]) && NoSteal(Step(s, actions[0]), actions[1..]))
  }

  // ---- The invariant -----------------------------------------------------

  /** The pass ID an attempt made for itself. */
  function Own(pc: Pc): Option<nat> {
    match pc
    case Inserted(p) => Some(p)
    case Owning(p) => Some(p)
    case Releasing(p) => Some(p)
    case Saved(p) => Some(p)
    case _ => None
  }

  ghost predicate Fresh(s: State) {
    && (forall t | t in s.attempts && Own(s.attempts[t]).Some? :: Own(s.attempts[t]).value in s.minted)
    && (forall t, u | t in s.attempts && u in s.attempts && t != u ::
          Own(s.attempts[t]).None? || Own(s.attempts[t]) != Own(s.attempts[u]))
    && (forall t | t in s.attempts && (s.attempts[t].Inserted? || s.attempts[t].Owning? || s.attempts[t].Releasing?) ::
          s.attempts[t].pass !in s.rows)
    && s.rows <= s.minted
    && (s.claim.Some? ==> s.claim.value.pass in s.minted)
  }

  predicate ClaimIs(s: State, p: nat) { s.claim.Some? && s.claim.value.pass == p }

  ghost predicate Held(s: State) {
    && (forall p | p in s.rows :: ClaimIs(s, p))
    && (forall t | t in s.attempts && s.attempts[t].Owning? :: ClaimIs(s, s.attempts[t].pass))
    && (forall t | t in s.attempts && s.attempts[t].Saved? :: s.attempts[t].pass in s.rows)
    && (forall i | 0 <= i < |s.returned| :: s.returned[i] in s.rows)
  }

  lemma StepKeepsFresh(s: State, a: Action)
    requires Initial(s) || Fresh(s)
    ensures Fresh(Step(s, a))
  {
  }

  /** A step takes the claim from a stored pass or a live owner exactly when it
      steals. */
  lemma StepHoldsUnlessStolen(s: State, a: Action)
    requires Fresh(s) && Held(s)
    ensures Held(Step(s, a)) <==> !Steals(s, a)
  {
    if Deletes(s, a) && s.claim.Some? {
      var p := s.claim.value.pass;
      var s1 := Step(s, a);
      if Live(s, a.attempt, p) {
        var u :| u in s.attempts && u != a.attempt && s.attempts[u] == Owning(p);
        assert u in s1.attempts && s1.attempts[u].Owning? && !ClaimIs(s1, p);
      } else if p in s.rows {
        assert p in s1.rows && !ClaimIs(s1, p);
      }
    }
  }

  ghost predicate HeldThroughout(s: State, actions: seq<Action>)
    decreases |actions|
  {
    Held(s) && (actions != [] ==> HeldThroughout(Step(s, actions[0]), actions[1..]))
  }

  /** All through a run the stored pass and every live owner hold the key,
      exactly when no claim in use is deleted. */
  lemma {:induction false} HeldThroughoutUnlessStolen(s: State, actions: seq<Action>)
    requires Fresh(s) && Held(s)
    ensures HeldThroughout(s, actions) <==> NoSteal(s, actions)
    decreases |actions|
  {
    if actions != [] {
      StepKeepsFresh(s, actions[0]);
      StepHoldsUnlessStolen(s, actions[0]);
      if !Steals(s, actions[0]) {
        HeldThroughoutUnlessStolen(Step(s, actions[0]), actions[1..]);
      }
    }
  }

  lemma {:induction false} HeldAtTheEnd(s: State, actions: seq<Action>)
    requires HeldThroughout(s, actions)
    ensures Held(Run(s, actions))
    decreases |actions|
  {
    if actions != [] {
      HeldAtTheEnd(Step(s, actions[0]), actions[1..]);
    }
  }

  /** As long as nobody deletes a claim in use, concurrent, retried, failed and
      crashed opens of one key store at most one pass, and every open that
      succeeds returns it. */
  lemma OneDraftPerKey(s: State, actions: seq<Action>, p: nat, q: nat)
    requires Initial(s) && NoSteal(s, actions)
    ensures var s1 := Run(s, actions);
            && (p in s1.rows && q in s1.rows ==> p == q)
            && (p in s1.returned && q in s1.returned ==> p == q && p in s1.rows)
  {
    HeldThroughoutUnlessStolen(s, actions);
    HeldAtTheEnd(s, actions);
  }

  // ---- Claims that never get old are never stolen ------------------------

  /** An attempt that reads the age of the claim finds it below the bound. */
  predicate AgeBelow(s: State, a: Action, bound: int) {
    a.ReadAge? && a.attempt in s.attempts && s.attempts[a.attempt].Aging? && s.claim.Some?
    ==> Age(s.claim.value, a.now) < bound
  }

  /** Every claim age read in the run is below the bound. */
  predicate AgesBelow(s: State, actions: seq<Action>, bound: int)
    decreases |actions|
  {
    actions == [] || (AgeBelow(s, actions[0], bound) && AgesBelow(Step(s, actions[0]), actions[1..], bound))
  }

  ghost predicate Unreclaimed(s: State) {
    && (forall t | t in s.attempts :: !s.attempts[t].Reclaiming?)
    && (forall t | t in s.attempts && s.attempts[t].Releasing? :: ClaimIs(s, s.attempts[t].pass))
  }

  lemma StepKeepsUnreclaimed(s: State, a: Action)
    requires Fresh(s) && Held(s) && Unreclaimed(s)
    requires AgeBelow(s, a, DANGLING_AFTER)
    ensures !Steals(s, a) && Unreclaimed(Step(s, a))
  {
    if Deletes(s, a) {
      assert ClaimIs(s, s.attempts[a.attempt].pass);
    }
  }

  lemma {:induction false} NeverDanglingNeverSteals(s: State, actions: seq<Action>)
    requires Fresh(s) && Held(s) && Unreclaimed(s) && AgesBelow(s, actions, DANGLING_AFTER)
    ensures NoSteal(s, actions)
    decreases |actions|
  {
    if actions != [] {
      StepKeepsFresh(s, actions[0]);
      StepKeepsUnreclaimed(s, actions[0]);
      StepHoldsUnlessStolen(s, actions[0]);
      NeverDanglingNeverSteals(Step(s, actions[0]), actions[1..]);
    }
  }

  /** In every run in which no claim reaches the ten-minute age, one key opens
      at most one draft, although owners release the key when they fail. */
  lemma OneDraftWhileClaimsAreYoung(s: State, actions: seq<Action>, p: nat, q: nat)
    requires Initial(s) && AgesBelow(s, actions, DANGLING_AFTER)
    ensures var s1 := Run(s, actions);
            && (p in s1.rows && q in s1.rows ==> p == q)
            && (p in s1.returned && q in s1.returned ==> p == q && p in s1.rows)
  {
    NeverDanglingNeverSteals(s, actions);
    OneDraftPerKey(s, actions, p, q);
  }

  // ---- Two reclaimers open two drafts ------------------------------------

  lemma {:induction false} Joins(s: State, xs: seq<Action>, ys: seq<Action>, bound: int)
    ensures Run(s, xs + ys) == Run(Run(s, xs), ys)
    ensures AgesBelow(s, xs + ys, bound) <==> AgesBelow(s, xs, bound) && AgesBelow(Run(s, xs), ys, bound)
    decreases |xs|
  {
    if xs == [] {
      assert xs + ys == ys;
    } else {
      assert (xs + ys)[1..] == xs[1..] + ys;
      Joins(Step(s, xs[0]), xs[1..], ys, bound);
    }
  }

  lemma Two(s: State, a: Action, b: Action, bound: int)
    requires !a.ReadAge? && AgeBelow(Step(s, a), b, bound)
    ensures Run(s, [a, b]) == Step(Step(s, a), b) && AgesBelow(s, [a, b], bound)
  {
    assert [a, b][1..] == [b] && [b][1..] == [];
    assert Run(Step(s, a), [b]) == Step(Step(s, a), b) && AgesBelow(Step(s, a), [b], bound);
  }

  lemma Four(s: State, a: Action, b: Action, c: Action, d: Action, bound: int)
    requires !a.ReadAge? && !b.ReadAge? && !c.ReadAge? && AgeBelow(Step(Step(Step(s, a), b), c), d, bound)
    ensures Run(s, [a, b] + [c, d]) == Step(Step(Step(Step(s, a), b), c), d)
    ensures AgesBelow(s, [a, b] + [c, d], bound)
  {
    Two(s, a, b, bound);
    Two(Step(Step(s, a), b), c, d, bound);
    Joins(s, [a, b], [c, d], bound);
  }

  /** An attempt claims the key and dies. */
  lemma ClaimsAndDies(s: State, p: nat, bound: int) returns (actions: seq<Action>)
    requires Initial(s) && p !in s.minted
    ensures Run(s, actions) == s.(claim := Some(Claim(p, 0)), minted := s.minted + {p}) && AgesBelow(s, actions, bound)
  {
    actions := [Open(0), LookUp(0)] + [Insert(0, p, 0), Crash(0)];
    Four(s, Open(0), LookUp(0), Insert(0, p, 0), Crash(0), bound);
    var s1 := Step(Step(s, Open(0)), LookUp(0));
    assert s1 == s.(attempts := map[0 := Unclaimed]);
    assert Step(Step(s1, Insert(0, p, 0)), Crash(0)).attempts == map[];
  }

  /** An attempt waits for the owner in vain and finds its claim dangling. */
  lemma FindsItDangling(s: State, t: nat, now: int, bound: int) returns (actions: seq<Action>)
    requires t !in s.attempts && s.claim.Some? && DANGLING_AFTER <= Age(s.claim.value, now) < bound
    ensures Run(s, actions) == s.(attempts := s.attempts[t := Reclaiming]) && AgesBelow(s, actions, bound)
  {
    actions := [Open(t), LookUp(t)] + [GiveUp(t), ReadAge(t, now)];
    var s1 := Step(Step(Step(s, Open(t)), LookUp(t)), GiveUp(t));
    assert s1 == s.(attempts := s.attempts[t := Aging]);
    Four(s, Open(t), LookUp(t), GiveUp(t), ReadAge(t, now), bound);
  }

  /** It deletes the key, whoever holds it by now, claims it and stores a pass. */
  lemma ReclaimsAndPersists(s: State, t: nat, p: nat, now: int, bound: int) returns (actions: seq<Action>)
    requires t in s.attempts && s.attempts[t].Reclaiming? && p !in s.minted
    ensures Run(s, actions) == s.(claim := Some(Claim(p, now)), minted := s.minted + {p}, rows := s.rows + {p},
                                  attempts := s.attempts[t := Saved(p)])
    ensures AgesBelow(s, actions, bound)
  {
    actions := [Reclaim(t), Insert(t, p, now)] + [ReadWinner(t), Persist(t)];
    var s1 := Step(Step(s, Reclaim(t)), Insert(t, p, now));
    assert s1 == s.(claim := Some(Claim(p, now)), minted := s.minted + {p}, attempts := s.attempts[t := Inserted(p)]);
    Four(s, Reclaim(t), Insert(t, p, now), ReadWinner(t), Persist(t), bound);
  }

  lemma BothFindItDangling(s: State, now: int, bound: int) returns (actions: seq<Action>)
    requires s.attempts == map[] && s.claim.Some? && DANGLING_AFTER <= Age(s.claim.value, now) < bound
    ensures Run(s, actions) == s.(attempts := map[1 := Reclaiming, 2 := Reclaiming]) && AgesBelow(s, actions, bound)
  {
    var a := FindsItDangling(s, 1, now, bound);
    var s1 := Run(s, a);
    var b := FindsItDangling(s1, 2, now, bound);
    Joins(s, a, b, bound);
    actions := a + b;
  }

  lemma BothPersist(s: State, p: nat, q: nat, now: int, bound: int) returns (actions: seq<Action>)
    requires s.attempts == map[1 := Reclaiming, 2 := Reclaiming] && p !in s.minted && q !in s.minted && p != q
    ensures Run(s, actions).rows == s.rows + {p, q} && AgesBelow(s, actions, bound)
  {
    var a := ReclaimsAndPersists(s, 1, p, now, bound);
    var s1 := Run(s, a);
    var b := ReclaimsAndPersists(s1, 2, q, now, bound);
    Joins(s, a, b, bound);
    actions := a + b;
  }

  /** An owner dies; ten minutes later two attempts find its claim dangling,
      the first reclaims the key and stores a draft, the second deletes the
      first one's claim and stores another. */
  lemma TwoReclaimersOpenTwoDrafts(s: State, p: nat, q: nat, r: nat, bound: int) returns (actions: seq<Action>)
    requires Initial(s) && DANGLING_AFTER < bound
    requires p !in s.minted && q !in s.minted && r !in s.minted && p != q && q != r && r != p
    ensures Run(s, actions).rows == {q, r} && AgesBelow(s, actions, bound)
  {
    var a := ClaimsAndDies(s, p, bound);
    var s1 := Run(s, a);
    var b := BothFindItDangling(s1, DANGLING_AFTER, bound);
    var s2 := Run(s1, b);
    var c := BothPersist(s2, q, r, DANGLING_AFTER, bound);
    Joins(s1, b, c, bound);
    Joins(s, a, b + c, bound);
    actions := a + (b + c);
  }

  // ---- The exact condition -----------------------------------------------

  predicate AtMostOne(rows: set<nat>) { forall p, q | p in rows && q in rows :: p == q }

  /** One key opens at most one draft, in every run in which each claim age
      read is below the bound: exactly when the bound does not pass the age at
      which a claim counts as dangling. */
  lemma OneDraftExactlyWhileYoung(s: State, bound: int)
    requires Initial(s)
    ensures (forall actions | AgesBelow(s, actions, bound) :: AtMostOne(Run(s, actions).rows))
            <==> bound <= DANGLING_AFTER
  {
    if bound <= DANGLING_AFTER {
      forall actions | AgesBelow(s, actions, bound)
        ensures AtMostOne(Run(s, actions).rows)
      {
        LowerBound(s, actions, bound, DANGLING_AFTER);
        forall p, q | p in Run(s, actions).rows && q in Run(s, actions).rows
          ensures p == q
        {
          OneDraftWhileClaimsAreYoung(s, actions, p, q);
        }
      }
    } else {
      var p := Unused(s.minted);
      var q := Unused(s.minted + {p});
      var r := Unused(s.minted + {p, q});
      var actions := TwoReclaimersOpenTwoDrafts(s, p, q, r, bound);
      assert q in Run(s, actions).rows && r in Run(s, actions).rows;
      assert AgesBelow(s, actions, bound) && !AtMostOne(Run(s, actions).rows);
    }
  }

  lemma {:induction false} LowerBound(s: State, actions: seq<Action>, bound: int, above: int)
    requires AgesBelow(s, actions, bound) && bound <= above
    ensures AgesBelow(s, actions, above)
    decreases |actions|
  {
    if actions != [] {
      LowerBound(Step(s, actions[0]), actions[1..], bound, above);
    }
  }

  // ---- One open from start to end ----------------------------------------

  /** Up to the claim: the row is looked for, the claim's age is read, the key
      is reclaimed, as far as each applies. */
  function Sought(s: State, t: nat, aged: int): State {
    var s1 := Step(Step(Step(s, Open(t)), LookUp(t)), SeeRow(t));
    Step(Step(Step(s1, GiveUp(t)), ReadAge(t, aged)), Reclaim(t))
  }

  lemma SeeksExactly(s: State, t: nat, aged: int)
    requires t !in s.attempts
    ensures Sought(s, t, aged)
            == match s.claim
               case None => s.(attempts := s.attempts[t := Unclaimed])
               case Some(c) =>
                 if c.pass in s.rows then s.(returned := s.returned + [c.pass])
                 else if aged - c.at >= 600 then s.(claim := None, attempts := s.attempts[t := Unclaimed])
                 else s
  {
    var s2 := Step(Step(s, Open(t)), LookUp(t));
    assert s2 == s.(attempts := s.attempts[t := if s.claim.None? then Unclaimed else Waiting(s.claim.value.pass, false)]);
    assert s2.attempts - {t} == s.attempts;
    if s.claim.None? {
      SeekingNothing(s2, t, aged);
    } else if s.claim.value.pass in s.rows {
      SeekingNothing(Step(s2, SeeRow(t)), t, aged);
    } else {
      AgesExactly(s, s2, t, aged);
    }
  }

  lemma SeekingNothing(s: State, t: nat, aged: int)
    requires t in s.attempts ==> s.attempts[t].Unclaimed?
    ensures Step(s, SeeRow(t)) == s && Step(Step(Step(s, GiveUp(t)), ReadAge(t, aged)), Reclaim(t)) == s
  {
  }

  lemma AgesExactly(s: State, s2: State, t: nat, aged: int)
    requires t !in s.attempts && s.claim.Some? && s.claim.value.pass !in s.rows
    requires s2 == s.(attempts := s.attempts[t := Waiting(s.claim.value.pass, false)])
    ensures Step(s2, SeeRow(t)) == s2
    ensures Step(Step(Step(s2, GiveUp(t)), ReadAge(t, aged)), Reclaim(t))
            == if aged - s.claim.value.at >= 600 then s.(claim := None, attempts := s.attempts[t := Unclaimed]) else s
  {
    var s3 := Step(s2, GiveUp(t));
    assert s3 == s.(attempts := s.attempts[t := Aging]);
    assert s3.attempts - {t} == s.attempts;
  }

  /** From the claim to the answer, the pass stored or given up. */
  function Answered(s: State, t: nat, p: nat, now: int, persists: bool): State {
    var s1 := Step(Step(s, Insert(t, p, now)), ReadWinner(t));
    if persists then Step(Step(s1, Persist(t)), Return(t)) else Step(Step(s1, Fail(t)), Release(t))
  }

  lemma OwnsExactly(s: State, s1: State, t: nat, p: nat, now: int)
    requires t !in s.attempts && s.claim.None? && p !in s.minted && s1 == s.(attempts := s.attempts[t := Unclaimed])
    ensures Step(Step(s1, Insert(t, p, now)), ReadWinner(t))
            == s.(claim := Some(Claim(p, now)), minted := s.minted + {p}, attempts := s.attempts[t := Owning(p)])
  {
  }

  lemma AnswersExactly(s: State, s1: State, t: nat, p: nat, now: int, persists: bool)
    requires t !in s.attempts && s.claim.None? && p !in s.minted && s1 == s.(attempts := s.attempts[t := Unclaimed])
    ensures Answered(s1, t, p, now, persists)
            == if persists
               then s.(claim := Some(Claim(p, now)), minted := s.minted + {p}, rows := s.rows + {p}, returned := s.returned + [p])
               else s.(minted := s.minted + {p})
  {
    OwnsExactly(s, s1, t, p, now);
    EndsExactly(s, t, p, now, persists);
  }

  lemma EndsExactly(s: State, t: nat, p: nat, now: int, persists: bool)
    requires t !in s.attempts
    ensures var s2 := s.(claim := Some(Claim(p, now)), minted := s.minted + {p}, attempts := s.attempts[t := Owning(p)]);
            (if persists then Step(Step(s2, Persist(t)), Return(t)) else Step(Step(s2, Fail(t)), Release(t)))
            == if persists
               then s.(claim := Some(Claim(p, now)), minted := s.minted + {p}, rows := s.rows + {p}, returned := s.returned + [p])
               else s.(claim := None, minted := s.minted + {p})
  {
    var s2 := s.(claim := Some(Claim(p, now)), minted := s.minted + {p}, attempts := s.attempts[t := Owning(p)]);
    if persists {
      assert Step(s2, Persist(t)).attempts - {t} == s.attempts;
    } else {
      assert Step(s2, Fail(t)).attempts - {t} == s.attempts;
    }
  }

  lemma AnsweringNothing(s: State, t: nat, p: nat, now: int, persists: bool)
    requires t !in s.attempts
    ensures Answered(s, t, p, now, persists) == s
  {
  }

  /** The exact outcome of an open that nothing interrupts: it returns the stored
      pass of its key; it refuses while the claim of a missing pass is younger
      than ten minutes; else it claims the key for a new pass and stores and
      returns that, or releases the key again when the pass cannot be stored. */
  lemma OpenOutcome(s: State, t: nat, aged: int, p: nat, now: int, persists: bool)
    requires t !in s.attempts && p !in s.minted
    ensures Answered(Sought(s, t, aged), t, p, now, persists)
            == if s.claim.Some? && s.claim.value.pass in s.rows then s.(returned := s.returned + [s.claim.value.pass])
               else if s.claim.Some? && aged - s.claim.value.at < 600 then s
               else if persists
               then s.(claim := Some(Claim(p, now)), minted := s.minted + {p}, rows := s.rows + {p}, returned := s.returned + [p])
               else s.(claim := None, minted := s.minted + {p})
  {
    SeeksExactly(s, t, aged);
    var s1 := Sought(s, t, aged);
    if t in s1.attempts {
      AnswersExactly(s.(claim := None), s1, t, p, now, persists);
    } else {
      AnsweringNothing(s1, t, p, now, persists);
    }
  }

  /** An attempt that lost the claim returns the winner's pass if it is stored
      by then, and claims nothing either way. */
  lemma LoserOutcome(s: State, t: nat, p: nat)
    requires t in s.attempts && s.attempts[t] == Inserted(p) && s.claim.Some? && s.claim.value.pass != p
    ensures Step(Step(Step(s, ReadWinner(t)), SeeRow(t)), GiveUp(t))
            == s.(attempts := s.attempts - {t},
                  returned := if s.claim.value.pass in s.rows then s.returned + [s.claim.value.pass] else s.returned)
  {
    var q := s.claim.value.pass;
    var s1 := Step(s, ReadWinner(t));
    assert s1 == s.(attempts := s.attempts[t := Waiting(q, true)]);
    assert s1.attempts - {t} == s.attempts - {t};
  }

  /** The key's claim is the first one written: a later insert leaves it. */
  lemma FirstClaimStands(s: State, t: nat, p: nat, now: int)
    requires s.claim.Some?
    ensures Step(s, Insert(t, p, now)).claim == s.claim
  {
  }

  /** An attempt that has crashed claims, stores and deletes nothing. */
  lemma CrashedDoesNothing(s: State, t: nat, a: Action)
    requires a.attempt == t && !a.Open?
    ensures Step(Step(s, Crash(t)), a) == Step(s, Crash(t))
  {
  }
}
