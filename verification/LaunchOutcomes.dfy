/** What every run of the launch machine delivers: exchange rows settle once
    and for good, completed rows and launches of a pass are the same number,
    and an authority that answers one code with one set of artifacts makes
    every successful exchange of that code return the same sealed result. */
module LaunchOutcomes {
  import opened LaunchStore
  import opened LaunchMachine
  import opened LaunchSafety

  /** Offline recovery, which deletes the exchange rows, does not run. */
  predicate NoReset(actions: seq<Action>) { forall i | 0 <= i < |actions| :: actions[i] != Env(ResetHandoffs) }

  // ---- Which steps touch the tables --------------------------------------

  predicate SameTables(s: State, s1: State) { s1.rows == s.rows && s1.passes == s.passes }

  lemma BrowserTables(s: State, a: BrowserAction)
    ensures SameTables(s, BrowserStep(s, a))
  {
    if a.ConsumeCeremony? || a.ReloadBinding? || a.Approve? || a.CacheAttestation? {
      FinishTables(s, a);
    }
  }

  lemma FinishTables(s: State, a: BrowserAction)
    requires a.ConsumeCeremony? || a.ReloadBinding? || a.Approve? || a.CacheAttestation?
    ensures SameTables(s, BrowserStep(s, a))
  {
  }

  lemma ExchangeTables(s: State, a: ExchangeAction)
    requires !a.ClaimCode? && !a.Adopt? && !a.SettleFailed?
    ensures SameTables(s, ExchangeStep(s, a))
  {
    if a.StartExchange? || a.FindAuthorization? || a.ReadPass? {
      ValidatingTables(s, a);
    }
  }

  lemma ValidatingTables(s: State, a: ExchangeAction)
    requires a.StartExchange? || a.FindAuthorization? || a.ReadPass?
    ensures SameTables(s, ExchangeStep(s, a))
  {
  }

  lemma ReplayTables(s: State, a: ReplayAction)
    ensures SameTables(s, ReplayStep(s, a))
  {
    if a.Recall? || a.Rebuild? {
      DeliveringTables(s, a);
    }
  }

  lemma DeliveringTables(s: State, a: ReplayAction)
    requires a.Recall? || a.Rebuild?
    ensures SameTables(s, ReplayStep(s, a))
  {
  }

  lemma OrphanTables(s: State, a: OrphanAction)
    requires !a.SettleExpired?
    ensures SameTables(s, OrphanStep(s, a))
  {
    match a
    case ReconcileOrphan(t, lookup) =>
    case FindOrphanAuthorization(t, id) =>
    case ReadOrphanPass(t) =>
  }

  /** Every step writes the rows and passes in one of five ways. */
  ghost predicate Writes(s: State, a: Action, s1: State) {
    || SameTables(s, s1)
    || (a.Env? && s1.rows == s.rows
        && exists id, pass: Pass :: s1.passes == s.passes[id := pass] && OtherMove(s, id, pass))
    || (exists code, authId, passId, digest, now ::
          s1.passes == s.passes && s1.rows == ClaimRow(s.rows, code, authId, passId, digest, now))
    || (exists code, status: RowStatus, now ::
          s1.passes == s.passes && !status.Completed? && s1.rows == SettleRow(s.rows, code, status, EMPTY, EMPTY, now))
    || (exists code, core, revision, artifacts, now :: Adopts(s, s1, code, core, revision, artifacts, now))
  }

  /** Whatever another service writes, it does not launch an approved pass. */
  predicate OtherMove(s: State, id: nat, pass: Pass) {
    !(id in s.passes && s.passes[id].state.Approved? && pass.state.Launching?)
  }

  /** The settlement transaction, for the pass the exchange row names. */
  predicate Adopts(s: State, s1: State, code: nat, core: AuthCore, revision: nat, artifacts: Artifacts, now: int) {
    && CanAdopt(s.passes, s.rows, code, core, revision, now)
    && core.passId == s.rows[code].passId
    && s1.passes == s.passes[core.passId := LaunchedPass(s.passes[core.passId], artifacts)]
    && s1.rows == AdoptedRows(s.rows, code, artifacts, now)
  }

  lemma AdoptWrites(s: State, t: nat, now: int)
    requires Inv(s)
    ensures Writes(s, Exchange(ExchangeAction.Adopt(t, now)), AfterAdopt(s, t, now))
  {
    if Live(s, t) && s.tasks[t].pc.ExAdopting? {
      var ExAdopting(code, read, pass, artifacts) := s.tasks[t].pc;
      if Adoptable(artifacts, read.core) && CanAdopt(s.passes, s.rows, code, read.core, pass.revision, now) {
        assert TaskOk(s.history, s.place, t, s.tasks[t].pc);
        assert RowOk(s.history, code, s.rows[code]);
        assert Adopts(s, AfterAdopt(s, t, now), code, read.core, pass.revision, artifacts, now);
      }
    }
  }

  lemma ExchangeWrites(s: State, a: ExchangeAction)
    requires Inv(s)
    ensures Writes(s, Exchange(a), ExchangeStep(s, a))
  {
    match a
    case ClaimCode(t, now) =>
    case Adopt(t, now) => AdoptWrites(s, t, now);
    case SettleFailed(t, now) =>
    case _ => ExchangeTables(s, a);
  }

  lemma EnvWrites(s: State, e: EnvAction)
    requires e != ResetHandoffs
    ensures Writes(s, Env(e), EnvStep(s, e))
  {
    if e.OtherService? {
      assert OtherMove(s, e.passId, e.pass) || EnvStep(s, e) == s;
    }
  }

  lemma StepWrites(s: State, a: Action)
    requires Inv(s) && a != Env(ResetHandoffs)
    ensures Writes(s, a, Step(s, a))
  {
    match a
    case Env(e) => EnvWrites(s, e);
    case Decide(b) => BrowserTables(s, b);
    case Exchange(x) => ExchangeWrites(s, x);
    case Replay(r) => ReplayTables(s, r);
    case Orphan(o) =>
      if o.SettleExpired? {
        assert OrphanStep(s, o) == AfterSettleExpired(s, o.task, o.now);
      } else {
        OrphanTables(s, o);
      }
  }

  // ---- Rows settle once --------------------------------------------------

  /** Row c is still there, is the same claim, and has not changed if settled. */
  ghost predicate Kept(rows: map<nat, Row>, rows': map<nat, Row>, c: nat) {
    c in rows ==>
      && c in rows'
      && rows'[c].authId == rows[c].authId && rows'[c].passId == rows[c].passId
      && rows'[c].attDigest == rows[c].attDigest
      && (!rows[c].status.InFlight? ==> rows'[c] == rows[c])
  }

  lemma StepKeepsRow(s: State, a: Action, c: nat)
    requires Inv(s) && a != Env(ResetHandoffs)
    ensures Kept(s.rows, Step(s, a).rows, c)
  {
    StepWrites(s, a);
  }

  /** Until a recovery deletes it, an exchange row keeps its identity, leaves
      in-flight at most once and never changes again: no process can claim the
      code a second time, and a settled outcome is final. */
  lemma {:induction false} RowsSettleOnce(s: State, actions: seq<Action>, c: nat)
    requires Inv(s) && NoReset(actions)
    ensures Kept(s.rows, Run(s, actions).rows, c)
    decreases |actions|
  {
    if actions != [] {
      StepKeepsInv(s, actions[0]);
      StepKeepsRow(s, actions[0], c);
      RowsSettleOnce(Step(s, actions[0]), actions[1..], c);
    }
  }

  // ---- As many completed rows as launches --------------------------------

  function CompletedCodes(rows: map<nat, Row>, p: nat): set<nat> {
    set c | c in rows && rows[c].passId == p && rows[c].status.Completed?
  }

  predicate Launches(s: State, a: Action, p: nat) {
    && p in s.passes && s.passes[p].state.Approved?
    && p in Step(s, a).passes && Step(s, a).passes[p].state.Launching?
  }

  function LaunchCount(s: State, actions: seq<Action>, p: nat): nat
    decreases |actions|
  {
    if actions == [] then 0
    else (if Launches(s, actions[0], p) then 1 else 0) + LaunchCount(Step(s, actions[0]), actions[1..], p)
  }

  /** A launch completes exactly one row of its pass, with the run written to
      the pass; any other step completes none. */
  lemma LaunchCompletesOneRow(s: State, a: Action, p: nat) returns (code: nat)
    requires Inv(s) && a != Env(ResetHandoffs)
    ensures !Launches(s, a, p) ==> CompletedCodes(Step(s, a).rows, p) == CompletedCodes(s.rows, p)
    ensures Launches(s, a, p) ==>
              && CompletedCodes(Step(s, a).rows, p) == CompletedCodes(s.rows, p) + {code}
              && code !in CompletedCodes(s.rows, p)
              && Step(s, a).rows[code].runId == Step(s, a).passes[p].runId
  {
    StepWrites(s, a);
    var s1 := Step(s, a);
    code := 0;
    if c, core, revision, artifacts, now :| Adopts(s, s1, c, core, revision, artifacts, now) {
      code := c;
      assert code in s1.rows && s1.rows[code].status.Completed?;
      AdoptionCounts(s, s1, c, core, revision, artifacts, now, p);
    }
  }

  lemma AdoptionCounts(s: State, s1: State, code: nat, core: AuthCore, revision: nat, artifacts: Artifacts, now: int, p: nat)
    requires Adopts(s, s1, code, core, revision, artifacts, now)
    ensures p != core.passId ==> CompletedCodes(s1.rows, p) == CompletedCodes(s.rows, p) && (p in s.passes ==> s1.passes[p] == s.passes[p])
    ensures p == core.passId ==> CompletedCodes(s1.rows, p) == CompletedCodes(s.rows, p) + {code}
    ensures p == core.passId ==> s1.passes[p].state.Launching? && s1.rows[code].runId == s1.passes[p].runId
  {
  }

  /** For each pass, the completed exchange rows are as many as its moves from
      approved to launching. */
  lemma {:induction false} CompletedRowsCountLaunches(s: State, actions: seq<Action>, p: nat)
    requires Inv(s) && NoReset(actions)
    ensures |CompletedCodes(Run(s, actions).rows, p)| == |CompletedCodes(s.rows, p)| + LaunchCount(s, actions, p)
    decreases |actions|
  {
    if actions != [] {
      StepKeepsInv(s, actions[0]);
      var code := LaunchCompletesOneRow(s, actions[0], p);
      CompletedRowsCountLaunches(Step(s, actions[0]), actions[1..], p);
    }
  }
}
