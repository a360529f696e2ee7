/** An authority that answers one idempotency key with one set of artifacts
    makes every successful exchange of a code return the same sealed result,
    whether adopted, recalled from the delivery cache, adopted for a dead
    owner, or rebuilt after eviction. */
module LaunchResults {
  import opened Base
  import opened LaunchStore
  import opened LaunchMachine

  /** Any artifacts the authority hands out in this step are its one answer
      for the code they were asked for. */
  ghost predicate Idempotent(s: State, a: Action, answers: nat -> Artifacts) {
    match a
    case Exchange(ReceiveAnswer(t, Prepared(x))) => t in s.tasks && s.tasks[t].pc.ExSent? ==> x == answers(s.tasks[t].pc.code)
    case Exchange(Reconcile(t, Found(x))) => t in s.tasks && s.tasks[t].pc.ExAmbiguous? ==> x == answers(s.tasks[t].pc.code)
    case Replay(Rebuild(t, Found(x))) => t in s.tasks && s.tasks[t].pc.ExRebuild? ==> x == answers(s.tasks[t].pc.code)
    case Orphan(ReconcileOrphan(t, Found(x))) => t in s.tasks && s.tasks[t].pc.ExOrphan? ==> x == answers(s.tasks[t].pc.code)
    case _ => true
  }

  ghost predicate IdempotentRun(s: State, actions: seq<Action>, answers: nat -> Artifacts)
    decreases |actions|
  {
    actions == [] || (Idempotent(s, actions[0], answers) && IdempotentRun(Step(s, actions[0]), actions[1..], answers))
  }

  // ---- What agrees with the answers --------------------------------------

  ghost predicate PcAgrees(pc: Pc, answers: nat -> Artifacts) {
    match pc
    case ExAdopting(code, _, _, x) => x == answers(code)
    case ExDelivering(code, result) => result == ResultOf(answers(code))
    case ExOrphanArtifacts(code, x) => x == answers(code)
    case ExOrphanRead(code, x, _) => x == answers(code)
    case _ => true
  }

  ghost predicate MemoryAgrees(m: Memory, answers: nat -> Artifacts) {
    forall c | c in m.delivery :: m.delivery[c] == ResultOf(answers(c))
  }

  ghost predicate RowAgrees(c: nat, row: Row, answers: nat -> Artifacts) {
    row.status.Completed? ==> row.runId == answers(c).runId && row.envelope == answers(c).envelope
  }

  ghost predicate Agrees(s: State, answers: nat -> Artifacts) {
    && (forall t | t in s.tasks :: PcAgrees(s.tasks[t].pc, answers))
    && (forall p | p in s.procs :: MemoryAgrees(s.procs[p], answers))
    && (forall c | c in s.rows :: RowAgrees(c, s.rows[c], answers))
    && (forall i | 0 <= i < |s.results| :: s.results[i].result == ResultOf(answers(s.results[i].code)))
  }

  // ---- Every step keeps it -----------------------------------------------

  /** Replacing a memory by one with the same deliveries, then moving on. */
  lemma MemoryAndMoveAgree(s: State, t: nat, m: Memory, next: Option<Pc>, answers: nat -> Artifacts)
    requires Agrees(s, answers) && Live(s, t) && m.delivery == Mem(s, t).delivery
    requires next.Some? ==> PcAgrees(next.value, answers)
    ensures Agrees(Goto(SetMem(s, t, m), t, next), answers)
  {
    assert MemoryAgrees(Mem(s, t), answers);
    assert MemoryAgrees(m, answers);
  }

  // Steps that carry no artifacts.

  lemma CreateAgrees(s: State, id: nat, core: AuthCore, answers: nat -> Artifacts)
    requires Agrees(s, answers)
    ensures Agrees(AfterCreate(s, id, core), answers)
  {
  }

  lemma BeginAgrees(s: State, p: nat, ch: nat, id: nat, now: int, expiresAt: int, answers: nat -> Artifacts)
    requires Agrees(s, answers)
    ensures Agrees(AfterBegin(s, p, ch, id, now, expiresAt), answers)
  {
  }

  lemma StartFinishAgrees(s: State, t: nat, p: nat, id: nat, ch: nat, now: int, answers: nat -> Artifacts)
    requires Agrees(s, answers)
    ensures Agrees(AfterStartFinish(s, t, p, id, ch, now), answers)
  {
  }

  lemma ConsumeAgrees(s: State, t: nat, now: int, verified: bool, answers: nat -> Artifacts)
    requires Agrees(s, answers)
    ensures Agrees(AfterConsume(s, t, now, verified), answers)
  {
    if Live(s, t) && s.tasks[t].pc.FinRead? && s.tasks[t].pc.challengeId in Mem(s, t).ceremonies {
      var FinRead(id, ch, core) := s.tasks[t].pc;
      var m := Mem(s, t).(ceremonies := Mem(s, t).ceremonies - {ch});
      MemoryAndMoveAgree(s, t, m, None, answers);
      MemoryAndMoveAgree(s, t, m, Some(FinVerified(id, ch, core, Mem(s, t).ceremonies[ch].claims)), answers);
    }
  }

  lemma ReloadAgrees(s: State, t: nat, now: int, answers: nat -> Artifacts)
    requires Agrees(s, answers)
    ensures Agrees(AfterReload(s, t, now), answers)
  {
  }

  lemma ApproveAgrees(s: State, t: nat, code: nat, answers: nat -> Artifacts)
    requires Agrees(s, answers)
    ensures Agrees(AfterApprove(s, t, code), answers)
  {
  }

  lemma CacheAgrees(s: State, t: nat, answers: nat -> Artifacts)
    requires Agrees(s, answers)
    ensures Agrees(AfterCache(s, t), answers)
  {
  }

  lemma StartExchangeAgrees(s: State, t: nat, p: nat, code: nat, verifier: nat, answers: nat -> Artifacts)
    requires Agrees(s, answers)
    ensures Agrees(AfterStartExchange(s, t, p, code, verifier), answers)
  {
  }

  lemma FindAgrees(s: State, t: nat, id: nat, now: int, answers: nat -> Artifacts)
    requires Agrees(s, answers)
    ensures Agrees(AfterFind(s, t, id, now), answers)
  {
  }

  lemma ReadPassAgrees(s: State, t: nat, now: int, upstreamAgrees: bool, answers: nat -> Artifacts)
    requires Agrees(s, answers)
    ensures Agrees(AfterReadPass(s, t, now, upstreamAgrees), answers)
  {
  }

  lemma TakeAgrees(s: State, t: nat, now: int, answers: nat -> Artifacts)
    requires Agrees(s, answers)
    ensures Agrees(AfterTake(s, t, now), answers)
  {
    if Live(s, t) && s.tasks[t].pc.ExOwned? && s.tasks[t].pc.read.authId in Mem(s, t).cache {
      var ExOwned(code, read, pass) := s.tasks[t].pc;
      var m := Mem(s, t).(cache := Mem(s, t).cache - {read.authId});
      MemoryAndMoveAgree(s, t, m, Some(ExFailing(code)), answers);
      MemoryAndMoveAgree(s, t, m, Some(ExTaken(code, read, pass, Mem(s, t).cache[read.authId])), answers);
    }
  }

  lemma PrepareAgrees(s: State, t: nat, answers: nat -> Artifacts)
    requires Agrees(s, answers)
    ensures Agrees(AfterPrepare(s, t), answers)
  {
  }

  lemma RereadAgrees(s: State, t: nat, answers: nat -> Artifacts)
    requires Agrees(s, answers)
    ensures Agrees(AfterReread(s, t), answers)
  {
  }

  lemma FollowAgrees(s: State, t: nat, now: int, answers: nat -> Artifacts)
    requires Agrees(s, answers)
    ensures Agrees(AfterFollow(s, t, now), answers)
  {
  }

  lemma ProveAgrees(s: State, t: nat, id: nat, answers: nat -> Artifacts)
    requires Agrees(s, answers)
    ensures Agrees(AfterProve(s, t, id), answers)
  {
  }

  lemma BrowserAgrees(s: State, b: BrowserAction, answers: nat -> Artifacts)
    requires Agrees(s, answers)
    ensures Agrees(BrowserStep(s, b), answers)
  {
    match b
    case CreateAuthorization(id, core) => CreateAgrees(s, id, core, answers);
    case BeginDecision(p, ch, id, now, expiresAt) => BeginAgrees(s, p, ch, id, now, expiresAt, answers);
    case StartFinish(t, p, id, ch, now) => StartFinishAgrees(s, t, p, id, ch, now, answers);
    case ConsumeCeremony(t, now, verified) => ConsumeAgrees(s, t, now, verified, answers);
    case ReloadBinding(t, now) => ReloadAgrees(s, t, now, answers);
    case Approve(t, code) => ApproveAgrees(s, t, code, answers);
    case CacheAttestation(t) => CacheAgrees(s, t, answers);
  }

  // Steps that ask for, adopt or deliver artifacts.

  lemma ClaimAgrees(s: State, t: nat, now: int, answers: nat -> Artifacts)
    requires Agrees(s, answers)
    ensures Agrees(AfterClaim(s, t, now), answers)
  {
  }

  lemma AnswerAgrees(s: State, t: nat, answer: Answer, answers: nat -> Artifacts)
    requires Agrees(s, answers) && Idempotent(s, Exchange(ReceiveAnswer(t, answer)), answers)
    ensures Agrees(AfterAnswer(s, t, answer), answers)
  {
  }

  lemma ReconcileAgrees(s: State, t: nat, lookup: Lookup, answers: nat -> Artifacts)
    requires Agrees(s, answers) && Idempotent(s, Exchange(Reconcile(t, lookup)), answers)
    ensures Agrees(AfterReconcile(s, t, lookup), answers)
  {
  }

  lemma AdoptAgrees(s: State, t: nat, now: int, answers: nat -> Artifacts)
    requires Agrees(s, answers)
    ensures Agrees(AfterAdopt(s, t, now), answers)
  {
    if Live(s, t) {
      assert PcAgrees(s.tasks[t].pc, answers);
    }
  }

  lemma FailAgrees(s: State, t: nat, now: int, answers: nat -> Artifacts)
    requires Agrees(s, answers)
    ensures Agrees(AfterSettleFailed(s, t, now), answers)
  {
  }

  lemma DeliverAgrees(s: State, t: nat, answers: nat -> Artifacts)
    requires Agrees(s, answers)
    ensures Agrees(AfterDeliver(s, t), answers)
  {
    if Live(s, t) {
      assert PcAgrees(s.tasks[t].pc, answers);
      assert MemoryAgrees(Mem(s, t), answers);
    }
  }

  lemma RecallAgrees(s: State, t: nat, answers: nat -> Artifacts)
    requires Agrees(s, answers)
    ensures Agrees(AfterRecall(s, t), answers)
  {
    if Live(s, t) {
      assert PcAgrees(s.tasks[t].pc, answers);
      assert MemoryAgrees(Mem(s, t), answers);
    }
  }

  lemma RebuildAgrees(s: State, t: nat, lookup: Lookup, answers: nat -> Artifacts)
    requires Agrees(s, answers) && Idempotent(s, Replay(Rebuild(t, lookup)), answers)
    ensures Agrees(AfterRebuild(s, t, lookup), answers)
  {
  }

  lemma ExpireAgrees(s: State, t: nat, now: int, answers: nat -> Artifacts)
    requires Agrees(s, answers)
    ensures Agrees(AfterSettleExpired(s, t, now), answers)
  {
  }

  lemma OrphanLookupAgrees(s: State, t: nat, lookup: Lookup, answers: nat -> Artifacts)
    requires Agrees(s, answers) && Idempotent(s, Orphan(ReconcileOrphan(t, lookup)), answers)
    ensures Agrees(AfterOrphanLookup(s, t, lookup), answers)
  {
  }

  lemma FindOrphanAgrees(s: State, t: nat, id: nat, answers: nat -> Artifacts)
    requires Agrees(s, answers)
    ensures Agrees(AfterFindOrphan(s, t, id), answers)
  {
    if Live(s, t) {
      assert PcAgrees(s.tasks[t].pc, answers);
    }
  }

  lemma ReadOrphanPassAgrees(s: State, t: nat, answers: nat -> Artifacts)
    requires Agrees(s, answers)
    ensures Agrees(AfterReadOrphanPass(s, t), answers)
  {
    if Live(s, t) {
      assert PcAgrees(s.tasks[t].pc, answers);
    }
  }

  lemma ExchangeAgrees(s: State, x: ExchangeAction, answers: nat -> Artifacts)
    requires Agrees(s, answers) && Idempotent(s, Exchange(x), answers)
    ensures Agrees(ExchangeStep(s, x), answers)
  {
    match x
    case StartExchange(t, p, code, verifier) => StartExchangeAgrees(s, t, p, code, verifier, answers);
    case FindAuthorization(t, id, now) => FindAgrees(s, t, id, now, answers);
    case ReadPass(t, now, upstreamAgrees) => ReadPassAgrees(s, t, now, upstreamAgrees, answers);
    case TakeAttestation(t, now) => TakeAgrees(s, t, now, answers);
    case PrepareLaunch(t) => PrepareAgrees(s, t, answers);
    case ClaimCode(t, now) => ClaimAgrees(s, t, now, answers);
    case ReceiveAnswer(t, answer) => AnswerAgrees(s, t, answer, answers);
    case Reconcile(t, lookup) => ReconcileAgrees(s, t, lookup, answers);
    case Adopt(t, now) => AdoptAgrees(s, t, now, answers);
    case SettleFailed(t, now) => FailAgrees(s, t, now, answers);
    case Deliver(t) => DeliverAgrees(s, t, answers);
  }

  lemma ReplayAgrees(s: State, r: ReplayAction, answers: nat -> Artifacts)
    requires Agrees(s, answers) && Idempotent(s, Replay(r), answers)
    ensures Agrees(ReplayStep(s, r), answers)
  {
    match r
    case Reread(t) => RereadAgrees(s, t, answers);
    case FollowRow(t, now) => FollowAgrees(s, t, now, answers);
    case ProveVerifier(t, id) => ProveAgrees(s, t, id, answers);
    case Recall(t) => RecallAgrees(s, t, answers);
    case Rebuild(t, lookup) => RebuildAgrees(s, t, lookup, answers);
  }

  lemma OrphanAgrees(s: State, o: OrphanAction, answers: nat -> Artifacts)
    requires Agrees(s, answers) && Idempotent(s, Orphan(o), answers)
    ensures Agrees(OrphanStep(s, o), answers)
  {
    match o
    case SettleExpired(t, now) => ExpireAgrees(s, t, now, answers);
    case ReconcileOrphan(t, lookup) => OrphanLookupAgrees(s, t, lookup, answers);
    case FindOrphanAuthorization(t, id) => FindOrphanAgrees(s, t, id, answers);
    case ReadOrphanPass(t) => ReadOrphanPassAgrees(s, t, answers);
  }

  lemma EnvAgrees(s: State, e: EnvAction, answers: nat -> Artifacts)
    requires Agrees(s, answers)
    ensures Agrees(EnvStep(s, e), answers)
  {
    if e.EvictDelivery? && e.proc in s.procs {
      assert MemoryAgrees(s.procs[e.proc], answers);
    }
  }

  lemma {:induction false} RunAgrees(s: State, actions: seq<Action>, answers: nat -> Artifacts)
    requires Agrees(s, answers) && IdempotentRun(s, actions, answers)
    ensures Agrees(Run(s, actions), answers)
    decreases |actions|
  {
    if actions != [] {
      match actions[0] {
        case Env(e) => EnvAgrees(s, e, answers);
        case Decide(b) => BrowserAgrees(s, b, answers);
        case Exchange(x) => ExchangeAgrees(s, x, answers);
        case Replay(r) => ReplayAgrees(s, r, answers);
        case Orphan(o) => OrphanAgrees(s, o, answers);
      }
      RunAgrees(Step(s, actions[0]), actions[1..], answers);
    }
  }

  /** Any two successful exchanges of one code return the same run, mission
      and sealed envelope, and they are what the completed row recorded. */
  lemma OneResultPerCode(s: State, actions: seq<Action>, answers: nat -> Artifacts, i: nat, j: nat)
    requires Initial(s) && IdempotentRun(s, actions, answers)
    requires i < |Run(s, actions).results| && j < |Run(s, actions).results|
    requires Run(s, actions).results[i].code == Run(s, actions).results[j].code
    ensures Run(s, actions).results[i] == Run(s, actions).results[j]
    ensures var s1 := Run(s, actions);
            var c := s1.results[i].code;
            c in s1.rows && s1.rows[c].status.Completed? ==>
              s1.results[i].result.runId == s1.rows[c].runId && s1.results[i].result.envelope == s1.rows[c].envelope
  {
    RunAgrees(s, actions, answers);
    var s1 := Run(s, actions);
    assert s1.results[i].code in s1.rows ==> RowAgrees(s1.results[i].code, s1.rows[s1.results[i].code], answers);
  }
}
