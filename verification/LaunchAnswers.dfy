/** Who gets the sealed result of a launch: every answer is traced back to the
    verifier its request presented, over all runs of the launch machine. */
module LaunchAnswers {
  import opened Base
  import opened LaunchMachine
  import LaunchSafety

  /** A request as it was made, and whether it went on with artifacts that were
      looked up for a code found in flight. */
  datatype Request = Request(verifier: nat, orphan: bool)

  /** The requests of a run, kept beside the machine. */
  function Noted(log: map<nat, Request>, s: State, a: Action): map<nat, Request> {
    match a
    case Exchange(StartExchange(t, p, code, verifier)) =>
      if t in s.tasks || p !in s.procs then log else log[t := Request(verifier, false)]
    case Orphan(ReconcileOrphan(t, Found(_))) =>
      if t in log && t in s.tasks && s.tasks[t].pc.ExOrphan? then log[t := log[t].(orphan := true)] else log
    case _ => log
  }

  /** The verifier answers the challenge of the authorization the code was
      minted for, as that authorization was created. */
  predicate Proves(h: History, code: nat, verifier: nat) {
    && code in h.minted && h.minted[code].authId in h.created
    && h.created[h.minted[code].authId].challenge == verifier
  }

  predicate Earned(h: History, code: nat, r: Request) { r.orphan || Proves(h, code, r.verifier) }

  // ---- What the requests under way have shown ----------------------------

  predicate Deciding(pc: Pc) { pc.FinRead? || pc.FinVerified? || pc.FinReloaded? || pc.FinApproved? }

  predicate PcBacked(h: History, pc: Pc, r: Request) {
    match pc
    case ExLookup(_, verifier) => r.verifier == verifier
    case ExFound(code, verifier, _) => r.verifier == verifier && Proves(h, code, verifier)
    case ExValid(code, verifier, _, _) => r.verifier == verifier && Proves(h, code, verifier)
    case ExOwned(code, _, _) => Earned(h, code, r)
    case ExTaken(code, _, _, _) => Earned(h, code, r)
    case ExSent(code, _, _) => Earned(h, code, r)
    case ExAmbiguous(code, _, _) => Earned(h, code, r)
    case ExAdopting(code, _, _, _) => Earned(h, code, r)
    case ExDelivering(code, _) => Earned(h, code, r)
    case ExReread(_, verifier) => r.verifier == verifier
    case ExFollow(_, verifier, _) => r.verifier == verifier
    case ExReplay(_, verifier) => r.verifier == verifier
    case ExRecall(code) => Earned(h, code, r)
    case ExRebuild(code) => Earned(h, code, r)
    case ExOrphanArtifacts(_, _) => r.orphan
    case ExOrphanRead(_, _, _) => r.orphan
    case _ => true
  }

  ghost predicate TaskBacked(h: History, log: map<nat, Request>, t: nat, pc: Pc) {
    Deciding(pc) || (t in log && PcBacked(h, pc, log[t]))
  }

  ghost predicate TasksBacked(h: History, log: map<nat, Request>, tasks: map<nat, Task>) {
    forall t | t in tasks :: TaskBacked(h, log, t, tasks[t].pc)
  }

  ghost predicate Backed(s: State, log: map<nat, Request>) { TasksBacked(s.history, log, s.tasks) }

  lemma GotoBacked(s: State, log: map<nat, Request>, t: nat, next: Option<Pc>)
    requires Backed(s, log) && t in s.tasks
    requires next.Some? ==> TaskBacked(s.history, log, t, next.value)
    ensures Backed(Goto(s, t, next), log)
  {
  }

  /** A step that moves task t alone, to `next`. */
  lemma MoveBacked(s: State, s1: State, log: map<nat, Request>, t: nat, next: Option<Pc>)
    requires Backed(s, log) && t in s.tasks && s1.history == s.history && s1.tasks == Goto(s, t, next).tasks
    requires next.Some? ==> TaskBacked(s.history, log, t, next.value)
    ensures Backed(s1, log)
  {
    GotoBacked(s, log, t, next);
  }

  lemma SpawnBacked(s: State, log: map<nat, Request>, t: nat, p: nat, pc: Pc, r: Request)
    requires Backed(s, log) && t !in s.tasks && (Deciding(pc) || PcBacked(s.history, pc, r))
    ensures Backed(Spawn(s, t, p, pc), log[t := r])
  {
  }

  lemma FindBacked(s: State, log: map<nat, Request>, t: nat, id: nat, now: int)
    requires Backed(s, log) && LaunchSafety.Inv(s)
    ensures Backed(AfterFind(s, t, id, now), log)
  {
    if Live(s, t) && s.tasks[t].pc.ExLookup? {
      var ExLookup(code, verifier) := s.tasks[t].pc;
      assert TaskBacked(s.history, log, t, s.tasks[t].pc);
      GotoBacked(s, log, t, None);
      if FoundByCode(s, id, code) && VerifyCodeChallenge(s.auths[id].core.challenge, verifier) {
        assert LaunchSafety.AuthOk(s.history, id, s.auths[id]);
        GotoBacked(s, log, t, Some(ExFound(code, verifier, ReadOf(s, id))));
      }
    }
  }

  lemma ReadPassBacked(s: State, log: map<nat, Request>, t: nat, now: int, agrees: bool)
    requires Backed(s, log)
    ensures Backed(AfterReadPass(s, t, now, agrees), log)
  {
    if Live(s, t) && s.tasks[t].pc.ExFound? {
      var ExFound(code, verifier, read) := s.tasks[t].pc;
      assert TaskBacked(s.history, log, t, s.tasks[t].pc);
      GotoBacked(s, log, t, None);
      if read.core.passId in s.passes {
        GotoBacked(s, log, t, Some(ExValid(code, verifier, read, s.passes[read.core.passId])));
      }
    }
  }

  lemma ClaimBacked(s: State, log: map<nat, Request>, t: nat, now: int)
    requires Backed(s, log)
    ensures Backed(AfterClaim(s, t, now), log)
  {
    if Live(s, t) && s.tasks[t].pc.ExValid? {
      var ExValid(code, verifier, read, pass) := s.tasks[t].pc;
      assert TaskBacked(s.history, log, t, s.tasks[t].pc);
      var next := if code !in s.rows then ExOwned(code, read, pass) else ExReread(code, verifier);
      MoveBacked(s, AfterClaim(s, t, now), log, t, Some(next));
    }
  }

  lemma TakeBacked(s: State, log: map<nat, Request>, t: nat, now: int)
    requires Backed(s, log)
    ensures Backed(AfterTake(s, t, now), log)
  {
    if Live(s, t) && s.tasks[t].pc.ExOwned? {
      var ExOwned(code, read, pass) := s.tasks[t].pc;
      assert TaskBacked(s.history, log, t, s.tasks[t].pc);
      if read.authId in Mem(s, t).cache {
        var s1 := AfterTake(s, t, now);
        MoveBacked(s, s1, log, t, Some(s1.tasks[t].pc));
      } else {
        GotoBacked(s, log, t, Some(ExFailing(code)));
      }
    }
  }

  lemma PrepareBacked(s: State, log: map<nat, Request>, t: nat)
    requires Backed(s, log)
    ensures Backed(AfterPrepare(s, t), log)
  {
    if Live(s, t) && s.tasks[t].pc.ExTaken? {
      var ExTaken(code, read, pass, att) := s.tasks[t].pc;
      assert TaskBacked(s.history, log, t, s.tasks[t].pc);
      MoveBacked(s, AfterPrepare(s, t), log, t, Some(ExSent(code, read, pass)));
    }
  }

  lemma AnswerBacked(s: State, log: map<nat, Request>, t: nat, answer: Answer)
    requires Backed(s, log)
    ensures Backed(AfterAnswer(s, t, answer), log)
  {
    if Live(s, t) && s.tasks[t].pc.ExSent? {
      assert TaskBacked(s.history, log, t, s.tasks[t].pc);
      var s1 := AfterAnswer(s, t, answer);
      MoveBacked(s, s1, log, t, Some(s1.tasks[t].pc));
    }
  }

  lemma ReconcileBacked(s: State, log: map<nat, Request>, t: nat, lookup: Lookup)
    requires Backed(s, log)
    ensures Backed(AfterReconcile(s, t, lookup), log)
  {
    if Live(s, t) && s.tasks[t].pc.ExAmbiguous? {
      assert TaskBacked(s.history, log, t, s.tasks[t].pc);
      var s1 := AfterReconcile(s, t, lookup);
      MoveBacked(s, s1, log, t, Some(s1.tasks[t].pc));
    }
  }

  lemma AdoptBacked(s: State, log: map<nat, Request>, t: nat, now: int)
    requires Backed(s, log)
    ensures Backed(AfterAdopt(s, t, now), log)
  {
    if Live(s, t) && s.tasks[t].pc.ExAdopting? {
      var ExAdopting(code, read, pass, artifacts) := s.tasks[t].pc;
      assert TaskBacked(s.history, log, t, s.tasks[t].pc);
      var s1 := AfterAdopt(s, t, now);
      MoveBacked(s, s1, log, t, Some(s1.tasks[t].pc));
    }
  }

  lemma EndingBacked(s: State, log: map<nat, Request>, x: ExchangeAction)
    requires Backed(s, log) && (x.SettleFailed? || x.Deliver?)
    ensures Backed(ExchangeStep(s, x), log)
  {
  }

  lemma ExchangeBacked(s: State, log: map<nat, Request>, x: ExchangeAction)
    requires Backed(s, log) && LaunchSafety.Inv(s)
    ensures Backed(ExchangeStep(s, x), Noted(log, s, Exchange(x)))
  {
    match x
    case StartExchange(t, p, code, verifier) =>
      if t !in s.tasks && p in s.procs {
        var pc := if code in s.rows then ExFollow(code, verifier, s.rows[code]) else ExLookup(code, verifier);
        SpawnBacked(s, log, t, p, pc, Request(verifier, false));
      }
    case FindAuthorization(t, id, now) => FindBacked(s, log, t, id, now);
    case ReadPass(t, now, agrees) => ReadPassBacked(s, log, t, now, agrees);
    case ClaimCode(t, now) => ClaimBacked(s, log, t, now);
    case TakeAttestation(t, now) => TakeBacked(s, log, t, now);
    case PrepareLaunch(t) => PrepareBacked(s, log, t);
    case ReceiveAnswer(t, answer) => AnswerBacked(s, log, t, answer);
    case Reconcile(t, lookup) => ReconcileBacked(s, log, t, lookup);
    case Adopt(t, now) => AdoptBacked(s, log, t, now);
    case _ => EndingBacked(s, log, x);
  }

  lemma FollowBacked(s: State, log: map<nat, Request>, t: nat, now: int)
    requires Backed(s, log)
    ensures Backed(AfterFollow(s, t, now), log)
  {
    if Live(s, t) && s.tasks[t].pc.ExFollow? {
      var ExFollow(code, verifier, row) := s.tasks[t].pc;
      assert TaskBacked(s.history, log, t, s.tasks[t].pc);
      GotoBacked(s, log, t, None);
      GotoBacked(s, log, t, Some(ExReplay(code, verifier)));
      GotoBacked(s, log, t, Some(ExStale(code)));
      GotoBacked(s, log, t, Some(ExOrphan(code)));
    }
  }

  lemma RereadBacked(s: State, log: map<nat, Request>, t: nat)
    requires Backed(s, log)
    ensures Backed(AfterReread(s, t), log)
  {
    if Live(s, t) && s.tasks[t].pc.ExReread? {
      var ExReread(code, verifier) := s.tasks[t].pc;
      assert TaskBacked(s.history, log, t, s.tasks[t].pc);
      GotoBacked(s, log, t, if code in s.rows then Some(ExFollow(code, verifier, s.rows[code])) else None);
    }
  }

  lemma ProveBacked(s: State, log: map<nat, Request>, t: nat, id: nat)
    requires Backed(s, log) && LaunchSafety.Inv(s)
    ensures Backed(AfterProve(s, t, id), log)
  {
    if Live(s, t) && s.tasks[t].pc.ExReplay? {
      var ExReplay(code, verifier) := s.tasks[t].pc;
      assert TaskBacked(s.history, log, t, s.tasks[t].pc);
      GotoBacked(s, log, t, None);
      if FoundByCode(s, id, code) && VerifyCodeChallenge(s.auths[id].core.challenge, verifier) {
        assert LaunchSafety.AuthOk(s.history, id, s.auths[id]);
        GotoBacked(s, log, t, Some(ExRecall(code)));
      }
    }
  }

  lemma RecallBacked(s: State, log: map<nat, Request>, t: nat)
    requires Backed(s, log)
    ensures Backed(AfterRecall(s, t), log)
  {
    if Live(s, t) && s.tasks[t].pc.ExRecall? {
      assert TaskBacked(s.history, log, t, s.tasks[t].pc);
      var next := if s.tasks[t].pc.code in Mem(s, t).delivery then None else Some(ExRebuild(s.tasks[t].pc.code));
      MoveBacked(s, AfterRecall(s, t), log, t, next);
    }
  }

  lemma RebuildBacked(s: State, log: map<nat, Request>, t: nat, lookup: Lookup)
    requires Backed(s, log)
    ensures Backed(AfterRebuild(s, t, lookup), log)
  {
    if Live(s, t) && s.tasks[t].pc.ExRebuild? {
      assert TaskBacked(s.history, log, t, s.tasks[t].pc);
      GotoBacked(s, log, t, None);
      if lookup.Found? {
        GotoBacked(s, log, t, Some(ExDelivering(s.tasks[t].pc.code, ResultOf(lookup.artifacts))));
      }
    }
  }

  lemma ReplayBacked(s: State, log: map<nat, Request>, r: ReplayAction)
    requires Backed(s, log) && LaunchSafety.Inv(s)
    ensures Backed(ReplayStep(s, r), log)
  {
    match r
    case Reread(t) => RereadBacked(s, log, t);
    case FollowRow(t, now) => FollowBacked(s, log, t, now);
    case ProveVerifier(t, id) => ProveBacked(s, log, t, id);
    case Recall(t) => RecallBacked(s, log, t);
    case Rebuild(t, lookup) => RebuildBacked(s, log, t, lookup);
  }

  lemma OrphanLookupBacked(s: State, log: map<nat, Request>, t: nat, lookup: Lookup)
    requires Backed(s, log)
    ensures Backed(AfterOrphanLookup(s, t, lookup), Noted(log, s, Orphan(ReconcileOrphan(t, lookup))))
  {
    var more := Noted(log, s, Orphan(ReconcileOrphan(t, lookup)));
    assert Backed(s, more) by {
      assert t in s.tasks ==> TaskBacked(s.history, log, t, s.tasks[t].pc);
    }
    if Live(s, t) && s.tasks[t].pc.ExOrphan? {
      assert TaskBacked(s.history, log, t, s.tasks[t].pc);
      GotoBacked(s, more, t, None);
      if lookup.Found? {
        GotoBacked(s, more, t, Some(ExOrphanArtifacts(s.tasks[t].pc.code, lookup.artifacts)));
      }
    }
  }

  lemma OrphanBacked(s: State, log: map<nat, Request>, o: OrphanAction)
    requires Backed(s, log)
    ensures Backed(OrphanStep(s, o), Noted(log, s, Orphan(o)))
  {
    match o
    case ReconcileOrphan(t, lookup) => OrphanLookupBacked(s, log, t, lookup);
    case SettleExpired(t, now) =>
    case FindOrphanAuthorization(t, id) =>
      if t in s.tasks { assert TaskBacked(s.history, log, t, s.tasks[t].pc); }
    case ReadOrphanPass(t) =>
      if t in s.tasks { assert TaskBacked(s.history, log, t, s.tasks[t].pc); }
  }

  // ---- The browser and the environment -----------------------------------

  lemma PcBackedGrows(h: History, h1: History, pc: Pc, r: Request)
    requires LaunchSafety.Grows(h, h1) && PcBacked(h, pc, r)
    ensures PcBacked(h1, pc, r)
  {
  }

  /** The browser decision moves deciding tasks alone. */
  predicate OthersStay(s: State, s1: State) {
    forall t | t in s1.tasks :: Deciding(s1.tasks[t].pc) || (t in s.tasks && s1.tasks[t] == s.tasks[t])
  }

  lemma DecidingTasks(s: State, b: BrowserAction)
    ensures OthersStay(s, BrowserStep(s, b))
  {
    match b
    case CreateAuthorization(id, core) => assert OthersStay(s, AfterCreate(s, id, core));
    case BeginDecision(p, ch, id, now, expiresAt) => assert OthersStay(s, AfterBegin(s, p, ch, id, now, expiresAt));
    case StartFinish(t, p, id, ch, now) => assert OthersStay(s, AfterStartFinish(s, t, p, id, ch, now));
    case ConsumeCeremony(t, now, verified) => ConsumingStays(s, t, now, verified);
    case ReloadBinding(t, now) => assert OthersStay(s, AfterReload(s, t, now));
    case Approve(t, code) => ApprovingStays(s, t, code);
    case CacheAttestation(t) => CachingStays(s, t);
  }

  lemma ConsumingStays(s: State, t: nat, now: int, verified: bool)
    ensures OthersStay(s, AfterConsume(s, t, now, verified))
  {
  }

  lemma ApprovingStays(s: State, t: nat, code: nat)
    ensures OthersStay(s, AfterApprove(s, t, code))
  {
  }

  lemma CachingStays(s: State, t: nat)
    ensures OthersStay(s, AfterCache(s, t))
  {
  }

  lemma BrowserBacked(s: State, log: map<nat, Request>, b: BrowserAction)
    requires Backed(s, log) && LaunchSafety.Inv(s)
    ensures Backed(BrowserStep(s, b), log)
  {
    DecidingTasks(s, b);
    LaunchSafety.BrowserGrows(s, b);
    var s1 := BrowserStep(s, b);
    forall t | t in s1.tasks && !Deciding(s1.tasks[t].pc)
      ensures TaskBacked(s1.history, log, t, s1.tasks[t].pc)
    {
      assert TaskBacked(s.history, log, t, s.tasks[t].pc);
      PcBackedGrows(s.history, s1.history, s.tasks[t].pc, log[t]);
    }
  }

  lemma EnvBacked(s: State, log: map<nat, Request>, e: EnvAction)
    requires Backed(s, log)
    ensures Backed(EnvStep(s, e), log)
  {
  }

  lemma StepBacked(s: State, log: map<nat, Request>, a: Action)
    requires Backed(s, log) && LaunchSafety.Inv(s)
    ensures Backed(Step(s, a), Noted(log, s, a))
  {
    match a
    case Env(e) => EnvBacked(s, log, e);
    case Decide(b) => BrowserBacked(s, log, b);
    case Exchange(x) => ExchangeBacked(s, log, x);
    case Replay(r) => ReplayBacked(s, log, r);
    case Orphan(o) => OrphanBacked(s, log, o);
  }

  // ---- What each step answers --------------------------------------------

  lemma BrowserAnswersNothing(s: State, b: BrowserAction)
    ensures BrowserStep(s, b).results == s.results
  {
    match b
    case CreateAuthorization(id, core) =>
    case BeginDecision(p, ch, id, now, expiresAt) =>
    case StartFinish(t, p, id, ch, now) =>
    case ConsumeCeremony(t, now, verified) => ConsumingAnswersNothing(s, t, now, verified);
    case ReloadBinding(t, now) =>
    case Approve(t, code) =>
    case CacheAttestation(t) =>
  }

  lemma ConsumingAnswersNothing(s: State, t: nat, now: int, verified: bool)
    ensures AfterConsume(s, t, now, verified).results == s.results
  {
  }

  lemma ClaimingAnswersNothing(s: State, x: ExchangeAction)
    requires x.StartExchange? || x.FindAuthorization? || x.ReadPass? || x.ClaimCode? || x.TakeAttestation?
    ensures ExchangeStep(s, x).results == s.results
  {
    match x
    case StartExchange(t, p, code, verifier) =>
    case FindAuthorization(t, id, now) =>
    case ReadPass(t, now, agrees) =>
    case ClaimCode(t, now) =>
    case TakeAttestation(t, now) =>
  }

  lemma CallingAnswersNothing(s: State, x: ExchangeAction)
    requires x.PrepareLaunch? || x.ReceiveAnswer? || x.Reconcile? || x.Adopt? || x.SettleFailed?
    ensures ExchangeStep(s, x).results == s.results
  {
    match x
    case PrepareLaunch(t) =>
    case ReceiveAnswer(t, answer) =>
    case Reconcile(t, lookup) =>
    case Adopt(t, now) =>
    case SettleFailed(t, now) =>
  }

  lemma FollowingAnswersNothing(s: State, r: ReplayAction)
    requires !r.Recall?
    ensures ReplayStep(s, r).results == s.results
  {
    match r
    case Reread(t) =>
    case FollowRow(t, now) =>
    case ProveVerifier(t, id) =>
    case Rebuild(t, lookup) =>
  }

  lemma OrphanAnswersNothing(s: State, o: OrphanAction)
    ensures OrphanStep(s, o).results == s.results
  {
    match o
    case SettleExpired(t, now) =>
    case ReconcileOrphan(t, lookup) =>
    case FindOrphanAuthorization(t, id) =>
    case ReadOrphanPass(t) =>
  }

  /** The request a delivering step answers. */
  function TaskOf(a: Action): nat {
    match a
    case Exchange(Deliver(t)) => t
    case Replay(Recall(t)) => t
    case _ => 0
  }

  /** The step answers one request, which has earned it, or none. */
  ghost predicate AnswersEarned(s: State, s1: State, log: map<nat, Request>, a: Action) {
    s1.results == s.results
    || (s1.results != [] && s1.results[..|s1.results| - 1] == s.results
        && TaskOf(a) in log && Earned(s1.history, s1.results[|s1.results| - 1].code, log[TaskOf(a)]))
  }

  lemma DeliverEarned(s: State, log: map<nat, Request>, t: nat)
    requires Backed(s, log)
    ensures AnswersEarned(s, AfterDeliver(s, t), log, Exchange(Deliver(t)))
  {
    if t in s.tasks { assert TaskBacked(s.history, log, t, s.tasks[t].pc); }
  }

  lemma RecallEarned(s: State, log: map<nat, Request>, t: nat)
    requires Backed(s, log)
    ensures AnswersEarned(s, AfterRecall(s, t), log, Replay(Recall(t)))
  {
    if t in s.tasks { assert TaskBacked(s.history, log, t, s.tasks[t].pc); }
  }

  lemma StepEarned(s: State, log: map<nat, Request>, a: Action)
    requires Backed(s, log)
    ensures AnswersEarned(s, Step(s, a), log, a)
  {
    match a
    case Env(e) => EnvAnswersNothing(s, e);
    case Decide(b) => BrowserAnswersNothing(s, b);
    case Exchange(x) => ExchangeEarned(s, log, x);
    case Replay(r) =>
      if r.Recall? {
        RecallEarned(s, log, r.task);
      } else {
        FollowingAnswersNothing(s, r);
      }
    case Orphan(o) => OrphanAnswersNothing(s, o);
  }

  lemma EnvAnswersNothing(s: State, e: EnvAction)
    ensures EnvStep(s, e).results == s.results
  {
  }

  lemma ExchangeEarned(s: State, log: map<nat, Request>, x: ExchangeAction)
    requires Backed(s, log)
    ensures AnswersEarned(s, ExchangeStep(s, x), log, Exchange(x))
  {
    if x.Deliver? {
      DeliverEarned(s, log, x.task);
    } else if x.PrepareLaunch? || x.ReceiveAnswer? || x.Reconcile? || x.Adopt? || x.SettleFailed? {
      CallingAnswersNothing(s, x);
    } else {
      ClaimingAnswersNothing(s, x);
    }
  }

  // ---- Over whole runs ---------------------------------------------------

  /** A sealed result and the request it was the answer to. */
  datatype Answered = Answered(delivered: Delivered, request: Request)

  function AnsweredAt(s: State, s1: State, log: map<nat, Request>, a: Action): seq<Answered> {
    if s1.results == s.results || s1.results == [] then []
    else [Answered(s1.results[|s1.results| - 1], if TaskOf(a) in log then log[TaskOf(a)] else Request(0, false))]
  }

  /** The answers of a run, in order, each with its request. */
  function AnswersOf(s: State, log: map<nat, Request>, actions: seq<Action>): seq<Answered>
    decreases |actions|
  {
    if actions == [] then []
    else AnsweredAt(s, Step(s, actions[0]), log, actions[0])
         + AnswersOf(Step(s, actions[0]), Noted(log, s, actions[0]), actions[1..])
  }

  function Results(answers: seq<Answered>): (r: seq<Delivered>)
    ensures |r| == |answers|
  {
    seq(|answers|, i requires 0 <= i < |answers| => answers[i].delivered)
  }

  ghost predicate AllEarned(h: History, answers: seq<Answered>) {
    forall i | 0 <= i < |answers| :: Earned(h, answers[i].delivered.code, answers[i].request)
  }

  lemma EarnedGrows(h: History, h1: History, answers: seq<Answered>)
    requires LaunchSafety.Grows(h, h1) && AllEarned(h, answers)
    ensures AllEarned(h1, answers)
  {
  }

  lemma AnsweredEarned(s: State, s1: State, log: map<nat, Request>, a: Action)
    requires AnswersEarned(s, s1, log, a)
    ensures s1.results == s.results + Results(AnsweredAt(s, s1, log, a))
    ensures AllEarned(s1.history, AnsweredAt(s, s1, log, a))
  {
  }

  lemma ResultsSplit(xs: seq<Answered>, ys: seq<Answered>)
    ensures Results(xs + ys) == Results(xs) + Results(ys)
  {
  }

  lemma EarnedJoins(h: History, h1: History, before: seq<Delivered>, now: seq<Answered>, later: seq<Answered>)
    requires AllEarned(h, now) && LaunchSafety.Grows(h, h1) && AllEarned(h1, later)
    ensures before + Results(now) + Results(later) == before + Results(now + later)
    ensures AllEarned(h1, now + later)
  {
    ResultsSplit(now, later);
    EarnedGrows(h, h1, now);
  }

  lemma {:induction false} RunEarned(s: State, log: map<nat, Request>, actions: seq<Action>)
    requires Backed(s, log) && LaunchSafety.Inv(s)
    ensures Run(s, actions).results == s.results + Results(AnswersOf(s, log, actions))
    ensures AllEarned(Run(s, actions).history, AnswersOf(s, log, actions))
    decreases |actions|
  {
    if actions != [] {
      var a, rest := actions[0], actions[1..];
      var s1, log1 := Step(s, a), Noted(log, s, a);
      StepIsEarned(s, log, a);
      RunEarned(s1, log1, rest);
      LaunchSafety.RunGrows(s1, rest);
      EarnedJoins(s1.history, Run(s1, rest).history, s.results, AnsweredAt(s, s1, log, a), AnswersOf(s1, log1, rest));
    }
  }

  lemma StepIsEarned(s: State, log: map<nat, Request>, a: Action)
    requires Backed(s, log) && LaunchSafety.Inv(s)
    ensures Backed(Step(s, a), Noted(log, s, a)) && LaunchSafety.Inv(Step(s, a))
    ensures Step(s, a).results == s.results + Results(AnsweredAt(s, Step(s, a), log, a))
    ensures AllEarned(Step(s, a).history, AnsweredAt(s, Step(s, a), log, a))
  {
    LaunchSafety.StepKeepsInv(s, a);
    StepBacked(s, log, a);
    StepEarned(s, log, a);
    AnsweredEarned(s, Step(s, a), log, a);
  }

  /** In every run, each sealed result is the answer to a request whose verifier
      answers the challenge of the authorization its code was minted for, or to
      one that found the code in flight and whose lookup found artifacts. */
  lemma ResultsGoToProvers(s: State, actions: seq<Action>, i: nat)
    requires Initial(s) && i < |AnswersOf(s, map[], actions)|
    ensures Run(s, actions).results == Results(AnswersOf(s, map[], actions))
    ensures var answer, h := AnswersOf(s, map[], actions)[i], Run(s, actions).history;
            answer.request.orphan
            || (answer.delivered.code in h.minted && h.minted[answer.delivered.code].authId in h.created
                && h.created[h.minted[answer.delivered.code].authId].challenge == answer.request.verifier)
  {
    RunEarned(s, map[], actions);
    assert [] + Results(AnswersOf(s, map[], actions)) == Results(AnswersOf(s, map[], actions));
  }
}
