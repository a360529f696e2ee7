/** The launch protocol as a step machine: any number of processes, each with
    its own memory, run browser decisions and code exchanges over one store.

    Every store transaction, every upstream call and every change of process
    memory is one atomic step; an action names the request that moves and the
    answers it gets.  `Step` leaves the state alone when an action is not
    enabled, so a run is any sequence of actions whatever: all interleavings,
    retries, crashes and upstream answers are covered. */
module LaunchMachine {
  import opened Base
  import opened LaunchStore

  /** The decision and code that approved an authorization. */
  datatype Approval = Approval(challengeId: nat, attDigest: nat, code: nat)

  datatype Auth = Auth(core: AuthCore, approval: Option<Approval>)

  /** What canonicalBeginBytes covers.  SHA-256 is injective, so the challenge
      digest is modelled by the claims themselves. */
  datatype Claims = Claims(
    authId: nat, passId: nat, binding: Binding, redirect: nat, challenge: nat, ephemeral: nat)

  function ClaimsOf(authId: nat, core: AuthCore): Claims {
    Claims(authId, core.passId, core.binding, core.redirect, core.challenge, core.ephemeral)
  }

  datatype Ceremony = Ceremony(claims: Claims, expiresAt: int)

  /** The signed attestation, with the claims of the ceremony it vouches for.
      Its digest covers the ceremony proof, hence determines the challenge ID
      and is modelled by it. */
  datatype Attestation = Attestation(authId: nat, challengeId: nat, claims: Claims, code: nat, expiresAt: int)

  datatype Result = Result(runId: nat, missionRef: nat, envelope: nat)

  function ResultOf(x: Artifacts): Result { Result(x.runId, x.missionRef, x.envelope) }

  /** Process memory: lost in a crash. */
  datatype Memory = Memory(
    ceremonies: map<nat, Ceremony>, cache: map<nat, Attestation>, delivery: map<nat, Result>)

  /** An authorization as one task read it. */
  datatype Read = Read(authId: nat, core: AuthCore, approval: Approval)

  datatype Pc =
    // FinishBrowserDecision
    | FinRead(authId: nat, challengeId: nat, core: AuthCore)
    | FinVerified(authId: nat, challengeId: nat, core: AuthCore, claims: Claims)
    | FinReloaded(authId: nat, challengeId: nat, core: AuthCore, claims: Claims)
    | FinApproved(att: Attestation)
    // exchangeAndPrepare, as the claimant
    | ExLookup(code: nat, verifier: nat)
    | ExFound(code: nat, verifier: nat, read: Read)
    | ExValid(code: nat, verifier: nat, read: Read, pass: Pass)
    | ExOwned(code: nat, read: Read, pass: Pass)
    | ExTaken(code: nat, read: Read, pass: Pass, att: Attestation)
    | ExSent(code: nat, read: Read, pass: Pass)
    | ExAmbiguous(code: nat, read: Read, pass: Pass)
    | ExAdopting(code: nat, read: Read, pass: Pass, artifacts: Artifacts)
    | ExFailing(code: nat)
    | ExDelivering(code: nat, result: Result)
    // exchangeAndPrepare, following an existing row
    | ExReread(code: nat, verifier: nat)
    | ExFollow(code: nat, verifier: nat, row: Row)
    | ExReplay(code: nat, verifier: nat)
    | ExRecall(code: nat)
    | ExRebuild(code: nat)
    | ExStale(code: nat)
    | ExOrphan(code: nat)
    | ExOrphanArtifacts(code: nat, artifacts: Artifacts)
    | ExOrphanRead(code: nat, artifacts: Artifacts, read: Read)

  datatype Task = Task(proc: nat, pc: Pc)

  /** One PrepareLaunch as the authority receives it. */
  datatype Call = Call(code: nat, kit: nat, ephemeral: nat, missionRef: nat, att: Attestation)

  datatype Delivered = Delivered(code: nat, result: Result)

  /** Where the one right to prepare a launch, born with a challenge, is now. */
  datatype Place = Pending(proc: nat) | Held(task: nat) | Cached(proc: nat) | Spent(index: nat)

  datatype Mint = Mint(challengeId: nat, authId: nat)

  /** What was created, bound to a challenge, minted and approved so far. */
  datatype History = History(
    created: map<nat, AuthCore>, subject: map<nat, nat>, minted: map<nat, Mint>, approvedBy: map<nat, nat>)

  datatype State = State(
    // the store
    passes: map<nat, Pass>, auths: map<nat, Auth>, rows: map<nat, Row>,
    // memory and control
    procs: map<nat, Memory>, tasks: map<nat, Task>,
    // what the outside world has seen
    calls: seq<Call>, results: seq<Delivered>,
    // bookkeeping: no guard reads these except to keep random identifiers fresh
    history: History, place: map<nat, Place>)

  /** PrepareLaunch's answer as handlePrepareError sorts it. */
  datatype Answer = Prepared(artifacts: Artifacts) | Denied | Canceled | Ambiguous

  /** ReconcileOperation's answer. */
  datatype Lookup = Found(artifacts: Artifacts) | NotCompleted

  const STALE_AFTER: int := 600

  datatype EnvAction =
    | StartProcess(proc: nat)
    | Crash(proc: nat)
    | OtherService(passId: nat, pass: Pass)
    | ResetHandoffs
    | EvictAttestation(proc: nat, authId: nat)
    | EvictDelivery(proc: nat, code: nat)
    | Abort(task: nat)

  datatype BrowserAction =
    | CreateAuthorization(authId: nat, core: AuthCore)
    | BeginDecision(proc: nat, challengeId: nat, authId: nat, now: int, expiresAt: int)
    | StartFinish(task: nat, proc: nat, authId: nat, challengeId: nat, now: int)
    | ConsumeCeremony(task: nat, now: int, verified: bool)
    | ReloadBinding(task: nat, now: int)
    | Approve(task: nat, code: nat)
    | CacheAttestation(task: nat)

  /** The path of the request that claims the code. */
  datatype ExchangeAction =
    | StartExchange(task: nat, proc: nat, code: nat, verifier: nat)
    | FindAuthorization(task: nat, authId: nat, now: int)
    | ReadPass(task: nat, now: int, upstreamAgrees: bool)
    | ClaimCode(task: nat, now: int)
    | TakeAttestation(task: nat, now: int)
    | PrepareLaunch(task: nat)
    | ReceiveAnswer(task: nat, answer: Answer)
    | Reconcile(task: nat, lookup: Lookup)
    | Adopt(task: nat, now: int)
    | SettleFailed(task: nat, now: int)
    | Deliver(task: nat)

  /** The path of a request that finds the code already claimed. */
  datatype ReplayAction =
    | Reread(task: nat)
    | FollowRow(task: nat, now: int)
    | ProveVerifier(task: nat, authId: nat)
    | Recall(task: nat)
    | Rebuild(task: nat, lookup: Lookup)

  /** The path of a request that finds the code in flight. */
  datatype OrphanAction =
    | SettleExpired(task: nat, now: int)
    | ReconcileOrphan(task: nat, lookup: Lookup)
    | FindOrphanAuthorization(task: nat, authId: nat)
    | ReadOrphanPass(task: nat)

  datatype Action =
    | Env(env: EnvAction)
    | Decide(browser: BrowserAction)
    | Exchange(exchange: ExchangeAction)
    | Replay(replay: ReplayAction)
    | Orphan(orphan: OrphanAction)

  // ---- Small moves -------------------------------------------------------

  predicate Live(s: State, t: nat) { t in s.tasks && s.tasks[t].proc in s.procs }

  function Mem(s: State, t: nat): Memory
    requires Live(s, t)
  {
    s.procs[s.tasks[t].proc]
  }

  function SetMem(s: State, t: nat, m: Memory): State
    requires Live(s, t)
  {
    s.(procs := s.procs[s.tasks[t].proc := m])
  }

  /** The request goes on at `next`, or returns to its caller. */
  function Goto(s: State, t: nat, next: Option<Pc>): State
    requires t in s.tasks
  {
    match next
    case Some(pc) => s.(tasks := s.tasks[t := s.tasks[t].(pc := pc)])
    case None => s.(tasks := s.tasks - {t})
  }

  function Spawn(s: State, t: nat, p: nat, pc: Pc): State { s.(tasks := s.tasks[t := Task(p, pc)]) }

  function Put(s: State, ch: nat, place: Place): State { s.(place := s.place[ch := place]) }

  /** loadLaunchBinding together with bindingMatchesRecord. */
  predicate LaunchBindingHolds(s: State, core: AuthCore, now: int) {
    && core.passId in s.passes
    && var pass := s.passes[core.passId];
       pass.state.Approved? && now < pass.expiresAt && pass.binding.proposal != EMPTY && pass.binding == core.binding
  }

  /** beginBinding: the authorization is unapproved, unexpired and unmoved. */
  predicate MayDecide(s: State, authId: nat, now: int) {
    && authId in s.auths
    && s.auths[authId].approval.None?
    && now <= s.auths[authId].core.expiresAt
    && LaunchBindingHolds(s, s.auths[authId].core, now)
  }

  /** GetCLIAuthorizationByCodeHash found this authorization. */
  predicate FoundByCode(s: State, authId: nat, code: nat) {
    authId in s.auths && s.auths[authId].approval.Some? && s.auths[authId].approval.value.code == code
  }

  function ReadOf(s: State, authId: nat): Read
    requires authId in s.auths && s.auths[authId].approval.Some?
  {
    Read(authId, s.auths[authId].core, s.auths[authId].approval.value)
  }

  /** The S256 check: the challenge determines the verifier. */
  predicate VerifyCodeChallenge(challenge: nat, verifier: nat) { challenge == verifier }

  // ---- The environment ---------------------------------------------------

  function EnvStep(s: State, a: EnvAction): State {
    match a
    case StartProcess(p) =>
      if p in s.procs then s else s.(procs := s.procs[p := Memory(map[], map[], map[])])
    case Crash(p) =>
      s.(procs := s.procs - {p}, tasks := map t | t in s.tasks && s.tasks[t].proc != p :: s.tasks[t])
    case OtherService(id, pass) =>
      // Any other service may rewrite a pass; only adoption launches one.
      if id in s.passes && s.passes[id].state.Approved? && pass.state.Launching? then s
      else s.(passes := s.passes[id := pass])
    case ResetHandoffs => s.(auths := map[], rows := map[])
    case EvictAttestation(p, a) =>
      if p !in s.procs then s
      else s.(procs := s.procs[p := s.procs[p].(cache := s.procs[p].cache - {a})])
    case EvictDelivery(p, c) =>
      if p !in s.procs then s
      else s.(procs := s.procs[p := s.procs[p].(delivery := s.procs[p].delivery - {c})])
    case Abort(t) => s.(tasks := s.tasks - {t})
  }

  // ---- The browser decision ----------------------------------------------

  function AfterCreate(s: State, id: nat, core: AuthCore): State {
    if id in s.history.created then s
    else s.(auths := s.auths[id := Auth(core, None)],
            history := s.history.(created := s.history.created[id := core]))
  }

  function AfterBegin(s: State, p: nat, ch: nat, id: nat, now: int, expiresAt: int): State {
    if p in s.procs && ch !in s.history.subject && MayDecide(s, id, now) then
      var m := s.procs[p];
      var c := Ceremony(ClaimsOf(id, s.auths[id].core), expiresAt);
      Put(s, ch, Pending(p)).(procs := s.procs[p := m.(ceremonies := m.ceremonies[ch := c])],
                              history := s.history.(subject := s.history.subject[ch := id]))
    else s
  }

  function AfterStartFinish(s: State, t: nat, p: nat, id: nat, ch: nat, now: int): State {
    if t !in s.tasks && p in s.procs && MayDecide(s, id, now)
    then Spawn(s, t, p, FinRead(id, ch, s.auths[id].core))
    else s
  }

  /** consumeCeremony and the checks on what it returned.  The ceremony is
      gone before anything is verified: a failed attempt burns it. */
  function AfterConsume(s: State, t: nat, now: int, verified: bool): State {
    if Live(s, t) && s.tasks[t].pc.FinRead? then
      var FinRead(id, ch, core) := s.tasks[t].pc;
      var m := Mem(s, t);
      if ch !in m.ceremonies then Goto(s, t, None)
      else
        var c := m.ceremonies[ch];
        var s1 := SetMem(s, t, m.(ceremonies := m.ceremonies - {ch}));
        if now < c.expiresAt && c.claims == ClaimsOf(id, core) && verified
        then Goto(Put(s1, ch, Held(t)), t, Some(FinVerified(id, ch, core, c.claims)))
        else Goto(s1, t, None)
    else s
  }

  function AfterReload(s: State, t: nat, now: int): State {
    if Live(s, t) && s.tasks[t].pc.FinVerified? then
      var FinVerified(id, ch, core, claims) := s.tasks[t].pc;
      Goto(s, t, if LaunchBindingHolds(s, core, now) then Some(FinReloaded(id, ch, core, claims)) else None)
    else s
  }

  /** approveCLIAuthorization: one approval per authorization. */
  function AfterApprove(s: State, t: nat, code: nat): State {
    if Live(s, t) && s.tasks[t].pc.FinReloaded? && code !in s.history.minted then
      var FinReloaded(id, ch, core, claims) := s.tasks[t].pc;
      if id in s.auths && s.auths[id].approval.None? then
        Goto(s, t, Some(FinApproved(Attestation(id, ch, claims, code, core.expiresAt))))
          .(auths := s.auths[id := s.auths[id].(approval := Some(Approval(ch, ch, code)))],
            history := s.history.(minted := s.history.minted[code := Mint(ch, id)],
                                  approvedBy := s.history.approvedBy[id := ch]))
      else Goto(s, t, None)
    else s
  }

  function AfterCache(s: State, t: nat): State {
    if Live(s, t) && s.tasks[t].pc.FinApproved? then
      var att := s.tasks[t].pc.att;
      var m := Mem(s, t);
      var s1 := Put(Goto(s, t, None), att.challengeId, Cached(s.tasks[t].proc));
      s1.(procs := s.procs[s.tasks[t].proc := m.(cache := m.cache[att.authId := att])])
    else s
  }

  function BrowserStep(s: State, a: BrowserAction): State {
    match a
    case CreateAuthorization(id, core) => AfterCreate(s, id, core)
    case BeginDecision(p, ch, id, now, expiresAt) => AfterBegin(s, p, ch, id, now, expiresAt)
    case StartFinish(t, p, id, ch, now) => AfterStartFinish(s, t, p, id, ch, now)
    case ConsumeCeremony(t, now, verified) => AfterConsume(s, t, now, verified)
    case ReloadBinding(t, now) => AfterReload(s, t, now)
    case Approve(t, code) => AfterApprove(s, t, code)
    case CacheAttestation(t) => AfterCache(s, t)
  }

  // ---- Exchanging the code -----------------------------------------------

  function AfterStartExchange(s: State, t: nat, p: nat, code: nat, verifier: nat): State {
    if t in s.tasks || p !in s.procs then s
    else Spawn(s, t, p, if code in s.rows then ExFollow(code, verifier, s.rows[code]) else ExLookup(code, verifier))
  }

  function AfterFind(s: State, t: nat, id: nat, now: int): State {
    if Live(s, t) && s.tasks[t].pc.ExLookup? then
      var ExLookup(code, verifier) := s.tasks[t].pc;
      Goto(s, t,
        if FoundByCode(s, id, code) && now < s.auths[id].core.expiresAt
           && VerifyCodeChallenge(s.auths[id].core.challenge, verifier)
        then Some(ExFound(code, verifier, ReadOf(s, id)))
        else None)
    else s
  }

  function AfterReadPass(s: State, t: nat, now: int, upstreamAgrees: bool): State {
    if Live(s, t) && s.tasks[t].pc.ExFound? then
      var ExFound(code, verifier, read) := s.tasks[t].pc;
      Goto(s, t,
        if read.core.passId in s.passes && BindingHolds(s.passes[read.core.passId], read.core, now) && upstreamAgrees
        then Some(ExValid(code, verifier, read, s.passes[read.core.passId]))
        else None)
    else s
  }

  function AfterClaim(s: State, t: nat, now: int): State {
    if Live(s, t) && s.tasks[t].pc.ExValid? then
      var ExValid(code, verifier, read, pass) := s.tasks[t].pc;
      Goto(s, t, Some(if code !in s.rows then ExOwned(code, read, pass) else ExReread(code, verifier)))
        .(rows := ClaimRow(s.rows, code, read.authId, read.core.passId, read.approval.attDigest, now))
    else s
  }

  function AfterTake(s: State, t: nat, now: int): State {
    if Live(s, t) && s.tasks[t].pc.ExOwned? then
      var ExOwned(code, read, pass) := s.tasks[t].pc;
      var m := Mem(s, t);
      if read.authId !in m.cache then Goto(s, t, Some(ExFailing(code)))
      else
        var att := m.cache[read.authId];
        var s1 := SetMem(s, t, m.(cache := m.cache - {read.authId}));
        if now <= att.expiresAt && att.code == code && att.challengeId == read.approval.attDigest
        then Goto(Put(s1, att.challengeId, Held(t)), t, Some(ExTaken(code, read, pass, att)))
        else Goto(s1, t, Some(ExFailing(code)))
    else s
  }

  function CallOf(code: nat, read: Read, att: Attestation): Call {
    Call(code, read.core.binding.kit, read.core.ephemeral, read.core.binding.missionRef, att)
  }

  function AfterPrepare(s: State, t: nat): State {
    if Live(s, t) && s.tasks[t].pc.ExTaken? then
      var ExTaken(code, read, pass, att) := s.tasks[t].pc;
      Put(Goto(s, t, Some(ExSent(code, read, pass))), att.challengeId, Spent(|s.calls|))
        .(calls := s.calls + [CallOf(code, read, att)])
    else s
  }

  function AfterAnswer(s: State, t: nat, answer: Answer): State {
    if Live(s, t) && s.tasks[t].pc.ExSent? then
      var ExSent(code, read, pass) := s.tasks[t].pc;
      Goto(s, t, Some(
        match answer
        case Prepared(artifacts) => ExAdopting(code, read, pass, artifacts)
        case Ambiguous => ExAmbiguous(code, read, pass)
        case _ => ExFailing(code)))
    else s
  }

  function AfterReconcile(s: State, t: nat, lookup: Lookup): State {
    if Live(s, t) && s.tasks[t].pc.ExAmbiguous? then
      var ExAmbiguous(code, read, pass) := s.tasks[t].pc;
      Goto(s, t, Some(
        match lookup
        case Found(artifacts) => ExAdopting(code, read, pass, artifacts)
        case NotCompleted => ExFailing(code)))
    else s
  }

  function AfterAdopt(s: State, t: nat, now: int): State {
    if Live(s, t) && s.tasks[t].pc.ExAdopting? then
      var ExAdopting(code, read, pass, artifacts) := s.tasks[t].pc;
      if Adoptable(artifacts, read.core) && CanAdopt(s.passes, s.rows, code, read.core, pass.revision, now) then
        Goto(s, t, Some(ExDelivering(code, ResultOf(artifacts))))
          .(passes := s.passes[read.core.passId := LaunchedPass(s.passes[read.core.passId], artifacts)],
            rows := AdoptedRows(s.rows, code, artifacts, now))
      else Goto(s, t, Some(ExFailing(code)))
    else s
  }

  function AfterSettleFailed(s: State, t: nat, now: int): State {
    if Live(s, t) && s.tasks[t].pc.ExFailing? then
      Goto(s, t, None).(rows := SettleRow(s.rows, s.tasks[t].pc.code, RowStatus.Failed, EMPTY, EMPTY, now))
    else s
  }

  function AfterDeliver(s: State, t: nat): State {
    if Live(s, t) && s.tasks[t].pc.ExDelivering? then
      var ExDelivering(code, result) := s.tasks[t].pc;
      var m := Mem(s, t);
      Goto(SetMem(s, t, m.(delivery := m.delivery[code := result])), t, None)
        .(results := s.results + [Delivered(code, result)])
    else s
  }

  function ExchangeStep(s: State, a: ExchangeAction): State {
    match a
    case StartExchange(t, p, code, verifier) => AfterStartExchange(s, t, p, code, verifier)
    case FindAuthorization(t, id, now) => AfterFind(s, t, id, now)
    case ReadPass(t, now, upstreamAgrees) => AfterReadPass(s, t, now, upstreamAgrees)
    case ClaimCode(t, now) => AfterClaim(s, t, now)
    case TakeAttestation(t, now) => AfterTake(s, t, now)
    case PrepareLaunch(t) => AfterPrepare(s, t)
    case ReceiveAnswer(t, answer) => AfterAnswer(s, t, answer)
    case Reconcile(t, lookup) => AfterReconcile(s, t, lookup)
    case Adopt(t, now) => AfterAdopt(s, t, now)
    case SettleFailed(t, now) => AfterSettleFailed(s, t, now)
    case Deliver(t) => AfterDeliver(s, t)
  }

  // ---- Following a code that is already claimed --------------------------

  function AfterReread(s: State, t: nat): State {
    if Live(s, t) && s.tasks[t].pc.ExReread? then
      var ExReread(code, verifier) := s.tasks[t].pc;
      Goto(s, t, if code in s.rows then Some(ExFollow(code, verifier, s.rows[code])) else None)
    else s
  }

  function AfterFollow(s: State, t: nat, now: int): State {
    if Live(s, t) && s.tasks[t].pc.ExFollow? then
      var ExFollow(code, verifier, row) := s.tasks[t].pc;
      var stale := now - row.updatedAt > STALE_AFTER;
      Goto(s, t,
        match row.status
        case Completed => if stale then None else Some(ExReplay(code, verifier))
        case InFlight => Some(if stale then ExStale(code) else ExOrphan(code))
        case _ => None)
    else s
  }

  function AfterProve(s: State, t: nat, id: nat): State {
    if Live(s, t) && s.tasks[t].pc.ExReplay? then
      var ExReplay(code, verifier) := s.tasks[t].pc;
      Goto(s, t, if FoundByCode(s, id, code) && VerifyCodeChallenge(s.auths[id].core.challenge, verifier)
                 then Some(ExRecall(code)) else None)
    else s
  }

  function AfterRecall(s: State, t: nat): State {
    if Live(s, t) && s.tasks[t].pc.ExRecall? then
      var code := s.tasks[t].pc.code;
      var m := Mem(s, t);
      if code in m.delivery
      then Goto(s, t, None).(results := s.results + [Delivered(code, m.delivery[code])])
      else Goto(s, t, Some(ExRebuild(code)))
    else s
  }

  function AfterRebuild(s: State, t: nat, lookup: Lookup): State {
    if Live(s, t) && s.tasks[t].pc.ExRebuild? then
      Goto(s, t, if lookup.Found? && lookup.artifacts.envelope != EMPTY
                 then Some(ExDelivering(s.tasks[t].pc.code, ResultOf(lookup.artifacts))) else None)
    else s
  }

  function AfterSettleExpired(s: State, t: nat, now: int): State {
    if Live(s, t) && s.tasks[t].pc.ExStale? then
      Goto(s, t, None).(rows := SettleRow(s.rows, s.tasks[t].pc.code, RowStatus.Expired, EMPTY, EMPTY, now))
    else s
  }

  function AfterOrphanLookup(s: State, t: nat, lookup: Lookup): State {
    if Live(s, t) && s.tasks[t].pc.ExOrphan? then
      Goto(s, t, if lookup.Found? && lookup.artifacts.envelope != EMPTY
                 then Some(ExOrphanArtifacts(s.tasks[t].pc.code, lookup.artifacts)) else None)
    else s
  }

  function AfterFindOrphan(s: State, t: nat, id: nat): State {
    if Live(s, t) && s.tasks[t].pc.ExOrphanArtifacts? then
      var ExOrphanArtifacts(code, artifacts) := s.tasks[t].pc;
      Goto(s, t, if FoundByCode(s, id, code) then Some(ExOrphanRead(code, artifacts, ReadOf(s, id))) else None)
    else s
  }

  function AfterReadOrphanPass(s: State, t: nat): State {
    if Live(s, t) && s.tasks[t].pc.ExOrphanRead? then
      var ExOrphanRead(code, artifacts, read) := s.tasks[t].pc;
      Goto(s, t, if read.core.passId in s.passes
                 then Some(ExAdopting(code, read, s.passes[read.core.passId], artifacts)) else None)
    else s
  }

  function ReplayStep(s: State, a: ReplayAction): State {
    match a
    case Reread(t) => AfterReread(s, t)
    case FollowRow(t, now) => AfterFollow(s, t, now)
    case ProveVerifier(t, id) => AfterProve(s, t, id)
    case Recall(t) => AfterRecall(s, t)
    case Rebuild(t, lookup) => AfterRebuild(s, t, lookup)
  }

  function OrphanStep(s: State, a: OrphanAction): State {
    match a
    case SettleExpired(t, now) => AfterSettleExpired(s, t, now)
    case ReconcileOrphan(t, lookup) => AfterOrphanLookup(s, t, lookup)
    case FindOrphanAuthorization(t, id) => AfterFindOrphan(s, t, id)
    case ReadOrphanPass(t) => AfterReadOrphanPass(s, t)
  }

  function Step(s: State, a: Action): State {
    match a
    case Env(e) => EnvStep(s, e)
    case Decide(b) => BrowserStep(s, b)
    case Exchange(x) => ExchangeStep(s, x)
    case Replay(r) => ReplayStep(s, r)
    case Orphan(o) => OrphanStep(s, o)
  }

  function Run(s: State, actions: seq<Action>): State
    decreases |actions|
  {
    if actions == [] then s else Run(Step(s, actions[0]), actions[1..])
  }

  /** A store with passes and nothing else, before any process starts. */
  predicate Initial(s: State) {
    && s.auths == map[] && s.rows == map[] && s.procs == map[] && s.tasks == map[]
    && s.calls == [] && s.results == []
    && s.history == History(map[], map[], map[], map[]) && s.place == map[]
  }
}
