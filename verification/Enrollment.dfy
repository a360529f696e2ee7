/** Founder enrollment and offline recovery over one store: bootstrap codes,
    founders, sessions, passkeys, recovery keys, and the resumable recovery
    intent (internal/authn/bootstrap.go, internal/recovery/service.go and
    their tables in internal/store/authn.go and internal/store/recovery.go).

    Every transaction, every read a later write relies on and every upstream
    call is one atomic step; any process and any reset may stop anywhere. */
module Enrollment {
  import opened Base

  /** SHA-256 of a recovery key: its first 16 characters, and the rest. */
  datatype KeyHash = KeyHash(prefix: nat, rest: nat)

  datatype Code = Code(expiresAt: int, consumed: bool)

  datatype Stage = Pending | Contained | VerifiedEmpty | Completed

  /** The canonical digest covers founder and key hash, and is modelled by them. */
  datatype Digest = Digest(founder: nat, key: KeyHash)

  datatype Intent = Intent(stage: Stage, digest: Digest, attested: bool)

  datatype Record = Record(key: nat, stage: Stage)

  datatype Phase = Starting | Counted | Serving | Recovering

  datatype Proc = Proc(exclusive: bool, phase: Phase)

  datatype Ceremony = Ceremony(proc: nat, code: nat)

  datatype Pc =
    | Chose(founder: nat)
    | Proved(d: Digest)
    | Missing(d: Digest)                               // no intent found
    | Holding(d: Digest, stage: Stage, attested: bool) // the intent as this reset knows it
    | Acknowledged(d: Digest)
    | SawEmpty(d: Digest)

  datatype Reset = Reset(proc: nat, pc: Pc)

  /** What offline recovery resets and what it leaves behind. */
  datatype Store = Store(
    founders: set<nat>, codes: map<nat, Code>, sessions: map<nat, bool>, credentials: set<nat>,
    keys: map<nat, KeyHash>, handoffs: set<nat>, events: map<nat, nat>)

  datatype State = State(
    store: Store, intents: map<nat, Intent>,
    procs: map<nat, Proc>, ceremonies: map<nat, Ceremony>, resets: map<nat, Reset>,
    journal: seq<Record>)                              // every stage ever recorded, in order

  datatype ServerAction =
    | Open(proc: nat, exclusive: bool, recovering: bool)
    | Crash(proc: nat)
    | CountFounders(proc: nat)
    | PutCode(proc: nat, code: nat, expiresAt: int)
    | BeginEnrollment(ceremony: nat, proc: nat, code: nat, now: int)
    | CompleteEnrollment(ceremony: nat, founder: nat, key: Option<KeyHash>, credentials: set<nat>, session: nat, now: int)
    | Login(proc: nat, session: nat)
    | OpenHandoff(proc: nat, handoff: nat)

  datatype ResetAction =
    | ChooseFounder(reset: nat, proc: nat, founder: nat)
    | ProveKey(reset: nat, key: KeyHash)
    | LoadIntent(reset: nat)
    | InsertIntent(reset: nat)
    | RecordAttestation(reset: nat)
    | ContainWorkspace(reset: nat, acknowledged: bool)
    | RecordContained(reset: nat)
    | PollMissions(reset: nat, empty: bool)
    | RecordEmpty(reset: nat)
    | Commit(reset: nat, code: nat, expiresAt: int)
    | Abandon(reset: nat)

  datatype Action = Server(server: ServerAction) | Recover(recover: ResetAction)

  // ---- The bootstrap code table ------------------------------------------

  function ActiveCodes(codes: map<nat, Code>): set<nat> { set c | c in codes && !codes[c].consumed }

  /** putBootstrapCode: drop the unconsumed codes, insert this one. */
  predicate CanPutCode(codes: map<nat, Code>, code: nat) { code in codes ==> !codes[code].consumed }

  function PutBootstrapCode(codes: map<nat, Code>, code: nat, expiresAt: int): map<nat, Code> {
    (map c | c in codes && codes[c].consumed :: codes[c])[code := Code(expiresAt, false)]
  }

  /** consumeBootstrapCode's conditional update. */
  predicate CanConsume(codes: map<nat, Code>, code: nat, now: int) {
    code in codes && !codes[code].consumed && now < codes[code].expiresAt
  }

  // ---- Enrollment --------------------------------------------------------

  predicate Serves(s: State, p: nat) { p in s.procs && s.procs[p].phase.Serving? }

  function SetPhase(s: State, p: nat, phase: Phase): State
    requires p in s.procs
  {
    s.(procs := s.procs[p := s.procs[p].(phase := phase)])
  }

  predicate CanComplete(s: State, c: nat, founder: nat, now: int) {
    && c in s.ceremonies && Serves(s, s.ceremonies[c].proc)
    && founder !in s.store.founders
    && CanConsume(s.store.codes, s.ceremonies[c].code, now)
  }

  /** Complete: founder, passkeys, recovery key, code and session in one
      transaction. */
  function AfterComplete(s: State, c: nat, founder: nat, key: Option<KeyHash>, credentials: set<nat>, session: nat, now: int): State {
    if CanComplete(s, c, founder, now) then
      var st := s.store;
      var code := s.ceremonies[c].code;
      s.(ceremonies := s.ceremonies - {c},
         store := st.(founders := st.founders + {founder},
                      codes := st.codes[code := st.codes[code].(consumed := true)],
                      credentials := st.credentials + credentials,
                      keys := if key.Some? then st.keys[founder := key.value] else st.keys,
                      sessions := st.sessions[session := true]))
    else s
  }

  function ServerStep(s: State, a: ServerAction): State {
    match a
    case Open(p, exclusive, recovering) =>
      // OpenExclusive fails while another exclusive opener is alive.
      if p in s.procs || (exclusive && exists q | q in s.procs :: s.procs[q].exclusive) then s
      else s.(procs := s.procs[p := Proc(exclusive, if recovering then Recovering else Starting)])
    case Crash(p) =>
      s.(procs := s.procs - {p},
         ceremonies := map c | c in s.ceremonies && s.ceremonies[c].proc != p :: s.ceremonies[c],
         resets := map r | r in s.resets && s.resets[r].proc != p :: s.resets[r])
    case CountFounders(p) =>
      if p in s.procs && s.procs[p].phase.Starting?
      then SetPhase(s, p, if s.store.founders == {} then Counted else Serving)
      else s
    case PutCode(p, code, expiresAt) =>
      if p in s.procs && s.procs[p].phase.Counted? && CanPutCode(s.store.codes, code)
      then SetPhase(s, p, Serving).(store := s.store.(codes := PutBootstrapCode(s.store.codes, code, expiresAt)))
      else s
    case BeginEnrollment(c, p, code, now) =>
      if c !in s.ceremonies && Serves(s, p) && s.store.founders == {} && CanConsume(s.store.codes, code, now)
      then s.(ceremonies := s.ceremonies[c := Ceremony(p, code)])
      else s
    case CompleteEnrollment(c, founder, key, credentials, session, now) =>
      AfterComplete(s, c, founder, key, credentials, session, now)
    case Login(p, session) =>
      if Serves(s, p) && session !in s.store.sessions
      then s.(store := s.store.(sessions := s.store.sessions[session := true]))
      else s
    case OpenHandoff(p, h) =>
      if Serves(s, p) then s.(store := s.store.(handoffs := s.store.handoffs + {h})) else s
  }

  // ---- Offline recovery --------------------------------------------------

  /** The idempotency key is built from the first 16 characters of the hash. */
  function IdempotencyKey(d: Digest): nat { d.key.prefix }

  predicate At(s: State, r: nat) {
    r in s.resets && s.resets[r].proc in s.procs && s.procs[s.resets[r].proc].phase.Recovering?
  }

  function Goto(s: State, r: nat, next: Option<Pc>): State
    requires r in s.resets
  {
    match next
    case Some(pc) => s.(resets := s.resets[r := s.resets[r].(pc := pc)])
    case None => s.(resets := s.resets - {r})
  }

  predicate HasStage(s: State, key: nat, stage: Stage) { key in s.intents && s.intents[key].stage == stage }

  /** transitionRecoveryIntent: exactly from one stage to the next. */
  function Advance(s: State, key: nat, to: Stage): State
    requires key in s.intents
  {
    s.(intents := s.intents[key := s.intents[key].(stage := to)], journal := s.journal + [Record(key, to)])
  }

  function AfterLoad(s: State, r: nat): State {
    if At(s, r) && s.resets[r].pc.Proved? then
      var d := s.resets[r].pc.d;
      var key := IdempotencyKey(d);
      Goto(s, r,
        if key !in s.intents then Some(Missing(d))
        else if s.intents[key].digest != d then None                   // corrupt state
        else if s.intents[key].stage.Completed? then None              // replay the result
        else Some(Holding(d, s.intents[key].stage, s.intents[key].attested)))
    else s
  }

  function AfterInsert(s: State, r: nat): State {
    if At(s, r) && s.resets[r].pc.Missing? then
      var d := s.resets[r].pc.d;
      var key := IdempotencyKey(d);
      if key in s.intents then Goto(s, r, None)                        // recovery in progress
      else Goto(s, r, Some(Holding(d, Pending, false)))
             .(intents := s.intents[key := Intent(Pending, d, false)], journal := s.journal + [Record(key, Pending)])
    else s
  }

  function AfterAttestation(s: State, r: nat): State {
    if At(s, r) && s.resets[r].pc.Holding? && s.resets[r].pc.stage.Pending? && !s.resets[r].pc.attested then
      var d := s.resets[r].pc.d;
      var key := IdempotencyKey(d);
      if HasStage(s, key, Pending)
      then Goto(s, r, Some(Holding(d, Pending, true))).(intents := s.intents[key := s.intents[key].(attested := true)])
      else Goto(s, r, None)
    else s
  }

  function AfterContained(s: State, r: nat): State {
    if At(s, r) && s.resets[r].pc.Acknowledged? then
      var d := s.resets[r].pc.d;
      if HasStage(s, IdempotencyKey(d), Pending)
      then Goto(Advance(s, IdempotencyKey(d), Contained), r, Some(Holding(d, Contained, true)))
      else Goto(s, r, None)
    else s
  }

  function AfterEmpty(s: State, r: nat): State {
    if At(s, r) && s.resets[r].pc.SawEmpty? then
      var d := s.resets[r].pc.d;
      if HasStage(s, IdempotencyKey(d), Contained)
      then Goto(Advance(s, IdempotencyKey(d), VerifiedEmpty), r, Some(Holding(d, VerifiedEmpty, true)))
      else Goto(s, r, None)
    else s
  }

  /** Every statement of the reset transaction succeeds. */
  predicate CanCommit(s: State, d: Digest, code: nat) {
    && CanPutCode(s.store.codes, code)
    && d.founder in s.store.keys
    && d.founder in s.store.founders
    && IdempotencyKey(d) !in s.store.events
    && HasStage(s, IdempotencyKey(d), VerifiedEmpty)
  }

  /** The store after resetLocalState. */
  function ResetStore(st: Store, d: Digest, code: nat, expiresAt: int): Store {
    st.(founders := st.founders - {d.founder},
        codes := PutBootstrapCode(st.codes, code, expiresAt),
        sessions := map x | x in st.sessions :: false,
        credentials := {}, handoffs := {},
        keys := st.keys - {d.founder},
        events := st.events[IdempotencyKey(d) := d.founder])
  }

  function AfterCommit(s: State, r: nat, code: nat, expiresAt: int): State {
    if At(s, r) && s.resets[r].pc.Holding? && s.resets[r].pc.stage.VerifiedEmpty? then
      var d := s.resets[r].pc.d;
      if CanCommit(s, d, code)
      then Goto(Advance(s, IdempotencyKey(d), Completed), r, None).(store := ResetStore(s.store, d, code, expiresAt))
      else Goto(s, r, None)                                            // recovery in progress
    else s
  }

  function ResetStep(s: State, a: ResetAction): State {
    match a
    case ChooseFounder(r, p, founder) =>
      if r !in s.resets && p in s.procs && s.procs[p].phase.Recovering? && founder in s.store.founders
      then s.(resets := s.resets[r := Reset(p, Chose(founder))])
      else s
    case ProveKey(r, key) =>
      if At(s, r) && s.resets[r].pc.Chose? then
        var f := s.resets[r].pc.founder;
        Goto(s, r, if f in s.store.keys && s.store.keys[f] == key then Some(Proved(Digest(f, key))) else None)
      else s
    case LoadIntent(r) => AfterLoad(s, r)
    case InsertIntent(r) => AfterInsert(s, r)
    case RecordAttestation(r) => AfterAttestation(s, r)
    case ContainWorkspace(r, acknowledged) =>
      if At(s, r) && s.resets[r].pc.Holding? && s.resets[r].pc.stage.Pending? && s.resets[r].pc.attested
      then Goto(s, r, if acknowledged then Some(Acknowledged(s.resets[r].pc.d)) else None)
      else s
    case RecordContained(r) => AfterContained(s, r)
    case PollMissions(r, empty) =>
      if At(s, r) && s.resets[r].pc.Holding? && s.resets[r].pc.stage.Contained?
      then Goto(s, r, if empty then Some(SawEmpty(s.resets[r].pc.d)) else None)
      else s
    case RecordEmpty(r) => AfterEmpty(s, r)
    case Commit(r, code, expiresAt) => AfterCommit(s, r, code, expiresAt)
    case Abandon(r) => s.(resets := s.resets - {r})
  }

  function Step(s: State, a: Action): State {
    match a
    case Server(x) => ServerStep(s, x)
    case Recover(x) => ResetStep(s, x)
  }

  function Run(s: State, actions: seq<Action>): State
    decreases |actions|
  {
    if actions == [] then s else Run(Step(s, actions[0]), actions[1..])
  }

  /** An empty database before any process opens it. */
  predicate Initial(s: State) {
    && s.store == Store({}, map[], map[], {}, map[], {}, map[])
    && s.intents == map[] && s.procs == map[] && s.ceremonies == map[] && s.resets == map[] && s.journal == []
  }
}
