/** What offline recovery and enrollment rest on: the presented recovery key and
    the upstream's answers behind every commit, over all runs, and the exact
    outcome of one reset and of one enrollment that nothing interrupts
    (internal/recovery/service.go, internal/authn/bootstrap.go). */
module RecoveryPaths {
  import opened Base
  import opened Enrollment

  // ---- What is behind a commit -------------------------------------------

  /** A founder, the key hash a reset presented, and the hash stored for the
      founder when it did. */
  datatype Proof = Proof(founder: nat, presented: KeyHash, stored: Option<KeyHash>)

  /** Kept beside the machine: what each reset presented, and for which
      recovery keys the upstream acknowledged containment and listed no active
      mission. */
  datatype Log = Log(proofs: map<nat, Proof>, acknowledged: set<nat>, emptied: set<nat>)

  function Noted(log: Log, s: State, a: Action): Log {
    match a
    case Recover(ProveKey(r, key)) =>
      if r in s.resets && s.resets[r].pc.Chose? then
        var f := s.resets[r].pc.founder;
        log.(proofs := log.proofs[r := Proof(f, key, if f in s.store.keys then Some(s.store.keys[f]) else None)])
      else log
    case Recover(ContainWorkspace(r, true)) =>
      if r in s.resets && s.resets[r].pc.Holding? && s.resets[r].pc.stage.Pending? then log.(acknowledged := log.acknowledged + {s.resets[r].pc.d.key.prefix}) else log
    case Recover(PollMissions(r, true)) =>
      if r in s.resets && s.resets[r].pc.Holding? && s.resets[r].pc.stage.Contained? then log.(emptied := log.emptied + {s.resets[r].pc.d.key.prefix}) else log
    case _ => log
  }

  function NotedAll(log: Log, s: State, actions: seq<Action>): Log
    decreases |actions|
  {
    if actions == [] then log else NotedAll(Noted(log, s, actions[0]), Step(s, actions[0]), actions[1..])
  }

  /** The reset presented exactly the key stored for this founder. */
  predicate Presented(log: Log, r: nat, d: Digest) {
    r in log.proofs && log.proofs[r] == Proof(d.founder, d.key, Some(d.key))
  }

  /** The upstream answers a stage of this recovery key stands for, after the
      attestation was stored. */
  predicate Reached(log: Log, key: nat, stage: Stage) {
    && (!stage.Pending? ==> key in log.acknowledged)
    && (stage.VerifiedEmpty? || stage.Completed? ==> key in log.emptied)
  }

  predicate AttestedKey(s: State, key: nat) { key in s.intents && s.intents[key].attested }

  ghost predicate PcBacked(s: State, log: Log, r: nat, pc: Pc) {
    match pc
    case Chose(_) => true
    case Proved(d) => Presented(log, r, d)
    case Missing(d) => Presented(log, r, d)
    case Holding(d, stage, attested) =>
      && Presented(log, r, d) && Reached(log, d.key.prefix, stage)
      && (attested || !stage.Pending? ==> AttestedKey(s, d.key.prefix))
    case Acknowledged(d) => Presented(log, r, d) && d.key.prefix in log.acknowledged && AttestedKey(s, d.key.prefix)
    case SawEmpty(d) => Presented(log, r, d) && d.key.prefix in log.acknowledged && d.key.prefix in log.emptied && AttestedKey(s, d.key.prefix)
  }

  ghost predicate Backed(s: State, log: Log) {
    && (forall r | r in s.resets :: PcBacked(s, log, r, s.resets[r].pc))
    && (forall k | k in s.intents :: Reached(log, k, s.intents[k].stage) && (!s.intents[k].stage.Pending? ==> s.intents[k].attested))
  }

  lemma ProveBacked(s: State, r: nat, key: KeyHash, log: Log)
    requires Backed(s, log)
    ensures Backed(ResetStep(s, ProveKey(r, key)), Noted(log, s, Recover(ProveKey(r, key))))
  {
    var log1 := Noted(log, s, Recover(ProveKey(r, key)));
    forall u | u in s.resets && u != r
      ensures PcBacked(s, log1, u, s.resets[u].pc)
    {
      assert PcBacked(s, log, u, s.resets[u].pc);
    }
    if r in s.resets { assert PcBacked(s, log, r, s.resets[r].pc); }
  }

  /** Moving reset r alone, intents and log as they were or further. */
  lemma MoveBacked(s: State, s1: State, log: Log, log1: Log, r: nat, next: Option<Pc>)
    requires Backed(s, log) && r in s.resets && s1.resets == Goto(s, r, next).resets
    requires log1.proofs == log.proofs && log.acknowledged <= log1.acknowledged && log.emptied <= log1.emptied
    requires forall k | k in s.intents :: k in s1.intents && (s.intents[k].attested ==> s1.intents[k].attested)
    requires forall k | k in s1.intents :: Reached(log1, k, s1.intents[k].stage) && (!s1.intents[k].stage.Pending? ==> s1.intents[k].attested)
    requires next.Some? ==> PcBacked(s1, log1, r, next.value)
    ensures Backed(s1, log1)
  {
    forall u | u in s1.resets && u != r
      ensures PcBacked(s1, log1, u, s1.resets[u].pc)
    {
      assert PcBacked(s, log, u, s.resets[u].pc);
    }
  }

  lemma LoadBacked(s: State, r: nat, log: Log)
    requires Backed(s, log)
    ensures Backed(AfterLoad(s, r), log)
  {
    if At(s, r) && s.resets[r].pc.Proved? {
      assert PcBacked(s, log, r, s.resets[r].pc);
      var s1 := AfterLoad(s, r);
      MoveBacked(s, s1, log, log, r, if r in s1.resets then Some(s1.resets[r].pc) else None);
    }
  }

  lemma InsertBacked(s: State, r: nat, log: Log)
    requires Backed(s, log)
    ensures Backed(AfterInsert(s, r), log)
  {
    if At(s, r) && s.resets[r].pc.Missing? {
      assert PcBacked(s, log, r, s.resets[r].pc);
      var s1 := AfterInsert(s, r);
      MoveBacked(s, s1, log, log, r, if r in s1.resets then Some(s1.resets[r].pc) else None);
    }
  }

  lemma AttestationBacked(s: State, r: nat, log: Log)
    requires Backed(s, log)
    ensures Backed(AfterAttestation(s, r), log)
  {
    if At(s, r) && s.resets[r].pc.Holding? && s.resets[r].pc.stage.Pending? && !s.resets[r].pc.attested {
      assert PcBacked(s, log, r, s.resets[r].pc);
      var s1 := AfterAttestation(s, r);
      MoveBacked(s, s1, log, log, r, if r in s1.resets then Some(s1.resets[r].pc) else None);
    }
  }

  lemma ContainBacked(s: State, r: nat, acknowledged: bool, log: Log)
    requires Backed(s, log)
    ensures Backed(ResetStep(s, ContainWorkspace(r, acknowledged)), Noted(log, s, Recover(ContainWorkspace(r, acknowledged))))
  {
    var log1 := Noted(log, s, Recover(ContainWorkspace(r, acknowledged)));
    var s1 := ResetStep(s, ContainWorkspace(r, acknowledged));
    if r in s.resets {
      assert PcBacked(s, log, r, s.resets[r].pc);
      MoveBacked(s, s1, log, log1, r, if r in s1.resets then Some(s1.resets[r].pc) else None);
    }
  }

  lemma PollBacked(s: State, r: nat, empty: bool, log: Log)
    requires Backed(s, log)
    ensures Backed(ResetStep(s, PollMissions(r, empty)), Noted(log, s, Recover(PollMissions(r, empty))))
  {
    var log1 := Noted(log, s, Recover(PollMissions(r, empty)));
    var s1 := ResetStep(s, PollMissions(r, empty));
    if r in s.resets {
      assert PcBacked(s, log, r, s.resets[r].pc);
      MoveBacked(s, s1, log, log1, r, if r in s1.resets then Some(s1.resets[r].pc) else None);
    }
  }

  lemma ContainedBacked(s: State, r: nat, log: Log)
    requires Backed(s, log)
    ensures Backed(AfterContained(s, r), log)
  {
    if At(s, r) && s.resets[r].pc.Acknowledged? {
      assert PcBacked(s, log, r, s.resets[r].pc);
      var s1 := AfterContained(s, r);
      MoveBacked(s, s1, log, log, r, if r in s1.resets then Some(s1.resets[r].pc) else None);
    }
  }

  lemma EmptyBacked(s: State, r: nat, log: Log)
    requires Backed(s, log)
    ensures Backed(AfterEmpty(s, r), log)
  {
    if At(s, r) && s.resets[r].pc.SawEmpty? {
      assert PcBacked(s, log, r, s.resets[r].pc);
      var s1 := AfterEmpty(s, r);
      MoveBacked(s, s1, log, log, r, if r in s1.resets then Some(s1.resets[r].pc) else None);
    }
  }

  lemma CommitBacked(s: State, r: nat, code: nat, expiresAt: int, log: Log)
    requires Backed(s, log)
    ensures Backed(AfterCommit(s, r, code, expiresAt), log)
  {
    if At(s, r) && s.resets[r].pc.Holding? && s.resets[r].pc.stage.VerifiedEmpty? {
      assert PcBacked(s, log, r, s.resets[r].pc);
      MoveBacked(s, AfterCommit(s, r, code, expiresAt), log, log, r, None);
    }
  }

  lemma ResetBacked(s: State, a: ResetAction, log: Log)
    requires Backed(s, log)
    ensures Backed(ResetStep(s, a), Noted(log, s, Recover(a)))
  {
    match a
    case ProveKey(r, key) => ProveBacked(s, r, key, log);
    case LoadIntent(r) => LoadBacked(s, r, log);
    case InsertIntent(r) => InsertBacked(s, r, log);
    case RecordAttestation(r) => AttestationBacked(s, r, log);
    case ContainWorkspace(r, acknowledged) => ContainBacked(s, r, acknowledged, log);
    case RecordContained(r) => ContainedBacked(s, r, log);
    case PollMissions(r, empty) => PollBacked(s, r, empty, log);
    case RecordEmpty(r) => EmptyBacked(s, r, log);
    case Commit(r, code, expiresAt) => CommitBacked(s, r, code, expiresAt, log);
    case _ => ChoosingBacked(s, a, log);
  }

  lemma ChoosingBacked(s: State, a: ResetAction, log: Log)
    requires Backed(s, log) && (a.ChooseFounder? || a.Abandon?)
    ensures Backed(ResetStep(s, a), log)
  {
    forall u | u in ResetStep(s, a).resets
      ensures PcBacked(ResetStep(s, a), log, u, ResetStep(s, a).resets[u].pc)
    {
      assert u in s.resets ==> PcBacked(s, log, u, s.resets[u].pc);
    }
  }

  lemma ServerBacked(s: State, a: ServerAction, log: Log)
    requires Backed(s, log)
    ensures Backed(ServerStep(s, a), log)
  {
    var s1 := ServerStep(s, a);
    assert s1.intents == s.intents;
    forall u | u in s1.resets
      ensures PcBacked(s1, log, u, s1.resets[u].pc)
    {
      assert PcBacked(s, log, u, s.resets[u].pc);
    }
  }

  lemma {:induction false} RunBacked(s: State, actions: seq<Action>, log: Log)
    requires Backed(s, log)
    ensures Backed(Run(s, actions), NotedAll(log, s, actions))
    decreases |actions|
  {
    if actions != [] {
      match actions[0] {
        case Server(x) => ServerBacked(s, x, log);
        case Recover(x) => ResetBacked(s, x, log);
      }
      RunBacked(Step(s, actions[0]), actions[1..], Noted(log, s, actions[0]));
    }
  }

  /** In every run, a step that completes a recovery is the commit of a reset
      that presented exactly the key hash stored for its founder, for a recovery
      key whose attestation is stored, whose containment the upstream
      acknowledged and whose list of active missions it gave as empty; it is
      this founder, and this founder's key, that the commit removes. */
  lemma EveryCommitWasProved(s: State, actions: seq<Action>, a: Action, key: nat)
    requires s.resets == map[] && s.intents == map[]
    requires var s1 := Run(s, actions); !HasStage(s1, key, Completed) && HasStage(Step(s1, a), key, Completed)
    ensures a.Recover? && a.recover.Commit?
    ensures var s1, log, r := Run(s, actions), NotedAll(Log(map[], {}, {}), s, actions), a.recover.reset;
            && r in log.proofs && log.proofs[r].stored == Some(log.proofs[r].presented) && log.proofs[r].presented.prefix == key
            && key in log.acknowledged && key in log.emptied && AttestedKey(s1, key)
            && log.proofs[r].founder in s1.store.founders
            && Step(s1, a).store.founders == s1.store.founders - {log.proofs[r].founder}
            && Step(s1, a).store.keys == s1.store.keys - {log.proofs[r].founder}
  {
    RunBacked(s, actions, Log(map[], {}, {}));
    CompletesByCommit(Run(s, actions), a, key, NotedAll(Log(map[], {}, {}), s, actions));
  }

  lemma CompletesByCommit(s: State, a: Action, key: nat, log: Log)
    requires Backed(s, log) && !HasStage(s, key, Completed) && HasStage(Step(s, a), key, Completed)
    ensures a.Recover? && a.recover.Commit? && a.recover.reset in s.resets && s.resets[a.recover.reset].pc.Holding?
    ensures var r := a.recover.reset;
            var d := s.resets[r].pc.d;
            && d.key.prefix == key && Presented(log, r, d) && Reached(log, key, VerifiedEmpty) && AttestedKey(s, key)
            && d.founder in s.store.founders
            && Step(s, a).store.founders == s.store.founders - {d.founder} && Step(s, a).store.keys == s.store.keys - {d.founder}
  {
    if a.Recover? {
      OthersCompleteNothing(s, a.recover, key);
      assert PcBacked(s, log, a.recover.reset, s.resets[a.recover.reset].pc);
    }
  }

  lemma OthersCompleteNothing(s: State, a: ResetAction, key: nat)
    requires !HasStage(s, key, Completed) && HasStage(ResetStep(s, a), key, Completed)
    ensures a.Commit? && At(s, a.reset) && s.resets[a.reset].pc.Holding? && s.resets[a.reset].pc.stage.VerifiedEmpty?
  {
  }

  /** A reset that presents any other key ends there and changes nothing. */
  lemma WrongKeyEndsReset(s: State, r: nat, f: nat, key: KeyHash)
    requires r in s.resets && s.resets[r].pc == Chose(f) && !(f in s.store.keys && s.store.keys[f] == key)
    ensures var s1 := Step(s, Recover(ProveKey(r, key)));
            s1.store == s.store && s1.intents == s.intents && s1.journal == s.journal && (At(s, r) ==> s1.resets == s.resets - {r})
  {
  }

  // ---- One reset from start to end ---------------------------------------

  predicate Recovers(s: State, p: nat) { p in s.procs && s.procs[p].phase == Recovering }

  function Identified(s: State, r: nat, p: nat, founder: nat, key: KeyHash): State {
    ResetStep(ResetStep(s, ChooseFounder(r, p, founder)), ProveKey(r, key))
  }

  lemma IdentifiesExactly(s: State, r: nat, p: nat, founder: nat, key: KeyHash)
    requires r !in s.resets && Recovers(s, p)
    ensures Identified(s, r, p, founder, key)
            == if founder in s.store.founders && founder in s.store.keys && s.store.keys[founder] == key
               then s.(resets := s.resets[r := Reset(p, Proved(Digest(founder, key)))])
               else s
  {
    var s1 := ResetStep(s, ChooseFounder(r, p, founder));
    assert s1.resets - {r} == s.resets;
  }

  function Held(s: State, r: nat): State {
    ResetStep(ResetStep(ResetStep(s, LoadIntent(r)), InsertIntent(r)), RecordAttestation(r))
  }

  /** The intent a reset of this digest goes on with: a new one, or the one
      stored for it unless that belongs to another digest or is completed. */
  function Resumed(s: State, d: Digest): Option<Stage> {
    if d.key.prefix !in s.intents then Some(Pending)
    else if s.intents[d.key.prefix].digest == d && s.intents[d.key.prefix].stage != Completed then Some(s.intents[d.key.prefix].stage)
    else None
  }

  lemma HoldsExactly(s: State, r: nat, p: nat, d: Digest)
    requires r in s.resets && Recovers(s, p) && s.resets[r] == Reset(p, Proved(d))
    requires d.key.prefix in s.intents && !s.intents[d.key.prefix].stage.Pending? ==> s.intents[d.key.prefix].attested
    ensures var s1, k := Held(s, r), d.key.prefix;
            && s1.store == s.store && s1.procs == s.procs
            && match Resumed(s, d)
               case None => s1.intents == s.intents && s1.journal == s.journal && s1.resets == s.resets - {r}
               case Some(stage) =>
                 && s1.intents == s.intents[k := Intent(stage, d, true)]
                 && s1.journal == (if k in s.intents then s.journal else s.journal + [Record(k, Pending)])
                 && s1.resets == s.resets[r := Reset(p, Holding(d, stage, true))]
  {
    var k := d.key.prefix;
    var s1 := ResetStep(s, LoadIntent(r));
    if Resumed(s, d).None? {
      EndedHolds(s1, r);
    } else if k !in s.intents {
      assert s1 == s.(resets := s.resets[r := Reset(p, Missing(d))]);
      var s2 := ResetStep(s1, InsertIntent(r));
      assert s2.resets[r] == Reset(p, Holding(d, Pending, false)) && s2.intents == s.intents[k := Intent(Pending, d, false)];
      AttestsExactly(s2, r, p, d, Pending, false);
      assert s.intents[k := Intent(Pending, d, false)][k := Intent(Pending, d, true)] == s.intents[k := Intent(Pending, d, true)];
    } else {
      var i := s.intents[k];
      assert s1 == s.(resets := s.resets[r := Reset(p, Holding(d, i.stage, i.attested))]);
      assert ResetStep(s1, InsertIntent(r)) == s1;
      AttestsExactly(s1, r, p, d, i.stage, i.attested);
      assert s.intents[k := i] == s.intents;
    }
  }

  lemma EndedHolds(s: State, r: nat)
    requires r !in s.resets
    ensures ResetStep(ResetStep(s, InsertIntent(r)), RecordAttestation(r)) == s
  {
  }

  lemma AttestsExactly(s: State, r: nat, p: nat, d: Digest, stage: Stage, attested: bool)
    requires r in s.resets && Recovers(s, p) && s.resets[r] == Reset(p, Holding(d, stage, attested))
    requires d.key.prefix in s.intents && s.intents[d.key.prefix] == Intent(stage, d, attested) && (!stage.Pending? ==> attested)
    ensures ResetStep(s, RecordAttestation(r))
            == s.(intents := s.intents[d.key.prefix := Intent(stage, d, true)], resets := s.resets[r := Reset(p, Holding(d, stage, true))])
  {
    assert attested ==> s.intents[d.key.prefix := s.intents[d.key.prefix]] == s.intents;
    assert attested ==> s.resets[r := s.resets[r]] == s.resets;
  }

  function Contains(s: State, r: nat, acknowledged: bool): State {
    ResetStep(ResetStep(s, ContainWorkspace(r, acknowledged)), RecordContained(r))
  }

  function Empties(s: State, r: nat, empty: bool): State {
    ResetStep(ResetStep(s, PollMissions(r, empty)), RecordEmpty(r))
  }

  lemma ContainsExactly(s: State, r: nat, p: nat, d: Digest, stage: Stage, acknowledged: bool)
    requires r in s.resets && Recovers(s, p) && s.resets[r] == Reset(p, Holding(d, stage, true))
    requires d.key.prefix in s.intents && s.intents[d.key.prefix] == Intent(stage, d, true)
    ensures Contains(s, r, acknowledged)
            == if !stage.Pending? then s
               else if acknowledged
               then s.(intents := s.intents[d.key.prefix := Intent(Contained, d, true)], journal := s.journal + [Record(d.key.prefix, Contained)],
                       resets := s.resets[r := Reset(p, Holding(d, Contained, true))])
               else s.(resets := s.resets - {r})
  {
  }

  lemma EmptiesExactly(s: State, r: nat, p: nat, d: Digest, stage: Stage, empty: bool)
    requires r in s.resets && Recovers(s, p) && s.resets[r] == Reset(p, Holding(d, stage, true))
    requires d.key.prefix in s.intents && s.intents[d.key.prefix] == Intent(stage, d, true)
    ensures Empties(s, r, empty)
            == if !stage.Contained? then s
               else if empty
               then s.(intents := s.intents[d.key.prefix := Intent(VerifiedEmpty, d, true)], journal := s.journal + [Record(d.key.prefix, VerifiedEmpty)],
                       resets := s.resets[r := Reset(p, Holding(d, VerifiedEmpty, true))])
               else s.(resets := s.resets - {r})
  {
  }

  /** The new code is no consumed one, and the recovery event is new. */
  predicate Committable(s: State, d: Digest, code: nat) {
    && (code in s.store.codes ==> !s.store.codes[code].consumed)
    && d.founder in s.store.founders && d.founder in s.store.keys && d.key.prefix !in s.store.events
  }

  /** Sessions end, passkeys, handoffs, the founder and the key are gone, and
      one unconsumed code is left to enroll again; consumed codes stay. */
  ghost predicate Cleared(st: Store, st1: Store, d: Digest, code: nat, expiresAt: int) {
    && st1.founders == st.founders - {d.founder} && st1.keys == st.keys - {d.founder}
    && st1.credentials == {} && st1.handoffs == {}
    && st1.sessions.Keys == st.sessions.Keys && (forall x | x in st1.sessions :: !st1.sessions[x])
    && st1.events == st.events[d.key.prefix := d.founder]
    && (forall c :: c in st1.codes <==> c == code || (c in st.codes && st.codes[c].consumed))
    && st1.codes[code] == Code(expiresAt, false)
    && (forall c | c in st1.codes && c != code :: st1.codes[c] == st.codes[c])
  }

  lemma CommitsExactly(s: State, r: nat, p: nat, d: Digest, stage: Stage, code: nat, expiresAt: int)
    requires r in s.resets && Recovers(s, p) && s.resets[r] == Reset(p, Holding(d, stage, true))
    requires d.key.prefix in s.intents && s.intents[d.key.prefix] == Intent(stage, d, true)
    ensures var s1 := ResetStep(s, Commit(r, code, expiresAt));
            if stage.VerifiedEmpty? && Committable(s, d, code)
            then s1.intents == s.intents[d.key.prefix := Intent(Completed, d, true)] && Cleared(s.store, s1.store, d, code, expiresAt)
                 && s1.resets == s.resets - {r}
            else s1.intents == s.intents && s1.store == s.store && s1.resets == if stage.VerifiedEmpty? then s.resets - {r} else s.resets
  {
  }

  /** From the intent in hand to the commit. */
  function Driven(s: State, r: nat, acknowledged: bool, empty: bool, code: nat, expiresAt: int): State {
    ResetStep(Empties(Contains(s, r, acknowledged), r, empty), Commit(r, code, expiresAt))
  }

  /** How far the upstream's answers take a reset. */
  function Driveable(stage: Stage, acknowledged: bool, empty: bool): Stage {
    if stage.Pending? && !acknowledged then Pending
    else if (stage.Pending? || stage.Contained?) && !empty then Contained
    else VerifiedEmpty
  }

  lemma EndedDrives(s: State, r: nat, empty: bool, code: nat, expiresAt: int)
    requires r !in s.resets
    ensures ResetStep(Empties(s, r, empty), Commit(r, code, expiresAt)) == s
  {
  }

  lemma EmptiesAndCommits(s: State, r: nat, p: nat, d: Digest, stage: Stage, empty: bool, code: nat, expiresAt: int)
    requires r in s.resets && Recovers(s, p) && s.resets[r] == Reset(p, Holding(d, stage, true)) && (stage.Contained? || stage.VerifiedEmpty?)
    requires d.key.prefix in s.intents && s.intents[d.key.prefix] == Intent(stage, d, true)
    ensures var s1, k := ResetStep(Empties(s, r, empty), Commit(r, code, expiresAt)), d.key.prefix;
            && s1.resets == s.resets - {r}
            && var reached := Driveable(stage, true, empty);
               if reached.VerifiedEmpty? && Committable(s, d, code)
               then s1.intents == s.intents[k := Intent(Completed, d, true)] && Cleared(s.store, s1.store, d, code, expiresAt)
               else s1.intents == s.intents[k := Intent(reached, d, true)] && s1.store == s.store
  {
    EmptiesExactly(s, r, p, d, stage, empty);
    var s1 := Empties(s, r, empty);
    if r in s1.resets {
      CommitsExactly(s1, r, p, d, VerifiedEmpty, code, expiresAt);
      assert s1.resets - {r} == s.resets - {r};
      assert s.intents[d.key.prefix := s.intents[d.key.prefix]] == s.intents;
    } else {
      assert ResetStep(s1, Commit(r, code, expiresAt)) == s1;
      assert s.intents[d.key.prefix := s.intents[d.key.prefix]] == s.intents;
    }
  }

  lemma DrivesExactly(s: State, r: nat, p: nat, d: Digest, stage: Stage, acknowledged: bool, empty: bool, code: nat, expiresAt: int)
    requires r in s.resets && Recovers(s, p) && s.resets[r] == Reset(p, Holding(d, stage, true)) && !stage.Completed?
    requires d.key.prefix in s.intents && s.intents[d.key.prefix] == Intent(stage, d, true)
    ensures var s1, k := Driven(s, r, acknowledged, empty, code, expiresAt), d.key.prefix;
            && s1.resets == s.resets - {r}
            && var reached := Driveable(stage, acknowledged, empty);
               if reached.VerifiedEmpty? && Committable(s, d, code)
               then s1.intents == s.intents[k := Intent(Completed, d, true)] && Cleared(s.store, s1.store, d, code, expiresAt)
               else s1.intents == s.intents[k := Intent(reached, d, true)] && s1.store == s.store
  {
    ContainsExactly(s, r, p, d, stage, acknowledged);
    var s1 := Contains(s, r, acknowledged);
    if r in s1.resets {
      EmptiesAndCommits(s1, r, p, d, if stage.Pending? then Contained else stage, empty, code, expiresAt);
      assert s1.resets - {r} == s.resets - {r};
    } else {
      EndedDrives(s1, r, empty, code, expiresAt);
      assert s.intents[d.key.prefix := s.intents[d.key.prefix]] == s.intents;
    }
  }

  /** The exact outcome of a reset that nothing interrupts.  It changes nothing
      unless the presented key is the one stored for the enrolled founder and no
      other or completed recovery holds its intent; else it records as much as
      the upstream's answers allow, from wherever an earlier reset left the
      intent, and clears the store exactly when they take it all the way. */
  lemma ResetOutcome(s: State, r: nat, p: nat, founder: nat, key: KeyHash, acknowledged: bool, empty: bool, code: nat, expiresAt: int)
    requires r !in s.resets && Recovers(s, p)
    requires key.prefix in s.intents && !s.intents[key.prefix].stage.Pending? ==> s.intents[key.prefix].attested
    ensures var s1 := Driven(Held(Identified(s, r, p, founder, key), r), r, acknowledged, empty, code, expiresAt);
            var d, k := Digest(founder, key), key.prefix;
            && s1.resets == s.resets
            && if founder in s.store.founders && founder in s.store.keys && s.store.keys[founder] == key && Resumed(s, d).Some?
               then
                 var reached := Driveable(Resumed(s, d).value, acknowledged, empty);
                 if reached.VerifiedEmpty? && Committable(s, d, code)
                 then s1.intents == s.intents[k := Intent(Completed, d, true)] && Cleared(s.store, s1.store, d, code, expiresAt)
                 else s1.intents == s.intents[k := Intent(reached, d, true)] && s1.store == s.store
               else s1.intents == s.intents && s1.store == s.store
  {
    var d := Digest(founder, key);
    IdentifiesExactly(s, r, p, founder, key);
    var s1 := Identified(s, r, p, founder, key);
    if r in s1.resets {
      ProvedOutcome(s, s1, r, p, d, acknowledged, empty, code, expiresAt);
    } else {
      HoldingNothing(s1, r);
      DrivingNothing(s1, r, acknowledged, empty, code, expiresAt);
    }
  }

  lemma ProvedOutcome(s: State, s1: State, r: nat, p: nat, d: Digest, acknowledged: bool, empty: bool, code: nat, expiresAt: int)
    requires r !in s.resets && Recovers(s, p) && s1 == s.(resets := s.resets[r := Reset(p, Proved(d))])
    requires d.key.prefix in s.intents && !s.intents[d.key.prefix].stage.Pending? ==> s.intents[d.key.prefix].attested
    ensures var s2, k := Driven(Held(s1, r), r, acknowledged, empty, code, expiresAt), d.key.prefix;
            && s2.resets == s.resets
            && match Resumed(s, d)
               case None => s2.intents == s.intents && s2.store == s.store
               case Some(stage) =>
                 var reached := Driveable(stage, acknowledged, empty);
                 if reached.VerifiedEmpty? && Committable(s, d, code)
                 then s2.intents == s.intents[k := Intent(Completed, d, true)] && Cleared(s.store, s2.store, d, code, expiresAt)
                 else s2.intents == s.intents[k := Intent(reached, d, true)] && s2.store == s.store
  {
    assert s1.resets - {r} == s.resets;
    HoldsExactly(s1, r, p, d);
    var s2 := Held(s1, r);
    match Resumed(s, d)
    case Some(stage) =>
      assert s2.resets - {r} == s.resets;
      DrivesExactly(s2, r, p, d, stage, acknowledged, empty, code, expiresAt);
    case None => DrivingNothing(s2, r, acknowledged, empty, code, expiresAt);
  }

  lemma HoldingNothing(s: State, r: nat)
    requires r !in s.resets
    ensures Held(s, r) == s
  {
    EndedHolds(s, r);
  }

  lemma DrivingNothing(s: State, r: nat, acknowledged: bool, empty: bool, code: nat, expiresAt: int)
    requires r !in s.resets
    ensures Driven(s, r, acknowledged, empty, code, expiresAt) == s
  {
    EndedDrives(s, r, empty, code, expiresAt);
  }

  // ---- One enrollment ----------------------------------------------------

  /** The code is stored, unconsumed and unexpired. */
  predicate CodeOpen(s: State, code: nat, now: int) {
    code in s.store.codes && !s.store.codes[code].consumed && now < s.store.codes[code].expiresAt
  }

  /** The exact outcome of an enrollment that nothing interrupts: a serving
      process enrolls the founder exactly when nobody is enrolled and the code
      is open at both readings, and then consumes this code, stores passkeys,
      the recovery key and a session, and nothing else. */
  lemma EnrollmentOutcome(s: State, c: nat, p: nat, code: nat, founder: nat, key: Option<KeyHash>, credentials: set<nat>, session: nat,
                          begun: int, completed: int)
    requires c !in s.ceremonies && p in s.procs
    ensures var s1 := ServerStep(ServerStep(s, BeginEnrollment(c, p, code, begun)),
                                 CompleteEnrollment(c, founder, key, credentials, session, completed));
            if s.procs[p].phase == Serving && s.store.founders == {} && CodeOpen(s, code, begun) && CodeOpen(s, code, completed)
            then s1 == s.(store := s.store.(founders := {founder},
                                            codes := s.store.codes[code := Code(s.store.codes[code].expiresAt, true)],
                                            credentials := s.store.credentials + credentials,
                                            keys := if key.Some? then s.store.keys[founder := key.value] else s.store.keys,
                                            sessions := s.store.sessions[session := true]))
            else s1.store == s.store
  {
    var s1 := ServerStep(s, BeginEnrollment(c, p, code, begun));
    assert s1.ceremonies - {c} == s.ceremonies;
  }

  /** A starting process offers a code exactly when it counts no founder. */
  lemma StartOutcome(s: State, p: nat, code: nat, expiresAt: int)
    requires p in s.procs && s.procs[p].phase == Starting && code !in s.store.codes
    ensures var s1 := ServerStep(ServerStep(s, CountFounders(p)), PutCode(p, code, expiresAt));
            && s1.procs == s.procs[p := Proc(s.procs[p].exclusive, Serving)]
            && if s.store.founders == {}
               then s1.store == s.store.(codes := s1.store.codes) && s1.store.codes[code := Code(expiresAt, false)] == s1.store.codes
                    && forall c | c != code :: c in s1.store.codes <==> c in s.store.codes && s.store.codes[c].consumed
               else s1.store == s.store
  {
  }

  // ---- Which process writes what -----------------------------------------

  /** A process that serves or recovers does so until it crashes: it counts
      founders once, and offers at most one code. */
  lemma {:induction false} PhaseIsKept(s: State, actions: seq<Action>, p: nat)
    requires p in s.procs && (s.procs[p].phase.Serving? || s.procs[p].phase.Recovering?)
    requires forall i | 0 <= i < |actions| :: actions[i] != Server(Crash(p))
    ensures p in Run(s, actions).procs && Run(s, actions).procs[p] == s.procs[p]
    decreases |actions|
  {
    if actions != [] {
      StepKeepsPhase(s, actions[0], p);
      PhaseIsKept(Step(s, actions[0]), actions[1..], p);
    }
  }

  lemma StepKeepsPhase(s: State, a: Action, p: nat)
    requires p in s.procs && (s.procs[p].phase.Serving? || s.procs[p].phase.Recovering?) && a != Server(Crash(p))
    ensures p in Step(s, a).procs && Step(s, a).procs[p] == s.procs[p]
  {
    match a
    case Server(x) => ServerKeepsPhase(s, x, p);
    case Recover(x) => ResetsMoveNoProcess(s, x);
  }

  lemma ServerKeepsPhase(s: State, a: ServerAction, p: nat)
    requires p in s.procs && (s.procs[p].phase.Serving? || s.procs[p].phase.Recovering?) && a != Crash(p)
    ensures p in ServerStep(s, a).procs && ServerStep(s, a).procs[p] == s.procs[p]
  {
  }

  lemma ResetsMoveNoProcess(s: State, a: ResetAction)
    ensures ResetStep(s, a).procs == s.procs
  {
  }

  /** Every ceremony belongs to a process that serves, every reset to one that
      recovers. */
  ghost predicate Placed(s: State) {
    && (forall c | c in s.ceremonies :: s.ceremonies[c].proc in s.procs && s.procs[s.ceremonies[c].proc].phase == Serving)
    && (forall r | r in s.resets :: Recovers(s, s.resets[r].proc))
  }

  lemma ServerKeepsPlaced(s: State, a: ServerAction)
    requires Placed(s)
    ensures Placed(ServerStep(s, a))
  {
  }

  lemma ResetKeepsPlaced(s: State, a: ResetAction)
    requires Placed(s)
    ensures Placed(ResetStep(s, a))
  {
  }

  lemma {:induction false} RunKeepsPlaced(s: State, actions: seq<Action>)
    requires Placed(s)
    ensures Placed(Run(s, actions))
    decreases |actions|
  {
    if actions != [] {
      match actions[0] {
        case Server(x) => ServerKeepsPlaced(s, x);
        case Recover(x) => ResetKeepsPlaced(s, x);
      }
      RunKeepsPlaced(Step(s, actions[0]), actions[1..]);
    }
  }

  /** How a process opens decides whether it may recover or has to count first;
      only one exclusive opener is let in. */
  lemma OpenOutcome(s: State, p: nat, exclusive: bool, recovering: bool)
    ensures var s1 := ServerStep(s, Open(p, exclusive, recovering));
            if p in s.procs || (exclusive && exists q | q in s.procs :: s.procs[q].exclusive) then s1 == s
            else s1.store == s.store && p in s1.procs && s1.procs[p].exclusive == exclusive
                 && (Recovers(s1, p) <==> recovering) && (s1.procs[p].phase == Starting <==> !recovering)
                 && forall q | q != p :: (q in s1.procs <==> q in s.procs) && (q in s.procs ==> s1.procs[q] == s.procs[q])
  {
  }

  /** A login or a handoff adds one entry, and only while the process serves. */
  lemma ServingOutcome(s: State, p: nat, session: nat, handoff: nat)
    requires session !in s.store.sessions
    ensures ServerStep(s, Login(p, session)).store
            == if p in s.procs && s.procs[p].phase == Serving then s.store.(sessions := s.store.sessions[session := true]) else s.store
    ensures ServerStep(s, OpenHandoff(p, handoff)).store
            == if p in s.procs && s.procs[p].phase == Serving then s.store.(handoffs := s.store.handoffs + {handoff}) else s.store
  {
  }

  /** No login revives a session: what recovery ended stays ended. */
  lemma {:induction false} EndedSessionsStayEnded(s: State, actions: seq<Action>, session: nat)
    requires session in s.store.sessions && !s.store.sessions[session]
    requires forall i | 0 <= i < |actions| :: actions[i].Server? && actions[i].server.CompleteEnrollment? ==> actions[i].server.session != session
    ensures session in Run(s, actions).store.sessions && !Run(s, actions).store.sessions[session]
    decreases |actions|
  {
    if actions != [] {
      StepKeepsEnded(s, actions[0], session);
      EndedSessionsStayEnded(Step(s, actions[0]), actions[1..], session);
    }
  }

  lemma StepKeepsEnded(s: State, a: Action, session: nat)
    requires session in s.store.sessions && !s.store.sessions[session]
    requires a.Server? && a.server.CompleteEnrollment? ==> a.server.session != session
    ensures session in Step(s, a).store.sessions && !Step(s, a).store.sessions[session]
  {
    match a
    case Server(x) => ServerKeepsEnded(s, x, session);
    case Recover(x) => ResetKeepsEnded(s, x, session);
  }

  lemma ServerKeepsEnded(s: State, a: ServerAction, session: nat)
    requires session in s.store.sessions && !s.store.sessions[session]
    requires a.CompleteEnrollment? ==> a.session != session
    ensures session in ServerStep(s, a).store.sessions && !ServerStep(s, a).store.sessions[session]
  {
  }

  lemma ResetKeepsEnded(s: State, a: ResetAction, session: nat)
    requires session in s.store.sessions && !s.store.sessions[session]
    ensures session in ResetStep(s, a).store.sessions && !ResetStep(s, a).store.sessions[session]
  {
  }

  /** An abandoned reset is gone, whatever it recorded stays for the next. */
  lemma AbandonForgets(s: State, r: nat)
    ensures var s1 := ResetStep(s, Abandon(r));
            && s1.store == s.store && s1.intents == s.intents && s1.journal == s.journal && s1.procs == s.procs && r !in s1.resets
            && forall u | u != r :: (u in s1.resets <==> u in s.resets) && (u in s.resets ==> s1.resets[u] == s.resets[u])
  {
  }

  /** A crash loses the process with its ceremonies and resets, and nothing the
      store has. */
  lemma CrashForgets(s: State, p: nat)
    ensures var s1 := ServerStep(s, Crash(p));
            && s1.store == s.store && s1.intents == s.intents && s1.journal == s.journal && p !in s1.procs
            && (forall q | q != p :: (q in s1.procs <==> q in s.procs) && (q in s.procs ==> s1.procs[q] == s.procs[q]))
            && (forall c :: c in s1.ceremonies <==> c in s.ceremonies && s.ceremonies[c].proc != p)
            && (forall r :: r in s1.resets <==> r in s.resets && s.resets[r].proc != p)
            && (forall c | c in s1.ceremonies :: s1.ceremonies[c] == s.ceremonies[c])
            && (forall r | r in s1.resets :: s1.resets[r] == s.resets[r])
  {
  }
}
