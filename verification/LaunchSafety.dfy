/** What every run of the launch machine keeps: PrepareLaunch is issued at most
    once per authorization code, and every call traces back to its own
    consumed passkey ceremony. */
module LaunchSafety {
  import opened Base
  import opened LaunchStore
  import opened LaunchMachine

  // ---- The invariant -----------------------------------------------------

  /** The challenge whose right to launch a task currently carries. */
  function Carried(pc: Pc): Option<nat> {
    match pc
    case FinVerified(_, ch, _, _) => Some(ch)
    case FinReloaded(_, ch, _, _) => Some(ch)
    case FinApproved(att) => Some(att.challengeId)
    case ExTaken(_, _, _, att) => Some(att.challengeId)
    case _ => None
  }

  ghost predicate IsAt(where: map<nat, Place>, ch: nat, place: Place) { ch in where && where[ch] == place }

  /** A genuine attestation: minted for this authorization's one approval, over
      claims that cover the authorization exactly as it was created. */
  ghost predicate Genuine(h: History, att: Attestation) {
    && att.challengeId in h.subject && h.subject[att.challengeId] == att.authId
    && att.code in h.minted && h.minted[att.code] == Mint(att.challengeId, att.authId)
    && att.authId in h.approvedBy && h.approvedBy[att.authId] == att.challengeId
    && att.authId in h.created && att.claims == ClaimsOf(att.authId, h.created[att.authId])
  }

  ghost predicate AsCreated(h: History, authId: nat, core: AuthCore) {
    authId in h.created && h.created[authId] == core
  }

  ghost predicate GenuineRead(h: History, code: nat, read: Read) {
    && AsCreated(h, read.authId, read.core)
    && read.approval.code == code && read.approval.attDigest == read.approval.challengeId
    && code in h.minted && h.minted[code] == Mint(read.approval.challengeId, read.authId)
  }

  ghost predicate Verified(h: History, authId: nat, ch: nat, core: AuthCore, claims: Claims) {
    && AsCreated(h, authId, core) && claims == ClaimsOf(authId, core)
    && ch in h.subject && h.subject[ch] == authId
  }

  ghost predicate PcOk(h: History, pc: Pc) {
    match pc
    case FinRead(id, _, core) => AsCreated(h, id, core)
    case FinVerified(id, ch, core, claims) => Verified(h, id, ch, core, claims)
    case FinReloaded(id, ch, core, claims) => Verified(h, id, ch, core, claims)
    case FinApproved(att) => Genuine(h, att)
    case ExFound(code, verifier, read) => GenuineRead(h, code, read) && VerifyCodeChallenge(read.core.challenge, verifier)
    case ExValid(code, verifier, read, _) => GenuineRead(h, code, read) && VerifyCodeChallenge(read.core.challenge, verifier)
    case ExOwned(code, read, _) => GenuineRead(h, code, read)
    case ExTaken(code, read, _, att) =>
      GenuineRead(h, code, read) && Genuine(h, att) && att.code == code && att.authId == read.authId
    case ExSent(code, read, _) => GenuineRead(h, code, read)
    case ExAmbiguous(code, read, _) => GenuineRead(h, code, read)
    case ExAdopting(code, read, _, _) => GenuineRead(h, code, read)
    case ExOrphanRead(code, _, read) => GenuineRead(h, code, read)
    case _ => true
  }

  ghost predicate TaskOk(h: History, where: map<nat, Place>, t: nat, pc: Pc) {
    PcOk(h, pc) && (Carried(pc).Some? ==> IsAt(where, Carried(pc).value, Held(t)))
  }

  ghost predicate CeremonyOk(h: History, where: map<nat, Place>, p: nat, ch: nat, c: Ceremony) {
    IsAt(where, ch, Pending(p)) && ch in h.subject && h.subject[ch] == c.claims.authId
  }

  ghost predicate CachedOk(h: History, where: map<nat, Place>, p: nat, authId: nat, att: Attestation) {
    att.authId == authId && Genuine(h, att) && IsAt(where, att.challengeId, Cached(p))
  }

  ghost predicate MemoryOk(h: History, where: map<nat, Place>, p: nat, m: Memory) {
    && (forall ch | ch in m.ceremonies :: CeremonyOk(h, where, p, ch, m.ceremonies[ch]))
    && (forall a | a in m.cache :: CachedOk(h, where, p, a, m.cache[a]))
  }

  ghost predicate CallOk(h: History, where: map<nat, Place>, i: nat, call: Call) {
    && IsAt(where, call.att.challengeId, Spent(i))
    && Genuine(h, call.att) && call.att.code == call.code
    && call.kit == call.att.claims.binding.kit
    && call.missionRef == call.att.claims.binding.missionRef
    && call.ephemeral == call.att.claims.ephemeral
  }

  ghost predicate AuthOk(h: History, a: nat, auth: Auth) {
    && AsCreated(h, a, auth.core)
    && (auth.approval.None? <==> a !in h.approvedBy)
    && (auth.approval.Some? ==>
          && auth.approval.value.attDigest == auth.approval.value.challengeId
          && auth.approval.value.code in h.minted
          && h.minted[auth.approval.value.code] == Mint(auth.approval.value.challengeId, a))
  }

  ghost predicate RowOk(h: History, c: nat, row: Row) {
    && c in h.minted && h.minted[c].authId == row.authId
    && row.authId in h.created && h.created[row.authId].passId == row.passId
  }

  ghost predicate ProcsOk(h: History, where: map<nat, Place>, procs: map<nat, Memory>) {
    forall p | p in procs :: MemoryOk(h, where, p, procs[p])
  }

  ghost predicate TasksOk(h: History, where: map<nat, Place>, tasks: map<nat, Task>) {
    forall t | t in tasks :: TaskOk(h, where, t, tasks[t].pc)
  }

  ghost predicate CallsOk(h: History, where: map<nat, Place>, calls: seq<Call>) {
    forall i: nat | i < |calls| :: CallOk(h, where, i, calls[i])
  }

  ghost predicate StoreOk(h: History, auths: map<nat, Auth>, rows: map<nat, Row>) {
    && (forall a | a in auths :: AuthOk(h, a, auths[a]))
    && (forall c | c in rows :: RowOk(h, c, rows[c]))
    && (forall a | a in h.approvedBy :: a in h.created)
  }

  ghost predicate Inv(s: State) {
    && ProcsOk(s.history, s.place, s.procs)
    && TasksOk(s.history, s.place, s.tasks)
    && CallsOk(s.history, s.place, s.calls)
    && StoreOk(s.history, s.auths, s.rows)
  }

  // ---- One move at a time ------------------------------------------------

  lemma GotoKeeps(s: State, t: nat, next: Option<Pc>)
    requires Inv(s) && t in s.tasks
    requires next.Some? ==> PcOk(s.history, next.value)
    requires next.Some? ==> Carried(next.value).None? || Carried(next.value) == Carried(s.tasks[t].pc)
    ensures Inv(Goto(s, t, next))
  {
    assert TaskOk(s.history, s.place, t, s.tasks[t].pc);
  }

  /** A task may start to carry a challenge that is placed with it. */
  lemma CarryKeeps(s: State, t: nat, pc: Pc)
    requires Inv(s) && t in s.tasks && TaskOk(s.history, s.place, t, pc)
    ensures Inv(Goto(s, t, Some(pc)))
  {
  }

  lemma SpawnKeeps(s: State, t: nat, p: nat, pc: Pc)
    requires Inv(s) && PcOk(s.history, pc) && Carried(pc).None?
    ensures Inv(Spawn(s, t, p, pc))
  {
  }

  lemma MemoryKeeps(s: State, p: nat, m: Memory)
    requires Inv(s) && MemoryOk(s.history, s.place, p, m)
    ensures Inv(s.(procs := s.procs[p := m]))
  {
  }

  lemma SettleKeeps(s: State, code: nat, status: RowStatus, runId: nat, envelope: nat, now: int)
    requires Inv(s)
    ensures Inv(s.(rows := SettleRow(s.rows, code, status, runId, envelope, now)))
  {
    var rows := SettleRow(s.rows, code, status, runId, envelope, now);
    forall c | c in rows
      ensures RowOk(s.history, c, rows[c])
    {
      assert RowOk(s.history, c, s.rows[c]);
    }
  }

  /** No memory, task or call holds challenge ch. */
  ghost predicate Unheld(s: State, ch: nat) {
    && (forall p | p in s.procs :: ch !in s.procs[p].ceremonies)
    && (forall p | p in s.procs :: forall a | a in s.procs[p].cache :: s.procs[p].cache[a].challengeId != ch)
    && (forall t | t in s.tasks :: Carried(s.tasks[t].pc) != Some(ch))
    && (forall i: nat | i < |s.calls| :: s.calls[i].att.challengeId != ch)
  }

  /** What nobody holds can be placed anywhere. */
  lemma PutKeeps(s: State, ch: nat, place: Place)
    requires Inv(s) && Unheld(s, ch)
    ensures Inv(Put(s, ch, place))
  {
    var where := s.place[ch := place];
    forall p | p in s.procs
      ensures MemoryOk(s.history, where, p, s.procs[p])
    {
      assert MemoryOk(s.history, s.place, p, s.procs[p]);
    }
    forall t | t in s.tasks
      ensures TaskOk(s.history, where, t, s.tasks[t].pc)
    {
      assert TaskOk(s.history, s.place, t, s.tasks[t].pc);
    }
    forall i: nat | i < |s.calls|
      ensures CallOk(s.history, where, i, s.calls[i])
    {
      assert CallOk(s.history, s.place, i, s.calls[i]);
    }
  }

  /** A challenge is held in at most the one place recorded for it. */
  lemma HeldWhere(s: State, ch: nat)
    requires Inv(s)
    ensures forall p | p in s.procs && ch in s.procs[p].ceremonies :: IsAt(s.place, ch, Pending(p))
    ensures forall p, a | p in s.procs && a in s.procs[p].cache && s.procs[p].cache[a].challengeId == ch ::
              IsAt(s.place, ch, Cached(p)) && ch in s.history.subject && s.history.subject[ch] == a
    ensures forall t | t in s.tasks && Carried(s.tasks[t].pc) == Some(ch) :: IsAt(s.place, ch, Held(t))
    ensures forall i: nat | i < |s.calls| && s.calls[i].att.challengeId == ch :: IsAt(s.place, ch, Spent(i))
  {
    forall p | p in s.procs && ch in s.procs[p].ceremonies
      ensures IsAt(s.place, ch, Pending(p))
    {
      assert MemoryOk(s.history, s.place, p, s.procs[p]);
      assert CeremonyOk(s.history, s.place, p, ch, s.procs[p].ceremonies[ch]);
    }
    forall p, a | p in s.procs && a in s.procs[p].cache && s.procs[p].cache[a].challengeId == ch
      ensures IsAt(s.place, ch, Cached(p)) && ch in s.history.subject && s.history.subject[ch] == a
    {
      assert MemoryOk(s.history, s.place, p, s.procs[p]);
      assert CachedOk(s.history, s.place, p, a, s.procs[p].cache[a]);
    }
    forall t | t in s.tasks && Carried(s.tasks[t].pc) == Some(ch)
      ensures IsAt(s.place, ch, Held(t))
    {
      assert TaskOk(s.history, s.place, t, s.tasks[t].pc);
    }
    forall i: nat | i < |s.calls| && s.calls[i].att.challengeId == ch
      ensures IsAt(s.place, ch, Spent(i))
    {
      assert CallOk(s.history, s.place, i, s.calls[i]);
    }
  }

  lemma CeremonyGone(s: State, p: nat, ch: nat)
    requires Inv(s) && p in s.procs && ch in s.procs[p].ceremonies
    ensures var s1 := s.(procs := s.procs[p := s.procs[p].(ceremonies := s.procs[p].ceremonies - {ch})]);
            Inv(s1) && Unheld(s1, ch)
  {
    var m := s.procs[p].(ceremonies := s.procs[p].ceremonies - {ch});
    assert MemoryOk(s.history, s.place, p, s.procs[p]);
    MemoryKeeps(s, p, m);
    HeldWhere(s, ch);
  }

  lemma CachedGone(s: State, p: nat, authId: nat)
    requires Inv(s) && p in s.procs && authId in s.procs[p].cache
    ensures var s1 := s.(procs := s.procs[p := s.procs[p].(cache := s.procs[p].cache - {authId})]);
            Inv(s1) && Unheld(s1, s.procs[p].cache[authId].challengeId)
  {
    var m := s.procs[p].(cache := s.procs[p].cache - {authId});
    assert MemoryOk(s.history, s.place, p, s.procs[p]);
    MemoryKeeps(s, p, m);
    HeldWhere(s, s.procs[p].cache[authId].challengeId);
  }

  lemma CarriedGone(s: State, t: nat, next: Option<Pc>, ch: nat)
    requires Inv(s) && t in s.tasks && Carried(s.tasks[t].pc) == Some(ch)
    requires next.Some? ==> PcOk(s.history, next.value) && Carried(next.value).None?
    ensures Inv(Goto(s, t, next)) && Unheld(Goto(s, t, next), ch)
  {
    GotoKeeps(s, t, next);
    HeldWhere(s, ch);
  }

  // ---- The environment and the replay path -------------------------------

  lemma EnvKeepsInv(s: State, a: EnvAction)
    requires Inv(s)
    ensures Inv(EnvStep(s, a))
  {
    match a
    case EvictAttestation(p, authId) =>
      if p in s.procs {
        assert MemoryOk(s.history, s.place, p, s.procs[p]);
        MemoryKeeps(s, p, s.procs[p].(cache := s.procs[p].cache - {authId}));
      }
    case EvictDelivery(p, c) =>
      if p in s.procs {
        assert MemoryOk(s.history, s.place, p, s.procs[p]);
        MemoryKeeps(s, p, s.procs[p].(delivery := s.procs[p].delivery - {c}));
      }
    case _ =>
  }

  /** Places a task of the replay path can be at without promising anything. */
  predicate Unpledged(pc: Pc) {
    pc.ExReread? || pc.ExFollow? || pc.ExReplay? || pc.ExRecall? || pc.ExRebuild? || pc.ExStale?
    || pc.ExOrphan? || pc.ExOrphanArtifacts? || pc.ExDelivering?
  }

  lemma FollowingKeeps(s: State, t: nat, next: Option<Pc>)
    requires Inv(s) && t in s.tasks && (next.Some? ==> Unpledged(next.value))
    ensures Inv(Goto(s, t, next))
  {
    GotoKeeps(s, t, next);
  }

  /** A task settles its row without artifacts and returns. */
  lemma EndSettles(s: State, t: nat, code: nat, status: RowStatus, now: int)
    requires Inv(s) && t in s.tasks
    ensures Inv(Goto(s, t, None).(rows := SettleRow(s.rows, code, status, EMPTY, EMPTY, now)))
  {
    GotoKeeps(s, t, None);
    SettleKeeps(Goto(s, t, None), code, status, EMPTY, EMPTY, now);
  }

  /** The replay path only moves its own task or delivers. */
  lemma ReplayKeepsInv(s: State, a: ReplayAction)
    requires Inv(s)
    ensures Inv(ReplayStep(s, a))
  {
    match a
    case Reread(t) => RereadKeeps(s, t);
    case FollowRow(t, now) => FollowKeeps(s, t, now);
    case ProveVerifier(t, id) =>
      if Live(s, t) && s.tasks[t].pc.ExReplay? {
        FollowingKeeps(s, t, Some(ExRecall(s.tasks[t].pc.code)));
        FollowingKeeps(s, t, None);
      }
    case Recall(t) =>
      if Live(s, t) && s.tasks[t].pc.ExRecall? {
        FollowingKeeps(s, t, Some(ExRebuild(s.tasks[t].pc.code)));
        FollowingKeeps(s, t, None);
      }
    case Rebuild(t, lookup) =>
      if Live(s, t) && s.tasks[t].pc.ExRebuild? {
        FollowingKeeps(s, t, None);
        if lookup.Found? {
          FollowingKeeps(s, t, Some(ExDelivering(s.tasks[t].pc.code, ResultOf(lookup.artifacts))));
        }
      }
  }

  lemma OrphanKeepsInv(s: State, a: OrphanAction)
    requires Inv(s)
    ensures Inv(OrphanStep(s, a))
  {
    match a
    case SettleExpired(t, now) =>
      if Live(s, t) && s.tasks[t].pc.ExStale? {
        EndSettles(s, t, s.tasks[t].pc.code, RowStatus.Expired, now);
      }
    case ReconcileOrphan(t, lookup) =>
      if Live(s, t) && s.tasks[t].pc.ExOrphan? {
        FollowingKeeps(s, t, None);
        if lookup.Found? {
          FollowingKeeps(s, t, Some(ExOrphanArtifacts(s.tasks[t].pc.code, lookup.artifacts)));
        }
      }
    case FindOrphanAuthorization(t, id) => FindOrphanKeeps(s, t, id);
    case ReadOrphanPass(t) => ReadOrphanPassKeeps(s, t);
  }

  lemma RereadKeeps(s: State, t: nat)
    requires Inv(s)
    ensures Inv(AfterReread(s, t))
  {
    if Live(s, t) && s.tasks[t].pc.ExReread? {
      var ExReread(code, verifier) := s.tasks[t].pc;
      FollowingKeeps(s, t, if code in s.rows then Some(ExFollow(code, verifier, s.rows[code])) else None);
    }
  }

  lemma FollowKeeps(s: State, t: nat, now: int)
    requires Inv(s)
    ensures Inv(AfterFollow(s, t, now))
  {
    if Live(s, t) && s.tasks[t].pc.ExFollow? {
      var ExFollow(code, verifier, row) := s.tasks[t].pc;
      FollowingKeeps(s, t, None);
      FollowingKeeps(s, t, Some(ExReplay(code, verifier)));
      FollowingKeeps(s, t, Some(ExStale(code)));
      FollowingKeeps(s, t, Some(ExOrphan(code)));
    }
  }

  lemma ReadOrphanPassKeeps(s: State, t: nat)
    requires Inv(s)
    ensures Inv(AfterReadOrphanPass(s, t))
  {
    if Live(s, t) && s.tasks[t].pc.ExOrphanRead? {
      var ExOrphanRead(code, artifacts, read) := s.tasks[t].pc;
      assert TaskOk(s.history, s.place, t, s.tasks[t].pc);
      GotoKeeps(s, t, None);
      if read.core.passId in s.passes {
        GotoKeeps(s, t, Some(ExAdopting(code, read, s.passes[read.core.passId], artifacts)));
      }
    }
  }

  lemma FindOrphanKeeps(s: State, t: nat, id: nat)
    requires Inv(s)
    ensures Inv(AfterFindOrphan(s, t, id))
  {
    if Live(s, t) && s.tasks[t].pc.ExOrphanArtifacts? {
      var ExOrphanArtifacts(code, artifacts) := s.tasks[t].pc;
      GotoKeeps(s, t, None);
      if FoundByCode(s, id, code) {
        assert AuthOk(s.history, id, s.auths[id]);
        GotoKeeps(s, t, Some(ExOrphanRead(code, artifacts, ReadOf(s, id))));
      }
    }
  }

  // ---- Exchanging the code -----------------------------------------------

  lemma ExchangeKeepsInv(s: State, a: ExchangeAction)
    requires Inv(s)
    ensures Inv(ExchangeStep(s, a))
  {
    match a
    case StartExchange(t, p, code, verifier) =>
      SpawnKeeps(s, t, p, if code in s.rows then ExFollow(code, verifier, s.rows[code]) else ExLookup(code, verifier));
    case FindAuthorization(t, id, now) => FindKeeps(s, t, id, now);
    case ReadPass(t, now, agrees) => ReadPassKeeps(s, t, now, agrees);
    case ClaimCode(t, now) => ClaimKeeps(s, t, now);
    case TakeAttestation(t, now) => TakeKeeps(s, t, now);
    case PrepareLaunch(t) => CallKeeps(s, t);
    case ReceiveAnswer(t, answer) => AnswerKeeps(s, t, answer);
    case Reconcile(t, lookup) => ReconcileKeeps(s, t, lookup);
    case Adopt(t, now) => AdoptKeeps(s, t, now);
    case SettleFailed(t, now) =>
      if Live(s, t) && s.tasks[t].pc.ExFailing? {
        EndSettles(s, t, s.tasks[t].pc.code, RowStatus.Failed, now);
      }
    case Deliver(t) => DeliverKeeps(s, t);
  }

  lemma FindKeeps(s: State, t: nat, id: nat, now: int)
    requires Inv(s)
    ensures Inv(AfterFind(s, t, id, now))
  {
    if Live(s, t) && s.tasks[t].pc.ExLookup? {
      var ExLookup(code, verifier) := s.tasks[t].pc;
      GotoKeeps(s, t, None);
      if FoundByCode(s, id, code) && VerifyCodeChallenge(s.auths[id].core.challenge, verifier) {
        assert AuthOk(s.history, id, s.auths[id]);
        GotoKeeps(s, t, Some(ExFound(code, verifier, ReadOf(s, id))));
      }
    }
  }

  lemma ReadPassKeeps(s: State, t: nat, now: int, agrees: bool)
    requires Inv(s)
    ensures Inv(AfterReadPass(s, t, now, agrees))
  {
    if Live(s, t) && s.tasks[t].pc.ExFound? {
      var ExFound(code, verifier, read) := s.tasks[t].pc;
      assert TaskOk(s.history, s.place, t, s.tasks[t].pc);
      GotoKeeps(s, t, None);
      if read.core.passId in s.passes {
        GotoKeeps(s, t, Some(ExValid(code, verifier, read, s.passes[read.core.passId])));
      }
    }
  }

  lemma ClaimKeeps(s: State, t: nat, now: int)
    requires Inv(s)
    ensures Inv(AfterClaim(s, t, now))
  {
    if Live(s, t) && s.tasks[t].pc.ExValid? {
      var ExValid(code, verifier, read, pass) := s.tasks[t].pc;
      assert TaskOk(s.history, s.place, t, s.tasks[t].pc);
      GotoKeeps(s, t, Some(ExOwned(code, read, pass)));
      GotoKeeps(s, t, Some(ExReread(code, verifier)));
      var rows := AfterClaim(s, t, now).rows;
      forall c | c in rows
        ensures RowOk(s.history, c, rows[c])
      {
        assert c in s.rows ==> RowOk(s.history, c, s.rows[c]);
      }
    }
  }

  /** Taking: the right to launch moves from the cache into the request. */
  lemma TakeKeeps(s: State, t: nat, now: int)
    requires Inv(s)
    ensures Inv(AfterTake(s, t, now))
  {
    if Live(s, t) && s.tasks[t].pc.ExOwned? {
      var ExOwned(code, read, pass) := s.tasks[t].pc;
      var p := s.tasks[t].proc;
      var m := Mem(s, t);
      assert TaskOk(s.history, s.place, t, s.tasks[t].pc);
      GotoKeeps(s, t, Some(ExFailing(code)));
      if read.authId in m.cache {
        var att := m.cache[read.authId];
        assert MemoryOk(s.history, s.place, p, m) && CachedOk(s.history, s.place, p, read.authId, att);
        CachedGone(s, p, read.authId);
        var s1 := SetMem(s, t, m.(cache := m.cache - {read.authId}));
        GotoKeeps(s1, t, Some(ExFailing(code)));
        PutKeeps(s1, att.challengeId, Held(t));
        if att.code == code {
          CarryKeeps(Put(s1, att.challengeId, Held(t)), t, ExTaken(code, read, pass, att));
        }
      }
    }
  }

  /** Calling: the right to launch moves from the request into the call log. */
  lemma CallKeeps(s: State, t: nat)
    requires Inv(s)
    ensures Inv(AfterPrepare(s, t))
  {
    if Live(s, t) && s.tasks[t].pc.ExTaken? {
      var ExTaken(code, read, pass, att) := s.tasks[t].pc;
      assert TaskOk(s.history, s.place, t, s.tasks[t].pc);
      CarriedGone(s, t, Some(ExSent(code, read, pass)), att.challengeId);
      var s1 := Goto(s, t, Some(ExSent(code, read, pass)));
      PutKeeps(s1, att.challengeId, Spent(|s.calls|));
      CallAppends(Put(s1, att.challengeId, Spent(|s.calls|)), CallOf(code, read, att));
    }
  }

  lemma CallAppends(s: State, call: Call)
    requires Inv(s) && CallOk(s.history, s.place, |s.calls|, call)
    ensures Inv(s.(calls := s.calls + [call]))
  {
    var calls := s.calls + [call];
    forall i: nat | i < |calls|
      ensures CallOk(s.history, s.place, i, calls[i])
    {
      if i < |s.calls| {
        assert CallOk(s.history, s.place, i, s.calls[i]);
      }
    }
  }

  lemma AnswerKeeps(s: State, t: nat, answer: Answer)
    requires Inv(s)
    ensures Inv(AfterAnswer(s, t, answer))
  {
    if Live(s, t) && s.tasks[t].pc.ExSent? {
      var ExSent(code, read, pass) := s.tasks[t].pc;
      assert TaskOk(s.history, s.place, t, s.tasks[t].pc);
      match answer
      case Prepared(artifacts) => GotoKeeps(s, t, Some(ExAdopting(code, read, pass, artifacts)));
      case Ambiguous => GotoKeeps(s, t, Some(ExAmbiguous(code, read, pass)));
      case _ => GotoKeeps(s, t, Some(ExFailing(code)));
    }
  }

  lemma ReconcileKeeps(s: State, t: nat, lookup: Lookup)
    requires Inv(s)
    ensures Inv(AfterReconcile(s, t, lookup))
  {
    if Live(s, t) && s.tasks[t].pc.ExAmbiguous? {
      var ExAmbiguous(code, read, pass) := s.tasks[t].pc;
      assert TaskOk(s.history, s.place, t, s.tasks[t].pc);
      match lookup
      case Found(artifacts) => GotoKeeps(s, t, Some(ExAdopting(code, read, pass, artifacts)));
      case NotCompleted => GotoKeeps(s, t, Some(ExFailing(code)));
    }
  }

  lemma AdoptKeeps(s: State, t: nat, now: int)
    requires Inv(s)
    ensures Inv(AfterAdopt(s, t, now))
  {
    if Live(s, t) && s.tasks[t].pc.ExAdopting? {
      var ExAdopting(code, read, pass, artifacts) := s.tasks[t].pc;
      GotoKeeps(s, t, Some(ExFailing(code)));
      var s1 := Goto(s, t, Some(ExDelivering(code, ResultOf(artifacts))));
      GotoKeeps(s, t, Some(ExDelivering(code, ResultOf(artifacts))));
      SettleKeeps(s1, code, RowStatus.Completed, artifacts.runId, artifacts.envelope, now);
    }
  }

  lemma DeliverKeeps(s: State, t: nat)
    requires Inv(s)
    ensures Inv(AfterDeliver(s, t))
  {
    if Live(s, t) && s.tasks[t].pc.ExDelivering? {
      var m := Mem(s, t);
      var m1 := m.(delivery := m.delivery[s.tasks[t].pc.code := s.tasks[t].pc.result]);
      assert MemoryOk(s.history, s.place, s.tasks[t].proc, m);
      MemoryKeeps(s, s.tasks[t].proc, m1);
      GotoKeeps(SetMem(s, t, m1), t, None);
    }
  }

  // ---- The browser decision ----------------------------------------------

  /** History only grows, so nothing genuine becomes forged. */
  ghost predicate Grows(h: History, h': History) {
    && (forall k | k in h.created :: k in h'.created && h'.created[k] == h.created[k])
    && (forall k | k in h.subject :: k in h'.subject && h'.subject[k] == h.subject[k])
    && (forall k | k in h.minted :: k in h'.minted && h'.minted[k] == h.minted[k])
    && (forall k | k in h.approvedBy :: k in h'.approvedBy && h'.approvedBy[k] == h.approvedBy[k])
  }

  lemma PcOkGrows(h: History, h': History, pc: Pc)
    requires Grows(h, h') && PcOk(h, pc)
    ensures PcOk(h', pc)
  {
  }

  lemma MemoryOkGrows(h: History, h': History, where: map<nat, Place>, p: nat, m: Memory)
    requires Grows(h, h') && MemoryOk(h, where, p, m)
    ensures MemoryOk(h', where, p, m)
  {
    forall a | a in m.cache
      ensures CachedOk(h', where, p, a, m.cache[a])
    {
      assert CachedOk(h, where, p, a, m.cache[a]);
    }
    forall ch | ch in m.ceremonies
      ensures CeremonyOk(h', where, p, ch, m.ceremonies[ch])
    {
      assert CeremonyOk(h, where, p, ch, m.ceremonies[ch]);
    }
  }

  /** Everything but the authorizations survives growth of the history. */
  lemma MemoryAndCallsGrow(s: State, h': History)
    requires Inv(s) && Grows(s.history, h')
    ensures ProcsOk(h', s.place, s.procs) && TasksOk(h', s.place, s.tasks) && CallsOk(h', s.place, s.calls)
    ensures forall c | c in s.rows :: RowOk(h', c, s.rows[c])
  {
    forall p | p in s.procs
      ensures MemoryOk(h', s.place, p, s.procs[p])
    {
      MemoryOkGrows(s.history, h', s.place, p, s.procs[p]);
    }
    forall t | t in s.tasks
      ensures TaskOk(h', s.place, t, s.tasks[t].pc)
    {
      assert TaskOk(s.history, s.place, t, s.tasks[t].pc);
      PcOkGrows(s.history, h', s.tasks[t].pc);
    }
    forall i: nat | i < |s.calls|
      ensures CallOk(h', s.place, i, s.calls[i])
    {
      assert CallOk(s.history, s.place, i, s.calls[i]);
    }
    forall c | c in s.rows
      ensures RowOk(h', c, s.rows[c])
    {
      assert RowOk(s.history, c, s.rows[c]);
    }
  }

  /** The history may grow while nothing else moves. */
  lemma HistoryKeeps(s: State, h': History)
    requires Inv(s) && Grows(s.history, h')
    requires forall a | a in s.auths :: AuthOk(h', a, s.auths[a])
    requires forall a | a in h'.approvedBy :: a in h'.created
    ensures Inv(s.(history := h'))
  {
    MemoryAndCallsGrow(s, h');
  }

  lemma CreateKeeps(s: State, id: nat, core: AuthCore)
    requires Inv(s)
    ensures Inv(AfterCreate(s, id, core))
  {
    if id !in s.history.created {
      var s1 := AfterCreate(s, id, core);
      forall a | a in s1.auths
        ensures AuthOk(s1.history, a, s1.auths[a])
      {
        assert a != id ==> AuthOk(s.history, a, s.auths[a]);
      }
      MemoryAndCallsGrow(s, s1.history);
    }
  }

  lemma BeginKeeps(s: State, p: nat, ch: nat, id: nat, now: int, expiresAt: int)
    requires Inv(s)
    ensures Inv(AfterBegin(s, p, ch, id, now, expiresAt))
  {
    if p in s.procs && ch !in s.history.subject && MayDecide(s, id, now) {
      SubjectKeeps(s, ch, id);
      var s1 := s.(history := s.history.(subject := s.history.subject[ch := id]));
      NeverBegun(s, ch);
      PutKeeps(s1, ch, Pending(p));
      CeremonyKeeps(Put(s1, ch, Pending(p)), p, ch, Ceremony(ClaimsOf(id, s.auths[id].core), expiresAt));
    }
  }

  lemma SubjectKeeps(s: State, ch: nat, id: nat)
    requires Inv(s) && ch !in s.history.subject
    ensures Inv(s.(history := s.history.(subject := s.history.subject[ch := id])))
  {
    var h' := s.history.(subject := s.history.subject[ch := id]);
    forall a | a in s.auths
      ensures AuthOk(h', a, s.auths[a])
    {
      assert AuthOk(s.history, a, s.auths[a]);
    }
    HistoryKeeps(s, h');
  }

  lemma CeremonyKeeps(s: State, p: nat, ch: nat, c: Ceremony)
    requires Inv(s) && p in s.procs && CeremonyOk(s.history, s.place, p, ch, c)
    ensures Inv(s.(procs := s.procs[p := s.procs[p].(ceremonies := s.procs[p].ceremonies[ch := c])]))
  {
    assert MemoryOk(s.history, s.place, p, s.procs[p]);
    MemoryKeeps(s, p, s.procs[p].(ceremonies := s.procs[p].ceremonies[ch := c]));
  }

  lemma CachedKeeps(s: State, p: nat, att: Attestation)
    requires Inv(s) && p in s.procs && CachedOk(s.history, s.place, p, att.authId, att)
    ensures Inv(s.(procs := s.procs[p := s.procs[p].(cache := s.procs[p].cache[att.authId := att])]))
  {
    assert MemoryOk(s.history, s.place, p, s.procs[p]);
    MemoryKeeps(s, p, s.procs[p].(cache := s.procs[p].cache[att.authId := att]));
  }

  lemma NeverBegun(s: State, ch: nat)
    requires Inv(s) && ch !in s.history.subject
    ensures Unheld(s, ch)
  {
    forall p | p in s.procs
      ensures ch !in s.procs[p].ceremonies
      ensures forall a | a in s.procs[p].cache :: s.procs[p].cache[a].challengeId != ch
    {
      assert MemoryOk(s.history, s.place, p, s.procs[p]);
      assert forall a | a in s.procs[p].cache :: CachedOk(s.history, s.place, p, a, s.procs[p].cache[a]);
      assert forall c | c in s.procs[p].ceremonies :: CeremonyOk(s.history, s.place, p, c, s.procs[p].ceremonies[c]);
    }
    forall t | t in s.tasks
      ensures Carried(s.tasks[t].pc) != Some(ch)
    {
      assert TaskOk(s.history, s.place, t, s.tasks[t].pc);
    }
    forall i: nat | i < |s.calls|
      ensures s.calls[i].att.challengeId != ch
    {
      assert CallOk(s.history, s.place, i, s.calls[i]);
    }
  }

  /** Consuming: the right to launch moves from the ceremony into the request. */
  lemma ConsumeKeeps(s: State, t: nat, now: int, verified: bool)
    requires Inv(s)
    ensures Inv(AfterConsume(s, t, now, verified))
  {
    if Live(s, t) && s.tasks[t].pc.FinRead? {
      var FinRead(id, ch, core) := s.tasks[t].pc;
      var p := s.tasks[t].proc;
      var m := Mem(s, t);
      GotoKeeps(s, t, None);
      assert TaskOk(s.history, s.place, t, s.tasks[t].pc);
      if ch in m.ceremonies {
        assert MemoryOk(s.history, s.place, p, m) && CeremonyOk(s.history, s.place, p, ch, m.ceremonies[ch]);
        CeremonyGone(s, p, ch);
        var s1 := SetMem(s, t, m.(ceremonies := m.ceremonies - {ch}));
        GotoKeeps(s1, t, None);
        PutKeeps(s1, ch, Held(t));
        if m.ceremonies[ch].claims == ClaimsOf(id, core) {
          CarryKeeps(Put(s1, ch, Held(t)), t, FinVerified(id, ch, core, m.ceremonies[ch].claims));
        }
      }
    }
  }

  lemma ReloadKeeps(s: State, t: nat, now: int)
    requires Inv(s)
    ensures Inv(AfterReload(s, t, now))
  {
    if Live(s, t) && s.tasks[t].pc.FinVerified? {
      var FinVerified(id, ch, core, claims) := s.tasks[t].pc;
      assert TaskOk(s.history, s.place, t, s.tasks[t].pc);
      GotoKeeps(s, t, Some(FinReloaded(id, ch, core, claims)));
      GotoKeeps(s, t, None);
    }
  }

  lemma ApproveKeeps(s: State, t: nat, code: nat)
    requires Inv(s)
    ensures Inv(AfterApprove(s, t, code))
  {
    if Live(s, t) && s.tasks[t].pc.FinReloaded? && code !in s.history.minted {
      var FinReloaded(id, ch, core, claims) := s.tasks[t].pc;
      GotoKeeps(s, t, None);
      assert TaskOk(s.history, s.place, t, s.tasks[t].pc);
      if id in s.auths && s.auths[id].approval.None? {
        ApprovalKeeps(s, id, ch, code);
        CarryKeeps(Approved(s, id, ch, code), t, FinApproved(Attestation(id, ch, claims, code, core.expiresAt)));
      }
    }
  }

  /** The approval write alone: the row and the history move together. */
  function Approved(s: State, id: nat, ch: nat, code: nat): State
    requires id in s.auths
  {
    s.(auths := s.auths[id := s.auths[id].(approval := Some(Approval(ch, ch, code)))],
       history := s.history.(minted := s.history.minted[code := Mint(ch, id)],
                             approvedBy := s.history.approvedBy[id := ch]))
  }

  lemma ApprovalGrows(s: State, id: nat, ch: nat, code: nat)
    requires Inv(s) && code !in s.history.minted && id in s.auths && s.auths[id].approval.None?
    ensures Grows(s.history, Approved(s, id, ch, code).history)
  {
    assert AuthOk(s.history, id, s.auths[id]);
  }

  lemma ApprovalKeeps(s: State, id: nat, ch: nat, code: nat)
    requires Inv(s) && code !in s.history.minted && id in s.auths && s.auths[id].approval.None?
    ensures Inv(Approved(s, id, ch, code)) && Grows(s.history, Approved(s, id, ch, code).history)
  {
    ApprovalGrows(s, id, ch, code);
    var s1 := Approved(s, id, ch, code);
    MemoryAndCallsGrow(s, s1.history);
    forall a | a in s1.auths
      ensures AuthOk(s1.history, a, s1.auths[a])
    {
      assert AuthOk(s.history, a, s.auths[a]);
    }
    assert AuthOk(s.history, id, s.auths[id]);
    assert StoreOk(s1.history, s1.auths, s1.rows);
  }

  /** Caching: the right to launch moves from the request into the cache. */
  lemma CacheKeeps(s: State, t: nat)
    requires Inv(s)
    ensures Inv(AfterCache(s, t))
  {
    if Live(s, t) && s.tasks[t].pc.FinApproved? {
      var att := s.tasks[t].pc.att;
      var p := s.tasks[t].proc;
      assert TaskOk(s.history, s.place, t, s.tasks[t].pc);
      CarriedGone(s, t, None, att.challengeId);
      var s1 := Goto(s, t, None);
      PutKeeps(s1, att.challengeId, Cached(p));
      CachedKeeps(Put(s1, att.challengeId, Cached(p)), p, att);
    }
  }

  lemma BrowserKeepsInv(s: State, a: BrowserAction)
    requires Inv(s)
    ensures Inv(BrowserStep(s, a))
  {
    match a
    case CreateAuthorization(id, core) => CreateKeeps(s, id, core);
    case BeginDecision(p, ch, id, now, expiresAt) => BeginKeeps(s, p, ch, id, now, expiresAt);
    case StartFinish(t, p, id, ch, now) =>
      if id in s.auths {
        assert AuthOk(s.history, id, s.auths[id]);
        SpawnKeeps(s, t, p, FinRead(id, ch, s.auths[id].core));
      }
    case ConsumeCeremony(t, now, verified) => ConsumeKeeps(s, t, now, verified);
    case ReloadBinding(t, now) => ReloadKeeps(s, t, now);
    case Approve(t, code) => ApproveKeeps(s, t, code);
    case CacheAttestation(t) => CacheKeeps(s, t);
  }

  lemma StepKeepsInv(s: State, a: Action)
    requires Inv(s)
    ensures Inv(Step(s, a))
  {
    match a
    case Env(e) => EnvKeepsInv(s, e);
    case Decide(b) => BrowserKeepsInv(s, b);
    case Exchange(x) => ExchangeKeepsInv(s, x);
    case Replay(r) => ReplayKeepsInv(s, r);
    case Orphan(o) => OrphanKeepsInv(s, o);
  }

  lemma {:induction false} RunKeepsInv(s: State, actions: seq<Action>)
    requires Inv(s)
    ensures Inv(Run(s, actions))
    decreases |actions|
  {
    if actions != [] {
      StepKeepsInv(s, actions[0]);
      RunKeepsInv(Step(s, actions[0]), actions[1..]);
    }
  }

  // ---- Exactly once ------------------------------------------------------

  /** In every run, two different PrepareLaunch calls carry different codes,
      authorizations and challenges. */
  lemma PrepareLaunchAtMostOnce(s: State, actions: seq<Action>, i: nat, j: nat)
    requires Initial(s)
    requires i < j < |Run(s, actions).calls|
    ensures var calls := Run(s, actions).calls;
            && calls[i].code != calls[j].code
            && calls[i].att.authId != calls[j].att.authId
            && calls[i].att.challengeId != calls[j].att.challengeId
  {
    RunKeepsInv(s, actions);
    var s1 := Run(s, actions);
    assert CallOk(s1.history, s1.place, i, s1.calls[i]);
    assert CallOk(s1.history, s1.place, j, s1.calls[j]);
  }

  /** A code is claimed only for the authorization it was minted for, by a
      request that proved the PKCE verifier behind that authorization. */
  lemma ClaimProvesVerifier(s: State, t: nat, now: int, code: nat)
    requires Inv(s) && code !in s.rows && code in AfterClaim(s, t, now).rows
    ensures Live(s, t) && s.tasks[t].pc.ExValid? && s.tasks[t].pc.code == code
    ensures var row := AfterClaim(s, t, now).rows[code];
            && row.status.InFlight?
            && code in s.history.minted && s.history.minted[code] == Mint(row.attDigest, row.authId)
            && row.authId in s.history.created
            && var core := s.history.created[row.authId];
               row.passId == core.passId && VerifyCodeChallenge(core.challenge, s.tasks[t].pc.verifier)
  {
    assert TaskOk(s.history, s.place, t, s.tasks[t].pc);
  }

  // ---- Every call has its own ceremony -----------------------------------

  /** Action k of the run is the verified consumption of challenge ch over
      exactly these claims. */
  ghost predicate ConsumedAt(s: State, actions: seq<Action>, k: nat, ch: nat, claims: Claims)
    requires k < |actions|
  {
    Consumes(Run(s, actions[..k]), actions[k], ch, claims)
  }

  ghost predicate Consumes(s: State, a: Action, ch: nat, claims: Claims) {
    && a.Decide? && a.browser.ConsumeCeremony? && a.browser.verified
    && var t := a.browser.task;
       && Live(s, t) && s.tasks[t].pc.FinRead? && s.tasks[t].pc.challengeId == ch
       && ch in Mem(s, t).ceremonies && Mem(s, t).ceremonies[ch].claims == claims
       && a.browser.now < Mem(s, t).ceremonies[ch].expiresAt
       && claims == ClaimsOf(s.tasks[t].pc.authId, s.tasks[t].pc.core)
  }

  ghost predicate Open(s: State, ch: nat) { ch in s.place ==> s.place[ch].Pending? }

  predicate SamePlaces(s: State, s1: State) { s1.history == s.history && s1.place == s.place && s1.calls == s.calls }

  /** Outside the browser decision only taking and calling place anything. */
  lemma EnvPlaces(s: State, a: EnvAction)
    ensures SamePlaces(s, EnvStep(s, a))
  {
  }

  lemma ExchangePlaces(s: State, a: ExchangeAction)
    ensures ExchangeStep(s, a).history == s.history
    ensures !a.TakeAttestation? && !a.PrepareLaunch? ==> SamePlaces(s, ExchangeStep(s, a))
  {
    if a.StartExchange? || a.FindAuthorization? || a.ReadPass? || a.ClaimCode? {
      ClaimingPlaces(s, a);
    } else if a.TakeAttestation? || a.PrepareLaunch? {
      OwningPlaces(s, a);
    } else {
      SettlingPlaces(s, a);
    }
  }

  lemma ClaimingPlaces(s: State, a: ExchangeAction)
    requires a.StartExchange? || a.FindAuthorization? || a.ReadPass? || a.ClaimCode?
    ensures SamePlaces(s, ExchangeStep(s, a))
  {
  }

  lemma OwningPlaces(s: State, a: ExchangeAction)
    requires a.TakeAttestation? || a.PrepareLaunch?
    ensures ExchangeStep(s, a).history == s.history
  {
  }

  lemma SettlingPlaces(s: State, a: ExchangeAction)
    requires a.ReceiveAnswer? || a.Reconcile? || a.Adopt? || a.SettleFailed? || a.Deliver?
    ensures SamePlaces(s, ExchangeStep(s, a))
  {
  }

  lemma ReadingPlaces(s: State, a: ReplayAction)
    requires a.Reread? || a.FollowRow?
    ensures SamePlaces(s, ReplayStep(s, a))
  {
    match a
    case Reread(t) =>
    case FollowRow(t, now) =>
  }

  lemma AnsweringPlaces(s: State, a: ReplayAction)
    requires a.ProveVerifier? || a.Recall? || a.Rebuild?
    ensures SamePlaces(s, ReplayStep(s, a))
  {
    match a
    case ProveVerifier(t, id) =>
    case Recall(t) =>
    case Rebuild(t, lookup) =>
  }

  lemma ReplayPlaces(s: State, a: ReplayAction)
    ensures SamePlaces(s, ReplayStep(s, a))
  {
    if a.Reread? || a.FollowRow? {
      ReadingPlaces(s, a);
    } else {
      AnsweringPlaces(s, a);
    }
  }

  lemma OrphanPlaces(s: State, a: OrphanAction)
    ensures SamePlaces(s, OrphanStep(s, a))
  {
    match a
    case SettleExpired(t, now) =>
    case ReconcileOrphan(t, lookup) =>
    case FindOrphanAuthorization(t, id) =>
    case ReadOrphanPass(t) =>
  }

  lemma TakeMovesClosed(s: State, t: nat, now: int, ch: nat)
    requires Inv(s)
    ensures Open(AfterTake(s, t, now), ch) <==> Open(s, ch)
  {
    if Live(s, t) && s.tasks[t].pc.ExOwned? && s.tasks[t].pc.read.authId in Mem(s, t).cache {
      HeldWhere(s, Mem(s, t).cache[s.tasks[t].pc.read.authId].challengeId);
    }
  }

  lemma CallMovesClosed(s: State, t: nat, ch: nat)
    requires Inv(s)
    ensures Open(AfterPrepare(s, t), ch) <==> Open(s, ch)
  {
    if Live(s, t) && s.tasks[t].pc.ExTaken? {
      HeldWhere(s, s.tasks[t].pc.att.challengeId);
    }
  }

  /** Taking and calling start from a place that is no longer pending. */
  lemma ExchangeMovesClosed(s: State, a: ExchangeAction, ch: nat)
    requires Inv(s)
    ensures Open(ExchangeStep(s, a), ch) <==> Open(s, ch)
  {
    if a.TakeAttestation? {
      TakeMovesClosed(s, a.task, a.now, ch);
    } else if a.PrepareLaunch? {
      CallMovesClosed(s, a.task, ch);
    } else {
      ExchangePlaces(s, a);
    }
  }

  lemma ConsumeMoves(s: State, t: nat, now: int, verified: bool, ch: nat)
    requires Inv(s)
    ensures !Open(s, ch) ==> !Open(AfterConsume(s, t, now, verified), ch)
    ensures Open(s, ch) && !Open(AfterConsume(s, t, now, verified), ch) ==>
              && ch in s.history.subject && s.history.subject[ch] in s.history.created
              && Consumes(s, Decide(ConsumeCeremony(t, now, verified)), ch,
                          ClaimsOf(s.history.subject[ch], s.history.created[s.history.subject[ch]]))
  {
    if Live(s, t) && s.tasks[t].pc.FinRead? && s.tasks[t].pc.challengeId in Mem(s, t).ceremonies {
      var id := s.tasks[t].pc.challengeId;
      assert TaskOk(s.history, s.place, t, s.tasks[t].pc);
      assert MemoryOk(s.history, s.place, s.tasks[t].proc, Mem(s, t));
      assert CeremonyOk(s.history, s.place, s.tasks[t].proc, id, Mem(s, t).ceremonies[id]);
    }
  }

  lemma BeginMoves(s: State, p: nat, c: nat, id: nat, now: int, expiresAt: int, ch: nat)
    requires Inv(s) && (!Open(s, ch) ==> ch in s.history.subject)
    ensures Open(AfterBegin(s, p, c, id, now, expiresAt), ch) <==> Open(s, ch)
  {
  }

  lemma CacheMoves(s: State, t: nat, ch: nat)
    requires Inv(s)
    ensures Open(AfterCache(s, t), ch) <==> Open(s, ch)
  {
    if Live(s, t) && s.tasks[t].pc.FinApproved? {
      HeldWhere(s, s.tasks[t].pc.att.challengeId);
    }
  }

  /** A challenge out of process memory never returns, and only its own
      verified consumption takes it out, over the claims of the authorization
      as it was created. */
  lemma OnlyConsumptionCloses(s: State, a: Action, ch: nat)
    requires Inv(s) && (!Open(s, ch) ==> ch in s.history.subject)
    ensures !Open(s, ch) ==> !Open(Step(s, a), ch)
    ensures Open(s, ch) && !Open(Step(s, a), ch) ==>
              && ch in s.history.subject && s.history.subject[ch] in s.history.created
              && Consumes(s, a, ch, ClaimsOf(s.history.subject[ch], s.history.created[s.history.subject[ch]]))
  {
    match a
    case Env(e) => EnvPlaces(s, e);
    case Replay(r) => ReplayPlaces(s, r);
    case Orphan(o) => OrphanPlaces(s, o);
    case Exchange(x) => ExchangeMovesClosed(s, x, ch);
    case Decide(b) => BrowserMoves(s, b, ch);
  }

  lemma BrowserMoves(s: State, b: BrowserAction, ch: nat)
    requires Inv(s) && (!Open(s, ch) ==> ch in s.history.subject)
    ensures !Open(s, ch) ==> !Open(BrowserStep(s, b), ch)
    ensures Open(s, ch) && !Open(BrowserStep(s, b), ch) ==>
              && ch in s.history.subject && s.history.subject[ch] in s.history.created
              && Consumes(s, Decide(b), ch, ClaimsOf(s.history.subject[ch], s.history.created[s.history.subject[ch]]))
  {
    match b
    case BeginDecision(p, c, id, now, expiresAt) => BeginMoves(s, p, c, id, now, expiresAt, ch);
    case ConsumeCeremony(t, now, verified) => ConsumeMoves(s, t, now, verified, ch);
    case CacheAttestation(t) => CacheMoves(s, t, ch);
    case CreateAuthorization(id, core) =>
    case StartFinish(t, p, id, c, now) =>
    case ReloadBinding(t, now) =>
    case Approve(t, code) =>
  }

  lemma StepGrows(s: State, a: Action)
    requires Inv(s)
    ensures Grows(s.history, Step(s, a).history)
  {
    match a
    case Env(e) => EnvPlaces(s, e);
    case Replay(r) => ReplayPlaces(s, r);
    case Orphan(o) => OrphanPlaces(s, o);
    case Exchange(x) => ExchangePlaces(s, x);
    case Decide(b) => BrowserGrows(s, b);
  }

  /** Only creating, beginning and approving add to the history. */
  lemma OthersAddNothing(s: State, b: BrowserAction)
    requires b.StartFinish? || b.ConsumeCeremony? || b.ReloadBinding? || b.CacheAttestation?
    ensures BrowserStep(s, b).history == s.history
  {
    match b
    case StartFinish(t, p, id, ch, now) => assert AfterStartFinish(s, t, p, id, ch, now).history == s.history;
    case ConsumeCeremony(t, now, verified) => ConsumingAddsNothing(s, t, now, verified);
    case ReloadBinding(t, now) => assert AfterReload(s, t, now).history == s.history;
    case CacheAttestation(t) => assert AfterCache(s, t).history == s.history;
  }

  lemma ConsumingAddsNothing(s: State, t: nat, now: int, verified: bool)
    ensures AfterConsume(s, t, now, verified).history == s.history
  {
  }

  lemma CreateGrows(s: State, id: nat, core: AuthCore)
    ensures Grows(s.history, AfterCreate(s, id, core).history)
  {
  }

  lemma BeginGrows(s: State, p: nat, ch: nat, id: nat, now: int, expiresAt: int)
    ensures Grows(s.history, AfterBegin(s, p, ch, id, now, expiresAt).history)
  {
  }

  lemma BrowserGrows(s: State, b: BrowserAction)
    requires Inv(s)
    ensures Grows(s.history, BrowserStep(s, b).history)
  {
    match b
    case CreateAuthorization(id, core) => CreateGrows(s, id, core);
    case BeginDecision(p, ch, id, now, expiresAt) => BeginGrows(s, p, ch, id, now, expiresAt);
    case Approve(t, code) => ApproveGrows(s, t, code);
    case _ => OthersAddNothing(s, b);
  }

  lemma ApproveGrows(s: State, t: nat, code: nat)
    requires Inv(s)
    ensures Grows(s.history, AfterApprove(s, t, code).history)
  {
    if Live(s, t) && s.tasks[t].pc.FinReloaded? && code !in s.history.minted {
      var id := s.tasks[t].pc.authId;
      if id in s.auths && s.auths[id].approval.None? {
        ApprovalGrows(s, id, s.tasks[t].pc.challengeId, code);
      }
    }
  }

  lemma {:induction false} RunGrows(s: State, actions: seq<Action>)
    requires Inv(s)
    ensures Grows(s.history, Run(s, actions).history)
    decreases |actions|
  {
    if actions != [] {
      StepKeepsInv(s, actions[0]);
      StepGrows(s, actions[0]);
      RunGrows(Step(s, actions[0]), actions[1..]);
    }
  }

  lemma OneLater(s: State, actions: seq<Action>, k: nat)
    requires k + 1 < |actions|
    ensures Run(s, actions[..k + 1]) == Run(Step(s, actions[0]), actions[1..][..k])
  {
    assert actions[..k + 1][1..] == actions[1..][..k];
  }

  lemma {:induction false} ClosedWasConsumed(s: State, actions: seq<Action>, ch: nat) returns (k: nat)
    requires Inv(s) && Open(s, ch) && !Open(Run(s, actions), ch)
    ensures k < |actions|
    ensures var h := Run(s, actions).history;
            && ch in h.subject && h.subject[ch] in h.created
            && ConsumedAt(s, actions, k, ch, ClaimsOf(h.subject[ch], h.created[h.subject[ch]]))
    decreases |actions|
  {
    var s1 := Step(s, actions[0]);
    StepKeepsInv(s, actions[0]);
    if Open(s1, ch) {
      var k1 := ClosedWasConsumed(s1, actions[1..], ch);
      k := k1 + 1;
      OneLater(s, actions, k1);
    } else {
      OnlyConsumptionCloses(s, actions[0], ch);
      RunGrows(s, actions);
      k := 0;
    }
  }

  /** Every PrepareLaunch was preceded by the verified consumption of its own
      challenge, over exactly the authorization as it was created: pass,
      binding, kit, arguments, redirect, PKCE challenge and ephemeral key. */
  lemma EveryCallWasDecided(s: State, actions: seq<Action>, i: nat) returns (k: nat)
    requires Initial(s)
    requires i < |Run(s, actions).calls|
    ensures k < |actions|
    ensures var call := Run(s, actions).calls[i];
            var created := Run(s, actions).history.created;
            && ConsumedAt(s, actions, k, call.att.challengeId, call.att.claims)
            && call.att.authId in created && call.att.claims == ClaimsOf(call.att.authId, created[call.att.authId])
            && call.code == call.att.code
            && call.kit == call.att.claims.binding.kit
            && call.missionRef == call.att.claims.binding.missionRef && call.ephemeral == call.att.claims.ephemeral
  {
    RunKeepsInv(s, actions);
    var s1 := Run(s, actions);
    assert CallOk(s1.history, s1.place, i, s1.calls[i]);
    k := ClosedWasConsumed(s, actions, s1.calls[i].att.challengeId);
  }

  lemma {:induction false} ClosedStaysClosedInRun(s: State, actions: seq<Action>, ch: nat)
    requires Inv(s) && !Open(s, ch) && ch in s.history.subject
    ensures !Open(Run(s, actions), ch)
    decreases |actions|
  {
    if actions != [] {
      StepKeepsInv(s, actions[0]);
      StepGrows(s, actions[0]);
      OnlyConsumptionCloses(s, actions[0], ch);
      ClosedStaysClosedInRun(Step(s, actions[0]), actions[1..], ch);
    }
  }

  lemma ConsumptionCloses(s: State, a: Action, ch: nat, claims: Claims)
    requires Inv(s) && Consumes(s, a, ch, claims)
    ensures Open(s, ch) && !Open(Step(s, a), ch) && ch in Step(s, a).history.subject
  {
    var t := a.browser.task;
    assert MemoryOk(s.history, s.place, s.tasks[t].proc, Mem(s, t));
    assert CeremonyOk(s.history, s.place, s.tasks[t].proc, ch, Mem(s, t).ceremonies[ch]);
  }

  lemma {:induction false} RunSplits(s: State, xs: seq<Action>, ys: seq<Action>)
    ensures Run(s, xs + ys) == Run(Run(s, xs), ys)
    decreases |xs|
  {
    if xs == [] {
      assert xs + ys == ys;
    } else {
      assert (xs + ys)[1..] == xs[1..] + ys;
      RunSplits(Step(s, xs[0]), xs[1..], ys);
    }
  }

  /** Once consumed, a challenge is out of process memory ever after. */
  lemma ConsumedStaysClosed(s: State, actions: seq<Action>, j: nat, k: nat, ch: nat, claims: Claims)
    requires Inv(s) && j < k < |actions|
    requires ConsumedAt(s, actions, j, ch, claims)
    ensures !Open(Run(s, actions[..k]), ch)
  {
    var before := Run(s, actions[..j]);
    RunKeepsInv(s, actions[..j]);
    ConsumptionCloses(before, actions[j], ch, claims);
    StepKeepsInv(before, actions[j]);
    ClosedStaysClosedInRun(Step(before, actions[j]), actions[j + 1..k], ch);
    RunThrough(s, actions, j, k);
  }

  lemma RunThrough(s: State, actions: seq<Action>, j: nat, k: nat)
    requires j < k < |actions|
    ensures Run(s, actions[..k]) == Run(Step(Run(s, actions[..j]), actions[j]), actions[j + 1..k])
  {
    var rest := actions[j + 1..k];
    assert actions[..k] == actions[..j] + ([actions[j]] + rest);
    RunSplits(s, actions[..j], [actions[j]] + rest);
    assert ([actions[j]] + rest)[1..] == rest;
  }

  /** A challenge is consumed at most once in any run. */
  lemma OneConsumptionPerChallenge(s: State, actions: seq<Action>, j: nat, k: nat, ch: nat, c1: Claims, c2: Claims)
    requires Initial(s) && j < k < |actions|
    requires ConsumedAt(s, actions, j, ch, c1)
    ensures !ConsumedAt(s, actions, k, ch, c2)
  {
    ConsumedStaysClosed(s, actions, j, k, ch, c1);
    RunKeepsInv(s, actions[..k]);
    if ConsumedAt(s, actions, k, ch, c2) {
      ConsumptionCloses(Run(s, actions[..k]), actions[k], ch, c2);
    }
  }
}
