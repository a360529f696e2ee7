/** What one launch request comes to when nothing else happens meanwhile: the
    exact outcome of a decision and of an exchange, for every store, memory,
    clock reading and upstream answer.  The conditions are spelled out field by
    field, as the documentation of internal/launch promises them. */
module LaunchPaths {
  import opened Base
  import opened PassModel
  import opened LaunchStore
  import opened LaunchMachine

  // ---- The conditions ----------------------------------------------------

  /** The pass is approved and unexpired, and still carries every value pinned
      at creation. */
  predicate PassStands(passes: map<nat, Pass>, core: AuthCore, now: int) {
    && core.passId in passes
    && var pass := passes[core.passId];
    && pass.state == PassState.Approved
    && now < pass.expiresAt
    && pass.binding.proposal != 0 && pass.binding.proposal == core.binding.proposal
    && pass.binding.invocation == core.binding.invocation
    && pass.binding.kit == core.binding.kit && pass.binding.kitVersion == core.binding.kitVersion
    && pass.binding.arguments == core.binding.arguments
    && pass.binding.missionRef == core.binding.missionRef && pass.binding.missionVersion == core.binding.missionVersion
  }

  predicate SourcePinned(passes: map<nat, Pass>, core: AuthCore) {
    core.passId in passes && passes[core.passId].sourcePinned
  }

  /** The code belongs to this approved authorization. */
  predicate Names(s: State, id: nat, code: nat) {
    id in s.auths && s.auths[id].approval.Some? && s.auths[id].approval.value.code == code
  }

  /** The exchange may claim the code. */
  predicate Admitted(s: State, code: nat, verifier: nat, id: nat, found: int, read: int, upstreamAgrees: bool) {
    && Names(s, id, code)
    && found < s.auths[id].core.expiresAt
    && s.auths[id].core.challenge == verifier
    && PassStands(s.passes, s.auths[id].core, read) && SourcePinned(s.passes, s.auths[id].core)
    && upstreamAgrees
  }

  /** The process holds the decision attestation of this very approval. */
  predicate Attested(s: State, p: nat, code: nat, read: Read, now: int)
    requires p in s.procs
  {
    && read.authId in s.procs[p].cache
    && var att := s.procs[p].cache[read.authId];
    && now <= att.expiresAt && att.code == code && att.challengeId == read.approval.attDigest
  }

  /** The artifacts the authority hands out, directly or on reconciliation. */
  function Obtained(answer: Answer, lookup: Lookup): Option<Artifacts> {
    match answer
    case Prepared(x) => Some(x)
    case Ambiguous => if lookup.Found? then Some(lookup.artifacts) else None
    case _ => None
  }

  /** The artifacts can be adopted for the pass as it stands. */
  predicate Launchable(s: State, core: AuthCore, revision: nat, x: Artifacts, now: int) {
    && x.isolated && x.keyTrusted && x.runId != 0 && x.envelope != 0
    && x.missionRef == core.binding.missionRef
    && PassStands(s.passes, core, now) && SourcePinned(s.passes, core)
    && s.passes[core.passId].revision == revision
  }

  /** The pass row after a launch. */
  function Launched(pass: Pass, x: Artifacts): Pass {
    Pass(PassState.Launching, pass.revision + 1, pass.expiresAt,
         Binding(pass.binding.proposal, pass.binding.invocation, pass.binding.kit, pass.binding.kitVersion,
                 pass.binding.arguments, pass.binding.missionRef, x.missionVersion),
         pass.sourcePinned, x.runId)
  }

  // ---- Claiming ----------------------------------------------------------

  function Entered(s: State, t: nat, p: nat, code: nat, verifier: nat, id: nat,
                   found: int, read: int, upstreamAgrees: bool, claimed: int): State {
    var s1 := ExchangeStep(s, StartExchange(t, p, code, verifier));
    var s2 := ExchangeStep(s1, FindAuthorization(t, id, found));
    var s3 := ExchangeStep(s2, ReadPass(t, read, upstreamAgrees));
    ExchangeStep(s3, ClaimCode(t, claimed))
  }

  lemma Finds(s: State, t: nat, p: nat, code: nat, verifier: nat, id: nat, now: int)
    requires t !in s.tasks && p in s.procs && code !in s.rows
    ensures var s2 := AfterFind(AfterStartExchange(s, t, p, code, verifier), t, id, now);
            if Names(s, id, code) && now < s.auths[id].core.expiresAt && s.auths[id].core.challenge == verifier
            then s2 == s.(tasks := s.tasks[t := Task(p, ExFound(code, verifier, Read(id, s.auths[id].core, s.auths[id].approval.value)))])
            else s2 == s
  {
    var s1 := AfterStartExchange(s, t, p, code, verifier);
    assert s1 == s.(tasks := s.tasks[t := Task(p, ExLookup(code, verifier))]);
    assert s1.tasks - {t} == s.tasks;
  }

  lemma ReadsAndClaims(s: State, s2: State, t: nat, p: nat, code: nat, verifier: nat, read: Read,
                       now: int, upstreamAgrees: bool, claimed: int)
    requires t !in s.tasks && p in s.procs && code !in s.rows
    requires s2 == s.(tasks := s.tasks[t := Task(p, ExFound(code, verifier, read))])
    ensures var s4 := AfterClaim(AfterReadPass(s2, t, now, upstreamAgrees), t, claimed);
            if PassStands(s.passes, read.core, now) && SourcePinned(s.passes, read.core) && upstreamAgrees
            then s4 == s.(tasks := s.tasks[t := Task(p, ExOwned(code, read, s.passes[read.core.passId]))],
                          rows := s.rows[code := Row(read.authId, read.core.passId, InFlight, 0, read.approval.attDigest, 0, claimed)])
            else s4 == s
  {
    Reads(s, s2, t, p, code, verifier, read, now, upstreamAgrees);
    var s3 := AfterReadPass(s2, t, now, upstreamAgrees);
    if t in s3.tasks {
      assert AfterClaim(s3, t, claimed).tasks == s.tasks[t := Task(p, ExOwned(code, read, s.passes[read.core.passId]))];
    }
  }

  lemma Reads(s: State, s2: State, t: nat, p: nat, code: nat, verifier: nat, read: Read, now: int, upstreamAgrees: bool)
    requires t !in s.tasks && p in s.procs && s2 == s.(tasks := s.tasks[t := Task(p, ExFound(code, verifier, read))])
    ensures AfterReadPass(s2, t, now, upstreamAgrees)
            == if PassStands(s.passes, read.core, now) && SourcePinned(s.passes, read.core) && upstreamAgrees
               then s.(tasks := s.tasks[t := Task(p, ExValid(code, verifier, read, s.passes[read.core.passId]))])
               else s
  {
    assert s2.tasks - {t} == s.tasks;
    if PassStands(s.passes, read.core, now) {
      assert s.passes[read.core.passId].binding == read.core.binding;
    }
  }

  /** A request on a fresh code claims it exactly when the code names an
      approved, unexpired authorization whose challenge the verifier answers,
      the pass stands and the upstream agrees; otherwise it leaves nothing. */
  lemma EntersExactlyWhenAdmitted(s: State, t: nat, p: nat, code: nat, verifier: nat, id: nat,
                                  found: int, read: int, upstreamAgrees: bool, claimed: int)
    requires t !in s.tasks && p in s.procs && code !in s.rows
    ensures var s4 := Entered(s, t, p, code, verifier, id, found, read, upstreamAgrees, claimed);
            if Admitted(s, code, verifier, id, found, read, upstreamAgrees)
            then
              var r := Read(id, s.auths[id].core, s.auths[id].approval.value);
              s4 == s.(tasks := s.tasks[t := Task(p, ExOwned(code, r, s.passes[r.core.passId]))],
                       rows := s.rows[code := Row(id, r.core.passId, InFlight, 0, r.approval.attDigest, 0, claimed)])
            else s4 == s
  {
    Finds(s, t, p, code, verifier, id, found);
    var s2 := AfterFind(AfterStartExchange(s, t, p, code, verifier), t, id, found);
    if Names(s, id, code) && found < s.auths[id].core.expiresAt && s.auths[id].core.challenge == verifier {
      ReadsAndClaims(s, s2, t, p, code, verifier, Read(id, s.auths[id].core, s.auths[id].approval.value), read, upstreamAgrees, claimed);
    } else {
      assert AfterReadPass(s, t, read, upstreamAgrees) == s && AfterClaim(s, t, claimed) == s;
    }
  }

  // ---- Owning ------------------------------------------------------------

  lemma Takes(s: State, t: nat, p: nat, code: nat, read: Read, pass: Pass, now: int)
    requires t in s.tasks && p in s.procs && s.tasks[t] == Task(p, ExOwned(code, read, pass))
    ensures var s2 := AfterPrepare(AfterTake(s, t, now), t);
            && SameTables(s, s2) && s2.procs.Keys == s.procs.Keys
            && s2.procs[p].cache == s.procs[p].cache - {read.authId}
            && if Attested(s, p, code, read, now)
               then s2.tasks == s.tasks[t := Task(p, ExSent(code, read, pass))]
                    && s2.calls == s.calls + [Call(code, read.core.binding.kit, read.core.ephemeral, read.core.binding.missionRef,
                                                   s.procs[p].cache[read.authId])]
               else s2.tasks == s.tasks[t := Task(p, ExFailing(code))] && s2.calls == s.calls
  {
    if read.authId !in s.procs[p].cache {
      assert s.procs[p].cache - {read.authId} == s.procs[p].cache;
      assert AfterTake(s, t, now) == Goto(s, t, Some(ExFailing(code)));
    } else {
      assert AfterTake(s, t, now).tasks[t].pc.ExTaken? <==> Attested(s, p, code, read, now);
    }
  }

  lemma Hears(s: State, t: nat, p: nat, code: nat, read: Read, pass: Pass, answer: Answer, lookup: Lookup)
    requires t in s.tasks && p in s.procs && s.tasks[t] == Task(p, ExSent(code, read, pass))
    ensures AfterReconcile(AfterAnswer(s, t, answer), t, lookup)
            == s.(tasks := s.tasks[t := Task(p, match Obtained(answer, lookup)
                                                case Some(x) => ExAdopting(code, read, pass, x)
                                                case None => ExFailing(code))])
  {
    var s1 := AfterAnswer(s, t, answer);
    match answer
    case Prepared(x) => assert s1 == s.(tasks := s.tasks[t := Task(p, ExAdopting(code, read, pass, x))]);
    case Ambiguous => assert s1 == s.(tasks := s.tasks[t := Task(p, ExAmbiguous(code, read, pass))]);
    case Denied => assert s1 == s.(tasks := s.tasks[t := Task(p, ExFailing(code))]);
    case Canceled => assert s1 == s.(tasks := s.tasks[t := Task(p, ExFailing(code))]);
  }

  lemma Adopts(s: State, t: nat, p: nat, code: nat, read: Read, pass: Pass, x: Artifacts, adopted: int)
    requires t in s.tasks && p in s.procs && s.tasks[t] == Task(p, ExAdopting(code, read, pass, x))
    requires code in s.rows && s.rows[code].status.InFlight?
    ensures AfterAdopt(s, t, adopted)
            == if Launchable(s, read.core, pass.revision, x, adopted)
               then s.(tasks := s.tasks[t := Task(p, ExDelivering(code, Result(x.runId, x.missionRef, x.envelope)))],
                       passes := s.passes[read.core.passId := Launched(s.passes[read.core.passId], x)],
                       rows := s.rows[code := s.rows[code].(status := RowStatus.Completed, runId := x.runId,
                                                            envelope := x.envelope, updatedAt := adopted)])
               else s.(tasks := s.tasks[t := Task(p, ExFailing(code))])
  {
    if PassStands(s.passes, read.core, adopted) {
      assert s.passes[read.core.passId].binding == read.core.binding;
    }
  }

  /** The request ends by failing its row or by delivering. */
  function Ended(s: State, t: nat, failed: int): State {
    ExchangeStep(ExchangeStep(s, SettleFailed(t, failed)), Deliver(t))
  }

  lemma EndsFailing(s: State, t: nat, p: nat, code: nat, failed: int)
    requires t in s.tasks && p in s.procs && s.tasks[t] == Task(p, ExFailing(code))
    requires code in s.rows && s.rows[code].status.InFlight?
    ensures Ended(s, t, failed)
            == s.(tasks := s.tasks - {t},
                  rows := s.rows[code := s.rows[code].(status := RowStatus.Failed, runId := 0, envelope := 0, updatedAt := failed)])
  {
  }

  lemma EndsDelivering(s: State, t: nat, p: nat, code: nat, result: Result, failed: int)
    requires t in s.tasks && p in s.procs && s.tasks[t] == Task(p, ExDelivering(code, result))
    ensures Ended(s, t, failed)
            == s.(tasks := s.tasks - {t}, results := s.results + [Delivered(code, result)],
                  procs := s.procs[p := s.procs[p].(delivery := s.procs[p].delivery[code := result])])
  {
  }

  /** The row is completed, the pass launched and the result returned. */
  ghost predicate LeavesCompleted(s: State, s1: State, code: nat, core: AuthCore, x: Artifacts, now: int) {
    && code in s.rows && core.passId in s.passes
    && s1.rows == s.rows[code := s.rows[code].(status := RowStatus.Completed, runId := x.runId, envelope := x.envelope, updatedAt := now)]
    && s1.passes == s.passes[core.passId := Launched(s.passes[core.passId], x)]
    && s1.results == s.results + [Delivered(code, Result(x.runId, x.missionRef, x.envelope))]
  }

  /** The row is settled without artifacts; no pass changes, nothing is returned. */
  ghost predicate LeavesSettled(s: State, s1: State, code: nat, status: RowStatus, now: int) {
    && code in s.rows
    && s1.rows == s.rows[code := s.rows[code].(status := status, runId := 0, envelope := 0, updatedAt := now)]
    && s1.passes == s.passes && s1.results == s.results
  }

  /** From artifacts in hand to the end of the request. */
  function Settled(s: State, t: nat, adopted: int, failed: int): State {
    Ended(ExchangeStep(s, ExchangeAction.Adopt(t, adopted)), t, failed)
  }

  lemma SettlesExactlyWhenLaunchable(s: State, t: nat, p: nat, code: nat, read: Read, pass: Pass, x: Artifacts, adopted: int, failed: int)
    requires t in s.tasks && p in s.procs && s.tasks[t] == Task(p, ExAdopting(code, read, pass, x))
    requires code in s.rows && s.rows[code].status.InFlight?
    ensures var s1 := Settled(s, t, adopted, failed);
            && s1.tasks == s.tasks - {t} && s1.calls == s.calls
            && if Launchable(s, read.core, pass.revision, x, adopted)
               then LeavesCompleted(s, s1, code, read.core, x, adopted)
               else LeavesSettled(s, s1, code, RowStatus.Failed, failed)
  {
    Adopts(s, t, p, code, read, pass, x, adopted);
    var s1 := AfterAdopt(s, t, adopted);
    if Launchable(s, read.core, pass.revision, x, adopted) {
      EndsDelivering(s1, t, p, code, Result(x.runId, x.missionRef, x.envelope), failed);
    } else {
      EndsFailing(s1, t, p, code, failed);
    }
  }

  /** The claimant's way from the claim to the end of the request. */
  function Owned(s: State, t: nat, taken: int, answer: Answer, lookup: Lookup, adopted: int, failed: int): State {
    var s1 := ExchangeStep(ExchangeStep(s, TakeAttestation(t, taken)), PrepareLaunch(t));
    var s2 := ExchangeStep(ExchangeStep(s1, ReceiveAnswer(t, answer)), Reconcile(t, lookup));
    Settled(s2, t, adopted, failed)
  }

  lemma FailsSettled(s: State, t: nat, p: nat, code: nat, adopted: int, failed: int)
    requires t in s.tasks && p in s.procs && s.tasks[t] == Task(p, ExFailing(code))
    requires code in s.rows && s.rows[code].status.InFlight?
    ensures Settled(s, t, adopted, failed)
            == s.(tasks := s.tasks - {t},
                  rows := s.rows[code := s.rows[code].(status := RowStatus.Failed, runId := 0, envelope := 0, updatedAt := failed)])
  {
    assert AfterAdopt(s, t, adopted) == s;
    EndsFailing(s, t, p, code, failed);
  }

  lemma HearsNothingFailing(s: State, t: nat, p: nat, code: nat, answer: Answer, lookup: Lookup)
    requires t in s.tasks && p in s.procs && s.tasks[t] == Task(p, ExFailing(code))
    ensures AfterReconcile(AfterAnswer(s, t, answer), t, lookup) == s
  {
  }

  /** The claimant prepared the launch and waits for the answer. */
  lemma SentSettlesExactly(s: State, t: nat, p: nat, code: nat, read: Read, pass: Pass,
                           answer: Answer, lookup: Lookup, adopted: int, failed: int)
    requires t in s.tasks && p in s.procs && s.tasks[t] == Task(p, ExSent(code, read, pass))
    requires code in s.rows && s.rows[code].status.InFlight?
    ensures var s1 := Settled(AfterReconcile(AfterAnswer(s, t, answer), t, lookup), t, adopted, failed);
            var x := Obtained(answer, lookup);
            && s1.tasks == s.tasks - {t} && s1.calls == s.calls
            && if x.Some? && Launchable(s, read.core, pass.revision, x.value, adopted)
               then LeavesCompleted(s, s1, code, read.core, x.value, adopted)
               else LeavesSettled(s, s1, code, RowStatus.Failed, failed)
  {
    Hears(s, t, p, code, read, pass, answer, lookup);
    var s4 := AfterReconcile(AfterAnswer(s, t, answer), t, lookup);
    match Obtained(answer, lookup)
    case Some(x) => SettlesExactlyWhenLaunchable(s4, t, p, code, read, pass, x, adopted, failed);
    case None => FailsSettled(s4, t, p, code, adopted, failed);
  }

  lemma UnattestedFails(s: State, t: nat, p: nat, code: nat, answer: Answer, lookup: Lookup, adopted: int, failed: int)
    requires t in s.tasks && p in s.procs && s.tasks[t] == Task(p, ExFailing(code))
    requires code in s.rows && s.rows[code].status.InFlight?
    ensures var s1 := Settled(AfterReconcile(AfterAnswer(s, t, answer), t, lookup), t, adopted, failed);
            s1.tasks == s.tasks - {t} && s1.calls == s.calls && LeavesSettled(s, s1, code, RowStatus.Failed, failed)
  {
    HearsNothingFailing(s, t, p, code, answer, lookup);
    FailsSettled(s, t, p, code, adopted, failed);
  }

  /** The artifacts the claimant ends up adopting, if any. */
  function Adopted(s: State, p: nat, code: nat, read: Read, revision: nat, taken: int, answer: Answer, lookup: Lookup, adopted: int): Option<Artifacts>
    requires p in s.procs
  {
    var x := Obtained(answer, lookup);
    if Attested(s, p, code, read, taken) && x.Some? && Launchable(s, read.core, revision, x.value, adopted) then x else None
  }

  /** The call the claimant makes. */
  function CallsAfter(s: State, p: nat, code: nat, read: Read, taken: int): seq<Call>
    requires p in s.procs
  {
    if Attested(s, p, code, read, taken)
    then s.calls + [Call(code, read.core.binding.kit, read.core.ephemeral, read.core.binding.missionRef, s.procs[p].cache[read.authId])]
    else s.calls
  }

  /** The claimant prepares the launch exactly when it holds the attestation of
      this approval, and launches exactly when the authority hands out
      acceptable artifacts and the pass still stands at the revision read;
      whatever goes wrong fails the row. */
  lemma OwnerSettlesExactly(s: State, t: nat, p: nat, code: nat, read: Read, pass: Pass,
                            taken: int, answer: Answer, lookup: Lookup, adopted: int, failed: int)
    requires t in s.tasks && p in s.procs && s.tasks[t] == Task(p, ExOwned(code, read, pass))
    requires code in s.rows && s.rows[code].status.InFlight?
    ensures var s1 := Owned(s, t, taken, answer, lookup, adopted, failed);
            && s1.tasks == s.tasks - {t} && s1.calls == CallsAfter(s, p, code, read, taken)
            && match Adopted(s, p, code, read, pass.revision, taken, answer, lookup, adopted)
               case Some(x) => LeavesCompleted(s, s1, code, read.core, x, adopted)
               case None => LeavesSettled(s, s1, code, RowStatus.Failed, failed)
  {
    Takes(s, t, p, code, read, pass, taken);
    var s2 := AfterPrepare(AfterTake(s, t, taken), t);
    if Attested(s, p, code, read, taken) {
      AttestedSettles(s, s2, t, p, code, read, pass, answer, lookup, adopted, failed);
    } else {
      UnattestedSettles(s, s2, t, p, code, answer, lookup, adopted, failed);
    }
  }

  predicate SameTables(s: State, s1: State) { s1.rows == s.rows && s1.passes == s.passes && s1.results == s.results }

  lemma AttestedSettles(s: State, s2: State, t: nat, p: nat, code: nat, read: Read, pass: Pass,
                        answer: Answer, lookup: Lookup, adopted: int, failed: int)
    requires SameTables(s, s2) && p in s2.procs && code in s.rows && s.rows[code].status.InFlight?
    requires s2.tasks == s.tasks[t := Task(p, ExSent(code, read, pass))]
    ensures var s1 := Settled(AfterReconcile(AfterAnswer(s2, t, answer), t, lookup), t, adopted, failed);
            var x := Obtained(answer, lookup);
            && s1.tasks == s.tasks - {t} && s1.calls == s2.calls
            && if x.Some? && Launchable(s, read.core, pass.revision, x.value, adopted)
               then LeavesCompleted(s, s1, code, read.core, x.value, adopted)
               else LeavesSettled(s, s1, code, RowStatus.Failed, failed)
  {
    SentSettlesExactly(s2, t, p, code, read, pass, answer, lookup, adopted, failed);
    assert s2.tasks - {t} == s.tasks - {t};
  }

  lemma UnattestedSettles(s: State, s2: State, t: nat, p: nat, code: nat, answer: Answer, lookup: Lookup, adopted: int, failed: int)
    requires SameTables(s, s2) && p in s2.procs && code in s.rows && s.rows[code].status.InFlight?
    requires s2.tasks == s.tasks[t := Task(p, ExFailing(code))]
    ensures var s1 := Settled(AfterReconcile(AfterAnswer(s2, t, answer), t, lookup), t, adopted, failed);
            s1.tasks == s.tasks - {t} && s1.calls == s2.calls && LeavesSettled(s, s1, code, RowStatus.Failed, failed)
  {
    UnattestedFails(s2, t, p, code, answer, lookup, adopted, failed);
    assert s2.tasks - {t} == s.tasks - {t};
  }

  /** One exchange of a fresh code from start to end. */
  function Exchanged(s: State, t: nat, p: nat, code: nat, verifier: nat, id: nat, found: int, read: int, upstreamAgrees: bool,
                     claimed: int, taken: int, answer: Answer, lookup: Lookup, adopted: int, failed: int): State {
    Owned(Entered(s, t, p, code, verifier, id, found, read, upstreamAgrees, claimed), t, taken, answer, lookup, adopted, failed)
  }

  lemma OwningNothing(s: State, t: nat, taken: int, answer: Answer, lookup: Lookup, adopted: int, failed: int)
    requires t !in s.tasks
    ensures Owned(s, t, taken, answer, lookup, adopted, failed) == s
  {
  }

  lemma EnteringStands(s: State, s4: State, t: nat, p: nat, code: nat, read: Read, revision: nat,
                       taken: int, answer: Answer, lookup: Lookup, adopted: int)
    requires p in s.procs && s4.procs == s.procs && s4.passes == s.passes
    ensures Attested(s4, p, code, read, taken) <==> Attested(s, p, code, read, taken)
    ensures Adopted(s4, p, code, read, revision, taken, answer, lookup, adopted) == Adopted(s, p, code, read, revision, taken, answer, lookup, adopted)
  {
  }

  /** The exact outcome of an exchange of a fresh code that nothing interrupts:
      a request that is not admitted changes nothing at all; an admitted one
      calls at most once and leaves its row completed or failed, and it returns
      the sealed result exactly when it completes the row and launches the pass. */
  lemma ExchangeOutcome(s: State, t: nat, p: nat, code: nat, verifier: nat, id: nat, found: int, read: int, upstreamAgrees: bool,
                        claimed: int, taken: int, answer: Answer, lookup: Lookup, adopted: int, failed: int)
    requires t !in s.tasks && p in s.procs && code !in s.rows
    ensures var s1 := Exchanged(s, t, p, code, verifier, id, found, read, upstreamAgrees, claimed, taken, answer, lookup, adopted, failed);
            if !Admitted(s, code, verifier, id, found, read, upstreamAgrees) then s1 == s
            else
              var r := Read(id, s.auths[id].core, s.auths[id].approval.value);
              var claim := s.(rows := s.rows[code := Row(id, r.core.passId, InFlight, 0, r.approval.attDigest, 0, claimed)]);
              && s1.tasks == s.tasks && s1.calls == CallsAfter(s, p, code, r, taken)
              && match Adopted(s, p, code, r, s.passes[r.core.passId].revision, taken, answer, lookup, adopted)
                 case Some(x) => LeavesCompleted(claim, s1, code, r.core, x, adopted)
                 case None => LeavesSettled(claim, s1, code, RowStatus.Failed, failed)
  {
    EntersExactlyWhenAdmitted(s, t, p, code, verifier, id, found, read, upstreamAgrees, claimed);
    if Admitted(s, code, verifier, id, found, read, upstreamAgrees) {
      ClaimantOutcome(s, t, p, code, id, claimed, taken, answer, lookup, adopted, failed);
    } else {
      OwningNothing(s, t, taken, answer, lookup, adopted, failed);
    }
  }

  lemma ClaimantOutcome(s: State, t: nat, p: nat, code: nat, id: nat, claimed: int,
                        taken: int, answer: Answer, lookup: Lookup, adopted: int, failed: int)
    requires t !in s.tasks && p in s.procs && Names(s, id, code) && s.auths[id].core.passId in s.passes
    ensures var r := Read(id, s.auths[id].core, s.auths[id].approval.value);
            var pass := s.passes[r.core.passId];
            var claim := s.(rows := s.rows[code := Row(id, r.core.passId, InFlight, 0, r.approval.attDigest, 0, claimed)]);
            var s1 := Owned(claim.(tasks := s.tasks[t := Task(p, ExOwned(code, r, pass))]), t, taken, answer, lookup, adopted, failed);
            && s1.tasks == s.tasks && s1.calls == CallsAfter(s, p, code, r, taken)
            && match Adopted(s, p, code, r, pass.revision, taken, answer, lookup, adopted)
               case Some(x) => LeavesCompleted(claim, s1, code, r.core, x, adopted)
               case None => LeavesSettled(claim, s1, code, RowStatus.Failed, failed)
  {
    var r := Read(id, s.auths[id].core, s.auths[id].approval.value);
    var pass := s.passes[r.core.passId];
    var s4 := s.(rows := s.rows[code := Row(id, r.core.passId, InFlight, 0, r.approval.attDigest, 0, claimed)],
                 tasks := s.tasks[t := Task(p, ExOwned(code, r, pass))]);
    OwnerSettlesExactly(s4, t, p, code, r, pass, taken, answer, lookup, adopted, failed);
    EnteringStands(s, s4, t, p, code, r, pass.revision, taken, answer, lookup, adopted);
    assert s4.tasks - {t} == s.tasks;
  }

  // ---- Following a completed row -----------------------------------------

  /** One exchange of a code whose row exists, up to the deliveries. */
  function Replayed(s: State, t: nat, p: nat, code: nat, verifier: nat, followed: int, id: nat, lookup: Lookup): State {
    var s1 := ReplayStep(ExchangeStep(s, StartExchange(t, p, code, verifier)), FollowRow(t, followed));
    var s2 := ReplayStep(ReplayStep(s1, ProveVerifier(t, id)), Recall(t));
    ExchangeStep(ReplayStep(s2, Rebuild(t, lookup)), Deliver(t))
  }

  /** The sealed result a completed code still has: the cached one, or the one
      the upstream lookup finds. */
  function Kept(s: State, p: nat, code: nat, lookup: Lookup): Option<Result>
    requires p in s.procs
  {
    if code in s.procs[p].delivery then Some(s.procs[p].delivery[code])
    else if lookup.Found? && lookup.artifacts.envelope != 0
    then Some(Result(lookup.artifacts.runId, lookup.artifacts.missionRef, lookup.artifacts.envelope))
    else None
  }

  /** A request that loses the claim goes on with the winner's row, which it
      leaves alone, if the row is still there. */
  lemma LoserFollows(s: State, t: nat, p: nat, code: nat, verifier: nat, read: Read, pass: Pass, claimed: int)
    requires t in s.tasks && p in s.procs && s.tasks[t] == Task(p, ExValid(code, verifier, read, pass)) && code in s.rows
    ensures ReplayStep(ExchangeStep(s, ClaimCode(t, claimed)), Reread(t))
            == s.(tasks := s.tasks[t := Task(p, ExFollow(code, verifier, s.rows[code]))])
    ensures ReplayStep(s.(tasks := s.tasks[t := Task(p, ExReread(code, verifier))], rows := s.rows - {code}), Reread(t))
            == s.(tasks := s.tasks - {t}, rows := s.rows - {code})
  {
  }

  lemma Follows(s: State, t: nat, p: nat, code: nat, verifier: nat, followed: int)
    requires t !in s.tasks && p in s.procs && code in s.rows
    ensures var s1 := AfterFollow(AfterStartExchange(s, t, p, code, verifier), t, followed);
            var row, stale := s.rows[code], followed - s.rows[code].updatedAt > 600;
            s1 == if row.status.Completed? && !stale then s.(tasks := s.tasks[t := Task(p, ExReplay(code, verifier))])
                  else if row.status.InFlight? && stale then s.(tasks := s.tasks[t := Task(p, ExStale(code))])
                  else if row.status.InFlight? then s.(tasks := s.tasks[t := Task(p, ExOrphan(code))])
                  else s
  {
    var s0 := AfterStartExchange(s, t, p, code, verifier);
    assert s0 == s.(tasks := s.tasks[t := Task(p, ExFollow(code, verifier, s.rows[code]))]);
    assert s0.tasks - {t} == s.tasks;
  }

  lemma Recalls(s: State, s1: State, t: nat, p: nat, code: nat, verifier: nat, id: nat)
    requires t !in s.tasks && p in s.procs && s1 == s.(tasks := s.tasks[t := Task(p, ExReplay(code, verifier))])
    ensures AfterRecall(AfterProve(s1, t, id), t)
            == if !Names(s, id, code) || s.auths[id].core.challenge != verifier then s
               else if code in s.procs[p].delivery then s.(results := s.results + [Delivered(code, s.procs[p].delivery[code])])
               else s.(tasks := s.tasks[t := Task(p, ExRebuild(code))])
  {
    assert s1.tasks - {t} == s.tasks;
    if Names(s, id, code) && s.auths[id].core.challenge == verifier {
      var s2 := AfterProve(s1, t, id);
      assert s2 == s.(tasks := s.tasks[t := Task(p, ExRecall(code))]);
      assert s2.tasks - {t} == s.tasks;
    }
  }

  lemma Rebuilds(s: State, s2: State, t: nat, p: nat, code: nat, lookup: Lookup)
    requires t !in s.tasks && p in s.procs && s2 == s.(tasks := s.tasks[t := Task(p, ExRebuild(code))])
    ensures var s3 := AfterRebuild(s2, t, lookup);
            s3 == if lookup.Found? && lookup.artifacts.envelope != 0
                  then s.(tasks := s.tasks[t := Task(p, ExDelivering(code, Result(lookup.artifacts.runId, lookup.artifacts.missionRef, lookup.artifacts.envelope)))])
                  else s
  {
    assert s2.tasks - {t} == s.tasks;
  }

  lemma Delivers(s: State, s3: State, t: nat, p: nat, code: nat, result: Result)
    requires t !in s.tasks && p in s.procs && s3 == s.(tasks := s.tasks[t := Task(p, ExDelivering(code, result))])
    ensures var s4 := AfterDeliver(s3, t);
            && s4.tasks == s.tasks && s4.rows == s.rows && s4.passes == s.passes && s4.calls == s.calls
            && s4.results == s.results + [Delivered(code, result)]
  {
    assert s3.tasks - {t} == s.tasks;
  }

  /** A request on a completed code gets the sealed result exactly when the row
      is not older than ten minutes, the verifier answers the challenge of the
      code's authorization and the result can still be had; it changes no row,
      pass or call either way. */
  lemma ReplayOutcome(s: State, t: nat, p: nat, code: nat, verifier: nat, followed: int, id: nat, lookup: Lookup)
    requires t !in s.tasks && p in s.procs && code in s.rows && s.rows[code].status.Completed?
    ensures var s1 := Replayed(s, t, p, code, verifier, followed, id, lookup);
            && s1.tasks == s.tasks && s1.rows == s.rows && s1.passes == s.passes && s1.calls == s.calls
            && s1.results == (if followed - s.rows[code].updatedAt <= 600
                                 && Names(s, id, code) && s.auths[id].core.challenge == verifier
                                 && Kept(s, p, code, lookup).Some?
                              then s.results + [Delivered(code, Kept(s, p, code, lookup).value)]
                              else s.results)
  {
    Follows(s, t, p, code, verifier, followed);
    var s1 := AfterFollow(AfterStartExchange(s, t, p, code, verifier), t, followed);
    if followed - s.rows[code].updatedAt <= 600 {
      Recalls(s, s1, t, p, code, verifier, id);
      var s2 := AfterRecall(AfterProve(s1, t, id), t);
      if t in s2.tasks {
        Rebuilds(s, s2, t, p, code, lookup);
        if lookup.Found? && lookup.artifacts.envelope != 0 {
          var x := lookup.artifacts;
          Delivers(s, AfterRebuild(s2, t, lookup), t, p, code, Result(x.runId, x.missionRef, x.envelope));
        }
      } else {
        DeliveringNothing(s2, t, lookup);
      }
    } else {
      assert AfterRecall(AfterProve(s, t, id), t) == s;
      DeliveringNothing(s, t, lookup);
    }
  }

  lemma DeliveringNothing(s: State, t: nat, lookup: Lookup)
    requires t !in s.tasks
    ensures AfterDeliver(AfterRebuild(s, t, lookup), t) == s
  {
  }

  // ---- Following a row in flight -----------------------------------------

  function Resumed(s: State, t: nat, p: nat, code: nat, verifier: nat, followed: int, expired: int,
                   lookup: Lookup, id: nat, adopted: int, failed: int): State {
    var s1 := ReplayStep(ExchangeStep(s, StartExchange(t, p, code, verifier)), FollowRow(t, followed));
    var s2 := OrphanStep(OrphanStep(s1, SettleExpired(t, expired)), ReconcileOrphan(t, lookup));
    var s3 := OrphanStep(OrphanStep(s2, FindOrphanAuthorization(t, id)), ReadOrphanPass(t));
    Settled(s3, t, adopted, failed)
  }

  /** What a lookup for a code in flight lets this request adopt. */
  predicate Resumable(s: State, code: nat, lookup: Lookup, id: nat) {
    && lookup.Found? && lookup.artifacts.envelope != 0
    && Names(s, id, code) && s.auths[id].core.passId in s.passes
  }

  lemma FindsOrphan(s: State, s1: State, t: nat, p: nat, code: nat, lookup: Lookup, id: nat, expired: int)
    requires t !in s.tasks && p in s.procs && s1 == s.(tasks := s.tasks[t := Task(p, ExOrphan(code))])
    ensures var s2 := AfterOrphanLookup(AfterSettleExpired(s1, t, expired), t, lookup);
            AfterReadOrphanPass(AfterFindOrphan(s2, t, id), t)
            == if Resumable(s, code, lookup, id)
               then
                 var r := Read(id, s.auths[id].core, s.auths[id].approval.value);
                 s.(tasks := s.tasks[t := Task(p, ExAdopting(code, r, s.passes[r.core.passId], lookup.artifacts))])
               else s
  {
    assert AfterSettleExpired(s1, t, expired) == s1;
    assert s1.tasks - {t} == s.tasks;
    var s2 := AfterOrphanLookup(s1, t, lookup);
    if lookup.Found? && lookup.artifacts.envelope != 0 {
      ReadsOrphan(s, s2, t, p, code, lookup.artifacts, id);
    } else {
      assert s2 == s;
      assert AfterFindOrphan(s, t, id) == s && AfterReadOrphanPass(s, t) == s;
    }
  }

  lemma ReadsOrphan(s: State, s2: State, t: nat, p: nat, code: nat, x: Artifacts, id: nat)
    requires t !in s.tasks && p in s.procs && s2 == s.(tasks := s.tasks[t := Task(p, ExOrphanArtifacts(code, x))])
    ensures AfterReadOrphanPass(AfterFindOrphan(s2, t, id), t)
            == if Names(s, id, code) && s.auths[id].core.passId in s.passes
               then
                 var r := Read(id, s.auths[id].core, s.auths[id].approval.value);
                 s.(tasks := s.tasks[t := Task(p, ExAdopting(code, r, s.passes[r.core.passId], x))])
               else s
  {
    assert s2.tasks - {t} == s.tasks;
    if Names(s, id, code) {
      var s3 := AfterFindOrphan(s2, t, id);
      assert s3 == s.(tasks := s.tasks[t := Task(p, ExOrphanRead(code, x, Read(id, s.auths[id].core, s.auths[id].approval.value)))]);
      assert s3.tasks - {t} == s.tasks;
    } else {
      assert AfterFindOrphan(s2, t, id) == s && AfterReadOrphanPass(s, t) == s;
    }
  }

  lemma Expires(s: State, s1: State, t: nat, p: nat, code: nat, expired: int)
    requires t !in s.tasks && p in s.procs && s1 == s.(tasks := s.tasks[t := Task(p, ExStale(code))])
    requires code in s.rows && s.rows[code].status.InFlight?
    ensures AfterSettleExpired(s1, t, expired)
            == s.(rows := s.rows[code := s.rows[code].(status := RowStatus.Expired, runId := 0, envelope := 0, updatedAt := expired)])
  {
    assert s1.tasks - {t} == s.tasks;
  }

  lemma ResumingNothing(s: State, t: nat, lookup: Lookup, id: nat, adopted: int, failed: int)
    requires t !in s.tasks
    ensures var s2 := OrphanStep(s, ReconcileOrphan(t, lookup));
            Settled(OrphanStep(OrphanStep(s2, FindOrphanAuthorization(t, id)), ReadOrphanPass(t)), t, adopted, failed) == s
  {
  }

  /** A request on a code in flight never calls.  It expires a row older than
      ten minutes; on a younger one it adopts what the upstream lookup finds
      exactly when that can be launched, fails the row when it cannot, and
      leaves everything alone when nothing is found.  Its verifier is not
      looked at. */
  lemma ResumeOutcome(s: State, t: nat, p: nat, code: nat, verifier: nat, followed: int, expired: int,
                      lookup: Lookup, id: nat, adopted: int, failed: int)
    requires t !in s.tasks && p in s.procs && code in s.rows && s.rows[code].status.InFlight?
    ensures var s1 := Resumed(s, t, p, code, verifier, followed, expired, lookup, id, adopted, failed);
            && s1.calls == s.calls && s1.tasks == s.tasks
            && if followed - s.rows[code].updatedAt > 600 then LeavesSettled(s, s1, code, RowStatus.Expired, expired)
               else if !Resumable(s, code, lookup, id) then s1 == s
               else
                 var core := s.auths[id].core;
                 if Launchable(s, core, s.passes[core.passId].revision, lookup.artifacts, adopted)
                 then LeavesCompleted(s, s1, code, core, lookup.artifacts, adopted)
                 else LeavesSettled(s, s1, code, RowStatus.Failed, failed)
  {
    Follows(s, t, p, code, verifier, followed);
    var s1 := AfterFollow(AfterStartExchange(s, t, p, code, verifier), t, followed);
    if followed - s.rows[code].updatedAt > 600 {
      Expires(s, s1, t, p, code, expired);
      ResumingNothing(AfterSettleExpired(s1, t, expired), t, lookup, id, adopted, failed);
    } else {
      FindsOrphan(s, s1, t, p, code, lookup, id, expired);
      if Resumable(s, code, lookup, id) {
        ResumedSettles(s, t, p, code, lookup.artifacts, id, adopted, failed);
      } else {
        SettlingNothing(s, t, adopted, failed);
      }
    }
  }

  lemma SettlingNothing(s: State, t: nat, adopted: int, failed: int)
    requires t !in s.tasks
    ensures Settled(s, t, adopted, failed) == s
  {
  }

  lemma ResumedSettles(s: State, t: nat, p: nat, code: nat, x: Artifacts, id: nat, adopted: int, failed: int)
    requires t !in s.tasks && p in s.procs && code in s.rows && s.rows[code].status.InFlight?
    requires Names(s, id, code) && s.auths[id].core.passId in s.passes
    ensures var core := s.auths[id].core;
            var pass := s.passes[core.passId];
            var s0 := s.(tasks := s.tasks[t := Task(p, ExAdopting(code, Read(id, core, s.auths[id].approval.value), pass, x))]);
            var s1 := Settled(s0, t, adopted, failed);
            && s1.calls == s.calls && s1.tasks == s.tasks
            && if Launchable(s, core, pass.revision, x, adopted)
               then LeavesCompleted(s, s1, code, core, x, adopted)
               else LeavesSettled(s, s1, code, RowStatus.Failed, failed)
  {
    var core := s.auths[id].core;
    var r := Read(id, core, s.auths[id].approval.value);
    var s0 := s.(tasks := s.tasks[t := Task(p, ExAdopting(code, r, s.passes[core.passId], x))]);
    SettlesExactlyWhenLaunchable(s0, t, p, code, r, s.passes[core.passId], x, adopted, failed);
    assert s0.tasks - {t} == s.tasks;
  }

  // ---- The browser decision ----------------------------------------------

  /** One decision from its begin to the cached attestation. */
  function Begun(s: State, t: nat, p: nat, ch: nat, id: nat, begun: int, expiresAt: int, finished: int): State {
    BrowserStep(BrowserStep(s, BeginDecision(p, ch, id, begun, expiresAt)), StartFinish(t, p, id, ch, finished))
  }

  function Finished(s: State, t: nat, consumed: int, verified: bool, reloaded: int, code: nat): State {
    var s1 := BrowserStep(BrowserStep(s, ConsumeCeremony(t, consumed, verified)), ReloadBinding(t, reloaded));
    BrowserStep(BrowserStep(s1, Approve(t, code)), CacheAttestation(t))
  }

  /** The authorization is open for a decision. */
  predicate Decidable(s: State, id: nat, now: int) {
    && id in s.auths && s.auths[id].approval.None? && now <= s.auths[id].core.expiresAt
    && PassStands(s.passes, s.auths[id].core, now)
  }

  lemma BeginsExactly(s: State, p: nat, ch: nat, id: nat, now: int, expiresAt: int)
    requires p in s.procs && ch !in s.history.subject
    ensures var s1 := AfterBegin(s, p, ch, id, now, expiresAt);
            if Decidable(s, id, now)
            then
              var c := s.auths[id].core;
              var claims := Claims(id, c.passId, c.binding, c.redirect, c.challenge, c.ephemeral);
              s1 == s.(procs := s.procs[p := s.procs[p].(ceremonies := s.procs[p].ceremonies[ch := Ceremony(claims, expiresAt)])],
                       place := s.place[ch := Pending(p)],
                       history := s.history.(subject := s.history.subject[ch := id]))
            else s1 == s
  {
    if Decidable(s, id, now) {
      assert s.passes[s.auths[id].core.passId].binding == s.auths[id].core.binding;
    }
  }

  lemma StartsExactly(s: State, t: nat, p: nat, ch: nat, id: nat, now: int)
    requires p in s.procs && t !in s.tasks
    ensures AfterStartFinish(s, t, p, id, ch, now)
            == if Decidable(s, id, now) then s.(tasks := s.tasks[t := Task(p, FinRead(id, ch, s.auths[id].core))]) else s
  {
    if Decidable(s, id, now) {
      assert s.passes[s.auths[id].core.passId].binding == s.auths[id].core.binding;
    }
  }

  lemma ConsumesExactly(s: State, t: nat, p: nat, ch: nat, id: nat, core: AuthCore, now: int, verified: bool)
    requires p in s.procs && t in s.tasks && s.tasks[t] == Task(p, FinRead(id, ch, core))
    ensures var s1 := AfterConsume(s, t, now, verified);
            var claims := Claims(id, core.passId, core.binding, core.redirect, core.challenge, core.ephemeral);
            && s1.procs == s.procs[p := s.procs[p].(ceremonies := s.procs[p].ceremonies - {ch})]
            && s1.auths == s.auths && s1.history == s.history && SameElsewhere(s, s1)
            && s1.tasks == (if ch in s.procs[p].ceremonies && s.procs[p].ceremonies[ch].claims == claims
                               && now < s.procs[p].ceremonies[ch].expiresAt && verified
                            then s.tasks[t := Task(p, FinVerified(id, ch, core, claims))]
                            else s.tasks - {t})
  {
    if ch !in s.procs[p].ceremonies {
      assert s.procs[p].ceremonies - {ch} == s.procs[p].ceremonies;
    }
  }

  lemma ReloadsExactly(s: State, t: nat, p: nat, ch: nat, id: nat, core: AuthCore, claims: Claims, now: int)
    requires p in s.procs && t in s.tasks && s.tasks[t] == Task(p, FinVerified(id, ch, core, claims))
    ensures AfterReload(s, t, now)
            == s.(tasks := if PassStands(s.passes, core, now) then s.tasks[t := Task(p, FinReloaded(id, ch, core, claims))] else s.tasks - {t})
  {
    if PassStands(s.passes, core, now) {
      assert s.passes[core.passId].binding == core.binding;
    }
  }

  lemma ApprovesExactly(s: State, t: nat, p: nat, ch: nat, id: nat, core: AuthCore, claims: Claims, code: nat)
    requires p in s.procs && t in s.tasks && s.tasks[t] == Task(p, FinReloaded(id, ch, core, claims)) && code !in s.history.minted
    ensures var s1 := AfterApprove(s, t, code);
            if id in s.auths && s.auths[id].approval.None?
            then s1 == s.(tasks := s.tasks[t := Task(p, FinApproved(Attestation(id, ch, claims, code, core.expiresAt)))],
                          auths := s.auths[id := Auth(s.auths[id].core, Some(Approval(ch, ch, code)))],
                          history := s.history.(minted := s.history.minted[code := Mint(ch, id)],
                                                approvedBy := s.history.approvedBy[id := ch]))
            else s1 == s.(tasks := s.tasks - {t})
  {
  }

  lemma CachesExactly(s: State, t: nat, p: nat, att: Attestation)
    requires p in s.procs && t in s.tasks && s.tasks[t] == Task(p, FinApproved(att))
    ensures AfterCache(s, t)
            == s.(tasks := s.tasks - {t}, place := s.place[att.challengeId := Cached(p)],
                  procs := s.procs[p := s.procs[p].(cache := s.procs[p].cache[att.authId := att])])
  {
  }

  lemma FinishingNothing(s: State, t: nat, consumed: int, verified: bool, reloaded: int, code: nat)
    requires t !in s.tasks
    ensures Finished(s, t, consumed, verified, reloaded, code) == s
  {
  }

  lemma EndedFinishing(s: State, t: nat, reloaded: int, code: nat)
    requires t !in s.tasks
    ensures AfterCache(AfterApprove(AfterReload(s, t, reloaded), t, code), t) == s
  {
  }

  /** Approved with this code, attested in this process. */
  ghost predicate LeavesApproved(s: State, s1: State, p: nat, id: nat, ch: nat, code: nat) {
    && id in s.auths && p in s.procs && p in s1.procs
    && var core := s.auths[id].core;
    && var claims := Claims(id, core.passId, core.binding, core.redirect, core.challenge, core.ephemeral);
    && s1.auths == s.auths[id := Auth(core, Some(Approval(ch, ch, code)))]
    && s1.procs[p].cache == s.procs[p].cache[id := Attestation(id, ch, claims, code, core.expiresAt)]
    && s1.history.minted == s.history.minted[code := Mint(ch, id)] && SameElsewhere(s, s1)
  }

  predicate SameElsewhere(s: State, s1: State) {
    && s1.passes == s.passes && s1.rows == s.rows && s1.procs.Keys == s.procs.Keys
    && s1.calls == s.calls && s1.results == s.results && s1.history.created == s.history.created
  }

  ghost predicate LeavesUndecided(s: State, s1: State, p: nat) {
    && p in s.procs && p in s1.procs && s1.procs[p].cache == s.procs[p].cache
    && s1.auths == s.auths && s1.history.minted == s.history.minted && SameElsewhere(s, s1)
  }

  /** The ceremony binds the authorization as it is, and is open. */
  predicate CeremonyOpen(s: State, p: nat, ch: nat, id: nat, now: int) {
    && id in s.auths && p in s.procs && ch in s.procs[p].ceremonies
    && var core := s.auths[id].core;
    && s.procs[p].ceremonies[ch].claims == Claims(id, core.passId, core.binding, core.redirect, core.challenge, core.ephemeral)
    && now < s.procs[p].ceremonies[ch].expiresAt
  }

  lemma VerifiedOutcome(s: State, t: nat, p: nat, ch: nat, id: nat, reloaded: int, code: nat)
    requires p in s.procs && t in s.tasks && id in s.auths && s.auths[id].approval.None? && code !in s.history.minted
    requires var core := s.auths[id].core;
             s.tasks[t] == Task(p, FinVerified(id, ch, core, Claims(id, core.passId, core.binding, core.redirect, core.challenge, core.ephemeral)))
    ensures var s1 := AfterCache(AfterApprove(AfterReload(s, t, reloaded), t, code), t);
            && s1.tasks == s.tasks - {t} && p in s1.procs && s1.procs[p].ceremonies == s.procs[p].ceremonies
            && if PassStands(s.passes, s.auths[id].core, reloaded) then LeavesApproved(s, s1, p, id, ch, code) else LeavesUndecided(s, s1, p)
  {
    var core := s.auths[id].core;
    var claims := Claims(id, core.passId, core.binding, core.redirect, core.challenge, core.ephemeral);
    ReloadsExactly(s, t, p, ch, id, core, claims, reloaded);
    var s2 := AfterReload(s, t, reloaded);
    if PassStands(s.passes, core, reloaded) {
      ApprovesExactly(s2, t, p, ch, id, core, claims, code);
      CachesExactly(AfterApprove(s2, t, code), t, p, Attestation(id, ch, claims, code, core.expiresAt));
    } else {
      assert AfterCache(AfterApprove(s2, t, code), t) == s2;
    }
  }

  /** A finish that reached its ceremony uses it up, and approves exactly when
      the ceremony binds this authorization and is open, the assertion is
      verified and the pass stands. */
  lemma FinishOutcome(s: State, t: nat, p: nat, ch: nat, id: nat, consumed: int, verified: bool, reloaded: int, code: nat)
    requires p in s.procs && t in s.tasks && id in s.auths && s.auths[id].approval.None? && code !in s.history.minted
    requires s.tasks[t] == Task(p, FinRead(id, ch, s.auths[id].core))
    ensures var s1 := Finished(s, t, consumed, verified, reloaded, code);
            && s1.tasks == s.tasks - {t} && p in s1.procs && s1.procs[p].ceremonies == s.procs[p].ceremonies - {ch}
            && if CeremonyOpen(s, p, ch, id, consumed) && verified && PassStands(s.passes, s.auths[id].core, reloaded)
               then LeavesApproved(s, s1, p, id, ch, code)
               else LeavesUndecided(s, s1, p)
  {
    var core := s.auths[id].core;
    ConsumesExactly(s, t, p, ch, id, core, consumed, verified);
    var s1 := AfterConsume(s, t, consumed, verified);
    if t in s1.tasks {
      var claims := s1.tasks[t].pc.claims;
      VerifiedOutcome(s1, t, p, ch, id, reloaded, code);
    } else {
      EndedFinishing(s1, t, reloaded, code);
    }
  }

  lemma FinishAfterBegin(s: State, s1: State, t: nat, p: nat, ch: nat, id: nat, finished: int,
                         consumed: int, verified: bool, reloaded: int, code: nat)
    requires p in s.procs && p in s1.procs && t !in s.tasks && code !in s.history.minted
    requires s1.auths == s.auths && s1.passes == s.passes && s1.tasks == s.tasks
    requires s1.procs[p].cache == s.procs[p].cache && s1.history.minted == s.history.minted
    requires SameElsewhere(s, s1)
    ensures var s2 := Finished(BrowserStep(s1, StartFinish(t, p, id, ch, finished)), t, consumed, verified, reloaded, code);
            && s2.tasks == s.tasks
            && if CeremonyOpen(s1, p, ch, id, consumed) && Decidable(s, id, finished) && verified
                  && PassStands(s.passes, s.auths[id].core, reloaded)
               then LeavesApproved(s, s2, p, id, ch, code)
               else LeavesUndecided(s, s2, p)
  {
    StartsExactly(s1, t, p, ch, id, finished);
    if Decidable(s, id, finished) {
      var s2 := s1.(tasks := s1.tasks[t := Task(p, FinRead(id, ch, s.auths[id].core))]);
      assert s2.tasks - {t} == s.tasks;
      FinishOutcome(s2, t, p, ch, id, consumed, verified, reloaded, code);
    } else {
      FinishingNothing(s1, t, consumed, verified, reloaded, code);
    }
  }

  /** The exact outcome of a decision nothing interrupts: the authorization is
      approved with this code and the attestation is cached exactly when the
      authorization is open and the pass stands at every reading, and a verified
      assertion reaches the ceremony before it expires.  Nothing else is ever
      written for it. */
  lemma DecisionOutcome(s: State, t: nat, p: nat, ch: nat, id: nat, begun: int, expiresAt: int, finished: int,
                        consumed: int, verified: bool, reloaded: int, code: nat)
    requires p in s.procs && t !in s.tasks && ch !in s.history.subject && ch !in s.procs[p].ceremonies && code !in s.history.minted
    ensures var s1 := Finished(Begun(s, t, p, ch, id, begun, expiresAt, finished), t, consumed, verified, reloaded, code);
            && s1.tasks == s.tasks
            && if Decidable(s, id, begun) && Decidable(s, id, finished) && consumed < expiresAt && verified
                  && PassStands(s.passes, s.auths[id].core, reloaded)
               then LeavesApproved(s, s1, p, id, ch, code)
               else LeavesUndecided(s, s1, p)
  {
    BeginsExactly(s, p, ch, id, begun, expiresAt);
    var s1 := AfterBegin(s, p, ch, id, begun, expiresAt);
    FinishAfterBegin(s, s1, t, p, ch, id, finished, consumed, verified, reloaded, code);
    assert CeremonyOpen(s1, p, ch, id, consumed) <==> Decidable(s, id, begun) && consumed < expiresAt;
  }

  // ---- What comes from outside -------------------------------------------

  predicate SameStore(s: State, s1: State) { s1.passes == s.passes && s1.auths == s.auths && s1.rows == s.rows }

  predicate SameWorld(s: State, s1: State) { s1.calls == s.calls && s1.results == s.results && s1.history == s.history }

  /** A crash loses a process with its memory and its requests, and an abandoned
      request is gone; the store and the world keep what they have. */
  lemma CrashForgets(s: State, p: nat)
    ensures var s1 := EnvStep(s, Crash(p));
            && SameStore(s, s1) && SameWorld(s, s1) && p !in s1.procs
            && (forall q | q != p :: (q in s1.procs <==> q in s.procs) && (q in s.procs ==> s1.procs[q] == s.procs[q]))
            && (forall t :: t in s1.tasks <==> t in s.tasks && s.tasks[t].proc != p)
            && (forall t | t in s1.tasks :: s1.tasks[t] == s.tasks[t])
  {
  }

  lemma AbortForgets(s: State, t: nat)
    ensures var s1 := EnvStep(s, Abort(t));
            && SameStore(s, s1) && SameWorld(s, s1) && s1.procs == s.procs && t !in s1.tasks
            && forall u | u != t :: (u in s1.tasks <==> u in s.tasks) && (u in s.tasks ==> s1.tasks[u] == s.tasks[u])
  {
  }

  /** A started process remembers nothing; one that runs keeps what it has. */
  lemma StartRemembersNothing(s: State, p: nat)
    ensures var s1 := EnvStep(s, StartProcess(p));
            && SameStore(s, s1) && SameWorld(s, s1) && s1.tasks == s.tasks && p in s1.procs
            && s1.procs[p] == (if p in s.procs then s.procs[p] else Memory(map[], map[], map[]))
            && forall q | q != p :: (q in s1.procs <==> q in s.procs) && (q in s.procs ==> s1.procs[q] == s.procs[q])
  {
  }

  /** Eviction takes one entry from one cache. */
  lemma EvictionOutcome(s: State, p: nat, id: nat, code: nat)
    requires p in s.procs
    ensures var s1 := EnvStep(s, EvictAttestation(p, id));
            && s1 == s.(procs := s.procs[p := s1.procs[p]]) && s1.procs[p] == s.procs[p].(cache := s1.procs[p].cache)
            && id !in s1.procs[p].cache
            && forall k | k != id :: (k in s1.procs[p].cache <==> k in s.procs[p].cache) && (k in s.procs[p].cache ==> s1.procs[p].cache[k] == s.procs[p].cache[k])
    ensures var s1 := EnvStep(s, EvictDelivery(p, code));
            && s1 == s.(procs := s.procs[p := s1.procs[p]]) && s1.procs[p] == s.procs[p].(delivery := s1.procs[p].delivery)
            && code !in s1.procs[p].delivery
            && forall k | k != code :: (k in s1.procs[p].delivery <==> k in s.procs[p].delivery) && (k in s.procs[p].delivery ==> s1.procs[p].delivery[k] == s.procs[p].delivery[k])
  {
  }

  /** Another service replaces one pass, but launches none; a recovery drops the
      authorizations and the rows, and nothing else. */
  lemma OthersOutcome(s: State, id: nat, pass: Pass)
    ensures EnvStep(s, OtherService(id, pass))
            == if id in s.passes && s.passes[id].state == PassState.Approved && pass.state == PassState.Launching then s
               else s.(passes := s.passes[id := pass])
    ensures EnvStep(s, ResetHandoffs) == s.(auths := map[], rows := map[])
  {
  }

  /** A created authorization is open and starts unapproved; an identifier is
      used once. */
  lemma CreationOutcome(s: State, id: nat, core: AuthCore)
    ensures var s1 := BrowserStep(s, CreateAuthorization(id, core));
            if id in s.history.created then s1 == s
            else s1 == s.(auths := s.auths[id := Auth(core, None)], history := s.history.(created := s.history.created[id := core]))
  {
  }
}
