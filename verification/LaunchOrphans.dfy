/** The verifier law over all requests: a sealed result goes to a request whose
    verifier answers the challenge, in every run, exactly when no request adopts
    what it looks up for a code it found in flight. */
module LaunchOrphans {
  import opened Base
  import opened PassModel
  import opened LaunchStore
  import opened LaunchMachine
  import opened LaunchAnswers
  import opened LaunchPaths

  /** No request that finds its code in flight finds artifacts upstream. */
  predicate NeverFinds(actions: seq<Action>) {
    forall i | 0 <= i < |actions| ::
      actions[i].Orphan? && actions[i].orphan.ReconcileOrphan? ==> actions[i].orphan.lookup.NotCompleted?
  }

  ghost predicate AllProve(h: History, answers: seq<Answered>) {
    forall i | 0 <= i < |answers| :: Proves(h, answers[i].delivered.code, answers[i].request.verifier)
  }

  predicate NoOrphans(log: map<nat, Request>) { forall t | t in log :: !log[t].orphan }

  lemma NotedNoOrphans(log: map<nat, Request>, s: State, a: Action)
    requires NoOrphans(log) && NeverFinds([a])
    ensures NoOrphans(Noted(log, s, a))
  {
    assert [a][0] == a;
  }

  lemma {:induction false} AnswersNoOrphans(s: State, log: map<nat, Request>, actions: seq<Action>)
    requires NoOrphans(log) && NeverFinds(actions)
    ensures forall i | 0 <= i < |AnswersOf(s, log, actions)| :: !AnswersOf(s, log, actions)[i].request.orphan
    decreases |actions|
  {
    if actions != [] {
      var a, rest := actions[0], actions[1..];
      assert NeverFinds([a]) && NeverFinds(rest) by {
        assert forall i | 0 <= i < |rest| :: rest[i] == actions[i + 1];
      }
      NotedNoOrphans(log, s, a);
      AnswersNoOrphans(Step(s, a), Noted(log, s, a), rest);
      JoinedNoOrphans(AnsweredAt(s, Step(s, a), log, a), AnswersOf(Step(s, a), Noted(log, s, a), rest));
    }
  }

  lemma JoinedNoOrphans(xs: seq<Answered>, ys: seq<Answered>)
    requires forall i | 0 <= i < |xs| :: !xs[i].request.orphan
    requires forall i | 0 <= i < |ys| :: !ys[i].request.orphan
    ensures forall i | 0 <= i < |xs + ys| :: !(xs + ys)[i].request.orphan
  {
  }

  // ---- Runs put together -------------------------------------------------

  function NotedAll(log: map<nat, Request>, s: State, actions: seq<Action>): map<nat, Request>
    decreases |actions|
  {
    if actions == [] then log else NotedAll(Noted(log, s, actions[0]), Step(s, actions[0]), actions[1..])
  }

  lemma Regroups(now: seq<Answered>, p: seq<Answered>, q: seq<Answered>)
    ensures now + (p + q) == (now + p) + q
  {
  }

  lemma AnswersUnroll(s: State, log: map<nat, Request>, actions: seq<Action>)
    requires actions != []
    ensures AnswersOf(s, log, actions)
         == AnsweredAt(s, Step(s, actions[0]), log, actions[0]) + AnswersOf(Step(s, actions[0]), Noted(log, s, actions[0]), actions[1..])
    ensures NotedAll(log, s, actions) == NotedAll(Noted(log, s, actions[0]), Step(s, actions[0]), actions[1..])
    ensures Run(s, actions) == Run(Step(s, actions[0]), actions[1..])
  {
  }

  lemma {:induction false} AnswersJoin(s: State, log: map<nat, Request>, xs: seq<Action>, ys: seq<Action>)
    ensures AnswersOf(s, log, xs + ys) == AnswersOf(s, log, xs) + AnswersOf(Run(s, xs), NotedAll(log, s, xs), ys)
    decreases |xs|
  {
    if xs == [] {
      assert xs + ys == ys;
    } else {
      var s1, log1 := Step(s, xs[0]), Noted(log, s, xs[0]);
      assert (xs + ys)[1..] == xs[1..] + ys && (xs + ys)[0] == xs[0];
      AnswersJoin(s1, log1, xs[1..], ys);
      AnswersUnroll(s, log, xs + ys);
      AnswersUnroll(s, log, xs);
      Regroups(AnsweredAt(s, s1, log, xs[0]), AnswersOf(s1, log1, xs[1..]),
               AnswersOf(Run(s1, xs[1..]), NotedAll(log1, s1, xs[1..]), ys));
    }
  }

  /** Actions that start no request and answer request t alone. */
  predicate ForTask(t: nat, actions: seq<Action>) {
    forall i | 0 <= i < |actions| ::
      && !(actions[i].Exchange? && actions[i].exchange.StartExchange?)
      && (actions[i].Exchange? && actions[i].exchange.Deliver? ==> TaskOf(actions[i]) == t)
      && (actions[i].Replay? && actions[i].replay.Recall? ==> TaskOf(actions[i]) == t)
  }

  lemma StepForTask(s: State, log: map<nat, Request>, t: nat, a: Action)
    requires t in log && ForTask(t, [a]) && Backed(s, log)
    ensures t in Noted(log, s, a) && Noted(log, s, a)[t].verifier == log[t].verifier
    ensures forall i | 0 <= i < |AnsweredAt(s, Step(s, a), log, a)| ::
              AnsweredAt(s, Step(s, a), log, a)[i].request.verifier == log[t].verifier
  {
    assert [a][0] == a;
    StepEarned(s, log, a);
    match a
    case Env(e) => EnvAnswersNothing(s, e);
    case Decide(b) => BrowserAnswersNothing(s, b);
    case Exchange(x) =>
      if !x.Deliver? {
        if x.PrepareLaunch? || x.ReceiveAnswer? || x.Reconcile? || x.Adopt? || x.SettleFailed? {
          CallingAnswersNothing(s, x);
        } else {
          ClaimingAnswersNothing(s, x);
        }
      }
    case Replay(r) => if !r.Recall? { FollowingAnswersNothing(s, r); }
    case Orphan(o) => OrphanAnswersNothing(s, o);
  }

  lemma {:induction false} AnswersForTask(s: State, log: map<nat, Request>, t: nat, actions: seq<Action>)
    requires t in log && ForTask(t, actions) && Backed(s, log) && LaunchSafety.Inv(s)
    ensures forall i | 0 <= i < |AnswersOf(s, log, actions)| :: AnswersOf(s, log, actions)[i].request.verifier == log[t].verifier
    decreases |actions|
  {
    if actions != [] {
      var a, rest := actions[0], actions[1..];
      assert ForTask(t, [a]) && ForTask(t, rest) by {
        assert forall i | 0 <= i < |rest| :: rest[i] == actions[i + 1];
      }
      StepForTask(s, log, t, a);
      StepIsEarned(s, log, a);
      AnswersForTask(Step(s, a), Noted(log, s, a), t, rest);
      JoinedVerifiers(AnsweredAt(s, Step(s, a), log, a), AnswersOf(Step(s, a), Noted(log, s, a), rest), log[t].verifier);
    }
  }

  lemma JoinedVerifiers(xs: seq<Answered>, ys: seq<Answered>, verifier: nat)
    requires forall i | 0 <= i < |xs| :: xs[i].request.verifier == verifier
    requires forall i | 0 <= i < |ys| :: ys[i].request.verifier == verifier
    ensures forall i | 0 <= i < |xs + ys| :: (xs + ys)[i].request.verifier == verifier
  {
  }

  lemma {:induction false} NotedBacked(s: State, log: map<nat, Request>, actions: seq<Action>)
    requires Backed(s, log) && LaunchSafety.Inv(s)
    ensures Backed(Run(s, actions), NotedAll(log, s, actions)) && LaunchSafety.Inv(Run(s, actions))
    decreases |actions|
  {
    if actions != [] {
      StepIsEarned(s, log, actions[0]);
      NotedBacked(Step(s, actions[0]), Noted(log, s, actions[0]), actions[1..]);
    }
  }

  // ---- The run that answers a wrong verifier -----------------------------

  lemma RunTwo(s: State, a: Action, b: Action)
    ensures Run(s, [a, b]) == Step(Step(s, a), b)
  {
    assert [a, b][1..] == [b] && [b][1..] == [];
    assert Run(Step(s, a), [b]) == Step(Step(s, a), b);
  }

  lemma RunOne(s: State, a: Action)
    ensures Run(s, [a]) == Step(s, a)
  {
    assert [a][1..] == [];
  }

  function DecisionActions(t: nat, p: nat, ch: nat, id: nat, begun: int, expiresAt: int, finished: int,
                           consumed: int, verified: bool, reloaded: int, code: nat): seq<Action> {
    [Decide(BeginDecision(p, ch, id, begun, expiresAt)), Decide(StartFinish(t, p, id, ch, finished))]
    + ([Decide(ConsumeCeremony(t, consumed, verified)), Decide(ReloadBinding(t, reloaded))]
       + [Decide(Approve(t, code)), Decide(CacheAttestation(t))])
  }

  lemma RunsDecision(s: State, t: nat, p: nat, ch: nat, id: nat, begun: int, expiresAt: int, finished: int,
                     consumed: int, verified: bool, reloaded: int, code: nat)
    ensures Run(s, DecisionActions(t, p, ch, id, begun, expiresAt, finished, consumed, verified, reloaded, code))
            == Finished(Begun(s, t, p, ch, id, begun, expiresAt, finished), t, consumed, verified, reloaded, code)
  {
    var a := [Decide(BeginDecision(p, ch, id, begun, expiresAt)), Decide(StartFinish(t, p, id, ch, finished))];
    var b := [Decide(ConsumeCeremony(t, consumed, verified)), Decide(ReloadBinding(t, reloaded))];
    var c := [Decide(Approve(t, code)), Decide(CacheAttestation(t))];
    RunTwo(s, a[0], a[1]);
    RunTwo(Run(s, a), b[0], b[1]);
    RunTwo(Run(Run(s, a), b), c[0], c[1]);
    LaunchSafety.RunSplits(Run(s, a), b, c);
    LaunchSafety.RunSplits(s, a, b + c);
  }

  function EntryActions(t: nat, p: nat, code: nat, verifier: nat, id: nat, found: int, read: int, agrees: bool, claimed: int): seq<Action> {
    [Exchange(StartExchange(t, p, code, verifier)), Exchange(FindAuthorization(t, id, found))]
    + [Exchange(ReadPass(t, read, agrees)), Exchange(ClaimCode(t, claimed))]
  }

  lemma RunsEntry(s: State, t: nat, p: nat, code: nat, verifier: nat, id: nat, found: int, read: int, agrees: bool, claimed: int)
    ensures Run(s, EntryActions(t, p, code, verifier, id, found, read, agrees, claimed))
            == Entered(s, t, p, code, verifier, id, found, read, agrees, claimed)
  {
    var a := [Exchange(StartExchange(t, p, code, verifier)), Exchange(FindAuthorization(t, id, found))];
    var b := [Exchange(ReadPass(t, read, agrees)), Exchange(ClaimCode(t, claimed))];
    RunTwo(s, a[0], a[1]);
    RunTwo(Run(s, a), b[0], b[1]);
    LaunchSafety.RunSplits(s, a, b);
  }

  /** What a request on a code in flight does after it was started. */
  function OrphanActions(t: nat, followed: int, expired: int, lookup: Lookup, id: nat, adopted: int, failed: int): seq<Action> {
    [Replay(FollowRow(t, followed)), Orphan(SettleExpired(t, expired))]
    + ([Orphan(ReconcileOrphan(t, lookup)), Orphan(FindOrphanAuthorization(t, id))]
       + ([Orphan(ReadOrphanPass(t)), Exchange(ExchangeAction.Adopt(t, adopted))]
          + [Exchange(SettleFailed(t, failed)), Exchange(Deliver(t))]))
  }

  lemma RunsOrphan(s: State, t: nat, p: nat, code: nat, verifier: nat, followed: int, expired: int,
                   lookup: Lookup, id: nat, adopted: int, failed: int)
    ensures Run(Step(s, Exchange(StartExchange(t, p, code, verifier))), OrphanActions(t, followed, expired, lookup, id, adopted, failed))
            == Resumed(s, t, p, code, verifier, followed, expired, lookup, id, adopted, failed)
  {
    var s0 := Step(s, Exchange(StartExchange(t, p, code, verifier)));
    var a := [Replay(FollowRow(t, followed)), Orphan(SettleExpired(t, expired))];
    var b := [Orphan(ReconcileOrphan(t, lookup)), Orphan(FindOrphanAuthorization(t, id))];
    var c := [Orphan(ReadOrphanPass(t)), Exchange(ExchangeAction.Adopt(t, adopted))];
    var d := [Exchange(SettleFailed(t, failed)), Exchange(Deliver(t))];
    RunTwo(s0, a[0], a[1]);
    var s1 := Run(s0, a);
    RunTwo(s1, b[0], b[1]);
    var s2 := Run(s1, b);
    RunTwo(s2, c[0], c[1]);
    RunTwo(Run(s2, c), d[0], d[1]);
    LaunchSafety.RunSplits(s2, c, d);
    LaunchSafety.RunSplits(s1, b, c + d);
    LaunchSafety.RunSplits(s0, a, b + (c + d));
  }

  const PINNED: Binding := Binding(1, 1, 1, 1, [], 1, 1)

  const APPROVED: Pass := Pass(PassState.Approved, 1, 100, PINNED, true, 0)

  const CORE: AuthCore := AuthCore(0, PINNED, 0, 7, 0, 100)

  const FOUND: Artifacts := Artifacts(3, 1, 2, 4, true, true)

  lemma Prepared(s: State) returns (actions: seq<Action>)
    requires Initial(s)
    ensures var s1 := Run(s, actions);
            && s1.passes == s.passes[0 := APPROVED] && s1.procs == map[0 := Memory(map[], map[], map[])]
            && s1.auths == map[0 := Auth(CORE, None)] && s1.rows == map[] && s1.tasks == map[] && s1.results == []
            && s1.history == History(map[0 := CORE], map[], map[], map[])
  {
    actions := [Env(OtherService(0, APPROVED)), Env(StartProcess(0))] + [Decide(CreateAuthorization(0, CORE))];
    RunTwo(s, Env(OtherService(0, APPROVED)), Env(StartProcess(0)));
    var s1 := Run(s, [Env(OtherService(0, APPROVED)), Env(StartProcess(0))]);
    RunOne(s1, Decide(CreateAuthorization(0, CORE)));
    LaunchSafety.RunSplits(s, [Env(OtherService(0, APPROVED)), Env(StartProcess(0))], [Decide(CreateAuthorization(0, CORE))]);
  }

  /** The authorization is approved with code 9, its attestation cached. */
  lemma Decided(s: State, now: int) returns (actions: seq<Action>)
    requires Initial(s) && 0 <= now < 50
    ensures var s2 := Run(s, actions);
            && s2.passes == s.passes[0 := APPROVED] && s2.procs.Keys == {0} && s2.tasks == map[] && s2.results == [] && s2.rows == map[]
            && s2.auths == map[0 := Auth(CORE, Some(Approval(0, 0, 9)))]
            && s2.history.minted == map[9 := Mint(0, 0)] && s2.history.created == map[0 := CORE]
  {
    var a := Prepared(s);
    var s1 := Run(s, a);
    var b := DecisionActions(0, 0, 0, 0, now, 50, now, now, true, now, 9);
    RunsDecision(s1, 0, 0, 0, 0, now, 50, now, now, true, now, 9);
    DecisionOutcome(s1, 0, 0, 0, 0, now, 50, now, now, true, now, 9);
    assert LeavesApproved(s1, Run(s1, b), 0, 0, 0, 9);
    LaunchSafety.RunSplits(s, a, b);
    actions := a + b;
  }

  /** The right verifier claims the code and is not heard of again. */
  lemma Claimed(s: State, now: int) returns (actions: seq<Action>)
    requires Initial(s) && 0 <= now < 50
    ensures var s3 := Run(s, actions);
            && s3.passes == s.passes[0 := APPROVED] && 0 in s3.procs && 2 !in s3.tasks && s3.results == []
            && 9 in s3.rows && s3.rows[9].status.InFlight? && s3.rows[9].updatedAt == now
            && Names(s3, 0, 9) && s3.auths[0].core == CORE
            && s3.history.minted == map[9 := Mint(0, 0)] && s3.history.created == map[0 := CORE]
  {
    var b := Decided(s, now);
    var s2 := Run(s, b);
    var c := EntryActions(1, 0, 9, 7, 0, now, now, true, now);
    RunsEntry(s2, 1, 0, 9, 7, 0, now, now, true, now);
    EntersExactlyWhenAdmitted(s2, 1, 0, 9, 7, 0, now, now, true, now);
    LaunchSafety.RunSplits(s, b, c);
    actions := b + c;
  }

  /** Another request presents a wrong verifier and is handed the result. */
  lemma WrongVerifierIsAnswered(s: State) returns (actions: seq<Action>)
    requires Initial(s)
    ensures !AllProve(Run(s, actions).history, AnswersOf(s, map[], actions))
  {
    var now := 0;
    var xs := Claimed(s, now);
    var s3, log := Run(s, xs), NotedAll(map[], s, xs);
    RunEarned(s, map[], xs);
    assert Results(AnswersOf(s, map[], xs)) == [];
    NotedBacked(s, map[], xs);
    var rest := OrphanActions(2, now, now, Found(FOUND), 0, now, now);
    var ys := [Exchange(StartExchange(2, 0, 9, 8))] + rest;
    AnswersJoin(s, map[], xs, ys);
    LaunchSafety.RunSplits(s, xs, ys);
    WrongVerifierFollows(s3, log, rest, now);
    actions := xs + ys;
    assert AnswersOf(s, map[], actions) == AnswersOf(s3, log, ys);
  }

  lemma StartAnswersNothing(s: State, log: map<nat, Request>, t: nat, p: nat, code: nat, verifier: nat)
    requires t !in s.tasks && p in s.procs
    ensures var start := Exchange(StartExchange(t, p, code, verifier));
            && Noted(log, s, start) == log[t := Request(verifier, false)]
            && Step(s, start).results == s.results && AnsweredAt(s, Step(s, start), log, start) == []
  {
    ClaimingAnswersNothing(s, StartExchange(t, p, code, verifier));
  }

  lemma OneAnswer(s: State, log: map<nat, Request>, t: nat, rest: seq<Action>, r: Delivered)
    requires Backed(s, log) && LaunchSafety.Inv(s) && t in log && ForTask(t, rest)
    requires Run(s, rest).results == s.results + [r]
    ensures var answers := AnswersOf(s, log, rest);
            |answers| == 1 && answers[0].delivered == r && answers[0].request.verifier == log[t].verifier
  {
    AnswersForTask(s, log, t, rest);
    RunEarned(s, log, rest);
    var answers := AnswersOf(s, log, rest);
    assert (s.results + [r])[|s.results|..] == [r] && (s.results + Results(answers))[|s.results|..] == Results(answers);
    assert Results(answers)[0] == answers[0].delivered;
  }

  /** A request started here, and alone answered from here on, is answered
      with the verifier it presented. */
  lemma AnsweredAsPresented(s: State, log: map<nat, Request>, t: nat, p: nat, code: nat, verifier: nat, rest: seq<Action>, r: Delivered)
    requires Backed(s, log) && LaunchSafety.Inv(s) && t !in s.tasks && p in s.procs && ForTask(t, rest)
    requires Run(Step(s, Exchange(StartExchange(t, p, code, verifier))), rest).results == s.results + [r]
    ensures var answers := AnswersOf(s, log, [Exchange(StartExchange(t, p, code, verifier))] + rest);
            |answers| == 1 && answers[0].delivered == r && answers[0].request.verifier == verifier
  {
    var start := Exchange(StartExchange(t, p, code, verifier));
    var ys := [start] + rest;
    var s1, log1 := Step(s, start), Noted(log, s, start);
    assert ys[0] == start && ys[1..] == rest;
    StartAnswersNothing(s, log, t, p, code, verifier);
    StepIsEarned(s, log, start);
    OneAnswer(s1, log1, t, rest, r);
    AnswersUnroll(s, log, ys);
    assert AnswersOf(s, log, ys) == [] + AnswersOf(s1, log1, rest);
    assert [] + AnswersOf(s1, log1, rest) == AnswersOf(s1, log1, rest);
  }

  lemma OrphanForTask(t: nat, followed: int, expired: int, lookup: Lookup, id: nat, adopted: int, failed: int)
    ensures ForTask(t, OrphanActions(t, followed, expired, lookup, id, adopted, failed))
  {
  }

  lemma WrongVerifierFollows(s: State, log: map<nat, Request>, rest: seq<Action>, now: int)
    requires Backed(s, log) && LaunchSafety.Inv(s)
    requires 0 in s.passes && s.passes[0] == APPROVED && 0 in s.procs && 2 !in s.tasks && s.results == [] && 0 <= now < 50
    requires 9 in s.rows && s.rows[9].status.InFlight? && s.rows[9].updatedAt == now
    requires Names(s, 0, 9) && s.auths[0].core == CORE
    requires s.history.minted == map[9 := Mint(0, 0)] && s.history.created == map[0 := CORE]
    requires rest == OrphanActions(2, now, now, Found(FOUND), 0, now, now)
    ensures var ys := [Exchange(StartExchange(2, 0, 9, 8))] + rest;
            !AllProve(Run(s, ys).history, AnswersOf(s, log, ys))
  {
    var ys := [Exchange(StartExchange(2, 0, 9, 8))] + rest;
    RunsOrphan(s, 2, 0, 9, 8, now, now, Found(FOUND), 0, now, now);
    WrongVerifierResult(s, now);
    OrphanForTask(2, now, now, Found(FOUND), 0, now, now);
    AnsweredAsPresented(s, log, 2, 0, 9, 8, rest, Delivered(9, Result(3, 1, 4)));
    LaunchSafety.RunGrows(s, ys);
    var h := Run(s, ys).history;
    assert h.minted[9] == Mint(0, 0) && h.created[0].challenge == 7;
    assert !Proves(h, 9, 8);
  }

  lemma WrongVerifierResult(s: State, now: int)
    requires 0 in s.passes && s.passes[0] == APPROVED && 0 in s.procs && 2 !in s.tasks && 0 <= now < 50
    requires 9 in s.rows && s.rows[9].status.InFlight? && s.rows[9].updatedAt == now
    requires Names(s, 0, 9) && s.auths[0].core == CORE
    ensures Resumed(s, 2, 0, 9, 8, now, now, Found(FOUND), 0, now, now).results == s.results + [Delivered(9, Result(3, 1, 4))]
  {
    ResumeOutcome(s, 2, 0, 9, 8, now, now, Found(FOUND), 0, now, now);
    assert Launchable(s, CORE, 1, FOUND, now);
  }

  /** Every sealed result goes to a request that proved the verifier, in every
      run, exactly when requests on a code in flight adopt nothing: the verifier
      is not looked at on that path. */
  lemma AllProveExactlyWithoutAdoption(s: State, adopting: bool)
    requires Initial(s)
    ensures (forall actions | adopting || NeverFinds(actions) ::
               AllProve(Run(s, actions).history, AnswersOf(s, map[], actions))) <==> !adopting
  {
    if adopting {
      var actions := WrongVerifierIsAnswered(s);
    } else {
      forall actions | NeverFinds(actions)
        ensures AllProve(Run(s, actions).history, AnswersOf(s, map[], actions))
      {
        AnswersNoOrphans(s, map[], actions);
        forall i | 0 <= i < |AnswersOf(s, map[], actions)|
          ensures Proves(Run(s, actions).history, AnswersOf(s, map[], actions)[i].delivered.code, AnswersOf(s, map[], actions)[i].request.verifier)
        {
          ResultsGoToProvers(s, actions, i);
        }
      }
    }
  }
}
