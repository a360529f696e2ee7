/** What every run of enrollment and offline recovery keeps. */
module EnrollmentSafety {
  import opened Base
  import opened Enrollment

  // ---- Founders and codes ------------------------------------------------

  function Openings(st: Store): nat { |st.founders| + |ActiveCodes(st.codes)| }

  /** EnsureBootstrapCode's write lands although a founder has enrolled since
      it counted. */
  predicate StalePut(s: State, a: Action) {
    && a.Server? && a.server.PutCode?
    && a.server.proc in s.procs && s.procs[a.server.proc].phase.Counted?
    && CanPutCode(s.store.codes, a.server.code)
    && s.store.founders != {}
  }

  lemma PutLeavesOneCode(codes: map<nat, Code>, code: nat, expiresAt: int)
    ensures ActiveCodes(PutBootstrapCode(codes, code, expiresAt)) == {code}
  {
  }

  lemma CompletionTradesCodeForFounder(s: State, c: nat, founder: nat, key: Option<KeyHash>, credentials: set<nat>, session: nat, now: int)
    ensures Openings(AfterComplete(s, c, founder, key, credentials, session, now).store) == Openings(s.store)
  {
    if CanComplete(s, c, founder, now) {
      var s1 := AfterComplete(s, c, founder, key, credentials, session, now);
      var code := s.ceremonies[c].code;
      assert ActiveCodes(s.store.codes) == ActiveCodes(s1.store.codes) + {code};
      assert code !in ActiveCodes(s1.store.codes);
    }
  }

  lemma CommitTradesFounderForCode(s: State, r: nat, code: nat, expiresAt: int)
    ensures Openings(AfterCommit(s, r, code, expiresAt).store) <= Openings(s.store)
  {
    if At(s, r) && s.resets[r].pc.Holding? && CanCommit(s, s.resets[r].pc.d, code) {
      PutLeavesOneCode(s.store.codes, code, expiresAt);
    }
  }

  /** A step from a store with at most one way in leads to a store with more
      exactly when it is a stale write of a bootstrap code. */
  lemma StepOpensOneUnlessStale(s: State, a: Action)
    requires Openings(s.store) <= 1
    ensures Openings(Step(s, a).store) <= 1 <==> !StalePut(s, a)
  {
    match a
    case Recover(x) =>
      if x.Commit? { CommitTradesFounderForCode(s, x.reset, x.code, x.expiresAt); }
    case Server(x) =>
      match x {
        case PutCode(p, code, expiresAt) =>
          PutLeavesOneCode(s.store.codes, code, expiresAt);
          assert s.store.founders != {} ==> |s.store.founders| >= 1;
        case CompleteEnrollment(c, founder, key, credentials, session, now) =>
          CompletionTradesCodeForFounder(s, c, founder, key, credentials, session, now);
        case _ =>
      }
  }

  ghost predicate AlwaysOneOpening(s: State, actions: seq<Action>)
    decreases |actions|
  {
    Openings(s.store) <= 1 && (actions != [] ==> AlwaysOneOpening(Step(s, actions[0]), actions[1..]))
  }

  predicate NoStalePut(s: State, actions: seq<Action>)
    decreases |actions|
  {
    actions == [] || (!StalePut(s, actions[0]) && NoStalePut(Step(s, actions[0]), actions[1..]))
  }

  /** Founders plus unconsumed codes never exceed one, all through a run,
      exactly when no bootstrap code is written over an enrolled founder. */
  lemma {:induction false} OneOpeningUnlessStale(s: State, actions: seq<Action>)
    requires Openings(s.store) <= 1
    ensures AlwaysOneOpening(s, actions) <==> NoStalePut(s, actions)
    decreases |actions|
  {
    if actions != [] {
      StepOpensOneUnlessStale(s, actions[0]);
      if !StalePut(s, actions[0]) {
        OneOpeningUnlessStale(Step(s, actions[0]), actions[1..]);
      }
    }
  }

  // ---- The exclusive lock and the start-up order rule stale writes out ----

  predicate OpensAs(a: Action, exclusive: bool) { a.Server? && a.server.Open? ==> a.server.exclusive == exclusive }

  /** Every process of the run opens the data directory in this mode. */
  predicate OpensAre(actions: seq<Action>, exclusive: bool) {
    forall i | 0 <= i < |actions| :: OpensAs(actions[i], exclusive)
  }

  /** One process at a time, and while it is between counting no founder and
      writing its code nobody can enroll one. */
  ghost predicate Alone(s: State) {
    && (forall p | p in s.procs :: s.procs[p].exclusive)
    && (forall p, q | p in s.procs && q in s.procs :: p == q)
    && (forall p | p in s.procs && s.procs[p].phase.Counted? :: s.store.founders == {})
  }

  lemma ServerKeepsAlone(s: State, a: ServerAction)
    requires Alone(s) && (a.Open? ==> a.exclusive)
    ensures Alone(ServerStep(s, a))
  {
  }

  lemma ResetKeepsAlone(s: State, a: ResetAction)
    requires Alone(s)
    ensures Alone(ResetStep(s, a))
  {
  }

  /** Every process of the product holds the data directory exclusively, so in
      every run of it founders plus unconsumed codes never exceed one. */
  lemma {:induction false} ExclusiveRunsKeepOneOpening(s: State, actions: seq<Action>)
    requires Openings(s.store) <= 1 && Alone(s) && OpensAre(actions, true)
    ensures AlwaysOneOpening(s, actions)
    decreases |actions|
  {
    if actions != [] {
      StepOpensOneUnlessStale(s, actions[0]);
      match actions[0] {
        case Server(x) => ServerKeepsAlone(s, x);
        case Recover(x) => ResetKeepsAlone(s, x);
      }
      ExclusiveRunsKeepOneOpening(Step(s, actions[0]), actions[1..]);
    }
  }

  lemma Unroll(s: State, a: ServerAction, rest: seq<Action>)
    ensures Run(s, [Server(a)] + rest) == Run(ServerStep(s, a), rest)
    ensures OpensAs(Server(a), false) && OpensAre(rest, false) ==> OpensAre([Server(a)] + rest, false)
  {
    assert ([Server(a)] + rest)[1..] == rest;
  }

  lemma {:induction false} EndsWithinBound(s: State, actions: seq<Action>)
    requires AlwaysOneOpening(s, actions)
    ensures Openings(Run(s, actions).store) <= 1
    decreases |actions|
  {
    if actions != [] {
      EndsWithinBound(Step(s, actions[0]), actions[1..]);
    }
  }

  lemma Unroll4(s: State, a: ServerAction, b: ServerAction, c: ServerAction, d: ServerAction, rest: seq<Action>)
    ensures var actions := [Server(a)] + ([Server(b)] + ([Server(c)] + ([Server(d)] + rest)));
            Run(s, actions) == Run(ServerStep(ServerStep(ServerStep(ServerStep(s, a), b), c), d), rest)
    ensures OpensAre([Server(a), Server(b), Server(c), Server(d)], false) && OpensAre(rest, false) ==>
              OpensAre([Server(a)] + ([Server(b)] + ([Server(c)] + ([Server(d)] + rest))), false)
  {
    var four := [Server(a), Server(b), Server(c), Server(d)];
    assert OpensAre(four, false) ==> OpensAs(four[0], false) && OpensAs(four[1], false) && OpensAs(four[2], false) && OpensAs(four[3], false);
    Unroll(s, a, [Server(b)] + ([Server(c)] + ([Server(d)] + rest)));
    Unroll(ServerStep(s, a), b, [Server(c)] + ([Server(d)] + rest));
    Unroll(ServerStep(ServerStep(s, a), b), c, [Server(d)] + rest);
    Unroll(ServerStep(ServerStep(ServerStep(s, a), b), c), d, rest);
  }

  lemma BothOpen(s: State)
    requires s.procs == map[]
    ensures ServerStep(ServerStep(s, Open(0, false, false)), Open(1, false, false))
            == s.(procs := map[0 := Proc(false, Starting), 1 := Proc(false, Starting)])
  {
  }

  lemma BothCountNone(s: State)
    requires s.procs == map[0 := Proc(false, Starting), 1 := Proc(false, Starting)] && s.store.founders == {}
    ensures ServerStep(ServerStep(s, CountFounders(0)), CountFounders(1))
            == s.(procs := map[0 := Proc(false, Counted), 1 := Proc(false, Counted)])
  {
    assert ServerStep(s, CountFounders(0)).procs == map[0 := Proc(false, Counted), 1 := Proc(false, Starting)];
  }

  /** Where the two servers are when one may enroll and the other may write. */
  predicate Poised(s: State) {
    && s.procs == map[0 := Proc(false, Serving), 1 := Proc(false, Counted)]
    && s.store.founders == {} && s.store.codes == map[7 := Code(10, false)]
  }

  lemma OneWrites(s: State)
    requires s.procs == map[0 := Proc(false, Counted), 1 := Proc(false, Counted)]
    requires s.store.founders == {} && s.store.codes == map[]
    ensures Poised(ServerStep(s, PutCode(0, 7, 10))) && ServerStep(s, PutCode(0, 7, 10)).ceremonies == s.ceremonies
  {
    assert PutBootstrapCode(s.store.codes, 7, 10) == map[7 := Code(10, false)];
  }

  lemma OneBegins(s: State)
    requires Poised(s) && s.ceremonies == map[]
    ensures ServerStep(s, BeginEnrollment(0, 0, 7, 0)) == s.(ceremonies := map[0 := Ceremony(0, 7)])
  {
  }

  lemma OneEnrolls(s: State)
    requires Poised(s) && s.ceremonies == map[0 := Ceremony(0, 7)]
    ensures var s1 := AfterComplete(s, 0, 5, None, {}, 0, 0);
            s1.store.founders == {5} && s1.procs == s.procs && s1.store.codes == map[7 := Code(10, true)]
  {
  }

  lemma OtherWrites(s: State)
    requires 1 in s.procs && s.procs[1].phase.Counted? && s.store.founders == {5} && s.store.codes == map[7 := Code(10, true)]
    ensures Openings(ServerStep(s, PutCode(1, 8, 10)).store) == 2
  {
    PutLeavesOneCode(s.store.codes, 8, 10);
  }

  /** Two servers sharing the directory: both count no founder, one enrolls a
      founder, the other then writes its bootstrap code. */
  lemma SharedServersReopenEnrollment(s: State) returns (actions: seq<Action>)
    requires Initial(s)
    ensures OpensAre(actions, false) && Openings(Run(s, actions).store) == 2
  {
    var a, b, c, d := Open(0, false, false), Open(1, false, false), CountFounders(0), CountFounders(1);
    BothOpen(s);
    var s1 := s.(procs := map[0 := Proc(false, Starting), 1 := Proc(false, Starting)]);
    BothCountNone(s1);
    var s2 := s.(procs := map[0 := Proc(false, Counted), 1 := Proc(false, Counted)]);
    var rest := ThenOneEnrolls(s2);
    Unroll4(s, a, b, c, d, rest);
    actions := [Server(a)] + ([Server(b)] + ([Server(c)] + ([Server(d)] + rest)));
  }

  /** Founders plus unconsumed codes never exceed one in any run: exactly what
      the exclusive mode of opening the data directory buys. */
  lemma OneOpeningExactlyWhenExclusive(s: State, exclusive: bool)
    requires Initial(s)
    ensures (forall actions | OpensAre(actions, exclusive) :: AlwaysOneOpening(s, actions)) <==> exclusive
  {
    assert ActiveCodes(s.store.codes) == {};
    if exclusive {
      forall actions | OpensAre(actions, exclusive)
        ensures AlwaysOneOpening(s, actions)
      {
        ExclusiveRunsKeepOneOpening(s, actions);
      }
    } else {
      var actions := SharedServersReopenEnrollment(s);
      if AlwaysOneOpening(s, actions) {
        EndsWithinBound(s, actions);
      }
    }
  }

  lemma ThenOneEnrolls(s: State) returns (actions: seq<Action>)
    requires s.procs == map[0 := Proc(false, Counted), 1 := Proc(false, Counted)]
    requires s.store.founders == {} && s.store.codes == map[] && s.ceremonies == map[]
    ensures OpensAre(actions, false) && Openings(Run(s, actions).store) == 2
  {
    var e, f := PutCode(0, 7, 10), BeginEnrollment(0, 0, 7, 0);
    var g, h := CompleteEnrollment(0, 5, None, {}, 0, 0), PutCode(1, 8, 10);
    OneWrites(s);
    var s1 := ServerStep(s, e);
    OneBegins(s1);
    var s2 := ServerStep(s1, f);
    OneEnrolls(s2);
    OtherWrites(ServerStep(s2, g));
    actions := [Server(e)] + ([Server(f)] + ([Server(g)] + ([Server(h)] + [])));
    Unroll4(s, e, f, g, h, []);
  }

  // ---- The recovery journal ----------------------------------------------

  /** What has been recorded for one recovery key, in order. */
  function StagesOf(journal: seq<Record>, key: nat): seq<Stage>
    decreases |journal|
  {
    if journal == [] then []
    else
      var last := journal[|journal| - 1];
      StagesOf(journal[..|journal| - 1], key) + if last.key == key then [last.stage] else []
  }

  function Upto(stage: Stage): seq<Stage> {
    match stage
    case Pending => [Pending]
    case Contained => [Pending, Contained]
    case VerifiedEmpty => [Pending, Contained, VerifiedEmpty]
    case Completed => [Pending, Contained, VerifiedEmpty, Completed]
  }

  /** The journal of a key is exactly the stages up to its intent's. */
  ghost predicate InOrder(s: State, key: nat) {
    StagesOf(s.journal, key) == if key in s.intents then Upto(s.intents[key].stage) else []
  }

  lemma JournalAppends(journal: seq<Record>, rec: Record, key: nat)
    ensures StagesOf(journal + [rec], key) == StagesOf(journal, key) + if rec.key == key then [rec.stage] else []
  {
    assert (journal + [rec])[..|journal|] == journal;
  }

  lemma InsertKeepsOrder(s: State, r: nat, key: nat)
    requires InOrder(s, key)
    ensures InOrder(AfterInsert(s, r), key)
  {
    if At(s, r) && s.resets[r].pc.Missing? {
      JournalAppends(s.journal, Record(IdempotencyKey(s.resets[r].pc.d), Pending), key);
    }
  }

  lemma AdvanceKeepsOrder(s: State, k: nat, from: Stage, to: Stage, key: nat)
    requires InOrder(s, key) && HasStage(s, k, from) && Upto(to) == Upto(from) + [to]
    ensures InOrder(Advance(s, k, to), key)
  {
    JournalAppends(s.journal, Record(k, to), key);
  }

  lemma ContainedKeepsOrder(s: State, r: nat, key: nat)
    requires InOrder(s, key)
    ensures InOrder(AfterContained(s, r), key)
  {
    if At(s, r) && s.resets[r].pc.Acknowledged? && HasStage(s, IdempotencyKey(s.resets[r].pc.d), Pending) {
      AdvanceKeepsOrder(s, IdempotencyKey(s.resets[r].pc.d), Pending, Contained, key);
    }
  }

  lemma EmptyKeepsOrder(s: State, r: nat, key: nat)
    requires InOrder(s, key)
    ensures InOrder(AfterEmpty(s, r), key)
  {
    if At(s, r) && s.resets[r].pc.SawEmpty? && HasStage(s, IdempotencyKey(s.resets[r].pc.d), Contained) {
      AdvanceKeepsOrder(s, IdempotencyKey(s.resets[r].pc.d), Contained, VerifiedEmpty, key);
    }
  }

  lemma CommitKeepsOrder(s: State, r: nat, code: nat, expiresAt: int, key: nat)
    requires InOrder(s, key)
    ensures InOrder(AfterCommit(s, r, code, expiresAt), key)
  {
    if At(s, r) && s.resets[r].pc.Holding? && HasStage(s, IdempotencyKey(s.resets[r].pc.d), VerifiedEmpty) {
      AdvanceKeepsOrder(s, IdempotencyKey(s.resets[r].pc.d), VerifiedEmpty, Completed, key);
    }
  }

  lemma AttestationKeepsOrder(s: State, r: nat, key: nat)
    requires InOrder(s, key)
    ensures InOrder(AfterAttestation(s, r), key)
  {
  }

  predicate SameRecords(s: State, s1: State) { s1.intents == s.intents && s1.journal == s.journal }

  lemma OtherResetsRecordNothing(s: State, a: ResetAction)
    requires a.ChooseFounder? || a.ProveKey? || a.LoadIntent? || a.ContainWorkspace? || a.PollMissions? || a.Abandon?
    ensures SameRecords(s, ResetStep(s, a))
  {
  }

  lemma ServerRecordsNothing(s: State, a: ServerAction)
    ensures SameRecords(s, ServerStep(s, a))
  {
  }

  lemma ResetKeepsOrder(s: State, a: ResetAction, key: nat)
    requires InOrder(s, key)
    ensures InOrder(ResetStep(s, a), key)
  {
    match a
    case InsertIntent(r) => InsertKeepsOrder(s, r, key);
    case RecordAttestation(r) => AttestationKeepsOrder(s, r, key);
    case RecordContained(r) => ContainedKeepsOrder(s, r, key);
    case RecordEmpty(r) => EmptyKeepsOrder(s, r, key);
    case Commit(r, code, expiresAt) => CommitKeepsOrder(s, r, code, expiresAt, key);
    case _ => OtherResetsRecordNothing(s, a);
  }

  /** In every run, crashed and resumed anywhere and raced by other resets,
      each recovery key's intent passes through pending, contained,
      verified-empty and completed in that order and once each: the reset
      commits at most once per key, and only after containment and the empty
      list were durably recorded. */
  lemma {:induction false} RecoveryRunsInOrder(s: State, actions: seq<Action>, key: nat)
    requires InOrder(s, key)
    ensures InOrder(Run(s, actions), key)
    decreases |actions|
  {
    if actions != [] {
      match actions[0] {
        case Server(x) => ServerRecordsNothing(s, x);
        case Recover(x) => ResetKeepsOrder(s, x, key);
      }
      RecoveryRunsInOrder(Step(s, actions[0]), actions[1..], key);
    }
  }

  // ---- All or nothing ----------------------------------------------------

  /** The step completes this key's intent. */
  predicate Completes(s: State, a: ResetAction, key: nat) {
    !HasStage(s, key, Completed) && HasStage(ResetStep(s, a), key, Completed)
  }

  /** A recovery step touches sessions, passkeys, founders, recovery keys,
      handoffs, codes or events only by completing an intent; then it came
      from verified-empty and resets all of them at once, for the founder
      whose key was proved, with one code to enroll again. */
  lemma RecoveryIsAllOrNothing(s: State, a: ResetAction)
    ensures ResetStep(s, a).store != s.store ==> exists key :: Completes(s, a, key)
    ensures forall key | Completes(s, a, key) ::
              var st := ResetStep(s, a).store;
              && HasStage(s, key, VerifiedEmpty)
              && (forall x | x in st.sessions :: !st.sessions[x]) && st.sessions.Keys == s.store.sessions.Keys
              && st.credentials == {} && st.handoffs == {}
              && key !in s.store.events && st.events.Keys == s.store.events.Keys + {key}
              && |ActiveCodes(st.codes)| == 1
              && st.events[key] in s.store.founders && st.founders == s.store.founders - {st.events[key]}
              && st.events[key] in s.store.keys && st.keys == s.store.keys - {st.events[key]}
  {
    if a.Commit? && At(s, a.reset) && s.resets[a.reset].pc.Holding? && s.resets[a.reset].pc.stage.VerifiedEmpty? {
      PutLeavesOneCode(s.store.codes, a.code, a.expiresAt);
      assert CanCommit(s, s.resets[a.reset].pc.d, a.code) ==> Completes(s, a, IdempotencyKey(s.resets[a.reset].pc.d));
    }
  }
}
