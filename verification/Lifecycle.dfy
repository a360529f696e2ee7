/** The life of one pass: every transaction that writes its state, in any
    interleaving, and the receipt verdict that decides its outcome.

    One atomic step per store transaction (or read that a later write relies
    on).  A task is a request or worker between two transactions; ending a
    task at any point is a crash.  Disabled actions leave the state alone, so
    a run is any sequence of actions whatever. */
module Lifecycle {
  import opened Base
  import opened PassModel

  datatype RunOutcome = Success | Failure

  datatype Verdict = Verified(outcome: RunOutcome) | Unverifiable

  /** What phase 2 of VerifyReceipt found: a verdict, or a verified receipt
      with an outcome that is neither success nor failure. */
  datatype Finding = Judged(verdict: Verdict) | UnknownOutcome

  datatype IntentState = NoIntent | InFlight | Done

  datatype Task =
    | HoldsDraft(revision: nat)      // loaded a draft: approval, revision of the proposal
    | HoldsRow(revision: nat)        // ReconcileApproval loaded the row in any state
    | HoldsListing                   // the worker listed the pass as reconcilable
    | HoldsReceipt                   // VerifyReceipt between phase 1 and phase 3
    | HoldsChallenge                 // BeginDecision of an expansion

  datatype State = State(
    pass: PassState, revision: nat, version: int,
    approval: IntentState, decided: bool, verdict: Option<Verdict>,
    tasks: map<nat, Task>)

  datatype Action =
    | LoadDraft(task: nat)
    | LoadRow(task: nat)
    | PutApprovalIntent(task: nat)
    | SettleApproval(task: nat, version: int)
    | WriteDraft(task: nat)
    | AdoptLaunch(version: int)
    | MarkPending
    | SettleRevocation
    | ListPass(task: nat)
    | ApplyEvents(task: nat, effects: seq<Effect>)
    | LoadForReceipt(task: nat)
    | StoreVerdict(task: nat, finding: Finding)
    | BeginExpansionDecision(task: nat)
    | PutExpansionIntent(task: nat)
    | SettleExpansion(approve: bool, version: int, pending: bool)
    | End(task: nat)

  // ---- Transitions -------------------------------------------------------

  function Load(s: State, t: nat, task: Task): State { s.(tasks := s.tasks[t := task]) }

  /** Every accepted write of the row advances its store revision. */
  function Write(s: State, pass: PassState): State { s.(pass := pass, revision := s.revision + 1) }

  predicate Decidable(p: PassState) { p.Running? || p.AwaitingExpansion? }

  /** reconcilableState: the passes the worker polls. */
  predicate Reconcilable(p: PassState) { p.Running? || p.AwaitingExpansion? || p.OutcomePending? }

  /** The compare-and-swap of a task that loaded the row earlier. */
  predicate Fresh(s: State, t: nat) {
    t in s.tasks && (s.tasks[t].HoldsDraft? || s.tasks[t].HoldsRow?) && s.tasks[t].revision == s.revision
  }

  /** The states a page of events takes the pass through, or None when one of
      its events is illegal and the whole page rolls back. */
  function PagePath(from: PassState, effects: seq<Effect>): Option<seq<PassState>>
    decreases |effects|
  {
    if effects == [] then Some([])
    else
      match StateAfter(from, effects[0])
      case None => None
      case Some(to) =>
        match PagePath(to, effects[1..])
        case None => None
        case Some(rest) => Some(if to == from then rest else [to] + rest)
  }

  function Last(from: PassState, path: seq<PassState>): PassState {
    if path == [] then from else path[|path| - 1]
  }

  /** The approving branch of settleDecision writes the row. */
  predicate SettlesToRunning(s: State, a: Action) {
    && a.SettleExpansion? && a.approve && a.pending && s.decided
    && SettleWrites(s.pass, s.version, a.version)
  }

  function OutcomeState(outcome: RunOutcome): PassState {
    match outcome case Success => Completed case Failure => Failed
  }

  function Step(s: State, a: Action): State {
    match a
    case LoadDraft(t) => if s.pass.Draft? then Load(s, t, HoldsDraft(s.revision)) else s
    case LoadRow(t) => Load(s, t, HoldsRow(s.revision))
    case PutApprovalIntent(t) =>
      // Never rewrites a completed intent.
      if t in s.tasks && s.tasks[t].HoldsDraft? && !s.approval.Done? then s.(approval := InFlight) else s
    case SettleApproval(t, version) =>
      if Fresh(s, t) && s.approval.InFlight? then Write(s, Approved).(approval := Done, version := version) else s
    case WriteDraft(t) =>
      // A revised proposal, or markApprovalPending: the row stays a draft.
      if Fresh(s, t) && s.tasks[t].HoldsDraft? then Write(s, Draft) else s
    case AdoptLaunch(version) => if s.pass.Approved? then Write(s, Launching).(version := version) else s
    case MarkPending => Write(s, s.pass)
    case SettleRevocation => if s.pass.Revoked? || Revocable(s.pass) then Write(s, Revoked) else s
    case ListPass(t) => if Reconcilable(s.pass) then Load(s, t, HoldsListing) else s
    case ApplyEvents(t, effects) =>
      if t in s.tasks && s.tasks[t].HoldsListing? && PagePath(s.pass, effects).Some?
      then Write(s, Last(s.pass, PagePath(s.pass, effects).value))
      else s
    case LoadForReceipt(t) =>
      if s.verdict.None? && s.pass.OutcomePending? then Load(s, t, HoldsReceipt) else s
    case StoreVerdict(t, finding) =>
      if t in s.tasks && s.tasks[t].HoldsReceipt? && s.verdict.None? && finding.Judged? then
        var s1 := s.(verdict := Some(finding.verdict));
        if finding.verdict.Verified? && s.pass.OutcomePending?
        then Write(s1, OutcomeState(finding.verdict.outcome))
        else s1
      else s
    case BeginExpansionDecision(t) => if Decidable(s.pass) then Load(s, t, HoldsChallenge) else s
    case PutExpansionIntent(t) =>
      if t in s.tasks && s.tasks[t].HoldsChallenge? then s.(decided := true) else s
    case SettleExpansion(_, version, _) =>
      // The denying branch writes no pass row.
      if SettlesToRunning(s, a) then Write(s, Running).(version := version) else s
    case End(t) => s.(tasks := s.tasks - {t})
  }

  function Run(s: State, actions: seq<Action>): State
    decreases |actions|
  {
    if actions == [] then s else Run(Step(s, actions[0]), actions[1..])
  }

  lemma Run3(s: State, a: Action, b: Action, c: Action)
    ensures Run(s, [a, b, c]) == Step(Step(Step(s, a), b), c)
  {
    assert [a, b, c][1..] == [b, c] && [b, c][1..] == [c] && [c][1..] == [];
    assert Run(Step(s, a), [b, c]) == Run(Step(Step(s, a), b), [c]);
  }

  lemma Run3Then(s: State, a: Action, b: Action, c: Action, d: Action)
    ensures Run(s, [a, b, c, d]) == Step(Step(Step(Step(s, a), b), c), d)
  {
    assert [a, b, c, d][1..] == [b, c, d];
    Run3(Step(s, a), b, c, d);
  }

  /** The states the pass moves through in one step, in order. */
  function Moves(s: State, a: Action): seq<PassState> {
    if a.ApplyEvents? && Step(s, a) != s then PagePath(s.pass, a.effects).value
    else if Step(s, a).pass == s.pass then []
    else [Step(s, a).pass]
  }

  /** The states the pass moves through in a run, in order. */
  function Trail(s: State, actions: seq<Action>): seq<PassState>
    decreases |actions|
  {
    if actions == [] then [] else Moves(s, actions[0]) + Trail(Step(s, actions[0]), actions[1..])
  }

  /** Every move from one state to the next is an edge of the table. */
  predicate Chain(from: PassState, path: seq<PassState>)
    decreases |path|
  {
    path == [] || (Transition(from, path[0]) && Chain(path[0], path[1..]))
  }

  // ---- The invariant -----------------------------------------------------

  /** States a pass can be in once it has run. */
  predicate Late(p: PassState) { Reconcilable(p) || Terminal(p) }

  ghost predicate TaskOk(s: State, task: Task) {
    match task
    case HoldsDraft(revision) => revision <= s.revision && (revision == s.revision ==> s.pass.Draft?)
    case HoldsRow(revision) => revision <= s.revision
    case HoldsListing => Late(s.pass)
    case HoldsReceipt => Late(s.pass)
    case HoldsChallenge => Late(s.pass)
  }

  ghost predicate Inv(s: State) {
    && (s.approval.Done? <==> !s.pass.Draft?)
    && (s.decided ==> Late(s.pass))
    && (s.pass.Completed? ==> s.verdict == Some(Verified(Success)))
    && (s.pass.Failed? ==> s.verdict == Some(Verified(Failure)))
    && (forall t | t in s.tasks :: TaskOk(s, s.tasks[t]))
  }

  lemma {:induction false} PageChains(from: PassState, effects: seq<Effect>)
    requires PagePath(from, effects).Some?
    ensures var path := PagePath(from, effects).value;
            && Chain(from, path)
            && (Late(from) && !from.Completed? && !from.Failed? ==>
                  Late(Last(from, path)) && !Last(from, path).Completed? && !Last(from, path).Failed?)
            && (Terminal(from) ==> path == [])
    decreases |effects|
  {
    if effects != [] {
      EventsMoveAlongEdges(from, effects[0]);
      var to := StateAfter(from, effects[0]).value;
      PageChains(to, effects[1..]);
      var rest := PagePath(to, effects[1..]).value;
      assert ([to] + rest)[1..] == rest;
    }
  }

  lemma StepKeepsInv(s: State, a: Action)
    requires Inv(s)
    ensures Inv(Step(s, a))
  {
    if a.ApplyEvents? && PagePath(s.pass, a.effects).Some? {
      PageChains(s.pass, a.effects);
    }
    var s1 := Step(s, a);
    if (a.ApplyEvents? || a.StoreVerdict? || a.WriteDraft? || a.SettleApproval? || a.PutExpansionIntent?) && a.task in s.tasks {
      assert TaskOk(s, s.tasks[a.task]);
    }
    forall t | t in s1.tasks
      ensures TaskOk(s1, s1.tasks[t])
    {
      if t in s.tasks {
        assert TaskOk(s, s.tasks[t]);
      }
    }
  }

  lemma {:induction false} RunKeepsInv(s: State, actions: seq<Action>)
    requires Inv(s)
    ensures Inv(Run(s, actions))
    decreases |actions|
  {
    if actions != [] {
      StepKeepsInv(s, actions[0]);
      RunKeepsInv(Step(s, actions[0]), actions[1..]);
    }
  }

  // ---- Every move is an edge, but for one --------------------------------

  /** An approved expansion settles on a pass that has left the states its
      decision was begun in: settleDecision writes running all the same. */
  predicate Overrides(s: State, a: Action) {
    SettlesToRunning(s, a) && !s.pass.Launching? && !s.pass.Running? && !s.pass.AwaitingExpansion?
  }

  predicate NoOverride(s: State, actions: seq<Action>)
    decreases |actions|
  {
    actions == [] || (!Overrides(s, actions[0]) && NoOverride(Step(s, actions[0]), actions[1..]))
  }

  lemma StepIsEdgeUnlessOverride(s: State, a: Action)
    requires Inv(s)
    ensures Chain(s.pass, Moves(s, a)) <==> !Overrides(s, a)
    ensures Last(s.pass, Moves(s, a)) == Step(s, a).pass
  {
    if a.ApplyEvents? && PagePath(s.pass, a.effects).Some? {
      PageChains(s.pass, a.effects);
    } else if a.SettleApproval? || a.WriteDraft? {
      if a.task in s.tasks {
        assert TaskOk(s, s.tasks[a.task]);
      }
    }
  }

  lemma {:induction false} ChainSplits(from: PassState, p: seq<PassState>, q: seq<PassState>)
    ensures Chain(from, p + q) <==> Chain(from, p) && Chain(Last(from, p), q)
    decreases |p|
  {
    if p == [] {
      assert p + q == q;
    } else {
      assert (p + q)[1..] == p[1..] + q;
      ChainSplits(p[0], p[1..], q);
    }
  }

  /** The pass follows the transition table all through a run exactly when no
      expansion settles over a pass that has moved on. */
  lemma {:induction false} RunFollowsTableUnlessOverride(s: State, actions: seq<Action>)
    requires Inv(s)
    ensures Chain(s.pass, Trail(s, actions)) <==> NoOverride(s, actions)
    decreases |actions|
  {
    if actions != [] {
      var s1 := Step(s, actions[0]);
      StepIsEdgeUnlessOverride(s, actions[0]);
      StepKeepsInv(s, actions[0]);
      RunFollowsTableUnlessOverride(s1, actions[1..]);
      ChainSplits(s.pass, Moves(s, actions[0]), Trail(s1, actions[1..]));
    }
  }

  /** Terminal states are absorbing in those runs. */
  lemma {:induction false} TerminalIsAbsorbing(s: State, actions: seq<Action>)
    requires Inv(s) && NoOverride(s, actions) && Terminal(s.pass)
    ensures Run(s, actions).pass == s.pass
    decreases |actions|
  {
    if actions != [] {
      StepIsEdgeUnlessOverride(s, actions[0]);
      StepKeepsInv(s, actions[0]);
      assert Moves(s, actions[0]) == [];
      TerminalIsAbsorbing(Step(s, actions[0]), actions[1..]);
    }
  }

  /** The run that breaks it: a decision is begun and recorded on a running
      pass, the mission is revoked, and then the expansion settles.  No
      transaction of this machine takes a new draft to running, so the running
      pass comes from outside it (see DraftFollowsTable). */
  lemma RevokedPassRunsAgain()
    ensures var s := State(Running, 1, 1, Done, false, None, map[]);
            var a, b, c := BeginExpansionDecision(0), PutExpansionIntent(0), SettleRevocation;
            && Inv(s)
            && Run(s, [a, b, c]).pass.Revoked?
            && Run(s, [a, b, c, SettleExpansion(true, 2, true)]).pass.Running?
  {
    var s := State(Running, 1, 1, Done, false, None, map[]);
    var a, b, c := BeginExpansionDecision(0), PutExpansionIntent(0), SettleRevocation;
    Run3(s, a, b, c);
    Run3Then(s, a, b, c, SettleExpansion(true, 2, true));
  }

  // ---- One verdict, and only a verified one decides ----------------------

  /** The first stored verdict is final, whatever races or follows it. */
  lemma {:induction false} FirstVerdictWins(s: State, actions: seq<Action>)
    ensures s.verdict.Some? ==> Run(s, actions).verdict == s.verdict
    decreases |actions|
  {
    if actions != [] {
      FirstVerdictWins(Step(s, actions[0]), actions[1..]);
    }
  }

  /** A step that completes or fails the pass is the commit that stores the
      pass's first verdict, a verified one with that outcome. */
  lemma OnlyVerifiedReceiptDecides(s: State, a: Action)
    requires Inv(s)
    requires Step(s, a).pass != s.pass && (Step(s, a).pass.Completed? || Step(s, a).pass.Failed?)
    ensures a.StoreVerdict? && s.pass.OutcomePending? && s.verdict.None?
    ensures Step(s, a).verdict == Some(Verified(if Step(s, a).pass.Completed? then Success else Failure))
  {
    if a.ApplyEvents? && PagePath(s.pass, a.effects).Some? {
      NoPageDecides(s.pass, a.effects);
    }
  }

  lemma {:induction false} NoPageDecides(from: PassState, effects: seq<Effect>)
    requires PagePath(from, effects).Some?
    ensures var to := Last(from, PagePath(from, effects).value); to.Completed? || to.Failed? ==> to == from
    decreases |effects|
  {
    if effects != [] {
      EventsMoveAlongEdges(from, effects[0]);
      NoPageDecides(StateAfter(from, effects[0]).value, effects[1..]);
    }
  }

  /** Over whole runs: a completed (failed) pass carries a verified verdict of
      success (failure), and an unverifiable verdict keeps the pass from ever
      completing or failing. */
  lemma VerdictDecidesOutcome(s: State, actions: seq<Action>)
    requires Inv(s)
    ensures var s1 := Run(s, actions);
            && (s1.pass.Completed? ==> s1.verdict == Some(Verified(Success)))
            && (s1.pass.Failed? ==> s1.verdict == Some(Verified(Failure)))
            && (s.verdict == Some(Unverifiable) ==> !s1.pass.Completed? && !s1.pass.Failed?)
  {
    RunKeepsInv(s, actions);
    FirstVerdictWins(s, actions);
  }

  // ---- A verified verdict decides ----------------------------------------

  /** The commit of a verdict on a pass that waits for its outcome: a verified
      one completes the pass for success and fails it for failure, an
      unverifiable one is stored and moves nothing, an unknown outcome is not
      stored. */
  lemma VerdictDecidesAtOnce(s: State, t: nat, finding: Finding)
    requires t in s.tasks && s.tasks[t].HoldsReceipt? && s.verdict.None? && s.pass.OutcomePending?
    ensures var s1 := Step(s, StoreVerdict(t, finding));
            match finding
            case UnknownOutcome => s1 == s
            case Judged(Unverifiable) => s1 == s.(verdict := Some(Unverifiable))
            case Judged(Verified(Success)) =>
              s1 == s.(verdict := Some(Verified(Success)), pass := PassState.Completed, revision := s.revision + 1)
            case Judged(Verified(Failure)) =>
              s1 == s.(verdict := Some(Verified(Failure)), pass := PassState.Failed, revision := s.revision + 1)
  {
  }

  /** A receipt is verified for a pass that waits for its outcome or has ended
      since, and a stored verified verdict leaves no pass waiting. */
  ghost predicate VerdictsEnd(s: State) {
    && (forall t | t in s.tasks && s.tasks[t].HoldsReceipt? :: s.pass.OutcomePending? || Terminal(s.pass))
    && (s.verdict.Some? && s.verdict.value.Verified? ==> Terminal(s.pass))
  }

  /** A pass that waits for its outcome only ends, or waits on. */
  lemma {:induction false} WaitingEnds(from: PassState, path: seq<PassState>)
    requires Chain(from, path) && (from.OutcomePending? || Terminal(from))
    ensures Last(from, path).OutcomePending? || Terminal(Last(from, path))
    ensures Terminal(from) ==> path == []
    decreases |path|
  {
    if path != [] {
      WaitingEnds(path[0], path[1..]);
    }
  }

  lemma StepKeepsVerdictsEnd(s: State, a: Action)
    requires Inv(s) && VerdictsEnd(s) && !Overrides(s, a)
    ensures VerdictsEnd(Step(s, a))
  {
    StepIsEdgeUnlessOverride(s, a);
    if s.pass.OutcomePending? || Terminal(s.pass) {
      WaitingEnds(s.pass, Moves(s, a));
    }
    if a.StoreVerdict? && a.task in s.tasks && s.tasks[a.task].HoldsReceipt? {
      assert s.pass.OutcomePending? || Terminal(s.pass);
    }
  }

  /** Over whole runs: once a verified verdict is stored the pass has ended, as
      completed, failed, or in the state a revocation or expiry put it in before
      the verdict, and it stays so; no pass waits for an outcome it has. */
  lemma {:induction false} VerifiedPassHasEnded(s: State, actions: seq<Action>)
    requires Inv(s) && VerdictsEnd(s) && NoOverride(s, actions)
    ensures VerdictsEnd(Run(s, actions))
    ensures var s1 := Run(s, actions);
            s1.verdict.Some? && s1.verdict.value.Verified? ==>
              Terminal(s1.pass) && (s.verdict == s1.verdict ==> s1.pass == s.pass)
    decreases |actions|
  {
    if actions != [] {
      var s1 := Step(s, actions[0]);
      StepKeepsInv(s, actions[0]);
      StepKeepsVerdictsEnd(s, actions[0]);
      VerifiedPassHasEnded(s1, actions[1..]);
      if s.verdict.Some? && s.verdict.value.Verified? {
        StepIsEdgeUnlessOverride(s, actions[0]);
        WaitingEnds(s.pass, Moves(s, actions[0]));
        assert s1.pass == s.pass && s1.verdict == s.verdict;
      }
    }
  }

  /** A terminal pass is left by exactly the settlement that overrides it. */
  lemma TerminalLeftExactlyByOverride(s: State, a: Action)
    requires Inv(s) && Terminal(s.pass)
    ensures Step(s, a).pass != s.pass <==> Overrides(s, a)
  {
    StepIsEdgeUnlessOverride(s, a);
    if !Overrides(s, a) {
      WaitingEnds(s.pass, Moves(s, a));
    }
  }

  // ---- What one service does alone ---------------------------------------

  /** From a loaded receipt to its verdict, nothing in between: a pass that
      waits and has no verdict ends as verified, any other stays. */
  lemma ReceiptOutcome(s: State, t: nat, outcome: RunOutcome)
    requires t !in s.tasks
    ensures var s1 := Step(Step(s, LoadForReceipt(t)), StoreVerdict(t, Judged(Verified(outcome))));
            if s.pass.OutcomePending? && s.verdict.None?
            then s1.verdict == Some(Verified(outcome)) && (outcome.Success? ==> s1.pass.Completed?) && (outcome.Failure? ==> s1.pass.Failed?)
            else s1 == s
  {
    if s.pass.OutcomePending? && s.verdict.None? {
      VerdictDecidesAtOnce(Step(s, LoadForReceipt(t)), t, Judged(Verified(outcome)));
    }
  }

  /** From a loaded draft to its approval: exactly drafts are approved. */
  lemma ApprovalOutcome(s: State, t: nat, version: int)
    requires Inv(s) && t !in s.tasks
    ensures var s1 := Step(Step(Step(s, LoadDraft(t)), PutApprovalIntent(t)), SettleApproval(t, version));
            if s.pass.Draft?
            then s1.pass.Approved? && s1.version == version && s1.revision == s.revision + 1 && s1.approval.Done?
            else s1 == s
  {
  }

  /** A decision begun and settled on the same pass: an approved one runs it at
      the new version if its expansion is still pending, any other writes
      nothing. */
  lemma ExpansionOutcome(s: State, t: nat, approve: bool, version: int, pending: bool)
    requires t !in s.tasks && !s.decided
    ensures var s1 := Step(Step(Step(s, BeginExpansionDecision(t)), PutExpansionIntent(t)), SettleExpansion(approve, version, pending));
            if !s.pass.Running? && !s.pass.AwaitingExpansion? then s1 == s
            else if approve && pending && (s.pass.AwaitingExpansion? || s.version < version)
            then s1.pass.Running? && s1.version == version && s1.revision == s.revision + 1 && s1.decided
            else s1.pass == s.pass && s1.version == s.version && s1.revision == s.revision && s1.decided
  {
  }

  /** A revised or pending draft stays a draft, at the next revision. */
  lemma RevisionOutcome(s: State, t: nat)
    requires t !in s.tasks
    ensures var s1 := Step(Step(s, LoadDraft(t)), WriteDraft(t));
            if s.pass.Draft? then s1.pass.Draft? && s1.revision == s.revision + 1 && s1.version == s.version else s1 == s
  {
  }

  /** Adoption launches exactly approved passes, revocation revokes exactly what
      the table lets it. */
  lemma OneWriteOutcome(s: State, version: int)
    ensures Step(s, AdoptLaunch(version))
            == if s.pass.Approved? then s.(pass := PassState.Launching, version := version, revision := s.revision + 1) else s
    ensures Step(s, SettleRevocation)
            == if s.pass.Revoked? || Transition(s.pass, Revoked) then s.(pass := PassState.Revoked, revision := s.revision + 1) else s
  {
    TableAgreesWithGuards(s.pass);
  }

  /** A listed pass takes a whole page of events or none of it; only running,
      awaiting and waiting passes are listed. */
  lemma PollOutcome(s: State, t: nat, effects: seq<Effect>)
    requires t !in s.tasks
    ensures var s1 := Step(Step(s, ListPass(t)), ApplyEvents(t, effects));
            if !s.pass.Running? && !s.pass.AwaitingExpansion? && !s.pass.OutcomePending? then s1 == s
            else match PagePath(s.pass, effects)
                 case None => s1.pass == s.pass && s1.revision == s.revision
                 case Some(path) => s1.pass == Last(s.pass, path) && s1.revision == s.revision + 1
  {
  }

  // ---- Stale and ended tasks ---------------------------------------------

  /** Every change of the row advances its revision by one, and nothing takes
      the revision back. */
  lemma StepAdvancesRevision(s: State, a: Action)
    ensures s.revision <= Step(s, a).revision <= s.revision + 1
    ensures Step(s, a).pass != s.pass || Step(s, a).version != s.version ==> Step(s, a).revision == s.revision + 1
  {
  }

  lemma {:induction false} RunAdvancesRevision(s: State, actions: seq<Action>)
    ensures s.revision <= Run(s, actions).revision
    ensures Run(s, actions).revision == s.revision ==> Run(s, actions).pass == s.pass && Run(s, actions).version == s.version
    decreases |actions|
  {
    if actions != [] {
      StepAdvancesRevision(s, actions[0]);
      RunAdvancesRevision(Step(s, actions[0]), actions[1..]);
    }
  }

  /** An approval or a revision settles only on the very row its task loaded: if
      anything wrote the pass in between, it writes nothing. */
  lemma StaleTaskWritesNothing(s: State, t: nat, actions: seq<Action>, version: int)
    requires t in s.tasks && (s.tasks[t].HoldsDraft? || s.tasks[t].HoldsRow?) && s.tasks[t].revision == s.revision
    requires t in Run(s, actions).tasks && Run(s, actions).tasks[t] == s.tasks[t]
    requires Run(s, actions).pass != s.pass || Run(s, actions).version != s.version
    ensures Step(Run(s, actions), SettleApproval(t, version)) == Run(s, actions)
    ensures Step(Run(s, actions), WriteDraft(t)) == Run(s, actions)
  {
    RunAdvancesRevision(s, actions);
  }

  /** After a crash the task writes and stores nothing. */
  lemma EndedTaskDoesNothing(s: State, t: nat, a: Action)
    requires a.SettleApproval? || a.WriteDraft? || a.PutApprovalIntent? || a.ApplyEvents? || a.StoreVerdict? || a.PutExpansionIntent?
    requires a.task == t
    ensures Step(Step(s, End(t)), a) == Step(s, End(t))
  {
  }

  /** Without a request that loads the draft, a new draft is never approved:
      reconciliation alone puts no approval intent. */
  lemma {:induction false} NoApprovalWithoutDraftLoaded(s: State, actions: seq<Action>)
    requires s.pass.Draft? && s.approval.NoIntent? && !s.decided && forall t | t in s.tasks :: s.tasks[t].HoldsRow?
    requires forall i | 0 <= i < |actions| :: !actions[i].LoadDraft?
    ensures Run(s, actions).pass.Draft? && Run(s, actions).approval.NoIntent?
    decreases |actions|
  {
    if actions != [] {
      NoApprovalWithoutDraftLoaded(Step(s, actions[0]), actions[1..]);
    }
  }

  // ---- What a new draft can become ---------------------------------------

  predicate NewDraft(s: State) {
    s.pass.Draft? && s.approval.NoIntent? && !s.decided && s.verdict.None? && s.tasks == map[]
  }

  /** Nothing writes running but a settled expansion, and nobody can begin an
      expansion decision, list the pass or verify a receipt before it runs. */
  ghost predicate Early(s: State) {
    && Inv(s) && !s.decided && s.verdict.None?
    && (s.pass.Draft? || s.pass.Approved? || s.pass.Launching? || s.pass.Revoked?)
    && (forall t | t in s.tasks :: s.tasks[t].HoldsDraft? || s.tasks[t].HoldsRow?)
  }

  lemma StepKeepsEarly(s: State, a: Action)
    requires Early(s)
    ensures Early(Step(s, a))
  {
    StepKeepsInv(s, a);
  }

  lemma {:induction false} RunKeepsEarly(s: State, actions: seq<Action>)
    requires Early(s)
    ensures Early(Run(s, actions))
    decreases |actions|
  {
    if actions != [] {
      StepKeepsEarly(s, actions[0]);
      RunKeepsEarly(Step(s, actions[0]), actions[1..]);
    }
  }

  lemma {:induction false} EarlyNeverOverrides(s: State, actions: seq<Action>)
    requires Early(s)
    ensures NoOverride(s, actions)
    decreases |actions|
  {
    if actions != [] {
      StepKeepsEarly(s, actions[0]);
      EarlyNeverOverrides(Step(s, actions[0]), actions[1..]);
    }
  }

  /** From a new draft, without any condition: every run follows the transition
      table, stores no verdict, and leaves a terminal state no more. */
  lemma DraftFollowsTable(s: State, actions: seq<Action>, more: seq<Action>)
    requires NewDraft(s)
    ensures Chain(s.pass, Trail(s, actions))
    ensures Run(s, actions).verdict.None?
    ensures Terminal(Run(s, actions).pass) ==> Run(Run(s, actions), more).pass == Run(s, actions).pass
  {
    EarlyNeverOverrides(s, actions);
    RunFollowsTableUnlessOverride(s, actions);
    RunKeepsEarly(s, actions);
    EarlyNeverOverrides(Run(s, actions), more);
    if Terminal(Run(s, actions).pass) {
      TerminalIsAbsorbing(Run(s, actions), more);
    }
  }

  lemma DraftReaches(s: State, to: PassState) returns (actions: seq<Action>)
    requires NewDraft(s) && (to.Draft? || to.Approved? || to.Launching? || to.Revoked?)
    ensures Run(s, actions).pass == to
  {
    var a, b, c := LoadDraft(0), PutApprovalIntent(0), SettleApproval(0, 1);
    if to.Draft? {
      actions := [];
    } else if to.Approved? {
      Run3(s, a, b, c);
      actions := [a, b, c];
    } else {
      var d := if to.Launching? then AdoptLaunch(1) else SettleRevocation;
      Run3Then(s, a, b, c, d);
      actions := [a, b, c, d];
    }
  }

  /** From a new draft the services reach approved, launching and revoked, and
      no other state: no transaction records that a launched run started. */
  lemma DraftReachesExactly(s: State, to: PassState)
    requires NewDraft(s)
    ensures (exists actions :: Run(s, actions).pass == to)
            <==> (to.Draft? || to.Approved? || to.Launching? || to.Revoked?)
  {
    if to.Draft? || to.Approved? || to.Launching? || to.Revoked? {
      var actions := DraftReaches(s, to);
      assert Run(s, actions).pass == to;
    } else if actions :| Run(s, actions).pass == to {
      RunKeepsEarly(s, actions);
    }
  }
}
