/** What the upstream's answers make of revocations and expansion decisions: no
    intent completes without a positive answer for its subject, and the exact
    outcome of one decision and of one reconciliation that nothing interrupts
    (internal/missionpass/revoke.go, internal/expansion/service.go). */
module DecisionAnswers {
  import opened Base
  import opened PassModel
  import opened DecisionProtocol

  // ---- No completion without an answer -----------------------------------

  /** A subject, and the mission version the upstream answered for it. */
  datatype Answered = Answered(subject: Subject, version: int)

  /** The positive answers of a run, kept beside the machine: to the call of a
      request, or to the lookup of a reconciliation. */
  function Noted(log: set<Answered>, s: State, a: Action): set<Answered> {
    match a
    case Answer(t, Some(v)) =>
      if t in s.tasks && s.tasks[t].pc.Called? then log + {Answered(s.tasks[t].pc.d.subject, v)} else log
    case LookUp(t, Some(v)) =>
      if t in s.tasks && s.tasks[t].pc.LookingUp? then log + {Answered(s.tasks[t].pc.subject, v)} else log
    case _ => log
  }

  function NotedAll(log: set<Answered>, s: State, actions: seq<Action>): set<Answered>
    decreases |actions|
  {
    if actions == [] then log else NotedAll(Noted(log, s, actions[0]), Step(s, actions[0]), actions[1..])
  }

  /** The completed intent repeats a version answered for it, if it approved. */
  predicate CompletedBy(s: State, x: Subject, r: Answered) {
    r.subject == x && x in s.intents
    && (x.Expansion? ==> x.id in s.expansions && (s.expansions[x.id].Approved? ==> s.intents[x].version == r.version))
  }

  ghost predicate HasAnswer(s: State, log: set<Answered>, x: Subject) { exists r | r in log :: CompletedBy(s, x, r) }

  ghost predicate Heard(s: State, log: set<Answered>) {
    && (forall t | t in s.tasks && s.tasks[t].pc.Settling? :: Answered(s.tasks[t].pc.d.subject, s.tasks[t].pc.result) in log)
    && (forall x | IsDone(s, x) :: (x.Expansion? ==> IsResolved(s, x.id)) && HasAnswer(s, log, x))
  }

  /** Nothing recorded of a completed intent changes. */
  lemma DoneKeepsAnswer(s: State, s1: State, log: set<Answered>, log1: set<Answered>, x: Subject)
    requires IsDone(s, x) && HasAnswer(s, log, x) && log <= log1
    requires x in s1.intents && s1.intents[x] == s.intents[x]
    requires x.Expansion? ==> x.id in s1.expansions && s1.expansions[x.id] == s.expansions[x.id]
    ensures HasAnswer(s1, log1, x)
  {
    var r :| r in log && CompletedBy(s, x, r);
    assert CompletedBy(s1, x, r);
  }

  lemma AnswerHeard(s: State, t: nat, result: Option<int>, log: set<Answered>)
    requires Heard(s, log)
    ensures Heard(Step(s, Answer(t, result)), Noted(log, s, Answer(t, result)))
  {
    var s1, log1 := Step(s, Answer(t, result)), Noted(log, s, Answer(t, result));
    forall x | IsDone(s1, x)
      ensures (x.Expansion? ==> IsResolved(s1, x.id)) && HasAnswer(s1, log1, x)
    {
      DoneKeepsAnswer(s, s1, log, log1, x);
    }
  }

  lemma LookUpHeard(s: State, t: nat, result: Option<int>, log: set<Answered>)
    requires Heard(s, log)
    ensures Heard(AfterLookUp(s, t, result), Noted(log, s, LookUp(t, result)))
  {
    var s1, log1 := AfterLookUp(s, t, result), Noted(log, s, LookUp(t, result));
    forall x | IsDone(s1, x)
      ensures (x.Expansion? ==> IsResolved(s1, x.id)) && HasAnswer(s1, log1, x)
    {
      DoneKeepsAnswer(s, s1, log, log1, x);
    }
  }

  lemma SettleHeard(s: State, t: nat, log: set<Answered>)
    requires Heard(s, log)
    ensures Heard(AfterSettle(s, t), log)
  {
    var s1 := AfterSettle(s, t);
    forall x | IsDone(s1, x)
      ensures (x.Expansion? ==> IsResolved(s1, x.id)) && HasAnswer(s1, log, x)
    {
      if IsDone(s, x) {
        StepKeepsSettled(s, Settle(t), x, if x.Expansion? then x.id else 0);
        DoneKeepsAnswer(s, s1, log, log, x);
      } else {
        var pc := s.tasks[t].pc;
        assert Answered(pc.d.subject, pc.result) in log;
        assert CompletedBy(s1, x, Answered(pc.d.subject, pc.result));
      }
    }
  }

  lemma OthersHeard(s: State, a: Action, log: set<Answered>)
    requires Heard(s, log) && !a.Answer? && !a.LookUp? && !a.Settle?
    ensures Heard(Step(s, a), log)
  {
    var s1 := Step(s, a);
    forall x | IsDone(s1, x)
      ensures (x.Expansion? ==> IsResolved(s1, x.id)) && HasAnswer(s1, log, x)
    {
      StepKeepsSettled(s, a, x, if x.Expansion? then x.id else 0);
      OthersComplete(s, a, x);
      DoneKeepsAnswer(s, s1, log, log, x);
    }
    OthersSettleNothing(s, a);
  }

  lemma OthersComplete(s: State, a: Action, x: Subject)
    requires !a.Answer? && !a.LookUp? && !a.Settle? && IsDone(Step(s, a), x)
    ensures IsDone(s, x)
  {
  }

  lemma OthersSettleNothing(s: State, a: Action)
    requires !a.Answer? && !a.LookUp? && !a.Settle?
    ensures forall t | t in Step(s, a).tasks && Step(s, a).tasks[t].pc.Settling? :: t in s.tasks && s.tasks[t].pc == Step(s, a).tasks[t].pc
  {
  }

  lemma StepHeard(s: State, a: Action, log: set<Answered>)
    requires Heard(s, log)
    ensures Heard(Step(s, a), Noted(log, s, a))
  {
    match a
    case Answer(t, result) => AnswerHeard(s, t, result, log);
    case LookUp(t, result) => LookUpHeard(s, t, result, log);
    case Settle(t) => SettleHeard(s, t, log);
    case _ => OthersHeard(s, a, log);
  }

  lemma {:induction false} RunHeard(s: State, actions: seq<Action>, log: set<Answered>)
    requires Heard(s, log)
    ensures Heard(Run(s, actions), NotedAll(log, s, actions))
    decreases |actions|
  {
    if actions != [] {
      StepHeard(s, actions[0], log);
      RunHeard(Step(s, actions[0]), actions[1..], Noted(log, s, actions[0]));
    }
  }

  /** In every run, an intent completes only after the upstream said that its
      operation is done, to its call or to a lookup; an approval is stored with
      the mission version that answer gave. */
  lemma NoCompletionWithoutAnswer(s: State, actions: seq<Action>, x: Subject)
    requires Initial(s) && IsDone(Run(s, actions), x)
    ensures exists r | r in NotedAll({}, s, actions) :: CompletedBy(Run(s, actions), x, r)
  {
    RunHeard(s, actions, {});
  }

  // ---- One settlement ----------------------------------------------------

  /** The states a pass can be revoked in, and revoked itself. */
  predicate MayEndRevoked(pass: PassState) {
    pass in {PassState.Approved, PassState.Launching, PassState.Running, PassState.AwaitingExpansion, PassState.OutcomePending, PassState.Revoked}
  }

  predicate Unsettled(s: State, x: Subject) { x in s.intents && s.intents[x].state.InFlight? }

  /** Everything settlement writes for a decision with this answer: the revoked
      pass with its intent; or the resolved expansion with its intent and, for
      an approval the pass has not seen yet, the running pass. */
  ghost predicate SettledAs(s: State, s1: State, x: Subject, approve: bool, expected: int, result: int) {
    && s1.procs == s.procs && s1.calls == s.calls && s1.puts == s.puts
    && match x
       case Mission =>
         if Unsettled(s, Mission) && MayEndRevoked(s.pass)
         then s1.pass.Revoked? && s1.version == s.version && s1.revision == s.revision + 1 && s1.expansions == s.expansions
              && s1.intents == s.intents[Mission := s.intents[Mission].(state := IntentState.Completed)]
         else Same(s, s1)
       case Expansion(id) =>
         if Unsettled(s, x) && id in s.expansions && s.expansions[id].Pending? && (approve ==> expected < result)
         then s1.expansions == s.expansions[id := if approve then Status.Approved else Status.Denied]
              && s1.intents == s.intents[x := s.intents[x].(state := IntentState.Completed, version := if approve then result else s.version)]
              && if approve && (s.version < result || s.pass != PassState.Running)
                 then s1.pass.Running? && s1.version == result && s1.revision == s.revision + 1
                 else s1.pass == s.pass && s1.version == s.version && s1.revision == s.revision
         else Same(s, s1)
  }

  predicate Same(s: State, s1: State) {
    && s1.pass == s.pass && s1.version == s.version && s1.revision == s.revision
    && s1.intents == s.intents && s1.expansions == s.expansions
  }

  lemma SettlesExactly(s: State, t: nat, p: nat, d: Decision, result: int, locked: bool)
    requires t in s.tasks && p in s.procs && s.tasks[t] == Task(p, Settling(d, result, locked))
    ensures var s1 := Step(s, Settle(t));
            s1.tasks == s.tasks - {t} && SettledAs(s, s1, d.subject, d.approve, d.expected, result)
  {
  }

  // ---- An answer that is not positive ------------------------------------

  /** An error, an ambiguous outcome or an operation that is not completed ends
      the request and changes nothing in the store; a positive answer is what
      the request goes on to settle. */
  lemma AnswerOutcome(s: State, t: nat, p: nat, d: Decision, result: Option<int>)
    requires t in s.tasks && p in s.procs && s.tasks[t] == Task(p, Called(d))
    ensures Step(s, Answer(t, result))
            == s.(tasks := match result
                           case None => s.tasks - {t}
                           case Some(v) => s.tasks[t := Task(p, Settling(d, v, true))])
  {
  }

  lemma LookUpOutcome(s: State, t: nat, p: nat, x: Subject, locked: bool, result: Option<int>)
    requires t in s.tasks && p in s.procs && s.tasks[t] == Task(p, LookingUp(x, locked))
    ensures Step(s, LookUp(t, result))
            == if result.Some? && Unsettled(s, x)
               then s.(tasks := s.tasks[t := Task(p, Settling(Decision(x, s.intents[x].approve, s.intents[x].digest, s.version), result.value, locked))])
               else s.(tasks := s.tasks - {t})
  {
  }

  // ---- One reconciliation ------------------------------------------------

  function Reconciled(s: State, t: nat, p: nat, x: Subject, result: Option<int>): State {
    Step(Step(Step(s, Reconcile(t, p, x)), LookUp(t, result)), Settle(t))
  }

  lemma SettlingNothing(s: State, t: nat)
    requires t !in s.tasks
    ensures Step(s, Settle(t)) == s
  {
    assert s.tasks - {t} == s.tasks;
  }

  /** The exact outcome of a reconciliation that nothing interrupts: it settles
      an intent in flight as the intent itself says, with the version looked up,
      exactly when the upstream operation is completed, and else changes
      nothing at all; it never calls. */
  lemma ReconcileOutcome(s: State, t: nat, p: nat, x: Subject, result: Option<int>)
    requires t !in s.tasks && p in s.procs && (x.Expansion? ==> !Busy(s, p, x))
    ensures var s1 := Reconciled(s, t, p, x, result);
            && s1.tasks == s.tasks && s1.calls == s.calls && s1.puts == s.puts
            && if result.Some? && Unsettled(s, x)
               then SettledAs(s, s1, x, s.intents[x].approve, s.version, result.value)
               else s1 == s
  {
    var s1 := Step(s, Reconcile(t, p, x));
    assert s1 == s.(tasks := s.tasks[t := Task(p, LookingUp(x, x.Expansion?))]);
    assert s1.tasks - {t} == s.tasks;
    LookUpOutcome(s1, t, p, x, x.Expansion?, result);
    var s2 := Step(s1, LookUp(t, result));
    if result.Some? && Unsettled(s, x) {
      var d := Decision(x, s.intents[x].approve, s.intents[x].digest, s.version);
      SettlesExactly(s2, t, p, d, result.value, x.Expansion?);
    } else {
      SettlingNothing(s2, t);
    }
  }

  // ---- One decision ------------------------------------------------------

  /** A finished ceremony up to the reading of the intent. */
  function Locks(s: State, t: nat, p: nat, d: Decision): State {
    Step(Step(Step(s, Finish(t, p, d)), Acquire(t)), ReadIntent(t))
  }

  lemma LocksExactly(s: State, t: nat, p: nat, d: Decision)
    requires t !in s.tasks && p in s.procs && !Busy(s, p, d.subject)
    ensures Locks(s, t, p, d)
            == if d.subject !in s.intents then s.(tasks := s.tasks[t := Task(p, Clear(d))])
               else if s.intents[d.subject].state.InFlight? && s.intents[d.subject].digest == d.digest
               then s.(tasks := s.tasks[t := Task(p, LookingUp(d.subject, true))])
               else s
  {
    var s1 := Step(s, Finish(t, p, d));
    assert s1 == s.(tasks := s.tasks[t := Task(p, Waiting(d))]);
    FinishHoldsNothing(s, t, p, d);
    var s2 := Step(s1, Acquire(t));
    assert s2 == s.(tasks := s.tasks[t := Task(p, Locked(d))]);
    assert s2.tasks - {t} == s.tasks;
  }

  lemma FinishHoldsNothing(s: State, t: nat, p: nat, d: Decision)
    requires t !in s.tasks && p in s.procs && !Busy(s, p, d.subject)
    ensures !Busy(s.(tasks := s.tasks[t := Task(p, Waiting(d))]), p, d.subject)
  {
  }

  /** From the reading of the intent to the settlement. */
  function Decides(s: State, t: nat, answer: Option<int>, lookup: Option<int>): State {
    var s1 := Step(Step(Step(s, PutIntent(t)), CallUpstream(t)), Answer(t, answer));
    Step(Step(s1, LookUp(t, lookup)), Settle(t))
  }

  function Claim(s: State, d: Decision): State {
    s.(intents := s.intents[d.subject := Intent(InFlight, d.approve, d.digest, 0)],
       puts := s.puts + [Put(d.subject, false)], calls := s.calls + [d.subject])
  }

  lemma CallsExactly(s: State, t: nat, p: nat, d: Decision)
    requires t in s.tasks && p in s.procs && s.tasks[t] == Task(p, Clear(d)) && d.subject !in s.intents
    ensures Step(Step(s, PutIntent(t)), CallUpstream(t)) == Claim(s, d).(tasks := s.tasks[t := Task(p, Called(d))])
  {
  }

  lemma LookingAfterSettling(s: State, t: nat, lookup: Option<int>)
    requires t in s.tasks ==> s.tasks[t].pc.Settling?
    ensures Step(s, LookUp(t, lookup)) == s
  {
  }

  lemma FirstDecides(s: State, t: nat, p: nat, d: Decision, answer: Option<int>, lookup: Option<int>)
    requires t in s.tasks && p in s.procs && s.tasks[t] == Task(p, Clear(d)) && d.subject !in s.intents
    ensures var s1 := Decides(s, t, answer, lookup);
            && s1.tasks == s.tasks - {t}
            && match answer
               case None => s1 == Claim(s, d).(tasks := s.tasks - {t})
               case Some(v) => SettledAs(Claim(s, d), s1, d.subject, d.approve, d.expected, v)
  {
    CallsExactly(s, t, p, d);
    var s1 := Claim(s, d).(tasks := s.tasks[t := Task(p, Called(d))]);
    AnswerOutcome(s1, t, p, d, answer);
    var s2 := Step(s1, Answer(t, answer));
    assert s1.tasks - {t} == s.tasks - {t};
    LookingAfterSettling(s2, t, lookup);
    match answer
    case Some(v) => SettlesExactly(s2, t, p, d, v, true);
    case None => SettlingNothing(s2, t);
  }

  lemma LookingCallsNothing(s: State, t: nat, p: nat, x: Subject, answer: Option<int>)
    requires t in s.tasks && s.tasks[t] == Task(p, LookingUp(x, true))
    ensures Step(Step(Step(s, PutIntent(t)), CallUpstream(t)), Answer(t, answer)) == s
  {
  }

  lemma DecidingNothing(s: State, t: nat, answer: Option<int>, lookup: Option<int>)
    requires t !in s.tasks
    ensures Decides(s, t, answer, lookup) == s
  {
    SettlingNothing(s, t);
  }

  /** The exact outcome of a decision that nothing interrupts, for every stored
      intent and every answer.  The first decision for a subject stores its
      intent, calls once and settles as the ceremony decided if the answer is
      positive; a repetition of the decision in flight looks the operation up
      instead; any other repetition changes nothing. */
  lemma DecisionOutcome(s: State, t: nat, p: nat, d: Decision, answer: Option<int>, lookup: Option<int>)
    requires t !in s.tasks && p in s.procs && !Busy(s, p, d.subject)
    ensures var s1 := Decides(Locks(s, t, p, d), t, answer, lookup);
            && s1.tasks == s.tasks
            && if d.subject !in s.intents
               then
                 match answer
                 case None => s1 == Claim(s, d)
                 case Some(v) => SettledAs(Claim(s, d), s1, d.subject, d.approve, d.expected, v)
               else if Unsettled(s, d.subject) && s.intents[d.subject].digest == d.digest && lookup.Some?
               then SettledAs(s, s1, d.subject, s.intents[d.subject].approve, s.version, lookup.value)
               else s1 == s
  {
    LocksExactly(s, t, p, d);
    var s1 := Locks(s, t, p, d);
    if d.subject !in s.intents {
      FirstDecides(s1, t, p, d, answer, lookup);
      assert s1.tasks - {t} == s.tasks;
    } else if t in s1.tasks {
      LookingCallsNothing(s1, t, p, d.subject, answer);
      LookUpOutcome(s1, t, p, d.subject, true, lookup);
      assert s1.tasks - {t} == s.tasks;
      LookedUpSettles(s, s1, t, p, d.subject, lookup);
    } else {
      DecidingNothing(s1, t, answer, lookup);
    }
  }

  lemma LookedUpSettles(s: State, s1: State, t: nat, p: nat, x: Subject, lookup: Option<int>)
    requires t !in s.tasks && p in s.procs && Unsettled(s, x)
    requires s1 == s.(tasks := s.tasks[t := Task(p, LookingUp(x, true))])
    ensures var s2 := Step(Step(s1, LookUp(t, lookup)), Settle(t));
            && s2.tasks == s.tasks
            && if lookup.Some? then SettledAs(s, s2, x, s.intents[x].approve, s.version, lookup.value) else s2 == s
  {
    assert s1.tasks - {t} == s.tasks;
    LookUpOutcome(s1, t, p, x, true, lookup);
    var s2 := Step(s1, LookUp(t, lookup));
    if lookup.Some? {
      SettlesExactly(s2, t, p, Decision(x, s.intents[x].approve, s.intents[x].digest, s.version), lookup.value, true);
    } else {
      SettlingNothing(s2, t);
    }
  }

  // ---- One decision at a time --------------------------------------------

  /** The request is between taking the lock of x and letting it go. */
  predicate InSection(pc: Pc, x: Subject) {
    match pc
    case Waiting(_) => false
    case Locked(d) => d.subject == x
    case Clear(d) => d.subject == x
    case Claimed(d) => d.subject == x
    case Called(d) => d.subject == x
    case Settling(d, _, locked) => d.subject == x && locked
    case LookingUp(subject, locked) => subject == x && locked
  }

  lemma {:induction false} RunKeepsSections(s: State, actions: seq<Action>)
    requires Alone(s) && LocksHold(s) && NeverOverwrote(s) && OpensAre(actions, true)
    ensures LocksHold(Run(s, actions))
    decreases |actions|
  {
    if actions != [] {
      StepKeepsAlone(s, actions[0]);
      StepKeepsLocks(s, actions[0]);
      RunKeepsSections(Step(s, actions[0]), actions[1..]);
    }
  }

  /** With exclusive processes, in every run at most one request for a subject
      is between the lock and its release: reading, writing or settling the
      intent, calling, or looking the operation up under the lock. */
  lemma OneAtATime(s: State, actions: seq<Action>, t: nat, u: nat, x: Subject)
    requires Initial(s) && OpensAre(actions, true)
    requires t in Run(s, actions).tasks && u in Run(s, actions).tasks && t != u
    ensures !(InSection(Run(s, actions).tasks[t].pc, x) && InSection(Run(s, actions).tasks[u].pc, x))
  {
    RunKeepsSections(s, actions);
  }

  // ---- Crashes -----------------------------------------------------------

  /** A crash loses the process and its requests, and nothing the store has. */
  lemma CrashForgets(s: State, p: nat)
    ensures var s1 := Step(s, Crash(p));
            && Same(s, s1) && s1.calls == s.calls && p !in s1.procs
            && (forall q | q != p :: q in s1.procs <==> q in s.procs)
            && (forall t | t in s1.tasks :: s1.tasks[t].proc != p)
            && (forall t | t in s.tasks && s.tasks[t].proc != p :: t in s1.tasks && s1.tasks[t] == s.tasks[t])
  {
  }

  /** A request that has ended calls and writes nothing. */
  lemma EndedDoesNothing(s: State, t: nat, a: Action)
    requires a == PutIntent(t) || a == CallUpstream(t) || a == Settle(t) || a == ReadIntent(t) || a == Acquire(t)
    ensures Step(Step(s, End(t)), a) == Step(s, End(t))
  {
    assert Step(s, End(t)).tasks - {t} == Step(s, End(t)).tasks;
  }

  /** Another service replaces state and version under the next revision. */
  lemma OtherWriteReplaces(s: State, pass: PassState, version: int)
    ensures var s1 := Step(s, OtherWrite(pass, version));
            && s1.pass == pass && s1.version == version && s.revision < s1.revision <= s.revision + 1
            && s1.intents == s.intents && s1.expansions == s.expansions && s1.tasks == s.tasks
  {
  }
}
