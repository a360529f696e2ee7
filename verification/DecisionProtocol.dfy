/** RevokeMission and DecideExpansion: the intent row that precedes the
    upstream call, the in-process lock around both, and the settlement
    transactions, over any number of processes, finishes, worker sweeps and
    crashes (internal/missionpass/revoke.go, internal/expansion/service.go and
    their store tables).

    The intent write replaces an intent that is not completed, so it is the
    lock, together with the exclusive lock on the data directory, that keeps
    the upstream call unique: the model has both. */
module DecisionProtocol {
  import opened Base
  import opened PassModel

  datatype Subject = Mission | Expansion(id: nat)

  datatype IntentState = InFlight | Completed

  datatype Intent = Intent(state: IntentState, approve: bool, digest: nat, version: int)

  /** Resolved is what a row becomes that the upstream no longer lists. */
  datatype Status = Pending | Approved | Denied | Resolved | Other(code: nat)

  /** What one verified ceremony decided. */
  datatype Decision = Decision(subject: Subject, approve: bool, digest: nat, expected: int)

  datatype Pc =
    | Waiting(d: Decision)
    | Locked(d: Decision)
    | Clear(d: Decision)                   // read no intent, under the lock
    | Claimed(d: Decision)                 // intent written, call not sent
    | Called(d: Decision)
    | Settling(d: Decision, result: int, locked: bool)
    | LookingUp(subject: Subject, locked: bool)

  datatype Task = Task(proc: nat, pc: Pc)

  datatype Put = Put(subject: Subject, overwrote: bool)

  datatype State = State(
    pass: PassState, version: int, revision: nat,
    intents: map<Subject, Intent>, expansions: map<nat, Status>,
    procs: map<nat, bool>,                 // live processes, true when opened exclusively
    tasks: map<nat, Task>,
    calls: seq<Subject>, puts: seq<Put>)   // what the upstream and the store have seen

  datatype Action =
    | Open(proc: nat, exclusive: bool)
    | Crash(proc: nat)
    | OtherWrite(pass: PassState, version: int)
    | SyncPending(id: nat)
    | SyncListing(listed: map<nat, Status>)
    | Finish(task: nat, proc: nat, d: Decision)
    | Acquire(task: nat)
    | ReadIntent(task: nat)
    | PutIntent(task: nat)
    | CallUpstream(task: nat)
    | Answer(task: nat, result: Option<int>)
    | Settle(task: nat)
    | Reconcile(task: nat, proc: nat, subject: Subject)
    | LookUp(task: nat, result: Option<int>)
    | End(task: nat)

  // ---- Transitions -------------------------------------------------------

  function Guarded(pc: Pc): Option<Subject> {
    match pc
    case Waiting(_) => None
    case Locked(d) => Some(d.subject)
    case Clear(d) => Some(d.subject)
    case Claimed(d) => Some(d.subject)
    case Called(d) => Some(d.subject)
    case Settling(d, _, locked) => if locked then Some(d.subject) else None
    case LookingUp(subject, locked) => if locked then Some(subject) else None
  }

  /** Another task of this process holds the subject's lock. */
  predicate Busy(s: State, p: nat, x: Subject) {
    exists t | t in s.tasks :: s.tasks[t].proc == p && Guarded(s.tasks[t].pc) == Some(x)
  }

  predicate At(s: State, t: nat) { t in s.tasks && s.tasks[t].proc in s.procs }

  function Goto(s: State, t: nat, next: Option<Pc>): State
    requires t in s.tasks
  {
    match next
    case Some(pc) => s.(tasks := s.tasks[t := s.tasks[t].(pc := pc)])
    case None => s.(tasks := s.tasks - {t})
  }

  /** putRevocationIntent and putExpansionIntent replace any intent that is
      not completed. */
  predicate CanPut(s: State, x: Subject) { x in s.intents ==> s.intents[x].state.InFlight? }

  function AfterPut(s: State, t: nat): State {
    if At(s, t) && s.tasks[t].pc.Clear? then
      var d := s.tasks[t].pc.d;
      if CanPut(s, d.subject) then
        Goto(s, t, Some(Claimed(d)))
          .(intents := s.intents[d.subject := Intent(InFlight, d.approve, d.digest, 0)],
            puts := s.puts + [Put(d.subject, d.subject in s.intents)])
      else Goto(s, t, Some(LookingUp(d.subject, true)))
    else s
  }

  function AfterRead(s: State, t: nat): State {
    if At(s, t) && s.tasks[t].pc.Locked? then
      var d := s.tasks[t].pc.d;
      Goto(s, t,
        if d.subject !in s.intents then Some(Clear(d))
        else if s.intents[d.subject].state.Completed? then None          // replay the stored result
        else if s.intents[d.subject].digest != d.digest then None        // conflict
        else Some(LookingUp(d.subject, true)))
    else s
  }

  function AfterCall(s: State, t: nat): State {
    if At(s, t) && s.tasks[t].pc.Claimed?
    then Goto(s, t, Some(Called(s.tasks[t].pc.d))).(calls := s.calls + [s.tasks[t].pc.d.subject])
    else s
  }

  /** settleRevocation: the pass row and the intent, or neither. */
  function AfterRevocation(s: State): State {
    if (s.pass.Revoked? || Revocable(s.pass)) && Mission in s.intents && s.intents[Mission].state.InFlight?
    then s.(pass := Revoked, revision := s.revision + 1,
            intents := s.intents[Mission := s.intents[Mission].(state := IntentState.Completed)])
    else s
  }

  function Verdict(approve: bool): Status { if approve then Status.Approved else Status.Denied }

  /** settleDecision: the expansion, its intent and, when approved, the pass
      row, or nothing at all. */
  function AfterExpansion(s: State, d: Decision, result: int): State
    requires d.subject.Expansion?
  {
    if d.subject in s.intents && s.intents[d.subject].state.InFlight?
       && d.subject.id in s.expansions && s.expansions[d.subject.id].Pending?
       && (d.approve ==> d.expected < result)
    then
      var done := s.(expansions := s.expansions[d.subject.id := Verdict(d.approve)],
                     intents := s.intents[d.subject := s.intents[d.subject].(
                       state := IntentState.Completed, version := if d.approve then result else s.version)]);
      if d.approve && SettleWrites(s.pass, s.version, result)
      then done.(pass := Running, version := result, revision := s.revision + 1)
      else done
    else s
  }

  function AfterSettle(s: State, t: nat): State {
    if At(s, t) && s.tasks[t].pc.Settling? then
      var Settling(d, result, _) := s.tasks[t].pc;
      var s1 := if d.subject.Mission? then AfterRevocation(s) else AfterExpansion(s, d, result);
      s1.(tasks := s.tasks - {t})
    else s
  }

  /** ReconcileOperation answered completed; the decision itself comes from
      the durable intent. */
  function AfterLookUp(s: State, t: nat, result: Option<int>): State {
    if At(s, t) && s.tasks[t].pc.LookingUp? then
      var LookingUp(x, locked) := s.tasks[t].pc;
      if x in s.intents && s.intents[x].state.InFlight? && result.Some?
      then Goto(s, t, Some(Settling(Decision(x, s.intents[x].approve, s.intents[x].digest, s.version), result.value, locked)))
      else Goto(s, t, None)
    else s
  }

  /** The status a listing of the upstream gives to a pending row. */
  function ListedStatus(listed: map<nat, Status>, id: nat): Status { if id in listed then listed[id] else Resolved }

  /** The last transaction of syncExpansions: each local pending row the
      upstream does not list as pending takes the listed status. Neither the
      intents nor the pass row are read or written. */
  function AfterListing(s: State, listed: map<nat, Status>): State {
    s.(expansions := map id | id in s.expansions ::
         if s.expansions[id].Pending? then ListedStatus(listed, id) else s.expansions[id])
  }

  function Step(s: State, a: Action): State {
    match a
    case Open(p, exclusive) =>
      // OpenExclusive fails while another exclusive opener is alive.
      if p in s.procs || (exclusive && exists q | q in s.procs :: s.procs[q]) then s
      else s.(procs := s.procs[p := exclusive])
    case Crash(p) => s.(procs := s.procs - {p}, tasks := map t | t in s.tasks && s.tasks[t].proc != p :: s.tasks[t])
    case OtherWrite(pass, version) => s.(pass := pass, version := version, revision := s.revision + 1)
    case SyncPending(id) =>
      // PutExpansion refreshes a pending row and conflicts with a resolved one.
      if id in s.expansions then s else s.(expansions := s.expansions[id := Pending])
    case SyncListing(listed) => AfterListing(s, listed)
    case Finish(t, p, d) =>
      if t in s.tasks || p !in s.procs then s else s.(tasks := s.tasks[t := Task(p, Waiting(d))])
    case Acquire(t) =>
      if At(s, t) && s.tasks[t].pc.Waiting? && !Busy(s, s.tasks[t].proc, s.tasks[t].pc.d.subject)
      then Goto(s, t, Some(Locked(s.tasks[t].pc.d)))
      else s
    case ReadIntent(t) => AfterRead(s, t)
    case PutIntent(t) => AfterPut(s, t)
    case CallUpstream(t) => AfterCall(s, t)
    case Answer(t, result) =>
      // An error, ambiguous or not, ends the request; the intent stays.
      if At(s, t) && s.tasks[t].pc.Called?
      then Goto(s, t, if result.Some? then Some(Settling(s.tasks[t].pc.d, result.value, true)) else None)
      else s
    case Settle(t) => AfterSettle(s, t)
    case Reconcile(t, p, x) =>
      // Only the expansion reconciliation takes the lock.
      if t in s.tasks || p !in s.procs || (x.Expansion? && Busy(s, p, x)) then s
      else s.(tasks := s.tasks[t := Task(p, LookingUp(x, x.Expansion?))])
    case LookUp(t, result) => AfterLookUp(s, t, result)
    case End(t) => s.(tasks := s.tasks - {t})
  }

  function Run(s: State, actions: seq<Action>): State
    decreases |actions|
  {
    if actions == [] then s else Run(Step(s, actions[0]), actions[1..])
  }

  predicate Initial(s: State) {
    s.intents == map[] && s.procs == map[] && s.tasks == map[] && s.calls == [] && s.puts == []
  }

  // ---- Calls, intents and overwrites -------------------------------------

  function Count(calls: seq<Subject>, x: Subject): nat
    decreases |calls|
  {
    if calls == [] then 0 else Count(calls[..|calls| - 1], x) + if calls[|calls| - 1] == x then 1 else 0
  }

  function Overwrites(puts: seq<Put>, x: Subject): nat
    decreases |puts|
  {
    if puts == [] then 0
    else Overwrites(puts[..|puts| - 1], x) + if puts[|puts| - 1] == Put(x, true) then 1 else 0
  }

  /** Tasks that have written an intent for x and not yet called. */
  function Callers(tasks: map<nat, Task>, x: Subject): set<nat> {
    set t | t in tasks && tasks[t].pc.Claimed? && tasks[t].pc.d.subject == x
  }

  /** Each call, sent or still to be sent, has its own write of the intent. */
  ghost predicate CallsPaid(s: State, x: Subject) {
    Count(s.calls, x) + |Callers(s.tasks, x)| <= (if x in s.intents then 1 else 0) + Overwrites(s.puts, x)
  }

  lemma SettlingLogsNothing(s: State, t: nat)
    ensures var s1 := AfterSettle(s, t);
            s1.calls == s.calls && s1.puts == s.puts && s1.intents.Keys == s.intents.Keys
  {
  }

  lemma OthersLogNothing(s: State, a: Action)
    requires !a.PutIntent? && !a.CallUpstream?
    ensures Step(s, a).calls == s.calls && Step(s, a).puts == s.puts
    ensures Step(s, a).intents.Keys == s.intents.Keys
  {
    if a.Settle? {
      SettlingLogsNothing(s, a.task);
    }
  }

  /** A step that puts nothing and calls nothing loses callers at most. */
  lemma FewerCallers(s: State, a: Action, x: Subject)
    requires !a.PutIntent? && !a.CallUpstream?
    ensures Callers(Step(s, a).tasks, x) <= Callers(s.tasks, x)
  {
  }

  /** Moving one request changes the callers of x by that request alone. */
  lemma CallersAfterGoto(s: State, t: nat, pc: Pc, x: Subject)
    requires t in s.tasks
    ensures var others := Callers(s.tasks, x) - {t};
            Callers(Goto(s, t, Some(pc)).tasks, x) == if pc.Claimed? && pc.d.subject == x then others + {t} else others
  {
  }

  lemma ClaimPays(s: State, t: nat, d: Decision, x: Subject)
    requires CallsPaid(s, x) && t in s.tasks && !s.tasks[t].pc.Claimed?
    ensures CallsPaid(Goto(s, t, Some(Claimed(d)))
                        .(intents := s.intents[d.subject := Intent(InFlight, d.approve, d.digest, 0)],
                          puts := s.puts + [Put(d.subject, d.subject in s.intents)]), x)
  {
    CallersAfterGoto(s, t, Claimed(d), x);
    assert Callers(s.tasks, x) - {t} == Callers(s.tasks, x);
    OneMorePut(s.puts, Put(d.subject, d.subject in s.intents), x);
  }

  lemma PutPays(s: State, t: nat, x: Subject)
    requires CallsPaid(s, x)
    ensures CallsPaid(AfterPut(s, t), x)
  {
    if At(s, t) && s.tasks[t].pc.Clear? {
      var d := s.tasks[t].pc.d;
      ClaimPays(s, t, d, x);
      CallersAfterGoto(s, t, LookingUp(d.subject, true), x);
      assert Callers(s.tasks, x) - {t} == Callers(s.tasks, x);
    }
  }

  lemma OneMorePut(puts: seq<Put>, put: Put, x: Subject)
    ensures Overwrites(puts + [put], x) == Overwrites(puts, x) + if put == Put(x, true) then 1 else 0
  {
    assert (puts + [put])[..|puts|] == puts;
  }

  lemma CallPays(s: State, t: nat, x: Subject)
    requires CallsPaid(s, x)
    ensures CallsPaid(AfterCall(s, t), x)
  {
    if At(s, t) && s.tasks[t].pc.Claimed? {
      var d := s.tasks[t].pc.d;
      CallersAfterGoto(s, t, Called(d), x);
      assert t in Callers(s.tasks, x) <==> d.subject == x;
      assert (s.calls + [d.subject])[..|s.calls|] == s.calls;
    }
  }

  lemma StepPays(s: State, a: Action, x: Subject)
    requires CallsPaid(s, x)
    ensures CallsPaid(Step(s, a), x)
  {
    match a
    case PutIntent(t) => PutPays(s, t, x);
    case CallUpstream(t) => CallPays(s, t, x);
    case _ =>
      OthersLogNothing(s, a);
      FewerCallers(s, a, x);
      SubsetCard(Callers(Step(s, a).tasks, x), Callers(s.tasks, x));
  }

  lemma {:induction false} RunPays(s: State, actions: seq<Action>, x: Subject)
    requires CallsPaid(s, x)
    ensures CallsPaid(Run(s, actions), x)
    decreases |actions|
  {
    if actions != [] {
      StepPays(s, actions[0], x);
      RunPays(Step(s, actions[0]), actions[1..], x);
    }
  }

  /** In every run, the calls for one subject exceed one only by as many
      times as an intent was overwritten while in flight. */
  lemma CallsAtMostOneMoreThanOverwrites(s: State, actions: seq<Action>, x: Subject)
    requires Initial(s)
    ensures Count(Run(s, actions).calls, x) <= 1 + Overwrites(Run(s, actions).puts, x)
  {
    RunPays(s, actions, x);
  }

  // ---- Exclusive processes never overwrite -------------------------------

  /** Every process of the run opens the data directory in this mode. */
  predicate OpensAre(actions: seq<Action>, exclusive: bool) {
    forall i | 0 <= i < |actions| :: actions[i].Open? ==> actions[i].exclusive == exclusive
  }

  ghost predicate Alone(s: State) {
    && (forall p | p in s.procs :: s.procs[p])
    && (forall p, q | p in s.procs && q in s.procs :: p == q)
    && (forall t | t in s.tasks :: s.tasks[t].proc in s.procs)
  }

  /** One lock holder per subject, and the holder's empty read still stands. */
  ghost predicate LocksHold(s: State) {
    && (forall t, u | t in s.tasks && u in s.tasks && t != u ::
          Guarded(s.tasks[t].pc).None? || Guarded(s.tasks[t].pc) != Guarded(s.tasks[u].pc))
    && (forall t | t in s.tasks && s.tasks[t].pc.Clear? :: s.tasks[t].pc.d.subject !in s.intents)
  }

  ghost predicate NeverOverwrote(s: State) { forall i | 0 <= i < |s.puts| :: !s.puts[i].overwrote }

  lemma StepKeepsAlone(s: State, a: Action)
    requires Alone(s) && (a.Open? ==> a.exclusive)
    ensures Alone(Step(s, a))
  {
  }

  /** A task that moves on keeps the lock it holds, or lets it go. */
  lemma GotoKeepsLocks(s: State, t: nat, next: Option<Pc>)
    requires LocksHold(s) && t in s.tasks
    requires next.Some? ==> Guarded(next.value).None? || Guarded(next.value) == Guarded(s.tasks[t].pc)
    requires next.Some? && next.value.Clear? ==> next.value.d.subject !in s.intents
    ensures LocksHold(Goto(s, t, next))
  {
  }

  lemma AcquireKeepsLocks(s: State, t: nat)
    requires Alone(s) && LocksHold(s)
    ensures LocksHold(Step(s, Acquire(t)))
  {
  }

  lemma PutKeepsLocks(s: State, t: nat)
    requires LocksHold(s) && NeverOverwrote(s)
    ensures LocksHold(AfterPut(s, t)) && NeverOverwrote(AfterPut(s, t))
  {
  }

  lemma ReadKeepsLocks(s: State, t: nat)
    requires LocksHold(s)
    ensures LocksHold(AfterRead(s, t))
  {
    if At(s, t) && s.tasks[t].pc.Locked? {
      var d := s.tasks[t].pc.d;
      GotoKeepsLocks(s, t, None);
      GotoKeepsLocks(s, t, Some(LookingUp(d.subject, true)));
      if d.subject !in s.intents {
        GotoKeepsLocks(s, t, Some(Clear(d)));
      }
    }
  }

  lemma LookUpKeepsLocks(s: State, t: nat, result: Option<int>)
    requires LocksHold(s)
    ensures LocksHold(AfterLookUp(s, t, result))
  {
    if At(s, t) && s.tasks[t].pc.LookingUp? {
      var LookingUp(x, locked) := s.tasks[t].pc;
      GotoKeepsLocks(s, t, None);
      if x in s.intents && result.Some? {
        var d := Decision(x, s.intents[x].approve, s.intents[x].digest, s.version);
        GotoKeepsLocks(s, t, Some(Settling(d, result.value, locked)));
      }
    }
  }

  lemma AnswerKeepsLocks(s: State, t: nat, result: Option<int>)
    requires LocksHold(s)
    ensures LocksHold(Step(s, Answer(t, result)))
  {
    if At(s, t) && s.tasks[t].pc.Called? {
      GotoKeepsLocks(s, t, if result.Some? then Some(Settling(s.tasks[t].pc.d, result.value, true)) else None);
    }
  }

  lemma SettleKeepsLocks(s: State, t: nat)
    requires LocksHold(s)
    ensures LocksHold(AfterSettle(s, t))
  {
  }

  lemma StartKeepsLocks(s: State, a: Action)
    requires Alone(s) && LocksHold(s) && (a.Finish? || a.Reconcile?)
    ensures LocksHold(Step(s, a))
  {
  }

  lemma CallKeepsLocks(s: State, t: nat)
    requires LocksHold(s)
    ensures LocksHold(AfterCall(s, t))
  {
  }

  /** Steps that write neither intents nor locks. */
  lemma OthersKeepLocks(s: State, a: Action)
    requires LocksHold(s) && (a.Open? || a.Crash? || a.OtherWrite? || a.SyncPending? || a.SyncListing? || a.End?)
    ensures LocksHold(Step(s, a))
  {
  }

  lemma StepKeepsLocks(s: State, a: Action)
    requires Alone(s) && LocksHold(s) && NeverOverwrote(s)
    ensures LocksHold(Step(s, a)) && NeverOverwrote(Step(s, a))
  {
    if !a.PutIntent? && !a.CallUpstream? {
      OthersLogNothing(s, a);
    }
    match a
    case Acquire(t) => AcquireKeepsLocks(s, t);
    case PutIntent(t) => PutKeepsLocks(s, t);
    case ReadIntent(t) => ReadKeepsLocks(s, t);
    case LookUp(t, result) => LookUpKeepsLocks(s, t, result);
    case Answer(t, result) => AnswerKeepsLocks(s, t, result);
    case Settle(t) => SettleKeepsLocks(s, t);
    case CallUpstream(t) => CallKeepsLocks(s, t);
    case Finish(t, p, d) => StartKeepsLocks(s, a);
    case Reconcile(t, p, x) => StartKeepsLocks(s, a);
    case _ => OthersKeepLocks(s, a);
  }

  lemma {:induction false} RunKeepsLocks(s: State, actions: seq<Action>)
    requires Alone(s) && LocksHold(s) && NeverOverwrote(s) && OpensAre(actions, true)
    ensures NeverOverwrote(Run(s, actions))
    decreases |actions|
  {
    if actions != [] {
      StepKeepsAlone(s, actions[0]);
      StepKeepsLocks(s, actions[0]);
      RunKeepsLocks(Step(s, actions[0]), actions[1..]);
    }
  }

  lemma {:induction false} NoOverwrites(puts: seq<Put>, x: Subject)
    requires forall i | 0 <= i < |puts| :: !puts[i].overwrote
    ensures Overwrites(puts, x) == 0
    decreases |puts|
  {
    if puts != [] {
      NoOverwrites(puts[..|puts| - 1], x);
    }
  }

  /** With every process holding the data directory exclusively, each mission
      is revoked upstream at most once and each expansion decided upstream at
      most once, over all finishes, sweeps and crashes. */
  lemma AtMostOneCall(s: State, actions: seq<Action>, x: Subject)
    requires Initial(s) && OpensAre(actions, true)
    ensures Count(Run(s, actions).calls, x) <= 1
  {
    CallsAtMostOneMoreThanOverwrites(s, actions, x);
    RunKeepsLocks(s, actions);
    NoOverwrites(Run(s, actions).puts, x);
  }

  lemma Unroll(s: State, a: Action, rest: seq<Action>, exclusive: bool)
    ensures Run(s, [a] + rest) == Run(Step(s, a), rest)
    ensures OpensAre([a] + rest, exclusive) <==> (a.Open? ==> a.exclusive == exclusive) && OpensAre(rest, exclusive)
  {
    var all := [a] + rest;
    assert all[1..] == rest && all[0] == a;
    if OpensAre(all, exclusive) {
      forall i | 0 <= i < |rest|
        ensures rest[i].Open? ==> rest[i].exclusive == exclusive
      {
        assert rest[i] == all[i + 1];
      }
    }
  }

  lemma Unroll3(s: State, a: Action, b: Action, c: Action, rest: seq<Action>, exclusive: bool)
    requires !a.Open? && !b.Open? && !c.Open?
    ensures Run(s, [a] + ([b] + ([c] + rest))) == Run(Step(Step(Step(s, a), b), c), rest)
    ensures OpensAre(rest, exclusive) ==> OpensAre([a] + ([b] + ([c] + rest)), exclusive)
  {
    Unroll(s, a, [b] + ([c] + rest), exclusive);
    Unroll(Step(s, a), b, [c] + rest, exclusive);
    Unroll(Step(Step(s, a), b), c, rest, exclusive);
  }

  /** A process on its own finds no intent and is about to write it. */
  lemma ReadsNothing(s: State, t: nat, d: Decision)
    requires t in s.procs && t !in s.tasks && s.intents == map[] && (forall u | u in s.tasks :: s.tasks[u].proc != t)
    ensures var s1 := Step(Step(Step(s, Finish(t, t, d)), Acquire(t)), ReadIntent(t));
            s1 == s.(tasks := s.tasks[t := Task(t, Clear(d))])
  {
    var s1 := Step(s, Finish(t, t, d));
    assert !Busy(s1, t, d.subject);
    var s2 := Step(s1, Acquire(t));
    assert s2.tasks[t] == Task(t, Locked(d));
    assert Step(s2, ReadIntent(t)).tasks == s.tasks[t := Task(t, Clear(d))];
  }

  lemma PutsAndCalls(s: State, t: nat, d: Decision)
    requires At(s, t) && s.tasks[t].pc == Clear(d) && CanPut(s, d.subject)
    ensures var s1 := Step(Step(s, PutIntent(t)), CallUpstream(t));
            && s1.calls == s.calls + [d.subject] && CanPut(s1, d.subject) && s1.procs == s.procs
            && forall u | u in s.tasks && u != t :: u in s1.tasks && s1.tasks[u] == s.tasks[u]
  {
  }

  /** Without the exclusive lock the in-process locks are not enough: two
      processes that both read no intent both write it and both call. */
  lemma TwoProcessesCallTwice(s: State, d: Decision) returns (actions: seq<Action>)
    requires Initial(s)
    ensures OpensAre(actions, false) && Count(Run(s, actions).calls, d.subject) == 2
  {
    var s0 := Step(Step(s, Open(0, false)), Open(1, false));
    ReadsNothing(s0, 0, d);
    var s1 := s0.(tasks := s0.tasks[0 := Task(0, Clear(d))]);
    ReadsNothing(s1, 1, d);
    var s2 := s1.(tasks := s1.tasks[1 := Task(1, Clear(d))]);
    PutsAndCalls(s2, 0, d);
    var s3 := Step(Step(s2, PutIntent(0)), CallUpstream(0));
    PutsAndCalls(s3, 1, d);
    var s4 := Step(Step(s3, PutIntent(1)), CallUpstream(1));
    CountTwo(s4.calls, d.subject);
    actions := TwoProcessRun(s, d);
    assert Run(s, actions) == s4;
  }

  lemma CountTwo(calls: seq<Subject>, x: Subject)
    requires calls == [x, x]
    ensures Count(calls, x) == 2
  {
    var one := calls[..1];
    assert one == [x] && one[..0] == [];
    assert Count(one, x) == 1;
  }

  lemma TwoProcessRun(s: State, d: Decision) returns (actions: seq<Action>)
    ensures var s0 := Step(Step(s, Open(0, false)), Open(1, false));
            var s1 := Step(Step(Step(s0, Finish(0, 0, d)), Acquire(0)), ReadIntent(0));
            var s2 := Step(Step(Step(s1, Finish(1, 1, d)), Acquire(1)), ReadIntent(1));
            var s3 := Step(Step(s2, PutIntent(0)), CallUpstream(0));
            Run(s, actions) == Step(Step(s3, PutIntent(1)), CallUpstream(1))
    ensures OpensAre(actions, false)
  {
    var s0 := Step(Step(s, Open(0, false)), Open(1, false));
    var s1 := Step(Step(Step(s0, Finish(0, 0, d)), Acquire(0)), ReadIntent(0));
    var s2 := Step(Step(Step(s1, Finish(1, 1, d)), Acquire(1)), ReadIntent(1));
    var s3 := Step(Step(s2, PutIntent(0)), CallUpstream(0));
    var c := [PutIntent(0)] + ([CallUpstream(0)] + ([PutIntent(1)] + [CallUpstream(1)]));
    var b := [Finish(1, 1, d)] + ([Acquire(1)] + ([ReadIntent(1)] + c));
    var a := [Finish(0, 0, d)] + ([Acquire(0)] + ([ReadIntent(0)] + b));
    actions := [Open(0, false)] + ([Open(1, false)] + a);
    Unroll(s, Open(0, false), [Open(1, false)] + a, false);
    Unroll(Step(s, Open(0, false)), Open(1, false), a, false);
    Unroll3(s0, Finish(0, 0, d), Acquire(0), ReadIntent(0), b, false);
    Unroll3(s1, Finish(1, 1, d), Acquire(1), ReadIntent(1), c, false);
    Unroll3(s2, PutIntent(0), CallUpstream(0), PutIntent(1), [CallUpstream(1)], false);
    var s5 := Step(s3, PutIntent(1));
    Unroll(s5, CallUpstream(1), [], false);
    assert [CallUpstream(1)] + [] == [CallUpstream(1)];
  }

  /** One upstream call per subject in every run: exactly what the exclusive
      mode of opening the data directory buys, for each mission and each
      expansion. */
  lemma AtMostOneCallExactlyWhenExclusive(s: State, x: Subject, exclusive: bool)
    requires Initial(s)
    ensures (forall actions | OpensAre(actions, exclusive) :: Count(Run(s, actions).calls, x) <= 1) <==> exclusive
  {
    if exclusive {
      forall actions | OpensAre(actions, exclusive)
        ensures Count(Run(s, actions).calls, x) <= 1
      {
        AtMostOneCall(s, actions, x);
      }
    } else {
      var actions := TwoProcessesCallTwice(s, Decision(x, true, 0, 0));
      assert OpensAre(actions, exclusive) && Count(Run(s, actions).calls, x) > 1;
    }
  }

  // ---- The intent is durable before the call -----------------------------

  ghost predicate Durable(s: State) {
    && (forall x | x in s.calls :: x in s.intents)
    && (forall t | t in s.tasks && s.tasks[t].pc.Claimed? :: s.tasks[t].pc.d.subject in s.intents)
  }

  lemma StepKeepsDurable(s: State, a: Action)
    requires Durable(s)
    ensures Durable(Step(s, a))
  {
  }

  /** Whatever crashes and races: no call without its intent in the store. */
  lemma {:induction false} NoCallWithoutIntent(s: State, actions: seq<Action>)
    requires Durable(s)
    ensures Durable(Run(s, actions))
    decreases |actions|
  {
    if actions != [] {
      StepKeepsDurable(s, actions[0]);
      NoCallWithoutIntent(Step(s, actions[0]), actions[1..]);
    }
  }

  // ---- What settles together ---------------------------------------------

  predicate IsDone(s: State, x: Subject) { x in s.intents && s.intents[x].state.Completed? }

  predicate IsResolved(s: State, id: nat) { id in s.expansions && !s.expansions[id].Pending? }

  /** The step that completes the revocation intent is the step that leaves
      the pass revoked, from a state the table lets move there. */
  lemma RevocationSettlesTogether(s: State, a: Action)
    requires !IsDone(s, Mission) && IsDone(Step(s, a), Mission)
    ensures Step(s, a).pass.Revoked? && (s.pass.Revoked? || Transition(s.pass, Revoked))
    ensures Step(s, a).revision == s.revision + 1
  {
  }

  /** The step that completes an expansion's intent is a settlement, and it
      resolves the pending expansion as the settling decision says; a denial
      writes no part of the pass row, an approval leaves the pass running at a
      version past the expected one. */
  lemma ExpansionSettlesTogether(s: State, a: Action, id: nat)
    requires !IsDone(s, Expansion(id)) && IsDone(Step(s, a), Expansion(id))
    ensures a.Settle? && !IsResolved(s, id) && IsResolved(Step(s, a), id)
    ensures var s1, pc := Step(s, a), s.tasks[a.task].pc;
            && s1.expansions == s.expansions[id := Verdict(pc.d.approve)]
            && (!pc.d.approve ==> s1.pass == s.pass && s1.version == s.version && s1.revision == s.revision)
            && (pc.d.approve ==> s1.pass.Running? && s1.version >= pc.result > pc.d.expected)
  {
  }

  /** An expansion is resolved without its intent exactly when a listing of the
      upstream resolves it, and then with the upstream's status. */
  lemma ResolvedWithoutIntentExactlyByListing(s: State, a: Action, id: nat)
    requires !IsResolved(s, id) && IsResolved(Step(s, a), id)
    ensures !(!IsDone(s, Expansion(id)) && IsDone(Step(s, a), Expansion(id))) <==> a.SyncListing?
    ensures a.SyncListing? ==> Step(s, a).expansions[id] == ListedStatus(a.listed, id)
    ensures a.SyncListing? ==> Step(s, a) == s.(expansions := Step(s, a).expansions)
  {
  }

  lemma StepKeepsSettled(s: State, a: Action, x: Subject, id: nat)
    ensures IsDone(s, x) ==> IsDone(Step(s, a), x) && Step(s, a).intents[x] == s.intents[x]
    ensures IsResolved(s, id) ==> IsResolved(Step(s, a), id) && Step(s, a).expansions[id] == s.expansions[id]
  {
  }

  /** Completed intents and resolved expansions are final. */
  lemma {:induction false} SettledIsFinal(s: State, actions: seq<Action>, x: Subject, id: nat)
    ensures IsDone(s, x) ==> IsDone(Run(s, actions), x) && Run(s, actions).intents[x] == s.intents[x]
    ensures IsResolved(s, id) ==> IsResolved(Run(s, actions), id) && Run(s, actions).expansions[id] == s.expansions[id]
    decreases |actions|
  {
    if actions != [] {
      StepKeepsSettled(s, actions[0], x, id);
      SettledIsFinal(Step(s, actions[0]), actions[1..], x, id);
    }
  }
}
