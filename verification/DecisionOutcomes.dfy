/** Where decisions come from and where they end, over whole runs of the
    decision protocol: every completed intent and every call goes back to a
    finished ceremony, an expansion row says what its completed intent decided
    exactly when processes are exclusive, and an intent whose expansion row was
    resolved by a listing of the upstream never completes. */
module DecisionOutcomes {
  import opened Base
  import opened DecisionProtocol

  // ---- A decision comes from a finished ceremony -------------------------

  /** The decisions of the ceremonies finished in a run. */
  function Finishes(actions: seq<Action>): set<Decision> {
    set i | 0 <= i < |actions| && actions[i].Finish? :: actions[i].d
  }

  predicate Founded(log: set<Decision>, x: Subject, approve: bool, digest: nat) {
    exists d | d in log :: d.subject == x && d.approve == approve && d.digest == digest
  }

  /** Every stored intent and every decision in progress repeats one of log. */
  ghost predicate Traced(s: State, log: set<Decision>) {
    && (forall x | x in s.intents :: Founded(log, x, s.intents[x].approve, s.intents[x].digest))
    && (forall t | t in s.tasks && !s.tasks[t].pc.LookingUp? ::
          var d := s.tasks[t].pc.d; Founded(log, d.subject, d.approve, d.digest))
  }

  lemma FinishIsTraced(s: State, t: nat, p: nat, d: Decision, log: set<Decision>)
    requires Traced(s, log)
    ensures Traced(Step(s, Finish(t, p, d)), log + {d})
  {
    var more := log + {d};
    assert forall e | e in log :: e in more;
    assert d in more && Founded(more, d.subject, d.approve, d.digest);
  }

  lemma SettleIsTraced(s: State, t: nat, log: set<Decision>)
    requires Traced(s, log)
    ensures Traced(AfterSettle(s, t), log)
  {
  }

  lemma LookUpIsTraced(s: State, t: nat, result: Option<int>, log: set<Decision>)
    requires Traced(s, log)
    ensures Traced(AfterLookUp(s, t, result), log)
  {
  }

  lemma StepIsTraced(s: State, a: Action, log: set<Decision>)
    requires Traced(s, log)
    ensures Traced(Step(s, a), log + Finishes([a]))
  {
    match a
    case Finish(t, p, d) =>
      FinishIsTraced(s, t, p, d, log);
      assert [a][0] == a && Finishes([a]) == {d};
    case Settle(t) => SettleIsTraced(s, t, log);
      assert log + Finishes([a]) == log;
    case LookUp(t, result) => LookUpIsTraced(s, t, result, log);
      assert log + Finishes([a]) == log;
    case _ =>
      assert log + Finishes([a]) == log;
  }

  lemma FinishesSplit(actions: seq<Action>)
    requires actions != []
    ensures Finishes(actions) == Finishes([actions[0]]) + Finishes(actions[1..])
  {
    forall d | d in Finishes(actions)
      ensures d in Finishes([actions[0]]) + Finishes(actions[1..])
    {
      var i :| 0 <= i < |actions| && actions[i].Finish? && actions[i].d == d;
      if i == 0 {
        assert [actions[0]][0].d == d;
      } else {
        assert actions[1..][i - 1].d == d;
      }
    }
  }

  lemma {:induction false} RunIsTraced(s: State, actions: seq<Action>, log: set<Decision>)
    requires Traced(s, log)
    ensures Traced(Run(s, actions), log + Finishes(actions))
    decreases |actions|
  {
    if actions == [] {
      assert log + Finishes(actions) == log;
    } else {
      var first := Finishes([actions[0]]);
      StepIsTraced(s, actions[0], log);
      RunIsTraced(Step(s, actions[0]), actions[1..], log + first);
      FinishesSplit(actions);
      assert log + Finishes(actions) == log + first + Finishes(actions[1..]);
    }
  }

  /** Whatever the processes, races and crashes: an intent is stored, and the
      upstream called, only for a subject with a ceremony finished in the run,
      and the intent repeats the decision of such a ceremony. */
  lemma NoDecisionWithoutFinish(s: State, actions: seq<Action>, x: Subject)
    requires Initial(s)
    ensures var s1 := Run(s, actions);
            x in s1.intents ==> Founded(Finishes(actions), x, s1.intents[x].approve, s1.intents[x].digest)
    ensures x in Run(s, actions).calls ==> exists d | d in Finishes(actions) :: d.subject == x
  {
    RunIsTraced(s, actions, {});
    assert {} + Finishes(actions) == Finishes(actions);
    NoCallWithoutIntent(s, actions);
  }

  // ---- Exclusive processes settle as the intent decided ------------------

  predicate Carries(pc: Pc) { pc.Claimed? || pc.Called? || pc.Settling? }

  /** What is under way, and what was settled, is what the intent says. */
  ghost predicate Agrees(s: State) {
    && (forall t | t in s.tasks && Carries(s.tasks[t].pc) ::
          var d := s.tasks[t].pc.d; d.subject in s.intents && s.intents[d.subject].approve == d.approve)
    && (forall id | IsDone(s, Expansion(id)) :: RowAgrees(s, id))
  }

  predicate RowAgrees(s: State, id: nat)
    requires IsDone(s, Expansion(id))
  {
    id in s.expansions && s.expansions[id] == Verdict(s.intents[Expansion(id)].approve)
  }

  lemma PutAgrees(s: State, t: nat)
    requires Agrees(s) && LocksHold(s)
    ensures Agrees(AfterPut(s, t))
  {
  }

  lemma SettleAgrees(s: State, t: nat)
    requires Agrees(s)
    ensures Agrees(AfterSettle(s, t))
  {
  }

  lemma LookUpAgrees(s: State, t: nat, result: Option<int>)
    requires Agrees(s)
    ensures Agrees(AfterLookUp(s, t, result))
  {
  }

  lemma ListingAgrees(s: State, listed: map<nat, Status>)
    requires Agrees(s)
    ensures Agrees(AfterListing(s, listed))
  {
  }

  lemma ReadAgrees(s: State, t: nat)
    requires Agrees(s)
    ensures Agrees(AfterRead(s, t))
  {
  }

  lemma OthersAgree(s: State, a: Action)
    requires Agrees(s)
    requires !a.ReadIntent? && !a.PutIntent? && !a.Settle? && !a.LookUp? && !a.SyncListing?
    ensures Agrees(Step(s, a))
  {
  }

  lemma StepAgrees(s: State, a: Action)
    requires Agrees(s) && LocksHold(s)
    ensures Agrees(Step(s, a))
  {
    match a
    case ReadIntent(t) => ReadAgrees(s, t);
    case PutIntent(t) => PutAgrees(s, t);
    case Settle(t) => SettleAgrees(s, t);
    case LookUp(t, result) => LookUpAgrees(s, t, result);
    case SyncListing(listed) => ListingAgrees(s, listed);
    case _ => OthersAgree(s, a);
  }

  lemma {:induction false} RunAgrees(s: State, actions: seq<Action>)
    requires Alone(s) && LocksHold(s) && NeverOverwrote(s) && Agrees(s) && OpensAre(actions, true)
    ensures Agrees(Run(s, actions))
    decreases |actions|
  {
    if actions != [] {
      StepKeepsAlone(s, actions[0]);
      StepKeepsLocks(s, actions[0]);
      StepAgrees(s, actions[0]);
      RunAgrees(Step(s, actions[0]), actions[1..]);
    }
  }

  // ---- A listing can strand an intent ------------------------------------

  lemma StepKeepsStranded(s: State, a: Action, id: nat)
    requires IsResolved(s, id) && !IsDone(s, Expansion(id))
    ensures IsResolved(Step(s, a), id) && !IsDone(Step(s, a), Expansion(id))
  {
    StepKeepsSettled(s, a, Expansion(id), id);
    if IsDone(Step(s, a), Expansion(id)) {
      ExpansionSettlesTogether(s, a, id);
    }
  }

  /** Once its row is resolved without it, an intent never completes. */
  lemma {:induction false} ResolvedFirstNeverCompletes(s: State, actions: seq<Action>, id: nat)
    requires IsResolved(s, id) && !IsDone(s, Expansion(id))
    ensures !IsDone(Run(s, actions), Expansion(id))
    decreases |actions|
  {
    if actions != [] {
      StepKeepsStranded(s, actions[0], id);
      ResolvedFirstNeverCompletes(Step(s, actions[0]), actions[1..], id);
    }
  }

  /** Some run of processes that open the data directory in this mode completes
      the intent. */
  ghost predicate CanComplete(s: State, x: Subject, exclusive: bool) {
    exists actions :: OpensAre(actions, exclusive) && IsDone(Run(s, actions), x)
  }

  predicate Unsettled(s: State, x: Subject) { x in s.intents && s.intents[x].state.InFlight? }

  /** A reconciliation on a free lock settles as the intent says. */
  lemma ReconcileCompletes(s: State, p: nat, t: nat, id: nat)
    requires p in s.procs && t !in s.tasks && !Busy(s, p, Expansion(id))
    requires Unsettled(s, Expansion(id)) && id in s.expansions && s.expansions[id].Pending?
    ensures IsDone(Step(Step(Step(s, Reconcile(t, p, Expansion(id))), LookUp(t, Some(s.version + 1))), Settle(t)), Expansion(id))
  {
    var s1 := Step(s, Reconcile(t, p, Expansion(id)));
    assert s1.tasks[t] == Task(p, LookingUp(Expansion(id), true));
    var s2 := Step(s1, LookUp(t, Some(s.version + 1)));
    assert s2.tasks[t].pc.Settling? && s2.tasks[t].pc.d.expected == s.version;
  }

  /** A server that starts again has every lock free. */
  lemma RestartFrees(s: State, p: nat, id: nat, exclusive: bool)
    requires exclusive ==> forall q | q in s.procs :: q == p
    ensures var s1 := Step(Step(Step(s, Crash(p)), Open(p, exclusive)), SyncPending(id));
            && p in s1.procs && !Busy(s1, p, Expansion(id)) && s1.tasks.Keys <= s.tasks.Keys
            && s1.intents == s.intents && id in s1.expansions
            && (id in s.expansions ==> s1.expansions[id] == s.expansions[id])
            && (id !in s.expansions ==> s1.expansions[id].Pending?)
  {
  }

  /** A process that is the only one, should there be any. */
  lemma TheProcess(s: State) returns (p: nat)
    requires Alone(s)
    ensures forall q | q in s.procs :: q == p
  {
    p := 0;
    if exists q :: q in s.procs {
      p :| p in s.procs;
    }
  }

  lemma RestartCompletes(s: State, id: nat, exclusive: bool) returns (actions: seq<Action>)
    requires Unsettled(s, Expansion(id)) && !IsResolved(s, id) && (exclusive ==> Alone(s))
    ensures OpensAre(actions, exclusive) && IsDone(Run(s, actions), Expansion(id))
  {
    var p := 0;
    if exclusive {
      p := TheProcess(s);
    }
    var t := Unused(s.tasks.Keys);
    RestartFrees(s, p, id, exclusive);
    var s1 := Step(Step(Step(s, Crash(p)), Open(p, exclusive)), SyncPending(id));
    ReconcileCompletes(s1, p, t, id);
    actions := RestartRun(s, s1, p, t, id, exclusive);
  }

  lemma RestartRun(s: State, s1: State, p: nat, t: nat, id: nat, exclusive: bool) returns (actions: seq<Action>)
    requires s1 == Step(Step(Step(s, Crash(p)), Open(p, exclusive)), SyncPending(id))
    ensures OpensAre(actions, exclusive)
    ensures Run(s, actions) ==
            Step(Step(Step(s1, Reconcile(t, p, Expansion(id))), LookUp(t, Some(s1.version + 1))), Settle(t))
  {
    var b := [Settle(t)];
    var a := [SyncPending(id)] + ([Reconcile(t, p, Expansion(id))] + ([LookUp(t, Some(s1.version + 1))] + b));
    actions := [Crash(p)] + ([Open(p, exclusive)] + a);
    Unroll(s, Crash(p), [Open(p, exclusive)] + a, exclusive);
    Unroll(Step(s, Crash(p)), Open(p, exclusive), a, exclusive);
    var s0 := Step(Step(s, Crash(p)), Open(p, exclusive));
    Unroll3(s0, SyncPending(id), Reconcile(t, p, Expansion(id)), LookUp(t, Some(s1.version + 1)), b, exclusive);
    var s3 := Step(Step(s1, Reconcile(t, p, Expansion(id))), LookUp(t, Some(s1.version + 1)));
    RunOne(s3, Settle(t));
  }

  lemma RunOne(s: State, a: Action)
    ensures Run(s, [a]) == Step(s, a)
  {
    assert [a][1..] == [];
  }

  /** An expansion intent in flight can still complete exactly when its row is
      not resolved yet: with exclusive processes from any state they reach, and
      with shared ones from any state at all. */
  lemma CompletesExactlyWhenPending(s: State, id: nat, exclusive: bool)
    requires Unsettled(s, Expansion(id)) && (exclusive ==> Alone(s))
    ensures CanComplete(s, Expansion(id), exclusive) <==> !IsResolved(s, id)
  {
    if IsResolved(s, id) {
      forall actions ensures !IsDone(Run(s, actions), Expansion(id)) {
        ResolvedFirstNeverCompletes(s, actions, id);
      }
    } else {
      var actions := RestartCompletes(s, id, exclusive);
      assert OpensAre(actions, exclusive) && IsDone(Run(s, actions), Expansion(id));
    }
  }

  /** The founder's decision reaches the upstream, its answer does not come
      back, and the pending list is opened before the sweep. */
  lemma CallsAndHearsNothing(s: State, t: nat, d: Decision)
    requires At(s, t) && s.tasks[t].pc == Clear(d) && d.subject !in s.intents
    ensures var s1 := Step(Step(Step(s, PutIntent(t)), CallUpstream(t)), Answer(t, None));
            && s1.calls == s.calls + [d.subject] && Unsettled(s1, d.subject)
            && s1.expansions == s.expansions && s1.pass == s.pass
  {
  }

  lemma StrandingRun(s: State, d: Decision, listed: map<nat, Status>, id: nat) returns (actions: seq<Action>)
    ensures var s0 := Step(Step(s, Open(0, true)), SyncPending(id));
            var s1 := Step(Step(Step(s0, Finish(0, 0, d)), Acquire(0)), ReadIntent(0));
            var s2 := Step(Step(Step(s1, PutIntent(0)), CallUpstream(0)), Answer(0, None));
            Run(s, actions) == Step(s2, SyncListing(listed))
    ensures OpensAre(actions, true)
  {
    var s0 := Step(Step(s, Open(0, true)), SyncPending(id));
    var s1 := Step(Step(Step(s0, Finish(0, 0, d)), Acquire(0)), ReadIntent(0));
    var c := [SyncListing(listed)];
    var b := [PutIntent(0)] + ([CallUpstream(0)] + ([Answer(0, None)] + c));
    var a := [Finish(0, 0, d)] + ([Acquire(0)] + ([ReadIntent(0)] + b));
    actions := [Open(0, true)] + ([SyncPending(id)] + a);
    Unroll(s, Open(0, true), [SyncPending(id)] + a, true);
    Unroll(Step(s, Open(0, true)), SyncPending(id), a, true);
    Unroll3(s0, Finish(0, 0, d), Acquire(0), ReadIntent(0), b, true);
    Unroll3(s1, PutIntent(0), CallUpstream(0), Answer(0, None), c, true);
    RunOne(Step(Step(Step(s1, PutIntent(0)), CallUpstream(0)), Answer(0, None)), SyncListing(listed));
  }

  /** With one exclusive server and one finish: the expansion is approved
      upstream and in its row, its intent is in flight and never completes, and
      the pass state is as before. */
  lemma ListingStrandsIntent(s: State, d: Decision) returns (actions: seq<Action>)
    requires Initial(s) && d.subject.Expansion? && d.subject.id !in s.expansions
    ensures OpensAre(actions, true)
    ensures var s1 := Run(s, actions);
            && s1.calls == [d.subject] && d.subject.id in s1.expansions && s1.expansions[d.subject.id].Approved?
            && Unsettled(s1, d.subject) && s1.pass == s.pass
            && forall more :: !IsDone(Run(s1, more), d.subject)
  {
    var id, listed := d.subject.id, map[d.subject.id := Status.Approved];
    var s0 := Step(Step(s, Open(0, true)), SyncPending(id));
    ReadsNothing(s0, 0, d);
    var s1 := s0.(tasks := s0.tasks[0 := Task(0, Clear(d))]);
    CallsAndHearsNothing(s1, 0, d);
    var s2 := Step(Step(Step(s1, PutIntent(0)), CallUpstream(0)), Answer(0, None));
    var s3 := Step(s2, SyncListing(listed));
    actions := StrandingRun(s, d, listed, id);
    assert Run(s, actions) == s3 && s3.expansions[id].Approved?;
    forall more ensures !IsDone(Run(s3, more), d.subject) {
      ResolvedFirstNeverCompletes(s3, more, id);
    }
  }

  // ---- A row says what its intent decided, exactly when exclusive --------

  lemma CallsAndHears(s: State, t: nat, d: Decision, result: int)
    requires At(s, t) && s.tasks[t].pc == Clear(d) && CanPut(s, d.subject)
    ensures var s1 := Step(Step(Step(s, PutIntent(t)), CallUpstream(t)), Answer(t, Some(result)));
            && s1.tasks == s.tasks[t := s.tasks[t].(pc := Settling(d, result, true))]
            && s1.procs == s.procs && s1.expansions == s.expansions && Unsettled(s1, d.subject)
  {
  }

  /** Another process writes its own intent before task t settles. */
  lemma SettlesOverAnother(s: State, t: nat, u: nat, d: Decision, e: Decision)
    requires t != u && At(s, t) && At(s, u)
    requires s.tasks[t].pc == Settling(d, d.expected + 1, true) && s.tasks[u].pc == Clear(e)
    requires d.subject == e.subject && d.subject.Expansion? && d.approve && !e.approve
    requires Unsettled(s, d.subject) && d.subject.id in s.expansions && s.expansions[d.subject.id].Pending?
    ensures var s1 := Step(Step(s, PutIntent(u)), Settle(t));
            IsDone(s1, d.subject) && !RowAgrees(s1, d.subject.id)
  {
    var s1 := Step(s, PutIntent(u));
    assert s1.tasks[t] == s.tasks[t] && s1.intents[d.subject] == Intent(InFlight, false, e.digest, 0);
  }

  lemma DisagreeingRun(s: State, d: Decision, e: Decision, id: nat) returns (actions: seq<Action>)
    ensures var s0 := Step(Step(Step(s, Open(0, false)), Open(1, false)), SyncPending(id));
            var s1 := Step(Step(Step(s0, Finish(0, 0, d)), Acquire(0)), ReadIntent(0));
            var s2 := Step(Step(Step(s1, Finish(1, 1, e)), Acquire(1)), ReadIntent(1));
            var s3 := Step(Step(Step(s2, PutIntent(0)), CallUpstream(0)), Answer(0, Some(d.expected + 1)));
            Run(s, actions) == Step(Step(s3, PutIntent(1)), Settle(0))
    ensures OpensAre(actions, false)
  {
    var s0 := Step(Step(Step(s, Open(0, false)), Open(1, false)), SyncPending(id));
    var s1 := Step(Step(Step(s0, Finish(0, 0, d)), Acquire(0)), ReadIntent(0));
    var s2 := Step(Step(Step(s1, Finish(1, 1, e)), Acquire(1)), ReadIntent(1));
    var s3 := Step(Step(Step(s2, PutIntent(0)), CallUpstream(0)), Answer(0, Some(d.expected + 1)));
    var c := [PutIntent(1)] + [Settle(0)];
    var b2 := [PutIntent(0)] + ([CallUpstream(0)] + ([Answer(0, Some(d.expected + 1))] + c));
    var b1 := [Finish(1, 1, e)] + ([Acquire(1)] + ([ReadIntent(1)] + b2));
    var b0 := [Finish(0, 0, d)] + ([Acquire(0)] + ([ReadIntent(0)] + b1));
    actions := [Open(0, false)] + ([Open(1, false)] + ([SyncPending(id)] + b0));
    Unroll(s, Open(0, false), [Open(1, false)] + ([SyncPending(id)] + b0), false);
    Unroll(Step(s, Open(0, false)), Open(1, false), [SyncPending(id)] + b0, false);
    Unroll(Step(Step(s, Open(0, false)), Open(1, false)), SyncPending(id), b0, false);
    Unroll3(s0, Finish(0, 0, d), Acquire(0), ReadIntent(0), b1, false);
    Unroll3(s1, Finish(1, 1, e), Acquire(1), ReadIntent(1), b2, false);
    Unroll3(s2, PutIntent(0), CallUpstream(0), Answer(0, Some(d.expected + 1)), c, false);
    Unroll(s3, PutIntent(1), [Settle(0)], false);
    RunOne(Step(s3, PutIntent(1)), Settle(0));
  }

  lemma TwoProcessesDisagree(s: State, id: nat) returns (actions: seq<Action>)
    requires Initial(s) && id !in s.expansions
    ensures OpensAre(actions, false)
    ensures IsDone(Run(s, actions), Expansion(id)) && !RowAgrees(Run(s, actions), id)
  {
    var d, e := Decision(Expansion(id), true, 0, 0), Decision(Expansion(id), false, 1, 0);
    var s0 := Step(Step(Step(s, Open(0, false)), Open(1, false)), SyncPending(id));
    ReadsNothing(s0, 0, d);
    var s1 := s0.(tasks := s0.tasks[0 := Task(0, Clear(d))]);
    ReadsNothing(s1, 1, e);
    var s2 := s1.(tasks := s1.tasks[1 := Task(1, Clear(e))]);
    CallsAndHears(s2, 0, d, d.expected + 1);
    SettlesOverAnother(Step(Step(Step(s2, PutIntent(0)), CallUpstream(0)), Answer(0, Some(d.expected + 1))), 0, 1, d, e);
    actions := DisagreeingRun(s, d, e, id);
  }

  /** A settled row says what its completed intent decided, in every run:
      exactly what the exclusive mode of opening the data directory buys. */
  lemma RowsAgreeExactlyWhenExclusive(s: State, id: nat, exclusive: bool)
    requires Initial(s) && id !in s.expansions
    ensures (forall actions | OpensAre(actions, exclusive) && IsDone(Run(s, actions), Expansion(id)) ::
               RowAgrees(Run(s, actions), id)) <==> exclusive
  {
    if exclusive {
      forall actions | OpensAre(actions, exclusive) && IsDone(Run(s, actions), Expansion(id))
        ensures RowAgrees(Run(s, actions), id)
      {
        RunAgrees(s, actions);
      }
    } else {
      var actions := TwoProcessesDisagree(s, id);
      assert OpensAre(actions, exclusive) && IsDone(Run(s, actions), Expansion(id));
    }
  }

  // ---- Every final state has its source ----------------------------------

  predicate ListedAs(actions: seq<Action>, id: nat, row: Status) {
    exists i | 0 <= i < |actions| :: actions[i].SyncListing? && ListedStatus(actions[i].listed, id) == row
  }

  lemma ListedLater(actions: seq<Action>, id: nat, row: Status)
    requires actions != [] && ListedAs(actions[1..], id, row)
    ensures ListedAs(actions, id, row)
  {
    var i :| 0 <= i < |actions[1..]| && actions[1..][i].SyncListing? && ListedStatus(actions[1..][i].listed, id) == row;
    assert actions[i + 1] == actions[1..][i];
  }

  predicate DecidedAs(log: set<Decision>, id: nat, row: Status) {
    exists d | d in log :: d.subject == Expansion(id) && Verdict(d.approve) == row
  }

  lemma StepHasItsSource(s: State, a: Action, id: nat, log: set<Decision>)
    requires Traced(s, log) && !IsResolved(s, id) && IsResolved(Step(s, a), id) && !a.SyncListing?
    ensures DecidedAs(log, id, Step(s, a).expansions[id])
  {
    ResolvedWithoutIntentExactlyByListing(s, a, id);
    ExpansionSettlesTogether(s, a, id);
    var d := s.tasks[a.task].pc.d;
    assert d.subject == Expansion(id) && Founded(log, d.subject, d.approve, d.digest);
  }

  lemma {:induction false} RunHasItsSource(s: State, actions: seq<Action>, id: nat, log: set<Decision>)
    requires Traced(s, log) && !IsResolved(s, id) && IsResolved(Run(s, actions), id)
    ensures var row := Run(s, actions).expansions[id];
            DecidedAs(log + Finishes(actions), id, row) || ListedAs(actions, id, row)
    decreases |actions|
  {
    if actions != [] {
      var s1, row := Step(s, actions[0]), Run(s, actions).expansions[id];
      if IsResolved(s1, id) {
        SettledIsFinal(s1, actions[1..], Mission, id);
        ResolvedWithoutIntentExactlyByListing(s, actions[0], id);
        if !actions[0].SyncListing? {
          StepHasItsSource(s, actions[0], id, log);
          assert forall d | d in log :: d in log + Finishes(actions);
        }
      } else {
        StepIsTraced(s, actions[0], log);
        RunHasItsSource(s1, actions[1..], id, log + Finishes([actions[0]]));
        FinishesSplit(actions);
        assert log + Finishes([actions[0]]) + Finishes(actions[1..]) == log + Finishes(actions);
        if ListedAs(actions[1..], id, row) {
          ListedLater(actions, id, row);
        }
      }
    }
  }

  /** An expansion resolved in a run has the verdict of a ceremony finished in
      that run, or the status a listing of the upstream gave it. */
  lemma EveryResolutionHasItsSource(s: State, actions: seq<Action>, id: nat)
    requires Initial(s) && !IsResolved(s, id) && IsResolved(Run(s, actions), id)
    ensures var row := Run(s, actions).expansions[id];
            DecidedAs(Finishes(actions), id, row) || ListedAs(actions, id, row)
  {
    RunHasItsSource(s, actions, id, {});
    assert {} + Finishes(actions) == Finishes(actions);
  }

  predicate OthersNeverRevoke(actions: seq<Action>) {
    forall i | 0 <= i < |actions| :: actions[i].OtherWrite? ==> !actions[i].pass.Revoked?
  }

  lemma StepRevokes(s: State, a: Action)
    requires !s.pass.Revoked? && Step(s, a).pass.Revoked?
    ensures a.OtherWrite? || IsDone(Step(s, a), Mission)
  {
  }

  lemma {:induction false} RevokedByIntent(s: State, actions: seq<Action>)
    requires !s.pass.Revoked? && Run(s, actions).pass.Revoked? && OthersNeverRevoke(actions)
    ensures IsDone(Run(s, actions), Mission)
    decreases |actions|
  {
    if actions != [] {
      var s1 := Step(s, actions[0]);
      if s1.pass.Revoked? {
        StepRevokes(s, actions[0]);
        SettledIsFinal(s1, actions[1..], Mission, 0);
      } else {
        forall i | 0 <= i < |actions[1..]|
          ensures actions[1..][i].OtherWrite? ==> !actions[1..][i].pass.Revoked?
        {
          assert actions[1..][i] == actions[i + 1];
        }
        RevokedByIntent(s1, actions[1..]);
      }
    }
  }

  /** A pass revoked in a run, but not by a projected upstream event, was
      revoked by a ceremony finished in that run. */
  lemma EveryRevocationHasItsFinish(s: State, actions: seq<Action>)
    requires Initial(s) && !s.pass.Revoked? && Run(s, actions).pass.Revoked? && OthersNeverRevoke(actions)
    ensures exists d | d in Finishes(actions) :: d.subject == Mission
  {
    RevokedByIntent(s, actions);
    NoDecisionWithoutFinish(s, actions, Mission);
  }
}
