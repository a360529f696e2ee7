/** The local binding a receipt is checked against, rebuilt from the projected
    events and decided expansions (internal/receipt/service.go), and the check
    itself (internal/receipt/verify.go).  Strings are tokens, 0 the empty one. */
module ReceiptBinding {
  import opened Base
  import opened EventProjection
  import opened SortedCopies

  datatype RunOutcome = NoOutcome | Success | Failure

  datatype Binding = Binding(
    workspace: nat, missionRef: nat, grant: nat, outcome: RunOutcome,
    versions: seq<int>, refs: seq<int>, repository: int, issue: int,
    branch: nat, pullRequest: int, head: nat)

  /** A completed expansion intent: its pass and its decision reference. */
  datatype Decided = Decided(pass: nat, ref: nat)

  /** The parts of the pass row and its connection that the binding copies. */
  datatype PassFacts = PassFacts(id: nat, workspace: nat, missionRef: nat, runId: nat, repository: int, issue: int)

  // ---- What the binding is to be -----------------------------------------

  function OutcomeOf(ev: Option<SafeEvent>): RunOutcome {
    if ev.None? then NoOutcome else if ev.value.kind.RunSucceeded? then Success else Failure
  }

  /** The value of a field in the latest event that carries one. */
  function Latest(events: seq<SafeEvent>, field: SafeEvent -> int): int
    decreases |events|
  {
    if events == [] then 0
    else if field(events[|events| - 1]) != 0 then field(events[|events| - 1])
    else Latest(events[..|events| - 1], field)
  }

  /** Every distinct positive version among the events. */
  function Versions(events: seq<SafeEvent>): set<int> {
    set i | 0 <= i < |events| && events[i].version > 0 :: events[i].version
  }

  /** Every distinct decision reference of the pass. */
  function Refs(intents: seq<Decided>, pass: nat): set<int> {
    set i | 0 <= i < |intents| && intents[i].pass == pass && intents[i].ref != 0 :: intents[i].ref as int
  }

  /** The elements of a set in increasing order. */
  ghost predicate Lists(s: seq<int>, elements: set<int>) {
    Increasing(s) && forall x :: x in s <==> x in elements
  }

  ghost predicate IsBinding(b: Binding, facts: PassFacts, events: seq<SafeEvent>, intents: seq<Decided>) {
    && b.workspace == facts.workspace && b.missionRef == facts.missionRef && b.grant == facts.runId
    && b.repository == facts.repository && b.issue == facts.issue
    && b.outcome == OutcomeOf(LastOutcome(events))
    && b.branch == Latest(events, (ev: SafeEvent) => ev.branch)
    && b.pullRequest == Latest(events, (ev: SafeEvent) => ev.pullRequest)
    && b.head == Latest(events, (ev: SafeEvent) => ev.head)
    && Lists(b.versions, Versions(events))
    && Lists(b.refs, Refs(intents, facts.id))
  }

  /** The latest value really is the latest: some event carries it and no
      later one carries any, or no event does. */
  lemma {:induction false} LatestIsLatest(events: seq<SafeEvent>, field: SafeEvent -> int)
    ensures var v := Latest(events, field);
            if v == 0 then forall i | 0 <= i < |events| :: field(events[i]) == 0
            else exists k | 0 <= k < |events| ::
                   field(events[k]) == v && forall i | k < i < |events| :: field(events[i]) == 0
    decreases |events|
  {
    if events != [] && field(events[|events| - 1]) == 0 {
      var before := events[..|events| - 1];
      LatestIsLatest(before, field);
      if Latest(events, field) != 0 {
        var k :| 0 <= k < |before| && field(before[k]) == Latest(events, field)
                 && forall i | k < i < |before| :: field(before[i]) == 0;
        assert events[k] == before[k];
        forall i | k < i < |events|
          ensures field(events[i]) == 0
        {
          assert i < |before| ==> before[i] == events[i];
        }
      }
    } else if events != [] {
      assert field(events[|events| - 1]) == Latest(events, field);
    }
  }

  // ---- Building it -------------------------------------------------------

  /** The newest-first walk over the events.  The source collects the versions
      as the keys of a map, listed here in the order they were met; no result
      depends on that order (BindingIsUnique). */
  method ScanEvents(events: seq<SafeEvent>)
    returns (outcome: RunOutcome, branch: nat, pullRequest: int, head: nat, versions: seq<int>)
    ensures outcome == OutcomeOf(LastOutcome(events))
    ensures branch == Latest(events, (ev: SafeEvent) => ev.branch)
    ensures pullRequest == Latest(events, (ev: SafeEvent) => ev.pullRequest)
    ensures head == Latest(events, (ev: SafeEvent) => ev.head)
    ensures Distinct(versions) && forall v :: v in versions <==> v in Versions(events)
  {
    outcome, branch, pullRequest, head, versions := NoOutcome, 0, 0, 0, [];
    var i := |events|;
    assert events[..i] == events;
    while i > 0
      invariant 0 <= i <= |events|
      invariant outcome == NoOutcome ==> LastOutcome(events) == LastOutcome(events[..i])
      invariant outcome != NoOutcome ==> outcome == OutcomeOf(LastOutcome(events))
      invariant Settled(branch, events, i, (ev: SafeEvent) => ev.branch)
      invariant Settled(pullRequest, events, i, (ev: SafeEvent) => ev.pullRequest)
      invariant Settled(head, events, i, (ev: SafeEvent) => ev.head)
      invariant Distinct(versions) && forall v :: v in versions <==> v in Versions(events[i..])
    {
      i := i - 1;
      var ev := events[i];
      assert events[..i + 1][..i] == events[..i];
      assert events[i..] == [ev] + events[i + 1..];
      OneMoreVersion(ev, events[i + 1..]);
      if ev.version > 0 && ev.version !in versions {
        versions := versions + [ev.version];
      }
      if ev.kind.RunSucceeded? {
        if outcome == NoOutcome { outcome := Success; }
      } else if ev.kind.RunFailed? {
        if outcome == NoOutcome { outcome := Failure; }
      }
      if branch == 0 && ev.branch != 0 { branch := ev.branch; }
      if pullRequest == 0 && ev.pullRequest != 0 { pullRequest := ev.pullRequest; }
      if head == 0 && ev.head != 0 { head := ev.head; }
    }
  }

  /** The walk from the newest event down to i has found the value, or the
      value is still to be found below i. */
  ghost predicate Settled(value: int, events: seq<SafeEvent>, i: nat, field: SafeEvent -> int)
    requires i <= |events|
  {
    if value == 0 then Latest(events, field) == Latest(events[..i], field) else Latest(events, field) == value
  }

  lemma OneMoreVersion(ev: SafeEvent, rest: seq<SafeEvent>)
    ensures Versions([ev] + rest) == Versions(rest) + if ev.version > 0 then {ev.version} else {}
  {
    var all := [ev] + rest;
    forall v | v in Versions(rest)
      ensures v in Versions(all)
    {
      var i :| 0 <= i < |rest| && rest[i].version == v && v > 0;
      assert all[i + 1].version == v;
    }
    if ev.version > 0 {
      assert all[0].version == ev.version;
    }
  }

  lemma SortedDistinctIncreases(s: seq<int>)
    requires Distinct(s)
    ensures Increasing(SortedOf(s)) && forall x :: x in SortedOf(s) <==> x in s
  {
    SortingSorts(s);
    DistinctCounts(s);
    SingleCountsAreDistinct(SortedOf(s));
    PermutationOfDistinct(SortedOf(s), s);
  }

  /** The decision references of the pass, each once. */
  method CollectRefs(intents: seq<Decided>, pass: nat) returns (r: seq<int>)
    ensures Lists(r, Refs(intents, pass))
  {
    var seen: set<int>, refs: seq<int> := {}, [];
    for i := 0 to |intents|
      invariant Distinct(refs)
      invariant forall x :: x in refs <==> x in seen
      invariant seen == Refs(intents[..i], pass)
    {
      var one := intents[i];
      assert intents[..i + 1] == intents[..i] + [one];
      OneMoreRef(intents[..i], one, pass);
      if one.pass == pass && one.ref != 0 && one.ref !in seen {
        seen := seen + {one.ref};
        refs := refs + [one.ref];
      }
    }
    assert intents[..|intents|] == intents;
    var a := SortedCopy(refs);
    r := a[..];
    SortedDistinctIncreases(refs);
  }

  lemma OneMoreRef(intents: seq<Decided>, one: Decided, pass: nat)
    ensures Refs(intents + [one], pass) == Refs(intents, pass) + if one.pass == pass && one.ref != 0 then {one.ref as int} else {}
  {
    var all := intents + [one];
    forall v | v in Refs(intents, pass)
      ensures v in Refs(all, pass)
    {
      var i :| 0 <= i < |intents| && intents[i].pass == pass && intents[i].ref != 0 && intents[i].ref == v;
      assert all[i] == intents[i];
    }
    if one.pass == pass && one.ref != 0 {
      assert all[|intents|] == one;
    }
  }

  method BuildBinding(facts: PassFacts, events: seq<SafeEvent>, intents: seq<Decided>) returns (b: Binding)
    ensures IsBinding(b, facts, Scanned(events), intents)
  {
    var outcome, branch, pullRequest, head, versions := ScanEvents(Scanned(events));
    var sorted := SortedCopy(versions);
    SortedDistinctIncreases(versions);
    var refs := CollectRefs(intents, facts.id);
    b := Binding(facts.workspace, facts.missionRef, facts.runId, outcome, sorted[..], refs,
                 facts.repository, facts.issue, branch, pullRequest, head);
  }

  /** There is only one binding: the order in which the map yields its keys
      does not matter. */
  lemma BindingIsUnique(b: Binding, c: Binding, facts: PassFacts, events: seq<SafeEvent>, intents: seq<Decided>)
    requires IsBinding(b, facts, events, intents) && IsBinding(c, facts, events, intents)
    ensures b == c
  {
    IncreasingIsUnique(b.versions, c.versions);
    IncreasingIsUnique(b.refs, c.refs);
  }

  /** An outcome of this kind, and no outcome of a run after it. */
  ghost predicate EndsAs(events: seq<SafeEvent>, kind: EventType) {
    exists k | 0 <= k < |events| ::
      events[k].kind == kind && forall i | k < i < |events| :: events[i].kind != RunSucceeded && events[i].kind != RunFailed
  }

  /** The binding's outcome by the kinds of the events: success (failure)
      exactly when the last event that ends the run is one of success
      (failure). */
  lemma OutcomeByKinds(b: Binding, facts: PassFacts, events: seq<SafeEvent>, intents: seq<Decided>)
    requires IsBinding(b, facts, events, intents)
    ensures b.outcome == Success <==> EndsAs(events, RunSucceeded)
    ensures b.outcome == Failure <==> EndsAs(events, RunFailed)
  {
    LastOutcomeIsLast(events);
    if LastOutcome(events).Some? {
      var k :| 0 <= k < |events| && events[k] == LastOutcome(events).value && IsOutcome(events[k])
               && forall i | k < i < |events| :: !IsOutcome(events[i]);
      assert events[k].kind.RunSucceeded? ==> EndsAs(events, RunSucceeded);
      assert events[k].kind.RunFailed? ==> EndsAs(events, RunFailed);
    }
  }

  // ---- Checking a receipt against it -------------------------------------

  /** The payload claims what the binding says, lists up to order. */
  ghost predicate Accepts(p: Binding, b: Binding) {
    && p.(versions := b.versions, refs := b.refs) == b
    && multiset(p.versions) == multiset(b.versions) && multiset(p.refs) == multiset(b.refs)
  }

  /** checkBinding. */
  method CheckBinding(p: Binding, b: Binding) returns (ok: bool)
    ensures ok <==> Accepts(p, b)
  {
    if p.workspace != b.workspace || p.missionRef != b.missionRef || p.grant != b.grant || p.outcome != b.outcome {
      return false;
    }
    var sameVersions := EqualSets(p.versions, b.versions);
    if !sameVersions {
      return false;
    }
    var sameRefs := EqualSets(p.refs, b.refs);
    if !sameRefs {
      return false;
    }
    return p.repository == b.repository && p.issue == b.issue && p.branch == b.branch
           && p.pullRequest == b.pullRequest && p.head == b.head;
  }

  /** Against a rebuilt binding, the version clause holds exactly for the
      permutations of the distinct positive projected versions, and the
      reference clause exactly for those of the distinct references. */
  lemma ClausesHoldForPermutations(p: Binding, b: Binding, facts: PassFacts, events: seq<SafeEvent>, intents: seq<Decided>)
    requires IsBinding(b, facts, events, intents)
    ensures multiset(p.versions) == multiset(b.versions)
            <==> Distinct(p.versions) && forall v :: v in p.versions <==> v in Versions(events)
    ensures multiset(p.refs) == multiset(b.refs)
            <==> Distinct(p.refs) && forall r :: r in p.refs <==> r in Refs(intents, facts.id)
  {
    PermutationOfDistinct(p.versions, b.versions);
    PermutationOfDistinct(p.refs, b.refs);
  }

  // ---- Events the scan does not reach ------------------------------------

  /** The events beyond the scan's limit. */
  function Unscanned(events: seq<SafeEvent>): seq<SafeEvent> {
    if |events| <= SCAN_LIMIT then [] else events[SCAN_LIMIT..]
  }

  /** Where later events carry a value, it repeats the one found before them. */
  predicate Repeats(before: seq<SafeEvent>, later: seq<SafeEvent>, field: SafeEvent -> int) {
    Latest(later, field) == 0 || Latest(later, field) == Latest(before, field)
  }

  /** Nothing the binding copies changes with the later events. */
  predicate AddsNothing(before: seq<SafeEvent>, later: seq<SafeEvent>) {
    && (LastOutcome(later).None? || OutcomeOf(LastOutcome(later)) == OutcomeOf(LastOutcome(before)))
    && Repeats(before, later, (ev: SafeEvent) => ev.branch)
    && Repeats(before, later, (ev: SafeEvent) => ev.pullRequest)
    && Repeats(before, later, (ev: SafeEvent) => ev.head)
    && Versions(later) <= Versions(before)
  }

  lemma {:induction false} LatestOfBoth(before: seq<SafeEvent>, later: seq<SafeEvent>, field: SafeEvent -> int)
    ensures Latest(before + later, field) == if Latest(later, field) != 0 then Latest(later, field) else Latest(before, field)
    decreases |later|
  {
    if later == [] {
      assert before + later == before;
    } else {
      var n := |later| - 1;
      assert (before + later)[..|before| + n] == before + later[..n];
      LatestOfBoth(before, later[..n], field);
    }
  }

  lemma {:induction false} LastOutcomeOfBoth(before: seq<SafeEvent>, later: seq<SafeEvent>)
    ensures LastOutcome(before + later) == if LastOutcome(later).Some? then LastOutcome(later) else LastOutcome(before)
    decreases |later|
  {
    if later == [] {
      assert before + later == before;
    } else {
      var n := |later| - 1;
      assert (before + later)[..|before| + n] == before + later[..n];
      LastOutcomeOfBoth(before, later[..n]);
    }
  }

  lemma {:induction false} VersionsOfBoth(before: seq<SafeEvent>, later: seq<SafeEvent>)
    ensures Versions(before + later) == Versions(before) + Versions(later)
    decreases |before|
  {
    if before == [] {
      assert before + later == later;
    } else {
      assert before + later == [before[0]] + (before[1..] + later) && before == [before[0]] + before[1..];
      OneMoreVersion(before[0], before[1..] + later);
      OneMoreVersion(before[0], before[1..]);
      VersionsOfBoth(before[1..], later);
    }
  }

  lemma ListsOneSet(s: seq<int>, a: set<int>, b: set<int>)
    requires Lists(s, a)
    ensures Lists(s, b) <==> a == b
  {
    if Lists(s, b) {
      forall x: int
        ensures x in a <==> x in b
      {
        assert (x in s <==> x in a) && (x in s <==> x in b);
      }
      assert a == b;
    }
  }

  lemma BindingOfBoth(b: Binding, facts: PassFacts, before: seq<SafeEvent>, later: seq<SafeEvent>, intents: seq<Decided>)
    requires IsBinding(b, facts, before, intents)
    ensures IsBinding(b, facts, before + later, intents) <==> AddsNothing(before, later)
  {
    LastOutcomeOfBoth(before, later);
    LatestOfBoth(before, later, (ev: SafeEvent) => ev.branch);
    LatestOfBoth(before, later, (ev: SafeEvent) => ev.pullRequest);
    LatestOfBoth(before, later, (ev: SafeEvent) => ev.head);
    VersionsOfBoth(before, later);
    ListsOneSet(b.versions, Versions(before), Versions(before + later));
  }

  /** The rebuilt binding is the one over all the pass's events exactly when
      the events beyond the scan bring no new version, and their latest
      outcome, branch, pull request and head repeat what the scan finds. */
  lemma BindingIsWholeUnlessLate(b: Binding, facts: PassFacts, events: seq<SafeEvent>, intents: seq<Decided>)
    requires IsBinding(b, facts, Scanned(events), intents)
    ensures IsBinding(b, facts, events, intents) <==> AddsNothing(Scanned(events), Unscanned(events))
  {
    assert events == Scanned(events) + Unscanned(events);
    BindingOfBoth(b, facts, Scanned(events), Unscanned(events), intents);
  }

  lemma EqualBindingsAccept(p: Binding, b: Binding)
    requires Increasing(p.versions) && Increasing(p.refs) && Increasing(b.versions) && Increasing(b.refs)
    ensures Accepts(p, b) <==> p == b
  {
    if Accepts(p, b) {
      assert forall v :: v in p.versions <==> v in multiset(p.versions);
      assert forall v :: v in b.versions <==> v in multiset(b.versions);
      assert forall r :: r in p.refs <==> r in multiset(p.refs);
      assert forall r :: r in b.refs <==> r in multiset(b.refs);
      IncreasingIsUnique(p.versions, b.versions);
      IncreasingIsUnique(p.refs, b.refs);
    }
  }

  /** A receipt that claims what all the pass's events and decisions say passes
      the check against the rebuilt binding under exactly that condition. */
  lemma TrueReceiptAcceptedUnlessLate(p: Binding, b: Binding, facts: PassFacts, events: seq<SafeEvent>, intents: seq<Decided>)
    requires IsBinding(p, facts, events, intents) && IsBinding(b, facts, Scanned(events), intents)
    ensures Accepts(p, b) <==> AddsNothing(Scanned(events), Unscanned(events))
  {
    EqualBindingsAccept(p, b);
    BindingIsWholeUnlessLate(b, facts, events, intents);
    if IsBinding(b, facts, events, intents) {
      BindingIsUnique(p, b, facts, events, intents);
    }
  }

  /** So the true receipt of a run whose outcome lies beyond the scan fails. */
  lemma LateOutcomeFailsItsReceipt(p: Binding, b: Binding, facts: PassFacts, events: seq<SafeEvent>, intents: seq<Decided>)
    requires IsBinding(p, facts, events, intents) && IsBinding(b, facts, Scanned(events), intents)
    requires LastOutcome(events).Some? && LastOutcome(Scanned(events)).None?
    ensures !Accepts(p, b)
  {
    TrueReceiptAcceptedUnlessLate(p, b, facts, events, intents);
    assert events == Scanned(events) + Unscanned(events);
    LastOutcomeOfBoth(Scanned(events), Unscanned(events));
  }
}
