/** What a page of events does, told by the kinds and fields of the events
    themselves: which events it accepts, what it stores of them, and where it
    takes the pass (internal/missionpass/events.go). */
module EventMoves {
  import opened Base
  import opened PassModel
  import opened EventCursor
  import opened EventProjection
  import ProjectionSafety

  // ---- Which events a page may hold --------------------------------------

  /** Known, well formed, dated between the epoch and five minutes from now,
      and of at least the version seen so far. */
  predicate Sound(ev: RawEvent, floor: int, now: int) {
    && ev.idValid && ev.kind.Some? && ev.wellFormed
    && 0 < ev.occurredAt <= now + 300_000
    && 0 <= ev.version && floor <= ev.version
  }

  ghost predicate AllSound(evs: seq<RawEvent>, previous: Option<int>, floor: int, now: int) {
    && (forall i | 0 <= i < |evs| :: Sound(evs[i], floor, now))
    && (forall i | 0 < i < |evs| :: evs[i - 1].occurredAt <= evs[i].occurredAt)
    && (previous.Some? && evs != [] ==> previous.value <= evs[0].occurredAt)
  }

  /** Kinds that neither move the pass nor depend on its state. */
  predicate Quiet(kind: EventType) { kind.MissionStarted? || kind.ActionChecked? || kind.PullRequestCreated? }

  lemma FirstIsSound(f: Fold, ev: RawEvent, floor: int, now: int)
    ensures FoldEvent(f, ev, floor, now).Going? ==>
              && Sound(ev, floor, now) && (f.previous.Some? ==> f.previous.value <= ev.occurredAt)
              && FoldEvent(f, ev, floor, now).fold.previous == Some(ev.occurredAt)
    ensures Sound(ev, floor, now) && Quiet(ev.kind.value) && (f.previous.Some? ==> f.previous.value <= ev.occurredAt) ==>
              FoldEvent(f, ev, floor, now).Going?
  {
  }

  lemma AllSoundUnroll(evs: seq<RawEvent>, previous: Option<int>, floor: int, now: int)
    requires evs != []
    ensures AllSound(evs, previous, floor, now)
            <==> Sound(evs[0], floor, now) && (previous.Some? ==> previous.value <= evs[0].occurredAt)
                 && AllSound(evs[1..], Some(evs[0].occurredAt), floor, now)
  {
    var rest := evs[1..];
    if AllSound(evs, previous, floor, now) {
      forall i | 0 <= i < |rest|
        ensures Sound(rest[i], floor, now) && (0 < i ==> rest[i - 1].occurredAt <= rest[i].occurredAt)
      {
        assert rest[i] == evs[i + 1];
      }
    }
    if Sound(evs[0], floor, now) && AllSound(rest, Some(evs[0].occurredAt), floor, now) {
      forall i | 0 < i < |evs|
        ensures Sound(evs[i], floor, now) && evs[i - 1].occurredAt <= evs[i].occurredAt
      {
        assert evs[i] == rest[i - 1];
        assert i > 1 ==> evs[i - 1] == rest[i - 2];
      }
    }
  }

  /** A page that is not stopped holds sound events in order of time alone, and
      events of quiet kinds stop a page in no other case. */
  lemma {:induction false} FoldsExactlySound(f: Fold, evs: seq<RawEvent>, floor: int, now: int)
    ensures FoldPage(f, evs, floor, now).Going? ==> AllSound(evs, f.previous, floor, now)
    ensures AllSound(evs, f.previous, floor, now) && (forall i | 0 <= i < |evs| :: Quiet(evs[i].kind.value)) ==>
              FoldPage(f, evs, floor, now).Going?
    decreases |evs|
  {
    if evs != [] {
      FirstIsSound(f, evs[0], floor, now);
      AllSoundUnroll(evs, f.previous, floor, now);
      if FoldEvent(f, evs[0], floor, now).Going? {
        FoldsExactlySound(FoldEvent(f, evs[0], floor, now).fold, evs[1..], floor, now);
      }
    }
  }

  /** What a page of events with a next cursor comes to on a compatible
      projection: it is stored only if every event is known, well formed, in
      order, not from the future and not below the version floor, and events of
      quiet kinds are stored whenever they are so and the cursor moves. */
  lemma StoredOnlySound(v: View, page: Page, now: int)
    requires v.proj.Some? ==> v.proj.value.compatible
    ensures Applied(v, page, now).1.Stored? ==> AllSound(page.events, None, Floor(v), now) && (page.events != [] ==> page.nextCursor != [])
    ensures page.nextCursor != [] && page.nextCursor != ProjOf(v).cursor
            && AllSound(page.events, None, Floor(v), now) && (forall i | 0 <= i < |page.events| :: Quiet(page.events[i].kind.value))
            ==> Applied(v, page, now).1.Stored?
  {
    FoldsExactlySound(Start(v), page.events, Floor(v), now);
    ProjectionSafety.FoldNeverStores(Start(v), page.events, Floor(v), now);
  }

  // ---- What is stored of them --------------------------------------------

  /** Every field of the event, under the next cursor. */
  predicate Copies(ev: RawEvent, e: SafeEvent, n: int) {
    && ev.kind == Some(e.kind) && ev.id == e.id && ev.occurredAt == e.occurredAt && ev.version == e.version
    && ev.digest == e.digest && ev.branch == e.branch && ev.pullRequest == e.pullRequest && ev.head == e.head
    && e.cursor == Cursor(n)
  }

  ghost predicate CopiedFrom(e: SafeEvent, evs: seq<RawEvent>, n: int) {
    exists j | 0 <= j < |evs| :: Copies(evs[j], e, n)
  }

  lemma FirstIsCopied(f: Fold, ev: RawEvent, floor: int, now: int)
    requires FoldEvent(f, ev, floor, now).Going?
    ensures var g := FoldEvent(f, ev, floor, now).fold;
            && Holds(g.events, ev.id)
            && if Holds(f.events, ev.id) then g.events == f.events && g.seqNo == f.seqNo && g.stored == f.stored
               else |g.events| == |f.events| + 1 && f.events <= g.events && g.seqNo == f.seqNo + 1 && g.stored == f.stored + 1
                    && Copies(ev, g.events[|f.events|], g.seqNo)
  {
    var g := FoldEvent(f, ev, floor, now).fold;
    if !Holds(f.events, ev.id) {
      assert g.events[|f.events|].id == ev.id;
    }
  }

  ghost predicate AllCopied(events: seq<SafeEvent>, k: nat, evs: seq<RawEvent>) {
    forall i | k <= i < |events| :: CopiedFrom(events[i], evs, i + 1)
  }

  ghost predicate AllHeld(events: seq<SafeEvent>, evs: seq<RawEvent>) {
    forall i | 0 <= i < |evs| :: Holds(events, evs[i].id)
  }

  lemma OneMoreCopied(before: seq<SafeEvent>, events: seq<SafeEvent>, k: nat, evs: seq<RawEvent>)
    requires evs != [] && before <= events && k <= |before| <= k + 1 && AllCopied(events, |before|, evs[1..])
    requires |before| > k ==> Copies(evs[0], before[k], k + 1)
    ensures AllCopied(events, k, evs)
  {
    forall i | k <= i < |events|
      ensures CopiedFrom(events[i], evs, i + 1)
    {
      if i < |before| {
        assert events[i] == before[i];
      } else {
        var j :| 0 <= j < |evs[1..]| && Copies(evs[1..][j], events[i], i + 1);
        assert evs[j + 1] == evs[1..][j];
      }
    }
  }

  lemma OneMoreHeld(before: seq<SafeEvent>, events: seq<SafeEvent>, evs: seq<RawEvent>)
    requires evs != [] && before <= events && Holds(before, evs[0].id) && AllHeld(events, evs[1..])
    ensures AllHeld(events, evs)
  {
    var k :| 0 <= k < |before| && before[k].id == evs[0].id;
    assert events[k].id == evs[0].id;
    forall i | 0 < i < |evs|
      ensures Holds(events, evs[i].id)
    {
      assert evs[i] == evs[1..][i - 1];
    }
  }

  lemma {:induction false} FoldCopies(f: Fold, evs: seq<RawEvent>, floor: int, now: int)
    requires FoldPage(f, evs, floor, now).Going? && f.seqNo == |f.events|
    ensures var g := FoldPage(f, evs, floor, now).fold;
            && f.events <= g.events && g.seqNo == |g.events| && g.stored - f.stored == |g.events| - |f.events|
            && AllCopied(g.events, |f.events|, evs) && AllHeld(g.events, evs)
    decreases |evs|
  {
    if evs != [] {
      var h := FoldEvent(f, evs[0], floor, now).fold;
      FirstIsCopied(f, evs[0], floor, now);
      FoldCopies(h, evs[1..], floor, now);
      var g := FoldPage(h, evs[1..], floor, now).fold;
      OneMoreCopied(h.events, g.events, |f.events|, evs);
      OneMoreHeld(h.events, g.events, evs);
    }
  }

  /** A stored page adds copies of its own new events, each under its place in
      the timeline, and afterwards every event of the page is there. */
  lemma StoredAsSent(v: View, page: Page, now: int)
    requires ProjectionSafety.Inv(v) && Applied(v, page, now).1.Stored?
    ensures var v1 := Applied(v, page, now).0;
            && v.events <= v1.events && Applied(v, page, now).1.count == |v1.events| - |v.events|
            && AllCopied(v1.events, |v.events|, page.events) && AllHeld(v1.events, page.events)
  {
    ProjectionSafety.FoldNeverStores(Start(v), page.events, Floor(v), now);
    FoldCopies(Start(v), page.events, Floor(v), now);
  }

  // ---- Where the events take the pass ------------------------------------

  /** The mission is over with this event. */
  predicate Ends(kind: EventType) { kind.RevokedMission? || kind.ExpiredMission? }

  /** An event of this kind is among those from k on, before the mission ends
      or as its end. */
  ghost predicate Occurs(events: seq<SafeEvent>, k: nat, kind: EventType) {
    exists i | k <= i < |events| :: events[i].kind == kind && forall j | k <= j < i :: !Ends(events[j].kind)
  }

  lemma OccursUnroll(events: seq<SafeEvent>, k: nat, kind: EventType)
    ensures Occurs(events, k, kind)
            <==> k < |events| && (events[k].kind == kind || (!Ends(events[k].kind) && Occurs(events, k + 1, kind)))
  {
    if k < |events| && events[k].kind != kind {
      if Occurs(events, k, kind) {
        var i :| k <= i < |events| && events[i].kind == kind && forall j | k <= j < i :: !Ends(events[j].kind);
        assert !Ends(events[k].kind);
        assert Occurs(events, k + 1, kind);
      }
    }
  }

  ghost predicate RunEnds(events: seq<SafeEvent>, k: nat) { Occurs(events, k, RunSucceeded) || Occurs(events, k, RunFailed) }

  /** Where the events from k on take a pass that has not ended. */
  ghost function Destination(from: PassState, events: seq<SafeEvent>, k: nat): PassState {
    if Occurs(events, k, RevokedMission) then PassState.Revoked
    else if Occurs(events, k, ExpiredMission) then PassState.Expired
    else if RunEnds(events, k) then PassState.OutcomePending
    else if from.Running? && Occurs(events, k, RequestedExpansion) then PassState.AwaitingExpansion
    else from
  }

  ghost predicate Arrives(row: Row, row1: Row, events: seq<SafeEvent>, k: nat) {
    && row1.revision == row.revision && row1.version == row.version
    && if Terminal(row.state) then row1 == row
       else
         && row1.state == Destination(row.state, events, k)
         && (row1.settled <==> row.settled || (!row.state.OutcomePending? && RunEnds(events, k)))
         && (row1.receiptPending <==> row.receiptPending || Occurs(events, k, ReadyReceipt))
  }

  /** One event, by its kind. */
  lemma EventMovesByKind(row: Row, ev: SafeEvent, events: seq<SafeEvent>)
    requires RowAfter(row, EffectOf(ev, events)).Some? && !Terminal(row.state)
    ensures var row1 := RowAfter(row, EffectOf(ev, events)).value;
            match ev.kind
            case RevokedMission => row1 == row.(state := PassState.Revoked)
            case ExpiredMission => row1 == row.(state := PassState.Expired)
            case RequestedExpansion =>
              row1 == if row.state.Running? then row.(state := PassState.AwaitingExpansion) else row
            case ReadyReceipt => row.state.OutcomePending? && row1 == row.(receiptPending := true)
            case MissionStarted => row1 == row
            case ActionChecked => row1 == row
            case PullRequestCreated => row1 == row
            case _ => row1 == if row.state.OutcomePending? then row else row.(state := PassState.OutcomePending, settled := true)
  {
  }

  lemma TerminalStays(row: Row, ev: SafeEvent, events: seq<SafeEvent>)
    requires Terminal(row.state)
    ensures RowAfter(row, EffectOf(ev, events)) == Some(row)
  {
  }

  lemma ArrivesUnroll(row: Row, h: Row, row1: Row, events: seq<SafeEvent>, k: nat, seen: seq<SafeEvent>)
    requires k < |events| && RowAfter(row, EffectOf(events[k], seen)) == Some(h) && Arrives(h, row1, events, k + 1)
    ensures Arrives(row, row1, events, k)
  {
    if Terminal(row.state) {
      TerminalStays(row, events[k], seen);
    } else {
      EventMovesByKind(row, events[k], seen);
      OccursUnroll(events, k, RevokedMission);
      OccursUnroll(events, k, ExpiredMission);
      OccursUnroll(events, k, RunSucceeded);
      OccursUnroll(events, k, RunFailed);
      OccursUnroll(events, k, RequestedExpansion);
      OccursUnroll(events, k, ReadyReceipt);
    }
  }

  lemma NothingArrives(row: Row, events: seq<SafeEvent>)
    ensures Arrives(row, row, events, |events|)
  {
  }

  lemma FirstMoves(f: Fold, ev: RawEvent, floor: int, now: int)
    requires FoldEvent(f, ev, floor, now).Going?
    ensures var g := FoldEvent(f, ev, floor, now).fold;
            if Holds(f.events, ev.id) then g.row == f.row
            else g.events != [] && RowAfter(f.row, EffectOf(g.events[|g.events| - 1], g.events)) == Some(g.row)
  {
  }

  lemma {:induction false} FoldArrives(f: Fold, evs: seq<RawEvent>, floor: int, now: int)
    requires FoldPage(f, evs, floor, now).Going? && f.seqNo == |f.events|
    ensures var g := FoldPage(f, evs, floor, now).fold; Arrives(f.row, g.row, g.events, |f.events|)
    decreases |evs|
  {
    if evs == [] {
      NothingArrives(f.row, f.events);
    } else {
      var h := FoldEvent(f, evs[0], floor, now).fold;
      FirstIsCopied(f, evs[0], floor, now);
      FirstMoves(f, evs[0], floor, now);
      FoldArrives(h, evs[1..], floor, now);
      FoldCopies(h, evs[1..], floor, now);
      var g := FoldPage(h, evs[1..], floor, now).fold;
      if !Holds(f.events, evs[0].id) {
        assert g.events[|f.events|] == h.events[|f.events|];
        ArrivesUnroll(f.row, h.row, g.row, g.events, |f.events|, h.events);
      }
    }
  }

  /** A stored page takes a pass that has not ended to revoked (expired) exactly
      when the first of its newly stored events to end the mission is a
      revocation (an expiry); else to outcome-pending exactly when one of them
      ends the run; else a running pass to awaiting-expansion exactly when one
      requests an expansion; every other event leaves the state alone, and an
      ended pass stays as it is. The reconciliation settles with the first end
      of the run, the receipt is pending from the first receipt on. */
  lemma PageMovesByKinds(v: View, page: Page, now: int)
    requires ProjectionSafety.Inv(v) && Applied(v, page, now).1.Stored?
    ensures var v1, k := Applied(v, page, now).0, |v.events|;
            && v1.row.version == v.row.version
            && (v1.row == v.row || v1.row.revision == v.row.revision + 1)
            && (Terminal(v.row.state) ==> v1.row == v.row)
            && (!Terminal(v.row.state) ==>
                  && v1.row.state == Destination(v.row.state, v1.events, k)
                  && (v1.row.settled <==> v.row.settled || (!v.row.state.OutcomePending? && RunEnds(v1.events, k)))
                  && (v1.row.receiptPending <==> v.row.receiptPending || Occurs(v1.events, k, ReadyReceipt)))
  {
    ProjectionSafety.FoldNeverStores(Start(v), page.events, Floor(v), now);
    FoldArrives(Start(v), page.events, Floor(v), now);
    var g := FoldPage(Start(v), page.events, Floor(v), now).fold;
    if !g.changed {
      ProjectionSafety.UnchangedFoldKeepsRow(Start(v), page.events, Floor(v), now);
    } else {
      ChangedFold(Start(v), page.events, Floor(v), now);
    }
  }

  /** A row marked as changed moved on, so an ended pass is not marked. */
  lemma {:induction false} ChangedFold(f: Fold, evs: seq<RawEvent>, floor: int, now: int)
    requires FoldPage(f, evs, floor, now).Going? && FoldPage(f, evs, floor, now).fold.changed && !f.changed
    ensures !Terminal(f.row.state)
    decreases |evs|
  {
    if evs != [] {
      var h := FoldEvent(f, evs[0], floor, now).fold;
      FirstMoves(f, evs[0], floor, now);
      if Terminal(f.row.state) {
        if !Holds(f.events, evs[0].id) {
          TerminalStays(f.row, h.events[|h.events| - 1], h.events);
        }
        assert h.row == f.row && !h.changed;
        ChangedFold(h, evs[1..], floor, now);
      }
    }
  }

  // ---- Which events a pass accepts ---------------------------------------

  /** The digest is that of the latest run outcome among the first ten thousand
      stored events. */
  ghost predicate MatchesOutcome(events: seq<SafeEvent>, digest: nat) {
    exists k | 0 <= k < |events| && k < 10_000 ::
      && (events[k].kind.RunSucceeded? || events[k].kind.RunFailed?) && events[k].digest == digest && digest != 0
      && forall i | k < i < |events| && i < 10_000 :: !events[i].kind.RunSucceeded? && !events[i].kind.RunFailed?
  }

  /** An ended pass takes any event.  A draft cannot be revoked, a pass that
      waits for its outcome cannot expire, a run ends only where it runs, and a
      receipt needs its outcome. */
  ghost predicate Accepts(state: PassState, kind: EventType, matches: bool) {
    Terminal(state)
    || match kind
       case RevokedMission => !state.Draft?
       case ExpiredMission => !state.OutcomePending?
       case RunSucceeded => state.Running? || state.AwaitingExpansion? || state.OutcomePending?
       case RunFailed => state.Running? || state.AwaitingExpansion? || state.OutcomePending?
       case ReadyReceipt => state.OutcomePending? && matches
       case _ => true
  }

  lemma MatchesExactly(events: seq<SafeEvent>, digest: nat)
    ensures ReceiptMatches(events, digest) <==> MatchesOutcome(events, digest)
  {
    var scanned := Scanned(events);
    LastOutcomeIsLast(scanned);
    assert forall i | 0 <= i < |scanned| :: scanned[i] == events[i];
    if ReceiptMatches(events, digest) {
      var k :| 0 <= k < |scanned| && scanned[k] == LastOutcome(scanned).value && IsOutcome(scanned[k])
               && forall i | k < i < |scanned| :: !IsOutcome(scanned[i]);
      assert events[k].digest == digest;
    }
    if MatchesOutcome(events, digest) {
      MatchIsLast(events, digest);
    }
  }

  lemma MatchIsLast(events: seq<SafeEvent>, digest: nat)
    requires MatchesOutcome(events, digest)
    ensures LastOutcome(Scanned(events)).Some? && LastOutcome(Scanned(events)).value.digest == digest && digest != 0
  {
    var scanned := Scanned(events);
    var k :| 0 <= k < |events| && k < 10_000
             && (events[k].kind.RunSucceeded? || events[k].kind.RunFailed?) && events[k].digest == digest && digest != 0
             && forall i | k < i < |events| && i < 10_000 :: !events[i].kind.RunSucceeded? && !events[i].kind.RunFailed?;
    assert scanned[k] == events[k] && IsOutcome(scanned[k]);
    assert forall i | k < i < |scanned| :: scanned[i] == events[i] && !IsOutcome(scanned[i]);
    LastOutcomeIsLast(scanned);
    var n :| 0 <= n < |scanned| && scanned[n] == LastOutcome(scanned).value && IsOutcome(scanned[n])
             && forall i | n < i < |scanned| :: !IsOutcome(scanned[i]);
    assert n == k;
  }

  lemma AcceptsExactly(row: Row, ev: SafeEvent, events: seq<SafeEvent>)
    ensures RowAfter(row, EffectOf(ev, events)).Some? <==> Accepts(row.state, ev.kind, MatchesOutcome(events, ev.digest))
  {
    MatchesExactly(events, ev.digest);
  }

  lemma TurnsExactly(f: Fold, ev: RawEvent, floor: int, now: int)
    requires f.previous.None?
    ensures FoldEvent(f, ev, floor, now).Going?
            <==> Sound(ev, floor, now)
                 && (Holds(f.events, ev.id)
                     || Accepts(f.row.state, ev.kind.value, MatchesOutcome(f.events + [SafeOf(ev, f.seqNo + 1)], ev.digest)))
  {
    if ev.kind.Some? {
      AcceptsExactly(f.row, SafeOf(ev, f.seqNo + 1), f.events + [SafeOf(ev, f.seqNo + 1)]);
    }
  }

  lemma MatchesBefore(events: seq<SafeEvent>, ev: SafeEvent, digest: nat)
    requires !IsOutcome(ev)
    ensures MatchesOutcome(events + [ev], digest) <==> MatchesOutcome(events, digest)
  {
    var more := events + [ev];
    assert forall i | 0 <= i < |events| :: more[i] == events[i];
    if MatchesOutcome(more, digest) {
      var k :| 0 <= k < |more| && k < 10_000
               && (more[k].kind.RunSucceeded? || more[k].kind.RunFailed?) && more[k].digest == digest && digest != 0
               && forall i | k < i < |more| && i < 10_000 :: !more[i].kind.RunSucceeded? && !more[i].kind.RunFailed?;
      assert k < |events| && events[k] == more[k];
      forall i | k < i < |events| && i < 10_000
        ensures !events[i].kind.RunSucceeded? && !events[i].kind.RunFailed?
      {
        assert more[i] == events[i];
      }
    }
    if MatchesOutcome(events, digest) {
      var k :| 0 <= k < |events| && k < 10_000
               && (events[k].kind.RunSucceeded? || events[k].kind.RunFailed?) && events[k].digest == digest && digest != 0
               && forall i | k < i < |events| && i < 10_000 :: !events[i].kind.RunSucceeded? && !events[i].kind.RunFailed?;
      forall i | k < i < |more| && i < 10_000
        ensures !more[i].kind.RunSucceeded? && !more[i].kind.RunFailed?
      {
        assert i < |events| ==> more[i] == events[i];
      }
      assert more[k] == events[k];
    }
  }

  lemma OneTurn(v: View, ev: RawEvent, cursor: seq<Encoding.byte>, now: int)
    requires v.proj.Some? ==> v.proj.value.compatible
    requires cursor != [] && cursor != ProjOf(v).cursor
    ensures Applied(v, Page([ev], cursor), now).1.Stored? <==> FoldEvent(Start(v), ev, Floor(v), now).Going?
  {
    var f, evs := Start(v), [ev];
    assert evs[1..] == [] && FoldPage(f, evs, Floor(v), now) == FoldEvent(f, ev, Floor(v), now);
    ProjectionSafety.FoldNeverStores(f, evs, Floor(v), now);
  }

  /** A page of one event whose cursor moves is stored exactly when the event is
      sound, and is known already or accepted by the pass as it is. */
  lemma OneEventPage(v: View, ev: RawEvent, cursor: seq<Encoding.byte>, now: int)
    requires v.proj.Some? ==> v.proj.value.compatible
    requires cursor != [] && cursor != ProjOf(v).cursor
    ensures Applied(v, Page([ev], cursor), now).1.Stored?
            <==> Sound(ev, Floor(v), now)
                 && (Holds(v.events, ev.id) || Accepts(v.row.state, ev.kind.value, MatchesOutcome(v.events, ev.digest)))
  {
    OneTurn(v, ev, cursor, now);
    TurnsExactly(Start(v), ev, Floor(v), now);
    if ev.kind.Some? {
      AcceptsBefore(v.row.state, v.events, SafeOf(ev, Start(v).seqNo + 1));
    }
  }

  lemma AcceptsBefore(state: PassState, events: seq<SafeEvent>, ev: SafeEvent)
    ensures Accepts(state, ev.kind, MatchesOutcome(events + [ev], ev.digest)) <==> Accepts(state, ev.kind, MatchesOutcome(events, ev.digest))
  {
    if ev.kind.ReadyReceipt? {
      MatchesBefore(events, ev, ev.digest);
    }
  }

  // ---- How far a projection has got --------------------------------------

  lemma {:induction false} LexIsTransitive(a: seq<Encoding.byte>, b: seq<Encoding.byte>, c: seq<Encoding.byte>)
    requires Encoding.LexLess(a, b) && Encoding.LexLess(b, c)
    ensures Encoding.LexLess(a, c)
    decreases |a|
  {
    if a != [] && b != [] && c != [] && a[0] == b[0] == c[0] {
      LexIsTransitive(a[1..], b[1..], c[1..]);
    }
  }

  /** Not behind, as the cursors compare. */
  predicate AtLeast(q: Projection, p: Projection) {
    (q.cursor == p.cursor || Encoding.LexLess(p.cursor, q.cursor)) && p.eventSeq <= q.eventSeq && p.version <= q.version
  }

  lemma {:induction false} FoldVersions(f: Fold, evs: seq<RawEvent>, floor: int, now: int)
    requires FoldPage(f, evs, floor, now).Going?
    ensures var g := FoldPage(f, evs, floor, now).fold;
            && f.maxVersion <= g.maxVersion && f.seqNo <= g.seqNo
            && (forall i | 0 <= i < |evs| :: evs[i].version <= g.maxVersion)
            && (g.maxVersion == f.maxVersion || exists i | 0 <= i < |evs| :: evs[i].version == g.maxVersion)
    decreases |evs|
  {
    if evs != [] {
      var h, rest := FoldEvent(f, evs[0], floor, now).fold, evs[1..];
      FirstVersion(f, evs[0], floor, now);
      FoldVersions(h, rest, floor, now);
      var g := FoldPage(h, rest, floor, now).fold;
      forall i | 0 <= i < |evs|
        ensures evs[i].version <= g.maxVersion
      {
        assert i > 0 ==> evs[i] == rest[i - 1];
      }
      if g.maxVersion != h.maxVersion {
        var i :| 0 <= i < |rest| && rest[i].version == g.maxVersion;
        assert evs[i + 1] == rest[i];
      }
    }
  }

  lemma FirstVersion(f: Fold, ev: RawEvent, floor: int, now: int)
    requires FoldEvent(f, ev, floor, now).Going?
    ensures var g := FoldEvent(f, ev, floor, now).fold;
            && g.maxVersion == (if f.maxVersion < ev.version then ev.version else f.maxVersion)
            && f.seqNo <= g.seqNo <= f.seqNo + 1
  {
  }

  /** A stored page moves the projection forward: its cursor becomes the page's
      unless that is behind, the mission version becomes the greatest of its
      own, the pass's and the events', and the projection is compatible. */
  lemma StoredProgress(v: View, page: Page, now: int)
    requires ProjectionSafety.Inv(v) && Applied(v, page, now).1.Stored?
    ensures var v1 := Applied(v, page, now).0;
            && v1.proj.Some? && v1.proj.value.compatible && AtLeast(v1.proj.value, ProjOf(v))
            && v1.proj.value.cursor == (if Encoding.LexLess(ProjOf(v).cursor, page.nextCursor) then page.nextCursor else ProjOf(v).cursor)
            && v.row.version <= v1.proj.value.version
            && (forall i | 0 <= i < |page.events| :: page.events[i].version <= v1.proj.value.version)
            && (v1.proj.value.version in {ProjOf(v).version, v.row.version}
                || exists i | 0 <= i < |page.events| :: page.events[i].version == v1.proj.value.version)
  {
    ProjectionSafety.FoldNeverStores(Start(v), page.events, Floor(v), now);
    FoldVersions(Start(v), page.events, Floor(v), now);
  }

  /** No sequence of pages and foreign writes takes the projection back. */
  lemma {:induction false} ProjectionNeverGoesBack(v: View, changes: seq<ProjectionSafety.Change>)
    requires ProjectionSafety.Inv(v)
    ensures AtLeast(ProjOf(ProjectionSafety.Run(v, changes)), ProjOf(v))
    decreases |changes|
  {
    if changes != [] {
      var v1 := ProjectionSafety.Step(v, changes[0]);
      if changes[0].ApplyPage? {
        ProjectionSafety.PageKeepsTimeline(v, changes[0].page, changes[0].now);
        ProjectionSafety.FoldNeverStores(Start(v), changes[0].page.events, Floor(v), changes[0].now);
        if Applied(v, changes[0].page, changes[0].now).1.Stored? {
          StoredProgress(v, changes[0].page, changes[0].now);
        }
      }
      ProjectionNeverGoesBack(v1, changes[1..]);
      var last := ProjOf(ProjectionSafety.Run(v, changes));
      if Encoding.LexLess(ProjOf(v).cursor, ProjOf(v1).cursor) && Encoding.LexLess(ProjOf(v1).cursor, last.cursor) {
        LexIsTransitive(ProjOf(v).cursor, ProjOf(v1).cursor, last.cursor);
      }
    }
  }
}
