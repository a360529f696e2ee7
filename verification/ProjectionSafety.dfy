/** What every sequence of event pages keeps, with any other service rewriting
    the pass row in between. */
module ProjectionSafety {
  import opened Base
  import opened PassModel
  import opened Encoding
  import opened EventCursor
  import opened EventProjection
  import Lifecycle

  datatype Change =
    | ApplyPage(page: Page, now: int)
    | RewriteRow(row: Row)                 // any other service

  function Step(v: View, c: Change): View {
    match c
    case ApplyPage(page, now) => Applied(v, page, now).0
    case RewriteRow(row) => v.(row := row)
  }

  function Run(v: View, changes: seq<Change>): View
    decreases |changes|
  {
    if changes == [] then v else Run(Step(v, changes[0]), changes[1..])
  }

  // ---- The stored timeline -----------------------------------------------

  /** Cursors 1, 2, 3, ... and no event ID twice. */
  ghost predicate Timeline(events: seq<SafeEvent>) {
    && (forall i | 0 <= i < |events| :: events[i].cursor == Cursor(i + 1))
    && (forall i, j | 0 <= i < j < |events| :: events[i].id != events[j].id)
  }

  ghost predicate UpTo(events: seq<SafeEvent>, version: int) {
    forall i | 0 <= i < |events| :: events[i].version <= version
  }

  ghost predicate Inv(v: View) {
    && Timeline(v.events) && ProjOf(v).eventSeq == |v.events| && UpTo(v.events, ProjOf(v).version)
  }

  /** What a fold adds: events in order, none below the floor. */
  ghost predicate Extends(before: seq<SafeEvent>, f: Fold, floor: int) {
    && before <= f.events
    && Timeline(f.events) && f.seqNo == |f.events| && UpTo(f.events, f.maxVersion)
    && floor <= f.maxVersion
    && f.stored == |f.events| - |before|
    && (forall i | |before| <= i < |f.events| :: floor <= f.events[i].version)
  }

  lemma AppendKeepsTimeline(events: seq<SafeEvent>, ev: SafeEvent)
    requires Timeline(events) && ev.cursor == Cursor(|events| + 1) && !Holds(events, ev.id)
    ensures Timeline(events + [ev])
  {
    var more := events + [ev];
    forall i, j | 0 <= i < j < |more|
      ensures more[i].id != more[j].id
    {
      assert more[i] == events[i];
    }
  }

  lemma AppendExtends(before: seq<SafeEvent>, f: Fold, ev: SafeEvent, g: Fold, floor: int)
    requires Extends(before, f, floor) && floor <= ev.version && Timeline(g.events)
    requires g.events == f.events + [ev] && g.seqNo == f.seqNo + 1 && g.stored == f.stored + 1
    requires g.maxVersion == Max(f.maxVersion, ev.version)
    ensures Extends(before, g, floor)
  {
    forall i | 0 <= i < |g.events|
      ensures g.events[i].version <= g.maxVersion && (|before| <= i ==> floor <= g.events[i].version)
    {
      assert i < |f.events| ==> g.events[i] == f.events[i];
    }
  }

  /** What one event does to the fold. */
  lemma EventFolds(f: Fold, ev: RawEvent, floor: int, now: int)
    requires FoldEvent(f, ev, floor, now).Going?
    ensures var g := FoldEvent(f, ev, floor, now).fold;
            && ev.kind.Some? && floor <= ev.version && g.row.version == f.row.version
            && g.maxVersion == Max(f.maxVersion, ev.version)
            && if Holds(f.events, ev.id) then g.events == f.events && g.seqNo == f.seqNo && g.stored == f.stored
               else g.events == f.events + [SafeOf(ev, f.seqNo + 1)] && g.seqNo == f.seqNo + 1 && g.stored == f.stored + 1
  {
  }

  lemma EventExtends(before: seq<SafeEvent>, f: Fold, ev: RawEvent, floor: int, now: int)
    requires Extends(before, f, floor) && FoldEvent(f, ev, floor, now).Going?
    ensures Extends(before, FoldEvent(f, ev, floor, now).fold, floor)
    ensures FoldEvent(f, ev, floor, now).fold.row.version == f.row.version
  {
    EventFolds(f, ev, floor, now);
    FoldExtends(before, f, ev, FoldEvent(f, ev, floor, now).fold, floor);
  }

  lemma FoldExtends(before: seq<SafeEvent>, f: Fold, ev: RawEvent, g: Fold, floor: int)
    requires Extends(before, f, floor) && ev.kind.Some? && floor <= ev.version
    requires g.maxVersion == Max(f.maxVersion, ev.version)
    requires if Holds(f.events, ev.id) then g.events == f.events && g.seqNo == f.seqNo && g.stored == f.stored
             else g.events == f.events + [SafeOf(ev, f.seqNo + 1)] && g.seqNo == f.seqNo + 1 && g.stored == f.stored + 1
    ensures Extends(before, g, floor)
  {
    if !Holds(f.events, ev.id) {
      AppendKeepsTimeline(f.events, SafeOf(ev, f.seqNo + 1));
      AppendExtends(before, f, SafeOf(ev, f.seqNo + 1), g, floor);
    }
  }

  lemma {:induction false} PageExtends(before: seq<SafeEvent>, f: Fold, evs: seq<RawEvent>, floor: int, now: int)
    requires Extends(before, f, floor) && FoldPage(f, evs, floor, now).Going?
    ensures Extends(before, FoldPage(f, evs, floor, now).fold, floor)
    ensures FoldPage(f, evs, floor, now).fold.row.version == f.row.version
    decreases |evs|
  {
    if evs != [] {
      EventExtends(before, f, evs[0], floor, now);
      PageExtends(before, FoldEvent(f, evs[0], floor, now).fold, evs[1..], floor, now);
    }
  }

  /** One page keeps the timeline, only appends to it, and appends nothing
      older than what is there. */
  lemma PageKeepsTimeline(v: View, page: Page, now: int)
    requires Inv(v)
    ensures var v1 := Applied(v, page, now).0;
            && Inv(v1) && v.events <= v1.events
            && forall i, j | 0 <= i < |v.events| <= j < |v1.events| :: v.events[i].version <= v1.events[j].version
  {
    assert Extends(v.events, Start(v), Floor(v));
    if FoldPage(Start(v), page.events, Floor(v), now).Going? {
      PageExtends(v.events, Start(v), page.events, Floor(v), now);
    }
  }

  lemma {:induction false} RunKeepsTimeline(v: View, changes: seq<Change>)
    requires Inv(v)
    ensures Inv(Run(v, changes)) && v.events <= Run(v, changes).events
    decreases |changes|
  {
    if changes != [] {
      if changes[0].ApplyPage? {
        PageKeepsTimeline(v, changes[0].page, changes[0].now);
      }
      RunKeepsTimeline(Step(v, changes[0]), changes[1..]);
    }
  }

  lemma TimelineIsOrdered(events: seq<SafeEvent>, i: nat, j: nat)
    requires Timeline(events) && i < |events| < INT64_LIMIT && j < |events|
    ensures LexLess(events[i].cursor, events[j].cursor) <==> i < j
  {
    CursorOrder(i + 1, j + 1);
  }

  /** After any sequence of pages, the stored events carry exactly the cursors
      1 to EventSeq, no event ID twice, and the string order of the cursors is
      the storage order. */
  lemma TimelineIsExact(v: View, changes: seq<Change>, i: nat, j: nat)
    requires Inv(v) && i < |Run(v, changes).events| && j < |Run(v, changes).events|
    ensures var v1 := Run(v, changes);
            && ProjOf(v1).eventSeq == |v1.events|
            && v1.events[i].cursor == Cursor(i + 1)
            && (v1.events[i].id == v1.events[j].id <==> i == j)
            && (|v1.events| < INT64_LIMIT ==> (LexLess(v1.events[i].cursor, v1.events[j].cursor) <==> i < j))
  {
    RunKeepsTimeline(v, changes);
    var v1 := Run(v, changes);
    if |v1.events| < INT64_LIMIT {
      TimelineIsOrdered(v1.events, i, j);
    }
  }

  /** Whatever a later page stores is at least as new as everything an earlier
      page stored. */
  lemma {:induction false} LaterPagesAreNotOlder(v: View, changes: seq<Change>, i: nat, j: nat)
    requires Inv(v) && i < |v.events| <= j < |Run(v, changes).events|
    ensures v.events <= Run(v, changes).events
    ensures v.events[i].version <= Run(v, changes).events[j].version
    decreases |changes|
  {
    var v1 := Step(v, changes[0]);
    if changes[0].ApplyPage? {
      PageKeepsTimeline(v, changes[0].page, changes[0].now);
    }
    RunKeepsTimeline(v1, changes[1..]);
    if j >= |v1.events| {
      LaterPagesAreNotOlder(v1, changes[1..], i, j);
    }
  }

  // ---- Applying a page twice ---------------------------------------------

  /** Every event of the page is known, of a known type and not newer than
      the highest version seen. */
  ghost predicate AllSeen(f: Fold, evs: seq<RawEvent>) {
    forall i | 0 <= i < |evs| ::
      evs[i].idValid && evs[i].kind.Some? && Holds(f.events, evs[i].id) && evs[i].version <= f.maxVersion
  }

  lemma {:induction false} FoldSeesAll(f: Fold, evs: seq<RawEvent>, floor: int, now: int)
    requires FoldPage(f, evs, floor, now).Going?
    ensures var g := FoldPage(f, evs, floor, now).fold;
            AllSeen(g, evs) && f.events <= g.events && f.maxVersion <= g.maxVersion
    decreases |evs|
  {
    if evs != [] {
      var h := FoldEvent(f, evs[0], floor, now).fold;
      FoldSeesAll(h, evs[1..], floor, now);
      var g := FoldPage(f, evs, floor, now).fold;
      assert Holds(h.events, evs[0].id) by {
        if !Holds(f.events, evs[0].id) {
          assert h.events[|f.events|].id == evs[0].id;
        }
      }
      var k :| 0 <= k < |h.events| && h.events[k].id == evs[0].id;
      assert g.events[k].id == evs[0].id;
      forall i | 0 <= i < |evs|
        ensures evs[i].idValid && evs[i].kind.Some? && Holds(g.events, evs[i].id) && evs[i].version <= g.maxVersion
      {
        if i > 0 {
          assert evs[i] == evs[1..][i - 1];
        }
      }
    }
  }

  /** A page whose events are all seen is rejected or changes nothing. */
  lemma {:induction false} SeenPageIsInert(f: Fold, evs: seq<RawEvent>, floor: int, now: int)
    requires AllSeen(f, evs)
    ensures match FoldPage(f, evs, floor, now)
            case Stopped(result) => result == Rejected
            case Going(g) => g == f.(previous := g.previous)
    decreases |evs|
  {
    if evs != [] && FoldEvent(f, evs[0], floor, now).Going? {
      var h := FoldEvent(f, evs[0], floor, now).fold;
      assert h == f.(previous := h.previous);
      assert AllSeen(h, evs[1..]);
      SeenPageIsInert(h, evs[1..], floor, now);
    }
  }

  lemma {:induction false} LexIrreflexive(a: seq<byte>)
    ensures !LexLess(a, a)
    decreases |a|
  {
    if a != [] {
      LexIrreflexive(a[1..]);
    }
  }

  /** Applying a page again leaves everything exactly as after the first time,
      whatever the clock says by then; only a page the first application
      rejected needs the same clock to be rejected again. */
  lemma ApplyingTwiceIsApplyingOnce(v: View, page: Page, now: int, later: int)
    requires Inv(v)
    requires Applied(v, page, now).1 == Rejected ==> later == now
    ensures Applied(Applied(v, page, now).0, page, later).0 == Applied(v, page, now).0
  {
    var (v1, r) := Applied(v, page, now);
    if r.Stored? {
      assert Extends(v.events, Start(v), Floor(v));
      PageExtends(v.events, Start(v), page.events, Floor(v), now);
      FoldSeesAll(Start(v), page.events, Floor(v), now);
      var f := FoldPage(Start(v), page.events, Floor(v), now).fold;
      assert Start(v1).events == f.events && Start(v1).maxVersion == f.maxVersion;
      assert AllSeen(Start(v1), page.events);
      SeenPageIsInert(Start(v1), page.events, Floor(v1), later);
      LexIrreflexive(page.nextCursor);
    }
  }

  // ---- Unknown event types -----------------------------------------------

  lemma {:induction false} UnknownStopsFold(f: Fold, evs: seq<RawEvent>, floor: int, now: int, k: nat)
    requires k < |evs| && evs[k].kind.None?
    ensures FoldPage(f, evs, floor, now).Stopped?
    decreases |evs|
  {
    if k > 0 && FoldEvent(f, evs[0], floor, now).Going? {
      assert evs[1..][k - 1] == evs[k];
      UnknownStopsFold(FoldEvent(f, evs[0], floor, now).fold, evs[1..], floor, now, k - 1);
    }
  }

  lemma {:induction false} FoldNeverStores(f: Fold, evs: seq<RawEvent>, floor: int, now: int)
    ensures FoldPage(f, evs, floor, now).Stopped? ==> !FoldPage(f, evs, floor, now).result.Stored?
    decreases |evs|
  {
    if evs != [] && FoldEvent(f, evs[0], floor, now).Going? {
      FoldNeverStores(FoldEvent(f, evs[0], floor, now).fold, evs[1..], floor, now);
    }
  }

  /** A page with an unknown event type anywhere stores no event, leaves the
      pass row alone and moves no cursor. */
  lemma UnknownTypeStoresNothing(v: View, page: Page, now: int)
    requires exists i | 0 <= i < |page.events| :: page.events[i].kind.None?
    ensures !Applied(v, page, now).1.Stored?
    ensures var v1 := Applied(v, page, now).0;
            && v1.events == v.events && v1.row == v.row
            && ProjOf(v1).(compatible := true) == ProjOf(v).(compatible := true)
  {
    var k :| 0 <= k < |page.events| && page.events[k].kind.None?;
    UnknownStopsFold(Start(v), page.events, Floor(v), now, k);
    FoldNeverStores(Start(v), page.events, Floor(v), now);
  }

  /** Event n is the first that stops the page, and its type is unknown. */
  predicate UnknownAt(f: Fold, evs: seq<RawEvent>, n: nat, floor: int, now: int) {
    n < |evs| && evs[n].idValid && evs[n].kind.None? && FoldPage(f, evs[..n], floor, now).Going?
  }

  lemma UnknownAtRest(f: Fold, evs: seq<RawEvent>, n: nat, floor: int, now: int)
    requires n + 1 < |evs| && FoldEvent(f, evs[0], floor, now).Going?
    ensures UnknownAt(f, evs, n + 1, floor, now)
            <==> UnknownAt(FoldEvent(f, evs[0], floor, now).fold, evs[1..], n, floor, now)
  {
    assert evs[1..][n] == evs[n + 1] && evs[..n + 1][0] == evs[0] && evs[..n + 1][1..] == evs[1..][..n];
  }

  lemma {:induction false} FoldLatchesAtUnknown(f: Fold, evs: seq<RawEvent>, floor: int, now: int)
    ensures FoldPage(f, evs, floor, now) == Stopped(Incompatible)
            <==> exists n: nat :: UnknownAt(f, evs, n, floor, now)
    decreases |evs|
  {
    if evs == [] {
    } else if FoldEvent(f, evs[0], floor, now).Stopped? {
      assert UnknownAt(f, evs, 0, floor, now) <==> FoldEvent(f, evs[0], floor, now).result.Incompatible?;
      forall n: nat | 0 < n
        ensures !UnknownAt(f, evs, n, floor, now)
      {
        assert n < |evs| ==> evs[..n][0] == evs[0];
      }
    } else {
      var g := FoldEvent(f, evs[0], floor, now).fold;
      FoldLatchesAtUnknown(g, evs[1..], floor, now);
      assert !UnknownAt(f, evs, 0, floor, now);
      forall n: nat | n + 1 < |evs|
        ensures UnknownAt(f, evs, n + 1, floor, now) <==> UnknownAt(g, evs[1..], n, floor, now)
      {
        UnknownAtRest(f, evs, n, floor, now);
      }
      if n: nat :| UnknownAt(f, evs, n, floor, now) {
        assert UnknownAt(g, evs[1..], n - 1, floor, now);
      }
      if n: nat :| UnknownAt(g, evs[1..], n, floor, now) {
        assert UnknownAt(f, evs, n + 1, floor, now);
      }
    }
  }

  /** A page latches a compatible projection exactly when it names its next
      cursor and the first event that stops it is of an unknown type; a
      malformed or illegal event before that one rejects the page instead.
      Latching changes the flag alone. */
  lemma LatchesExactlyAtUnknown(v: View, page: Page, now: int)
    requires v.proj.Some? ==> v.proj.value.compatible
    ensures Applied(v, page, now).1.Incompatible?
            <==> page.nextCursor != [] && exists n: nat :: UnknownAt(Start(v), page.events, n, Floor(v), now)
    ensures Applied(v, page, now).1.Incompatible? ==>
              Applied(v, page, now).0 == v.(proj := Some(ProjOf(v).(compatible := false)), latched := true)
    ensures Applied(v, page, now).1.Rejected? ==> Applied(v, page, now).0 == v
  {
    FoldLatchesAtUnknown(Start(v), page.events, Floor(v), now);
    FoldNeverStores(Start(v), page.events, Floor(v), now);
  }

  /** Once latched, no later page changes the projection, the events or the
      pass: what the pass becomes is what other services write. */
  lemma {:induction false} LatchedStaysPut(v: View, changes: seq<Change>)
    requires v.proj.Some? && !v.proj.value.compatible
    ensures var v1 := Run(v, changes);
            && v1.proj == v.proj && v1.events == v.events
            && ((forall i | 0 <= i < |changes| :: changes[i].ApplyPage?) ==> v1 == v)
    decreases |changes|
  {
    if changes != [] {
      LatchedStaysPut(Step(v, changes[0]), changes[1..]);
    }
  }

  // ---- The scan limit ----------------------------------------------------

  lemma {:induction false} NoLaterOutcome(events: seq<SafeEvent>, n: nat)
    requires n <= |events| && forall i | n <= i < |events| :: !IsOutcome(events[i])
    ensures LastOutcome(events) == LastOutcome(events[..n])
    decreases |events|
  {
    if n == |events| {
      assert events[..n] == events;
    } else {
      var before := events[..|events| - 1];
      assert before[..n] == events[..n];
      NoLaterOutcome(before, n);
    }
  }

  lemma SomeOutcomeAt(events: seq<SafeEvent>) returns (k: nat)
    requires LastOutcome(events).Some?
    ensures k < |events| && LastOutcome(events) == Some(events[k])
  {
    LastOutcomeIsLast(events);
    var ev := LastOutcome(events).value;
    k :| 0 <= k < |events| && events[k] == ev;
  }

  lemma OutcomeAt(events: seq<SafeEvent>, i: nat) returns (k: nat)
    requires i < |events| && IsOutcome(events[i])
    ensures i <= k < |events| && LastOutcome(events) == Some(events[k])
  {
    LastOutcomeIsLast(events);
    var ev := LastOutcome(events).value;
    k :| 0 <= k < |events| && events[k] == ev && forall j | k < j < |events| :: !IsOutcome(events[j]);
  }

  lemma PrefixHasLastOutcome(events: seq<SafeEvent>, n: nat)
    requires Timeline(events) && n <= |events|
    ensures LastOutcome(events[..n]) == LastOutcome(events) <==> forall i | n <= i < |events| :: !IsOutcome(events[i])
  {
    if forall i | n <= i < |events| :: !IsOutcome(events[i]) {
      NoLaterOutcome(events, n);
    } else {
      var late :| n <= late < |events| && IsOutcome(events[late]);
      var k := OutcomeAt(events, late);
      if LastOutcome(events[..n]).Some? {
        var m := SomeOutcomeAt(events[..n]);
        assert events[..n][m] == events[m] && events[m].id != events[k].id;
      }
    }
  }

  /** latestRunOutcome reads the oldest events up to its limit, so it finds the
      latest outcome exactly when no outcome lies beyond the limit. */
  lemma ScanFindsLatestUnlessBeyond(events: seq<SafeEvent>)
    requires Timeline(events)
    ensures LastOutcome(Scanned(events)) == LastOutcome(events)
            <==> forall i | SCAN_LIMIT <= i < |events| :: !IsOutcome(events[i])
  {
    if |events| > SCAN_LIMIT {
      PrefixHasLastOutcome(events, SCAN_LIMIT);
    }
  }

  lemma NoOutcomeScanned(events: seq<SafeEvent>, ev: SafeEvent, digest: nat)
    requires |events| >= SCAN_LIMIT && forall i | 0 <= i < SCAN_LIMIT :: !IsOutcome(events[i])
    ensures !ReceiptMatches(events + [ev], digest)
  {
    var scanned := Scanned(events + [ev]);
    assert forall i | 0 <= i < |scanned| :: scanned[i] == events[i];
    LastOutcomeIsLast(scanned);
  }

  lemma ReceiptStopsFold(f: Fold, ev: RawEvent, floor: int, now: int)
    requires ev.kind == Some(ReadyReceipt) && !Holds(f.events, ev.id) && !Terminal(f.row.state)
    requires !ReceiptMatches(f.events + [SafeOf(ev, f.seqNo + 1)], ev.digest)
    ensures FoldEvent(f, ev, floor, now) == Stopped(Rejected)
  {
  }

  /** A receipt cannot be projected for an outcome the scan does not reach. */
  lemma ReceiptBeyondScanIsRejected(v: View, page: Page, now: int)
    requires v.proj.Some? ==> v.proj.value.compatible
    requires |v.events| >= SCAN_LIMIT && !Terminal(v.row.state)
    requires forall i | 0 <= i < SCAN_LIMIT :: !IsOutcome(v.events[i])
    requires StartsWithReceipt(v, page)
    ensures Applied(v, page, now) == (v, Rejected)
  {
    var f, ev := Start(v), page.events[0];
    NoOutcomeScanned(v.events, SafeOf(ev, f.seqNo + 1), ev.digest);
    ReceiptStopsFold(f, ev, Floor(v), now);
  }

  /** Checked actions, one after the other. */
  function Quiet(k: nat, n: nat, version: int): seq<RawEvent>
    decreases n - k
  {
    if k >= n then [] else [RawEvent(k, true, Some(ActionChecked), true, 1, version, 0, 0, 0, 0)] + Quiet(k + 1, n, version)
  }

  ghost predicate OnlyQuiet(f: Fold, k: nat) {
    && |f.events| == k && f.seqNo == k && (f.previous.Some? ==> f.previous.value == 1)
    && (forall i | 0 <= i < |f.events| :: f.events[i].id < k && !IsOutcome(f.events[i]))
  }

  lemma {:induction false} QuietFolds(f: Fold, k: nat, n: nat, floor: int, now: int)
    requires k <= n && OnlyQuiet(f, k) && 0 <= floor && 0 <= now
    ensures var g := FoldPage(f, Quiet(k, n, floor), floor, now);
            g.Going? && OnlyQuiet(g.fold, n) && g.fold.row == f.row && g.fold.changed == f.changed
    decreases n - k
  {
    if k < n {
      var ev := RawEvent(k, true, Some(ActionChecked), true, 1, floor, 0, 0, 0, 0);
      var g := FoldEvent(f, ev, floor, now);
      assert g.Going? && g.fold.events == f.events + [SafeOf(ev, f.seqNo + 1)];
      assert OnlyQuiet(g.fold, k + 1);
      QuietFolds(g.fold, k + 1, n, floor, now);
      assert Quiet(k, n, floor)[0] == ev && Quiet(k, n, floor)[1..] == Quiet(k + 1, n, floor);
    }
  }

  lemma QuietPage(v: View, now: int, n: nat) returns (page: Page)
    requires v.proj.None? && v.events == [] && 0 <= v.row.version && 0 <= now && 0 < n
    ensures var v1 := Applied(v, page, now).0;
            && v1.row == v.row && v1.proj.Some? && v1.proj.value.compatible && v1.proj.value.cursor == [0]
            && |v1.events| == n && v1.proj.value.eventSeq == n
            && forall i | 0 <= i < n :: v1.events[i].id < n && !IsOutcome(v1.events[i])
  {
    page := Page(Quiet(0, n, Floor(v)), [0]);
    assert OnlyQuiet(Start(v), 0);
    QuietFolds(Start(v), 0, n, Floor(v), now);
    var g := FoldPage(Start(v), page.events, Floor(v), now).fold;
    assert !g.changed && LexLess([], [0]);
  }

  lemma OutcomePage(v: View, now: int, id: nat) returns (page: Page)
    requires v.proj.Some? && v.proj.value.compatible && v.proj.value.cursor == [0] && 0 <= Floor(v) && 0 <= now
    requires v.row.state.Running? && !Holds(v.events, id)
    ensures var v1 := Applied(v, page, now).0;
            && v1.row.state.OutcomePending? && v1.proj.Some? && v1.proj.value.compatible
            && |v1.events| == |v.events| + 1 && v.events <= v1.events
            && v1.events[|v.events|].kind.RunSucceeded? && v1.events[|v.events|].digest == 1
  {
    var ev := RawEvent(id, true, Some(RunSucceeded), true, 1, Floor(v), 1, 0, 0, 0);
    var evs := [ev];
    page := Page(evs, [1]);
    var g := FoldEvent(Start(v), ev, Floor(v), now);
    assert g.Going? && g.fold.row.state.OutcomePending?;
    assert evs[1..] == [] && FoldPage(Start(v), evs, Floor(v), now) == g;
  }

  /** A run of more than SCAN_LIMIT events loses its receipt: the pass waits
      for the outcome, the outcome is stored last with its digest, and every
      page that starts with a new receipt is rejected. */
  lemma LongRunLosesItsReceipt(v: View, now: int) returns (first: Page, second: Page)
    requires v.proj.None? && v.events == [] && v.row.state.Running? && 0 <= v.row.version && 0 <= now
    ensures var v1 := Applied(Applied(v, first, now).0, second, now).0;
            && v1.row.state.OutcomePending?
            && LastOutcome(v1.events).Some? && LastOutcome(v1.events).value.digest == 1
            && LastOutcome(Scanned(v1.events)).None?
            && forall page: Page, later: int | StartsWithReceipt(v1, page) :: Applied(v1, page, later) == (v1, Rejected)
  {
    first := QuietPage(v, now, SCAN_LIMIT);
    var v0 := Applied(v, first, now).0;
    second := OutcomePage(v0, now, SCAN_LIMIT);
    var v1 := Applied(v0, second, now).0;
    assert v1.events[..|v1.events| - 1] == v0.events;
    assert forall i | 0 <= i < SCAN_LIMIT :: v1.events[i] == v0.events[i];
    LastOutcomeIsLast(Scanned(v1.events));
    forall page: Page, later: int | StartsWithReceipt(v1, page)
      ensures Applied(v1, page, later) == (v1, Rejected)
    {
      ReceiptBeyondScanIsRejected(v1, page, later);
    }
  }

  predicate StartsWithReceipt(v: View, page: Page) {
    page.events != [] && page.events[0].kind == Some(ReadyReceipt) && !Holds(v.events, page.events[0].id)
  }

  // ---- What a page does to the pass --------------------------------------

  /** The effects of the events the fold stores, in order. */
  function Effects(f: Fold, evs: seq<RawEvent>, floor: int, now: int): seq<Effect>
    decreases |evs|
  {
    if evs == [] then []
    else
      match FoldEvent(f, evs[0], floor, now)
      case Stopped(_) => []
      case Going(g) =>
        (if g.stored == f.stored then [] else [EffectOf(g.events[|g.events| - 1], g.events)])
        + Effects(g, evs[1..], floor, now)
  }

  /** The effects of the events stored from position k on, each one judged
      with the events up to it. */
  function StoredEffects(events: seq<SafeEvent>, k: nat): seq<Effect>
    decreases |events| - k
  {
    if k >= |events| then [] else [EffectOf(events[k], events[..k + 1])] + StoredEffects(events, k + 1)
  }

  lemma EventEffects(f: Fold, ev: RawEvent, floor: int, now: int)
    requires FoldEvent(f, ev, floor, now).Going?
    ensures var g := FoldEvent(f, ev, floor, now).fold;
            if g.stored == f.stored then g.events == f.events
            else |g.events| == |f.events| + 1 && f.events <= g.events
  {
  }

  /** The fold's effects are those of the events it stores. */
  lemma {:induction false} EffectsAreStored(f: Fold, evs: seq<RawEvent>, floor: int, now: int)
    requires FoldPage(f, evs, floor, now).Going?
    ensures Effects(f, evs, floor, now) == StoredEffects(FoldPage(f, evs, floor, now).fold.events, |f.events|)
    decreases |evs|
  {
    if evs != [] {
      var g := FoldEvent(f, evs[0], floor, now).fold;
      EventEffects(f, evs[0], floor, now);
      EffectsAreStored(g, evs[1..], floor, now);
      FoldSeesAll(g, evs[1..], floor, now);
      var events := FoldPage(g, evs[1..], floor, now).fold.events;
      if g.stored != f.stored {
        assert events[..|f.events| + 1] == g.events && events[|f.events|] == g.events[|f.events|];
      } else {
        assert [] + Effects(g, evs[1..], floor, now) == Effects(g, evs[1..], floor, now);
      }
    }
  }

  lemma EventFollowsTable(f: Fold, ev: RawEvent, floor: int, now: int)
    requires FoldEvent(f, ev, floor, now).Going?
    ensures var g := FoldEvent(f, ev, floor, now).fold;
            if g.stored == f.stored then g.row.state == f.row.state
            else g.events != [] && StateAfter(f.row.state, EffectOf(g.events[|g.events| - 1], g.events)) == Some(g.row.state)
  {
  }

  lemma PathAfterEffect(from: PassState, effect: Effect, to: PassState, rest: seq<Effect>)
    requires StateAfter(from, effect) == Some(to) && Lifecycle.PagePath(to, rest).Some?
    ensures var path := Lifecycle.PagePath(from, [effect] + rest);
            path.Some? && Lifecycle.Last(from, path.value) == Lifecycle.Last(to, Lifecycle.PagePath(to, rest).value)
  {
    assert ([effect] + rest)[1..] == rest;
  }

  lemma {:induction false} FoldFollowsTable(f: Fold, evs: seq<RawEvent>, floor: int, now: int)
    requires FoldPage(f, evs, floor, now).Going?
    ensures var path := Lifecycle.PagePath(f.row.state, Effects(f, evs, floor, now));
            path.Some? && Lifecycle.Last(f.row.state, path.value) == FoldPage(f, evs, floor, now).fold.row.state
    decreases |evs|
  {
    if evs != [] {
      var g := FoldEvent(f, evs[0], floor, now).fold;
      EventFollowsTable(f, evs[0], floor, now);
      FoldFollowsTable(g, evs[1..], floor, now);
      var rest := Effects(g, evs[1..], floor, now);
      if g.stored != f.stored {
        PathAfterEffect(f.row.state, EffectOf(g.events[|g.events| - 1], g.events), g.row.state, rest);
      } else {
        assert [] + rest == rest;
      }
    }
  }

  /** A page moves the pass as its newly stored events say, along the edges of
      the transition table and never to completed or failed. */
  lemma PageFollowsTable(v: View, page: Page, now: int) returns (effects: seq<Effect>)
    ensures effects == if Applied(v, page, now).1.Stored? then StoredEffects(Applied(v, page, now).0.events, |v.events|) else []
    ensures Lifecycle.PagePath(v.row.state, effects).Some?
    ensures var path := Lifecycle.PagePath(v.row.state, effects).value;
            Lifecycle.Chain(v.row.state, path) && Lifecycle.Last(v.row.state, path) == Applied(v, page, now).0.row.state
    ensures var to := Applied(v, page, now).0.row.state; to.Completed? || to.Failed? ==> to == v.row.state
  {
    effects := [];
    RowAfterPage(v, page, now);
    if Applied(v, page, now).1.Stored? {
      FoldFollowsTable(Start(v), page.events, Floor(v), now);
      effects := Effects(Start(v), page.events, Floor(v), now);
      EffectsAreStored(Start(v), page.events, Floor(v), now);
    }
    Lifecycle.PageChains(v.row.state, effects);
    Lifecycle.NoPageDecides(v.row.state, effects);
  }

  /** The row is written unless no event changed it. */
  lemma {:induction false} UnchangedFoldKeepsRow(f: Fold, evs: seq<RawEvent>, floor: int, now: int)
    requires FoldPage(f, evs, floor, now).Going? && !FoldPage(f, evs, floor, now).fold.changed
    ensures !f.changed && FoldPage(f, evs, floor, now).fold.row == f.row
    decreases |evs|
  {
    if evs != [] {
      UnchangedFoldKeepsRow(FoldEvent(f, evs[0], floor, now).fold, evs[1..], floor, now);
    }
  }

  lemma RowAfterPage(v: View, page: Page, now: int)
    ensures var state := Applied(v, page, now).0.row.state;
            if Applied(v, page, now).1.Stored?
            then FoldPage(Start(v), page.events, Floor(v), now).Going?
                 && state == FoldPage(Start(v), page.events, Floor(v), now).fold.row.state
            else state == v.row.state
  {
    if Applied(v, page, now).1.Stored? && !FoldPage(Start(v), page.events, Floor(v), now).fold.changed {
      UnchangedFoldKeepsRow(Start(v), page.events, Floor(v), now);
    }
  }
}
