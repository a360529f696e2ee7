/** Projection of authoritative event pages into the local timeline of one
    pass: one store transaction per page (internal/missionpass/events.go,
    internal/store/projection_revocation.go). */
module EventProjection {
  import opened Base
  import opened PassModel
  import opened Encoding
  import opened EventCursor

  const CLOCK_SKEW: int := 300_000          // five minutes, in milliseconds
  const SCAN_LIMIT: nat := 10_000

  datatype EventType =
    | MissionStarted | ActionChecked | RequestedExpansion | PullRequestCreated
    | RunSucceeded | RunFailed | ExpiredMission | RevokedMission | ReadyReceipt

  /** An event as the authority sent it.  `kind` is None for an unknown type.
      `wellFormed` stands for the one-branch checks of the payload: size,
      strict decoding, workspace, digest shape and the fixed enums. */
  datatype RawEvent = RawEvent(
    id: nat, idValid: bool, kind: Option<EventType>, wellFormed: bool,
    occurredAt: int, version: int, digest: nat, branch: nat, pullRequest: int, head: nat)

  datatype SafeEvent = SafeEvent(
    id: nat, kind: EventType, occurredAt: int, version: int, digest: nat,
    branch: nat, pullRequest: int, head: nat, cursor: seq<byte>)

  datatype Page = Page(events: seq<RawEvent>, nextCursor: seq<byte>)

  datatype Row = Row(state: PassState, revision: nat, version: int, settled: bool, receiptPending: bool)

  datatype Projection = Projection(cursor: seq<byte>, eventSeq: int, version: int, compatible: bool)

  /** Everything a page can read or write. */
  datatype View = View(row: Row, proj: Option<Projection>, events: seq<SafeEvent>, latched: bool)

  datatype Result = Stored(count: nat) | Rejected | Incompatible

  // ---- One event ---------------------------------------------------------

  datatype Decoded = Safe | UnknownType | Malformed

  /** decodeEvent. */
  function Decode(ev: RawEvent, floor: int, now: int, previous: Option<int>): Decoded {
    if !ev.idValid then Malformed
    else if ev.kind.None? then UnknownType
    else if !ev.wellFormed || ev.occurredAt <= 0 || ev.occurredAt > now + CLOCK_SKEW then Malformed
    else if previous.Some? && ev.occurredAt < previous.value then Malformed
    else if ev.version < 0 || ev.version < floor then Malformed
    else Safe
  }

  predicate IsOutcome(ev: SafeEvent) { ev.kind.RunSucceeded? || ev.kind.RunFailed? }

  function LastOutcome(events: seq<SafeEvent>): Option<SafeEvent>
    decreases |events|
  {
    if events == [] then None
    else if IsOutcome(events[|events| - 1]) then Some(events[|events| - 1])
    else LastOutcome(events[..|events| - 1])
  }

  /** What latestRunOutcome reads: the first SCAN_LIMIT events of the pass. */
  function Scanned(events: seq<SafeEvent>): seq<SafeEvent> {
    if |events| <= SCAN_LIMIT then events else events[..SCAN_LIMIT]
  }

  predicate ReceiptMatches(events: seq<SafeEvent>, digest: nat) {
    var outcome := LastOutcome(Scanned(events));
    outcome.Some? && outcome.value.digest != 0 && outcome.value.digest == digest
  }

  /** The effect of an event just stored at the end of `events`. */
  function EffectOf(ev: SafeEvent, events: seq<SafeEvent>): Effect {
    match ev.kind
    case RunSucceeded => RunEnded
    case RunFailed => RunEnded
    case RevokedMission => MissionRevoked
    case ExpiredMission => MissionExpired
    case RequestedExpansion => ExpansionRequested
    case ReadyReceipt => ReceiptReady(ReceiptMatches(events, ev.digest))
    case _ => NoEffect
  }

  /** The pass row after the effect, or None when the page must fail. */
  function RowAfter(row: Row, effect: Effect): Option<Row> {
    match StateAfter(row.state, effect)
    case None => None
    case Some(to) =>
      if to != row.state then Some(row.(state := to, settled := row.settled || effect.RunEnded?))
      else if effect.ReceiptReady? && row.state.OutcomePending? then Some(row.(receiptPending := true))
      else Some(row)
  }

  // ---- One page ----------------------------------------------------------

  /** The running state of applyPageTx. */
  datatype Fold = Fold(row: Row, events: seq<SafeEvent>, seqNo: int, maxVersion: int, previous: Option<int>, stored: nat, changed: bool)

  datatype Folded = Going(fold: Fold) | Stopped(result: Result)

  predicate Holds(events: seq<SafeEvent>, id: nat) { exists i | 0 <= i < |events| :: events[i].id == id }

  function Max(a: int, b: int): int { if a < b then b else a }

  function SafeOf(ev: RawEvent, seqNo: int): SafeEvent
    requires ev.kind.Some?
  {
    SafeEvent(ev.id, ev.kind.value, ev.occurredAt, ev.version, ev.digest, ev.branch, ev.pullRequest, ev.head, Cursor(seqNo))
  }

  function FoldEvent(f: Fold, ev: RawEvent, floor: int, now: int): Folded {
    match Decode(ev, floor, now, f.previous)
    case UnknownType => Stopped(Incompatible)
    case Malformed => Stopped(Rejected)
    case Safe =>
      var seen := f.(previous := Some(ev.occurredAt), maxVersion := Max(f.maxVersion, ev.version));
      if Holds(f.events, ev.id) then Going(seen)           // already stored: nothing else happens
      else
        var safe := SafeOf(ev, f.seqNo + 1);
        var events := f.events + [safe];
        match RowAfter(f.row, EffectOf(safe, events))
        case None => Stopped(Rejected)
        case Some(row) => Going(seen.(row := row, events := events, seqNo := f.seqNo + 1, stored := f.stored + 1,
                           changed := f.changed || row != f.row))
  }

  function FoldPage(f: Fold, evs: seq<RawEvent>, floor: int, now: int): Folded
    decreases |evs|
  {
    if evs == [] then Going(f)
    else
      match FoldEvent(f, evs[0], floor, now)
      case Going(g) => FoldPage(g, evs[1..], floor, now)
      case Stopped(result) => Stopped(result)
  }

  function ProjOf(v: View): Projection { if v.proj.Some? then v.proj.value else Projection([], 0, 0, true) }

  function Floor(v: View): int { Max(ProjOf(v).version, v.row.version) }

  function Start(v: View): Fold { Fold(v.row, v.events, ProjOf(v).eventSeq, Floor(v), None, 0, false) }

  /** advanceProjection: everything moves upward only. */
  function Advanced(p: Projection, cursor: seq<byte>, seqNo: int, version: int): Projection {
    Projection(if LexLess(p.cursor, cursor) then cursor else p.cursor,
               Max(p.eventSeq, seqNo), Max(p.version, version), true)
  }

  function MarkedIncompatible(v: View): View {
    v.(proj := Some(ProjOf(v).(compatible := false)), latched := true)
  }

  /** ApplyPage: the view afterwards and what the caller is told. */
  function Applied(v: View, page: Page, now: int): (View, Result) {
    if v.proj.Some? && !v.proj.value.compatible then (v, Incompatible)
    else if page.events != [] && page.nextCursor == [] then (v, Rejected)
    else
      match FoldPage(Start(v), page.events, Floor(v), now)
      case Stopped(Incompatible) => (MarkedIncompatible(v), Incompatible)
      case Stopped(_) => (v, Rejected)
      case Going(f) =>
        if f.stored > 0 && page.nextCursor == ProjOf(v).cursor then (v, Rejected)
        else
          (View(if f.changed then f.row.(revision := v.row.revision + 1) else v.row,
                Some(Advanced(ProjOf(v), page.nextCursor, f.seqNo, f.maxVersion)), f.events, v.latched),
           Stored(f.stored))
  }

  // ---- The projector itself ----------------------------------------------

  /** latestRunOutcome's backward scan. */
  method LatestRunOutcome(events: seq<SafeEvent>) returns (r: Option<SafeEvent>)
    ensures r == LastOutcome(events)
  {
    var i := |events|;
    assert events[..i] == events;
    while i > 0
      invariant 0 <= i <= |events|
      invariant LastOutcome(events) == LastOutcome(events[..i])
    {
      i := i - 1;
      if IsOutcome(events[i]) {
        return Some(events[i]);
      }
      assert events[..i + 1][..i] == events[..i];
    }
    return None;
  }

  /** The last outcome really is one, and nothing after it is. */
  lemma {:induction false} LastOutcomeIsLast(events: seq<SafeEvent>)
    ensures match LastOutcome(events)
            case None => forall i | 0 <= i < |events| :: !IsOutcome(events[i])
            case Some(ev) =>
              exists k | 0 <= k < |events| ::
                events[k] == ev && IsOutcome(ev) && forall i | k < i < |events| :: !IsOutcome(events[i])
    decreases |events|
  {
    if events != [] && !IsOutcome(events[|events| - 1]) {
      LastOutcomeIsLast(events[..|events| - 1]);
    }
  }

  class EventProjector {
    var row: Row
    var proj: Option<Projection>
    var events: seq<SafeEvent>
    var latched: bool

    ghost function Contents(): View
      reads this
    {
      View(row, proj, events, latched)
    }

    constructor (row: Row)
      ensures Contents() == View(row, None, [], false)
    {
      this.row, proj, events, latched := row, None, [], false;
    }

    /** putEventIfAbsent's test. */
    method Contains(known: seq<SafeEvent>, id: nat) returns (found: bool)
      ensures found <==> Holds(known, id)
    {
      for i := 0 to |known|
        invariant forall j | 0 <= j < i :: known[j].id != id
      {
        if known[i].id == id {
          return true;
        }
      }
      return false;
    }

    /** applyReceipt looks up the outcome itself. */
    method EffectFor(ev: SafeEvent, stored: seq<SafeEvent>) returns (r: Effect)
      ensures r == EffectOf(ev, stored)
    {
      if !ev.kind.ReadyReceipt? {
        return EffectOf(ev, stored);
      }
      var outcome := LatestRunOutcome(Scanned(stored));
      return ReceiptReady(outcome.Some? && outcome.value.digest != 0 && outcome.value.digest == ev.digest);
    }

    /** The body of applyPageTx's loop. */
    method ApplyEvent(f: Fold, ev: RawEvent, floor: int, now: int) returns (r: Folded)
      ensures r == FoldEvent(f, ev, floor, now)
    {
      var decoded := Decode(ev, floor, now, f.previous);
      if decoded.UnknownType? {
        return Stopped(Incompatible);
      }
      if decoded.Malformed? {
        return Stopped(Rejected);
      }
      var maxVersion := f.maxVersion;
      if ev.version > maxVersion {
        maxVersion := ev.version;
      }
      var seen := f.(previous := Some(ev.occurredAt), maxVersion := maxVersion);
      var known := Contains(f.events, ev.id);
      if known {
        return Going(seen);
      }
      var safe := SafeOf(ev, f.seqNo + 1);
      var stored := f.events + [safe];
      var effect := EffectFor(safe, stored);
      var next := RowAfter(f.row, effect);
      if next.None? {
        return Stopped(Rejected);
      }
      return Going(seen.(row := next.value, events := stored, seqNo := f.seqNo + 1, stored := f.stored + 1,
                         changed := f.changed || next.value != f.row));
    }

    method ApplyPage(page: Page, now: int) returns (r: Result)
      modifies this
      ensures (Contents(), r) == Applied(old(Contents()), page, now)
    {
      if proj.Some? && !proj.value.compatible {
        return Incompatible;
      }
      if page.events != [] && page.nextCursor == [] {
        return Rejected;
      }
      var before := if proj.Some? then proj.value else Projection([], 0, 0, true);
      var floor := if before.version < row.version then row.version else before.version;
      // The transaction works on a copy; returning early rolls it back.
      var f := Fold(row, events, before.eventSeq, floor, None, 0, false);
      var i := 0;
      while i < |page.events|
        invariant 0 <= i <= |page.events|
        invariant Contents() == old(Contents())
        invariant FoldPage(Start(Contents()), page.events, floor, now) == FoldPage(f, page.events[i..], floor, now)
      {
        assert page.events[i..][1..] == page.events[i + 1..];
        var step := ApplyEvent(f, page.events[i], floor, now);
        if step.Stopped? {
          if step.result.Incompatible? {
            proj, latched := Some(before.(compatible := false)), true;
          }
          return step.result;
        }
        f := step.fold;
        i := i + 1;
      }
      if f.stored > 0 && page.nextCursor == before.cursor {
        return Rejected;
      }
      if f.changed {
        row := f.row.(revision := row.revision + 1);
      }
      proj := Some(Advanced(before, page.nextCursor, f.seqNo, f.maxVersion));
      events := f.events;
      return Stored(f.stored);
    }
  }
}
