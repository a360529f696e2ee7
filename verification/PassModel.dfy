/** The mission-pass lifecycle table (internal/missionpass/model.go). */
module PassModel {
  import opened Base

  datatype PassState =
    | Draft | Approved | Launching | Running | AwaitingExpansion | OutcomePending
    | Completed | Failed | Revoked | Expired

  /** One row of the transition table: the states `from` may move to. */
  function Successors(from: PassState): set<PassState> {
    match from
    case Draft => {Approved, Expired}
    case Approved => {Launching, Revoked, Expired}
    case Launching => {Approved, Running, Revoked, Expired}
    case Running => {AwaitingExpansion, OutcomePending, Revoked, Expired}
    case AwaitingExpansion => {Running, OutcomePending, Revoked, Expired}
    case OutcomePending => {Completed, Failed, Revoked}
    case _ => {}
  }

  predicate Transition(from: PassState, to: PassState) { to in Successors(from) }

  predicate Terminal(s: PassState) { s.Completed? || s.Failed? || s.Revoked? || s.Expired? }

  predicate Revocable(s: PassState) {
    s.Approved? || s.Launching? || s.Running? || s.AwaitingExpansion? || s.OutcomePending?
  }

  /** settleDecision rewrites the row unless it already runs at this version. */
  predicate SettleWrites(pass: PassState, version: int, result: int) { version < result || !pass.Running? }

  /** A state is revocable exactly when the table lets it move to revoked,
      and terminal exactly when the table lets it move nowhere. */
  lemma TableAgreesWithGuards(s: PassState)
    ensures Revocable(s) <==> Transition(s, Revoked)
    ensures Terminal(s) <==> forall to :: !Transition(s, to)
  {
    if !Terminal(s) {
      assert s.OutcomePending? ==> Transition(s, Completed);
      assert !s.OutcomePending? ==> Transition(s, Expired);
    }
  }

  /** The table told by its targets: a pass is approved, launched and run in
      that order, a launch may fall back; a run and its expansion requests
      alternate until the outcome is pending, which alone is completed or
      failed; anything past a draft can be revoked, and anything before the
      outcome can expire.  Nothing leads back to a draft. */
  lemma TableByTargets(from: PassState, to: PassState)
    ensures Transition(from, to) <==>
            match to
            case Draft => false
            case Approved => from.Draft? || from.Launching?
            case Launching => from.Approved?
            case Running => from.Launching? || from.AwaitingExpansion?
            case AwaitingExpansion => from.Running?
            case OutcomePending => from.Running? || from.AwaitingExpansion?
            case Completed => from.OutcomePending?
            case Failed => from.OutcomePending?
            case Revoked => !Terminal(from) && !from.Draft?
            case Expired => !Terminal(from) && !from.OutcomePending?
  {
  }

  // ---- What one projected event does to the state (events.go) -------------

  datatype Effect =
    | RunEnded                        // run succeeded or failed
    | MissionRevoked
    | MissionExpired
    | ExpansionRequested
    | ReceiptReady(matches: bool)     // matches: its digest is that of the projected run outcome
    | NoEffect                        // every other known event type

  /** movePass: the state after the event, or None when the page must fail. */
  function MovePass(from: PassState, to: PassState, fromRunOutcome: bool): Option<PassState> {
    if from == to then Some(from)
    else if fromRunOutcome && from.OutcomePending? then Some(from)
    else if Terminal(from) then Some(from)
    else if Transition(from, to) then Some(to)
    else None
  }

  /** applyEventEffect, as far as the pass state goes. */
  function StateAfter(from: PassState, effect: Effect): Option<PassState> {
    match effect
    case RunEnded => MovePass(from, OutcomePending, true)
    case MissionRevoked => MovePass(from, Revoked, false)
    case MissionExpired => MovePass(from, Expired, false)
    case ExpansionRequested => if from.Running? then MovePass(from, AwaitingExpansion, false) else Some(from)
    case ReceiptReady(matches) =>
      if Terminal(from) then Some(from)
      else if from.OutcomePending? && matches then Some(from)
      else None
    case NoEffect => Some(from)
  }

  /** An event moves a pass along one edge of the table or not at all, never
      to completed or failed, and never out of a terminal state. */
  lemma EventsMoveAlongEdges(from: PassState, effect: Effect)
    requires StateAfter(from, effect).Some?
    ensures var to := StateAfter(from, effect).value;
            && (to == from || Transition(from, to))
            && (to != from ==> to.AwaitingExpansion? || to.OutcomePending? || to.Revoked? || to.Expired?)
            && (Terminal(from) ==> to == from)
  {
  }
}
