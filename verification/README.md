# AuthScope OPE: a verified model of the control plane

AuthScope OPE is a local control plane for governed agent runs. A founder
drafts a *mission pass*, approves it with a passkey, launches one run from the
command line, answers expansion requests, may revoke the mission, and finally
receives a signed receipt. Work is split into short store transactions with
upstream calls between them; server requests, command-line retries, a
background worker, offline recovery and crashes interleave freely. This project
models that system in Dafny and proves what its interleavings keep.

Three kinds of model appear.

* **Step machines.** A protocol is a total function `Step(state, action)`: every
  store transaction, every read that a later write relies on, every upstream
  call and every change of process memory is one atomic step, and an action
  that is not enabled leaves the state alone. A run is therefore *any* sequence
  of actions, which covers all interleavings, retries, crashes and upstream
  answers, and theorems quantify over all runs. Bookkeeping (what was called,
  what was recorded, where the right to launch is) is read by no guard except
  to keep random identifiers fresh.
* **Classes.** What the source edits in place (the exchange tables, the event
  projector, the bounded caches over Go slices, ceremonies, nonces, the rate
  limiter, the worker's backoff) is a class whose methods are proved equal to a
  specification function, and the theorems are about those functions.
* **Encodings and loops** with exact meaning: canonical approval bytes,
  sealed-envelope data, event cursors, the event fold, and the receipt binding.

SHA-256 is injective, so a digest is modelled by what it covers; Ed25519, X25519
and WebAuthn answers are parameters of the steps that use them; identifiers are
natural-number tokens, 0 standing for the empty string. Store transactions are
atomic and serializable. Clocks are parameters.

| file | models |
|---|---|
| `PassModel.dfy` | the lifecycle table and what one event does to a pass |
| `LaunchStore.dfy`, `LaunchMachine.dfy` | exchange rows and their conditional writes; browser decision and code exchange over many processes |
| `LaunchSafety.dfy`, `LaunchOutcomes.dfy`, `LaunchResults.dfy` | one call per code and ceremony; rows settle once and count launches; one result per code |
| `LaunchPaths.dfy`, `LaunchAnswers.dfy`, `LaunchOrphans.dfy` | the exact outcome of one decision and one exchange; which requests get a sealed result, and the exact condition for all of them to prove their verifier |
| `Lifecycle.dfy` | every transaction that writes a pass state, and receipt verdicts |
| `DecisionProtocol.dfy`, `DecisionOutcomes.dfy`, `DecisionAnswers.dfy` | revocation and expansion decisions, their intents and locks; what a run's intents, rows and calls go back to, when an intent can still complete, and what the upstream's answers make of it |
| `Enrollment.dfy`, `EnrollmentSafety.dfy`, `RecoveryPaths.dfy` | bootstrap codes, founders, and resumable offline recovery; what is behind every reset |
| `Encoding.dfy`, `CanonicalBytes.dfy` | numerals, cursors, approval bytes, envelope bytes |
| `EventProjection.dfy`, `ProjectionSafety.dfy`, `EventMoves.dfy` | the event-page transaction, what sequences of pages keep, and what a page does told by its events |
| `SortedCopies.dfy`, `ReceiptBinding.dfy` | the local binding of a receipt and its check |
| `RequestKeys.dfy` | idempotency keys of draft opens |
| `BoundedCache.dfy`, `OneUse.dfy` | attestation and delivery caches; ceremonies and nonces |
| `RateLimiter.dfy`, `Backoff.dfy` | the fixed-window limiter; the worker's retry delay |

## Where the code and its documentation part

The model follows the code. Each point is a theorem with the exact condition or
a concrete counterexample.

* `settleDecision` writes `running` from any state
  (internal/expansion/service.go:748-760), so a revoked or completed pass can run
  again although terminal states are documented as final. A run follows the
  transition table exactly when no approved expansion settles outside launching,
  running and awaiting-expansion (`Lifecycle.RunFollowsTableUnlessOverride`,
  `Lifecycle.RevokedPassRunsAgain`). The override needs a pass that something
  outside the modelled services has put into running, as the next point says.
* No transaction of the modelled services moves a launching pass to running, so
  from a new draft exactly draft, approved, launching and revoked are reached
  (`Lifecycle.DraftReachesExactly`), and from there every run follows the table,
  terminal states are absorbing and no verdict is stored
  (`Lifecycle.DraftFollowsTable`).
* Opening the pending list, in any pass state, resolves each local pending
  expansion that the upstream no longer lists as pending
  (internal/expansion/service.go:168-185, 279-310) and touches neither intent nor
  pass. A decision applied upstream whose answer was lost therefore strands its
  intent: settling it conflicts on the resolved row and rolls back, in every later
  run. An intent in flight can still complete exactly when its row is not
  resolved (`DecisionOutcomes.ListingStrandsIntent`,
  `DecisionOutcomes.CompletesExactlyWhenPending`). A decision is begun on a running
  or awaiting pass only, so this too needs a pass put into running from outside
  the modelled services.
* Writing a revocation or expansion intent replaces one that is in flight
  (internal/store/projection_revocation.go:351-387,
  internal/store/projection_expansion.go:181-218); the conflict its callers expect
  is reported only for completed intents. One upstream call per subject rests on
  the in-process locks together with the exclusive lock on the data directory
  (`DecisionProtocol.AtMostOneCallExactlyWhenExclusive`), and so does the
  agreement of a settled expansion row with the decision in its intent
  (`DecisionOutcomes.RowsAgreeExactlyWhenExclusive`).
* A request that finds its code in flight adopts and returns what the upstream
  lookup finds without looking at its PKCE verifier
  (internal/launch/service.go:578-600), although a retry is documented to prove
  the original verifier. Every sealed result goes to a request that proved it, in
  every run, exactly when no such request adopts anything
  (`LaunchAnswers.ResultsGoToProvers`, `LaunchOrphans.AllProveExactlyWithoutAdoption`).
* `EnsureBootstrapCode` counts founders outside the transaction that writes the
  code. Founders plus unconsumed codes stay at most one exactly when no code is
  written over an enrolled founder, which the exclusive lock and the start-up
  order guarantee (`EnrollmentSafety.OneOpeningUnlessStale`,
  `EnrollmentSafety.OneOpeningExactlyWhenExclusive`).
* A dangling request key is deleted by key alone, so two reclaimers can open two
  drafts although the key is documented to exclude that
  (internal/missionpass/proposal.go:283-288). One key opens at most one draft in
  every run whose claim ages stay below a bound exactly when the bound is at most
  ten minutes, the age at which a claim counts as dangling
  (`RequestKeys.OneDraftExactlyWhileYoung`, `RequestKeys.TwoReclaimersOpenTwoDrafts`).
* Cursor strings of two negative sequence numbers compare the other way round
  (`EventCursor.CursorOrder`); the projector never makes one.
* `latestRunOutcome` reads the first 10000 events of a pass, not the last, so it
  finds the latest outcome exactly when none lies beyond them
  (`ProjectionSafety.ScanFindsLatestUnlessBeyond`). A run with 10000 events before
  its outcome waits for a receipt that no page can deliver
  (`ProjectionSafety.LongRunLosesItsReceipt`). The receipt binding is rebuilt under
  the same limit (internal/receipt/service.go:87): a receipt that claims what all
  the events say passes its check exactly when the events beyond the limit repeat
  what the scan finds (`ReceiptBinding.TrueReceiptAcceptedUnlessLate`), and the
  verdict is final either way. The runs again start from a pass put into running
  from outside the modelled services.
* The rate limiter admits at most 2·limit − 1 requests in any closed interval as
  long as its window, and that many are reached (`RateLimiter.IntervalAdmitsAtMost`,
  `RateLimiter.BoundIsReached`).

## Model

| member | source | states |
|---|---|---|
| PassModel.TableAgreesWithGuards | internal/missionpass/model.go:101-139 | revocable is exactly "the table allows a move to revoked"; terminal exactly "the table allows no move" |
| PassModel.TableByTargets | internal/missionpass/model.go:101-160 | the transition table told by its targets: which states lead to each state, for every pair |
| PassModel.EventsMoveAlongEdges | internal/missionpass/events.go:588-669 | a projected event moves a pass along one edge or not at all, never to completed or failed, never out of a terminal state |
| LaunchStore.LaunchTables.Claim | internal/store/launch_exchange.go:35-58 | a claim inserts an in-flight row exactly when the code has none, and rejects empty identifiers |
| LaunchStore.LaunchTables.Settle | internal/store/launch_exchange.go:87-109 | only an in-flight row settles, once, to completed, failed or expired; anything else leaves the table unchanged |
| LaunchStore.LaunchTables.PutPass | internal/store/sqlite.go:902-1005 | compare-and-swap on the store revision: update at the expected revision, insert at zero, conflict otherwise |
| LaunchStore.LaunchTables.Adopt | internal/launch/service.go:523-546 | the launching pass and the completed row are written together exactly when binding, revision and row allow it, or neither is |
| LaunchSafety.StepKeepsInv | internal/launch/service.go:227-600 | every step of any process keeps the placement invariant: each challenge is in exactly one ceremony, request, cache or call |
| LaunchSafety.PrepareLaunchAtMostOnce | internal/launch/service.go:227-283 | in every run, two PrepareLaunch calls differ in code, authorization and challenge |
| LaunchSafety.ClaimProvesVerifier | internal/launch/service.go:352-383 | a code is claimed only for the authorization it was minted for, by a request that proved its PKCE verifier; the row carries that authorization, pass and attestation |
| LaunchSafety.OnlyConsumptionCloses | internal/authn/passkey.go:532-630 | a challenge leaves process memory only by its own verified consumption, over the claims of the authorization as created, and never returns |
| LaunchSafety.EveryCallWasDecided | internal/authn/pkce.go:593-738 | every PrepareLaunch was preceded by the verified consumption of its own challenge over exactly the authorization as created, and carries its kit, mission, ephemeral key and code |
| LaunchSafety.OneConsumptionPerChallenge | internal/authn/passkey.go:609-630 | no challenge is consumed twice in any run |
| LaunchOutcomes.StepWrites | internal/launch/service.go:411-608 | every step of the protocol writes rows and passes in one of five ways: not at all, a foreign pass write, a claim, a settlement without artifacts, or one adoption of the pass the row names |
| LaunchOutcomes.RowsSettleOnce | internal/store/launch_exchange.go:43-107 | until recovery deletes it, a row keeps its identity, leaves in-flight at most once and never changes again |
| LaunchOutcomes.LaunchCompletesOneRow | internal/launch/service.go:523-546 | a move from approved to launching completes exactly one row of that pass and writes the same run ID to both; every other step completes none |
| LaunchOutcomes.CompletedRowsCountLaunches | internal/launch/service.go:499-550 | for each pass, completed rows grow by exactly the number of approved-to-launching moves |
| LaunchResults.RunAgrees | internal/launch/service.go:556-632 | with an idempotent authority, every artifact in flight, cached delivery, result and completed row agrees with the authority's one answer for the code |
| LaunchResults.OneResultPerCode | internal/launch/service.go:333-346 | any two successful exchanges of one code return the same run, mission and sealed envelope, and those the completed row recorded |
| LaunchPaths.DecisionOutcome | internal/authn/pkce.go:629-745 | the exact outcome of a browser decision nothing interrupts: approved with its code and attested exactly when authorization, pass, ceremony and assertion are good at every reading, else undecided |
| LaunchPaths.ExchangeOutcome | internal/launch/service.go:227-546 | the exact outcome of an exchange of a fresh code nothing interrupts, clause by clause: nothing changes unless it is admitted; else one call at most, and the row completed with the pass launched and the result returned, or failed |
| LaunchPaths.ReplayOutcome | internal/launch/service.go:311-346 | a request on a completed code gets the sealed result exactly when the row is at most ten minutes old, its verifier answers the challenge and the result can still be had; rows, passes and calls stay |
| LaunchPaths.ResumeOutcome | internal/launch/service.go:578-603 | a request on a code in flight expires an old row; on a young one it adopts exactly what can be launched, fails what cannot, and leaves everything when nothing is found; it never calls |
| LaunchPaths.LoserFollows | internal/launch/service.go:267-283 | a request that loses the claim leaves the winner's row alone and goes on with it |
| LaunchAnswers.ResultsGoToProvers | internal/launch/service.go:320-346 | in every run each sealed result is the answer to a request whose verifier answers the challenge of the authorization the code was minted for, or that adopted a lookup for a code in flight |
| LaunchOrphans.AllProveExactlyWithoutAdoption | internal/launch/service.go:572-600 | "every sealed result goes to a request that proved the verifier, in every run" holds if and only if requests on a code in flight find nothing to adopt |
| Lifecycle.StepIsEdgeUnlessOverride | internal/expansion/service.go:748-760 | a transaction moves the pass along edges of the table exactly when it is not an approved expansion settling outside launching, running and awaiting-expansion |
| Lifecycle.RunFollowsTableUnlessOverride | internal/missionpass/model.go:101-160 | the same over whole runs mixing approval, launch, events, revocation, receipts and expansions, in both directions |
| Lifecycle.TerminalIsAbsorbing | internal/missionpass/model.go:146-160 | in those runs a terminal pass never changes state |
| Lifecycle.RevokedPassRunsAgain | internal/expansion/service.go:732-760 | the concrete run, from a running pass that no run from a new draft reaches, in which a revoked pass runs again |
| Lifecycle.FirstVerdictWins | internal/receipt/service.go:388-417 | once stored, the verdict of a pass never changes in any run |
| Lifecycle.OnlyVerifiedReceiptDecides | internal/receipt/service.go:411-444 | a step that completes or fails the pass is the commit of its first verdict, a verified one with that outcome, on an outcome-pending pass |
| Lifecycle.VerdictDecidesOutcome | internal/receipt/service.go:295-460 | over all runs completed (failed) implies a verified success (failure), and an unverifiable verdict excludes both forever |
| Lifecycle.VerdictDecidesAtOnce | internal/receipt/service.go:411-444 | the commit of a verdict on a waiting pass completes it for a verified success, fails it for a verified failure, and moves nothing otherwise |
| Lifecycle.VerifiedPassHasEnded | internal/receipt/service.go:295-460 | in runs without an override, a pass with a stored verified verdict has ended and stays as it is: none waits for an outcome it has |
| Lifecycle.TerminalLeftExactlyByOverride | internal/expansion/service.go:748-760 | a step takes a pass out of a terminal state exactly when it is an override |
| Lifecycle.ReceiptOutcome | internal/receipt/service.go:295-444 | from the loaded receipt to its verdict with nothing in between: exactly a waiting pass without a verdict is decided |
| Lifecycle.ExpansionOutcome | internal/expansion/service.go:741-776 | a decision begun and settled on the same pass runs it at the new version exactly when approved, still pending and not yet seen |
| Lifecycle.PollOutcome | internal/reconcile/worker.go:275-300 | exactly running, awaiting and waiting passes are polled, and take a page whole or not at all |
| Lifecycle.StaleTaskWritesNothing | internal/missionpass/approval.go:495-539 | an approval or revision whose row was written since it was loaded writes nothing |
| Lifecycle.NoApprovalWithoutDraftLoaded | internal/missionpass/approval.go:545-627 | without a request that loads the draft a new draft is never approved |
| Lifecycle.DraftReachesExactly | internal/missionpass/approval.go:495-539 | from a new draft exactly draft, approved, launching and revoked are reached |
| Lifecycle.DraftFollowsTable | internal/missionpass/model.go:101-160 | from a new draft every run follows the table, terminal states are absorbing and no verdict is ever stored, without any condition |
| DecisionProtocol.CallsAtMostOneMoreThanOverwrites | internal/store/projection_revocation.go:351-387 | in every run the upstream calls for a subject are at most one plus the in-flight intents overwritten for it |
| DecisionProtocol.AtMostOneCall | internal/missionpass/revoke.go:461-539 | with exclusive processes, each mission is revoked upstream and each expansion decided upstream at most once, over all finishes, sweeps and crashes |
| DecisionProtocol.TwoProcessesCallTwice | internal/expansion/service.go:604-676 | without the exclusive lock two processes call twice for one subject |
| DecisionProtocol.AtMostOneCallExactlyWhenExclusive | internal/store/sqlite.go:88-141 | for every mission and expansion, "at most one call in every run" holds if and only if the processes open the data directory exclusively |
| DecisionProtocol.NoCallWithoutIntent | internal/missionpass/revoke.go:500-526 | in every run each call's intent was stored before it |
| DecisionProtocol.RevocationSettlesTogether | internal/missionpass/revoke.go:596-617 | the step that completes the revocation intent leaves the pass revoked, from a state that allows it, in one write |
| DecisionProtocol.ExpansionSettlesTogether | internal/expansion/service.go:732-776 | the step that completes an expansion's intent resolves its pending row as the settling decision says; a denial writes no part of the pass row, an approval leaves the pass running past the expected version |
| DecisionProtocol.ResolvedWithoutIntentExactlyByListing | internal/expansion/service.go:279-310 | a step resolves an expansion without completing its intent exactly when it is the sync from the upstream's listing; the row then takes the listed status, and nothing else changes |
| DecisionOutcomes.ResolvedFirstNeverCompletes | internal/store/projection_expansion.go:159-177 | once a row is resolved without its intent, the intent completes in no later run |
| DecisionOutcomes.CompletesExactlyWhenPending | internal/store/projection_expansion.go:159-177 | some run, of exclusive processes from any state they reach or of shared ones from any state, completes an intent in flight if and only if its row is not resolved |
| DecisionOutcomes.ListingStrandsIntent | internal/expansion/service.go:168-185 | with one exclusive server: the call is applied, its answer is lost, the pending list is opened, and the row is approved beside an intent that never completes and an unchanged pass state |
| DecisionOutcomes.NoDecisionWithoutFinish | internal/expansion/service.go:441-578 | in every run each call and each stored intent goes back to a ceremony finished in that run, for the same subject and, for the intent, with the same decision and digest |
| DecisionOutcomes.RowsAgreeExactlyWhenExclusive | internal/expansion/service.go:766-774 | "a settled row says what its completed intent decided, in every run" holds if and only if the processes open the data directory exclusively |
| DecisionOutcomes.EveryResolutionHasItsSource | internal/expansion/service.go:279-310 | an expansion resolved in a run has the verdict of a ceremony finished in that run or the status a listing of the upstream gave it |
| DecisionOutcomes.EveryRevocationHasItsFinish | internal/missionpass/revoke.go:596-617 | a pass revoked in a run, not by a write from elsewhere, was revoked by a ceremony finished in that run |
| DecisionAnswers.NoCompletionWithoutAnswer | internal/missionpass/revoke.go:662-664 | in every run an intent completes only after a positive answer, to a call or a lookup, for its subject; an approval is stored with that answer's version |
| DecisionAnswers.AnswerOutcome | internal/expansion/service.go:665-682 | an answer that is not positive ends the request with the store unchanged |
| DecisionAnswers.ReconcileOutcome | internal/expansion/service.go:789-881 | a reconciliation settles an intent in flight, as that intent decided, exactly when the upstream operation is completed; it never calls, and else changes nothing |
| DecisionAnswers.DecisionOutcome | internal/expansion/service.go:604-683 | the exact outcome of a decision nothing interrupts: the first stores its intent, calls once and settles on a positive answer; a repetition looks up; anything else changes nothing |
| DecisionAnswers.OneAtATime | internal/expansion/service.go:604-607 | with exclusive processes, in every run at most one request for a subject is between taking the lock and releasing it |
| DecisionProtocol.SettledIsFinal | internal/store/projection_expansion.go:162-311 | completed intents and resolved expansions never change again |
| EnrollmentSafety.StepOpensOneUnlessStale | internal/authn/bootstrap.go:94-120 | a step breaks "founders plus unconsumed codes at most one" exactly when it writes a code over an enrolled founder |
| EnrollmentSafety.OneOpeningUnlessStale | internal/authn/bootstrap.go:94-120 | the same over whole runs of issue, ceremonies, completion and recovery, in both directions |
| EnrollmentSafety.ExclusiveRunsKeepOneOpening | internal/store/sqlite.go:107-141 | with exclusive processes and the start-up order the bound holds in every run |
| EnrollmentSafety.SharedServersReopenEnrollment | internal/authn/bootstrap.go:94-120 | two servers sharing the directory reach a founder and an open code at once |
| EnrollmentSafety.OneOpeningExactlyWhenExclusive | internal/store/sqlite.go:88-141 | the bound holds in every run if and only if the processes open the data directory exclusively |
| EnrollmentSafety.CompletionTradesCodeForFounder | internal/authn/bootstrap.go:304-341 | completing enrollment consumes exactly the code that pays for the founder it creates |
| EnrollmentSafety.CommitTradesFounderForCode | internal/recovery/service.go:620-662 | the reset transaction never leaves more ways in than there were |
| EnrollmentSafety.RecoveryRunsInOrder | internal/store/recovery.go:204-231 | in every run each recovery key's intent is recorded pending, contained, verified-empty and completed in that order and once each |
| EnrollmentSafety.RecoveryIsAllOrNothing | internal/recovery/service.go:610-672 | a recovery step changes sessions, passkeys, founder, key, handoffs, codes or events only by completing the intent from verified-empty, and then resets all of them and leaves one code |
| RecoveryPaths.EveryCommitWasProved | internal/recovery/service.go:283-294 | in every run a completed recovery is the commit of a reset that presented exactly the key stored for the founder it removes, after a stored attestation, an acknowledged containment and an empty list for its key |
| RecoveryPaths.WrongKeyEndsReset | internal/recovery/service.go:290-294 | a reset that presents any other key ends there with store, intents and journal unchanged |
| RecoveryPaths.ResetOutcome | internal/recovery/service.go:234-458 | the exact outcome of a reset nothing interrupts, from wherever an earlier one left its intent |
| RecoveryPaths.EnrollmentOutcome | internal/authn/bootstrap.go:125-341 | a founder is enrolled exactly when none is and the code is unconsumed and unexpired at both readings; exactly what is written then |
| RecoveryPaths.EndedSessionsStayEnded | internal/recovery/service.go:610-672 | a session that recovery ended stays ended in every run that does not mint its identifier again |
| RecoveryPaths.StartOutcome | internal/authn/bootstrap.go:94-120 | a starting process offers one code exactly when it counts no founder |
| EventCursor.CursorOrder | internal/missionpass/events.go:347-349 | cursor strings compare as their int64 numbers do unless both are negative, then the other way round; equal strings mean equal numbers |
| CanonicalBytes.Buffer.WriteField | internal/missionpass/model.go:166-171 | appends the eight-byte big-endian length and the field |
| CanonicalBytes.CanonicalApprovalBytes | internal/missionpass/model.go:183-195 | the buffer ends up holding the domain and the eight length-prefixed fields in order |
| CanonicalBytes.ApprovalRoundTrip | internal/missionpass/model.go:173-195 | decoding the bytes recovers all eight fields, the decimal draft version included |
| CanonicalBytes.ApprovalBytesInjective | internal/missionpass/model.go:173-195 | two records share their bytes only if they are equal |
| CanonicalBytes.SealAadInjective | internal/launch/envelope.go:218-230 | the additional data determines key ID, ephemeral key and nonce for arbitrary key IDs |
| CanonicalBytes.DomainsSeparate | internal/launch/envelope.go:134-137 | approval bytes, signed messages and seal data never coincide; a signed message determines its payload |
| EventProjection.LatestRunOutcome | internal/missionpass/events.go:672-688 | the backward scan finds the last run outcome |
| EventProjection.LastOutcomeIsLast | internal/missionpass/events.go:672-688 | that outcome is one, and no later event is |
| EventProjection.EventProjector.ApplyEvent | internal/missionpass/events.go:267-313 | one turn of the page loop: decode, insert if new, apply the effect, or stop |
| EventProjection.EventProjector.ApplyPage | internal/missionpass/events.go:214-343 | the whole transaction with its rollback and incompatibility latch |
| ProjectionSafety.PageKeepsTimeline | internal/missionpass/events.go:255-326 | one page keeps the timeline, only appends, and appends nothing older than what is stored |
| ProjectionSafety.TimelineIsExact | internal/missionpass/events.go:283-326 | after any pages the events carry exactly cursors 1 to EventSeq, no ID twice, and string order is storage order |
| ProjectionSafety.LaterPagesAreNotOlder | internal/missionpass/events.go:255-279 | every event of a later page has at least the mission version of every event of an earlier one |
| ProjectionSafety.ApplyingTwiceIsApplyingOnce | internal/missionpass/events.go:241-326 | applying a page again leaves events, pass and projection as after the first time, accepted or rejected |
| ProjectionSafety.UnknownTypeStoresNothing | internal/missionpass/events.go:267-313 | a page with an unknown type anywhere stores no event, leaves the pass row alone and moves no cursor |
| ProjectionSafety.LatchesExactlyAtUnknown | internal/missionpass/events.go:226-237 | a page latches a compatible projection exactly when it names its next cursor and the first event that stops it is of an unknown type; a malformed or illegal event before that rejects it and changes nothing |
| ProjectionSafety.LatchedStaysPut | internal/missionpass/events.go:250-252 | once latched, no later page changes projection, events or pass |
| ProjectionSafety.ScanFindsLatestUnlessBeyond | internal/missionpass/events.go:672-688 | the bounded scan finds the latest outcome exactly when no outcome lies beyond the bound |
| ProjectionSafety.ReceiptBeyondScanIsRejected | internal/missionpass/events.go:640-669 | with no outcome among the scanned events, every page that starts with a new receipt for a pass that is not terminal is rejected |
| ProjectionSafety.LongRunLosesItsReceipt | internal/missionpass/events.go:672-688 | two pages take a running pass to outcome-pending with its outcome just beyond the bound, after which every such receipt page is rejected |
| ProjectionSafety.PageFollowsTable | internal/missionpass/events.go:588-669 | a stored page moves the pass by the effects of exactly the events it newly stored, each judged with the events up to it, along edges and never to completed or failed; any other page moves it not at all |
| EventMoves.StoredOnlySound | internal/missionpass/events.go:355-403 | a stored page holds only known, well-formed events in order, not from the future and not below the version floor; quiet events are stored whenever they are so |
| EventMoves.StoredAsSent | internal/missionpass/events.go:266-303 | the new events are field-by-field copies of events of the page, under their places in the timeline, and every event of the page is there |
| EventMoves.PageMovesByKinds | internal/missionpass/events.go:588-669 | by the kinds of the newly stored events alone: when the pass is revoked, expired, waiting for its outcome or awaiting an expansion, when it stays, and when reconciliation and receipt are noted |
| EventMoves.OneEventPage | internal/missionpass/events.go:614-669 | a page of one event is stored exactly when the event is sound and known already or accepted in the state the pass is in |
| EventMoves.StoredProgress | internal/missionpass/events.go:320-326 | a stored page moves the projection to its cursor unless that is behind, and to the greatest version of its own, the pass's and the events' |
| EventMoves.ProjectionNeverGoesBack | internal/store/projection_revocation.go:104-137 | no sequence of pages and foreign writes takes cursor, sequence number or version back |
| SortedCopies.EqualSets | internal/receipt/verify.go:223-253 | comparing sorted copies is exactly multiset equality |
| ReceiptBinding.LatestIsLatest | internal/receipt/service.go:108-116 | the binding's value comes from an event that carries it, and no later event carries one |
| ReceiptBinding.ScanEvents | internal/receipt/service.go:87-117 | the newest-first walk yields outcome, branch, pull request and head SHA of the latest event carrying each, and the distinct positive versions |
| ReceiptBinding.CollectRefs | internal/receipt/service.go:122-134 | the decision references of the pass, distinct, non-empty, in increasing order |
| ReceiptBinding.OutcomeByKinds | internal/receipt/service.go:100-108 | the binding's outcome is success (failure) exactly when the last event that ends the run is of that kind |
| ReceiptBinding.BuildBinding | internal/receipt/service.go:77-144 | the rebuilt binding, versions strictly increasing |
| ReceiptBinding.BindingIsWholeUnlessLate | internal/receipt/service.go:87-118 | the rebuilt binding is the one over all events exactly when the events beyond the limit bring no new version and their latest outcome, branch, pull request and head repeat what the scan finds |
| ReceiptBinding.TrueReceiptAcceptedUnlessLate | internal/receipt/verify.go:186-221 | a payload that claims what all events and decisions say is accepted against the rebuilt binding exactly under that condition |
| ReceiptBinding.LateOutcomeFailsItsReceipt | internal/receipt/service.go:87-104 | with the run outcome beyond the limit, the payload that is right about all events is refused |
| ReceiptBinding.BindingIsUnique | internal/receipt/service.go:118-121 | the order in which the map yields its keys does not matter |
| ReceiptBinding.CheckBinding | internal/receipt/verify.go:186-221 | accepts exactly the payloads equal to the binding with both lists equal up to order |
| ReceiptBinding.ClausesHoldForPermutations | internal/receipt/verify.go:199-204 | against a rebuilt binding the list clauses hold exactly for permutations of the distinct projected versions and references |
| RequestKeys.HeldThroughoutUnlessStolen | internal/missionpass/proposal.go:289-342 | all through a run the stored pass and every live owner hold the key, exactly when no claim in use is deleted |
| RequestKeys.OneDraftPerKey | internal/missionpass/proposal.go:163-193 | unless a claim in use is deleted, one key stores at most one pass and every successful open returns it |
| RequestKeys.NeverDanglingNeverSteals | internal/missionpass/proposal.go:183-193 | releases after failure never delete a claim in use as long as no claim is found dangling |
| RequestKeys.OneDraftWhileClaimsAreYoung | internal/missionpass/proposal.go:289-342 | in every run in which no claim reaches the ten-minute age, one key opens at most one draft |
| RequestKeys.TwoReclaimersOpenTwoDrafts | internal/missionpass/proposal.go:319-324 | from the empty state: an owner claims and dies, two attempts find its claim ten minutes old, and both store a draft |
| RequestKeys.OneDraftExactlyWhileYoung | internal/missionpass/proposal.go:289-342 | "one key stores at most one pass, in every run whose claim ages read are below the bound" holds if and only if the bound is at most the dangling age |
| RequestKeys.OpenOutcome | internal/missionpass/proposal.go:289-342 | the exact outcome of an open nothing interrupts: the stored pass, a refusal while the claim is younger than ten minutes, or a new pass stored or released |
| RequestKeys.LoserOutcome | internal/missionpass/proposal.go:331-342 | an attempt that lost the claim returns the winner's stored pass or nothing |
| BoundedCache.Slice.Append | internal/authn/pkce.go:811-813 | append in place or into a grown backing array |
| BoundedCache.Slice.RemoveAt | internal/authn/pkce.go:832-837 | the in-place shift removes exactly one key |
| BoundedCache.Cache.Put | internal/authn/pkce.go:805-820 | a known ID keeps its place, a new one goes last, only the oldest makes room |
| BoundedCache.Cache.Take | internal/authn/pkce.go:824-842 | the entry is removed, and returned unless expired |
| BoundedCache.Cache.EvictExpired | internal/authn/pkce.go:845-857 | the in-place filter keeps exactly the live entries in order |
| BoundedCache.Cache.Recall | internal/launch/service.go:625-630 | returns the entry without removing it |
| BoundedCache.MatchingListIsDistinct | internal/authn/pkce.go:793-797 | under the invariant every operation keeps, the list has distinct IDs, exactly the map's keys |
| BoundedCache.OneTakePerPut | internal/authn/pkce.go:822-842 | between two Puts of an ID at most one Take of it succeeds |
| BoundedCache.ListStaysBounded | internal/launch/service.go:611-623 | every operation keeps at most the bound of distinct entries, and what was put is found |
| OneUse.Ceremonies.Consume | internal/authn/passkey.go:609-630 | a live ceremony of the right kind is taken and gone, an expired one is gone, any other stays; the consumed answer never occurs |
| OneUse.Ceremonies.FinishDecision | internal/authn/passkey.go:532-583 | the ceremony is used up before binding, freshness and assertion are judged |
| OneUse.OneDecisionPerChallenge | internal/authn/passkey.go:532-630 | after any finish reached a challenge none does again, and a finish decides only over exactly the begun decision, unexpired |
| OneUse.DecidesExactly | internal/authn/passkey.go:532-630 | over any operations: a finish decides exactly when its challenge was begun for this decision and not touched since, is unexpired, the login is at most five minutes old and the assertion verified |
| OneUse.NonceCache.CheckAndAdd | internal/launch/envelope.go:252-260 | reports whether the nonce is new and remembers it |
| OneUse.FirstUseOnly | internal/launch/envelope.go:252-260 | in any list of nonces exactly the first showing of each is accepted |
| RateLimiter.Limiter.Allow | internal/httpapi/ratelimit.go:38-52 | one request against the window of its key |
| RateLimiter.IntervalAdmitsAtMost | internal/httpapi/ratelimit.go:38-52 | for any nondecreasing clock a closed interval as long as the window admits at most 2·max(limit, 1) − 1 requests per key |
| RateLimiter.BoundIsReached | internal/httpapi/ratelimit.go:38-52 | that many are reached, for every limit and window length of at least one |
| Backoff.DelayIsCappedDoubling | internal/reconcile/worker.go:499-502 | the wrapping shift and its guard give min(30 s · 2^(n−1), 10 min) for every n ≥ 1 |
| Backoff.Worker.NoteFailure | internal/reconcile/worker.go:494-504 | counts the failure and sets that deadline |
| Backoff.Worker.ClearFailure | internal/reconcile/worker.go:506-511 | forgets the count and the deadline of the pass and nothing else |
| Backoff.Worker.Poll | internal/reconcile/worker.go:275-300 | the sweep skips unreconcilable, waiting and incompatible passes and records what became of the others |
| Backoff.CountIsStreak | internal/reconcile/worker.go:494-511 | the worker's counter is the number of consecutive failed polls |
| Backoff.NextPollWaits | internal/reconcile/worker.go:281-299 | after the k-th consecutive failure the pass is not polled before min(30 s · 2^(k−1), 10 min) has passed |
| Backoff.PolledExactly | internal/reconcile/worker.go:275-300 | from a fresh worker a pass is polled exactly when it can be reconciled, was never found incompatible, and its capped doubling delay since the last failure is over |

## Left out

- HTTP handlers, cookies, the single-page app, terminal prompts, loopback servers, the runner process, doctor checks, configuration and telemetry: plumbing and I/O.
- The AuthScope client, JSON and YAML decoding, SQL text and time formatting: foreign code; decoded values are datatypes.
- Cryptography: digests are modelled by what they cover, signatures and WebAuthn assertions by the answers of the steps that check them, and the S256 challenge check by equality.
- One-branch validators (shape of drafts, payload fields, claims, hostnames): they appear as one flag where a step depends on them.
- Services as objects: the launch, approval, revocation, expansion, receipt, recovery, enrollment and proposal services are step machines over values; what this does not capture is the order of statements inside one transaction where it cannot be observed.
- The in-process stripe lock on codes: leaving it out only adds interleavings.
- LaunchMachine lets any other service rewrite a pass in any way except from approved to launching, which no other code does; pass rows are not tied to the lifecycle there.
- Lifecycle.RunFollowsTableUnlessOverride: adoption is guarded by the approved state alone and revocation settles at any time, which allows more runs than the code does.
- Approval at most once upstream: approveOnce goes on after an unfinished replay, and ReconcileApproval rebuilds the binding from the current row, so that property rests on the upstream's deduplication.
- DecisionProtocol.AtMostOneCall: stated for processes that open the data directory exclusively, as the server and offline recovery do; the condition is exact.
- The content of expansion deltas, and the sync that fails because the upstream lists two pending expansions of one mission: a listing is any map from expansions to statuses.
- The number of contained missions in a recovery result, which does not survive a resume, and the upstream's deduplication of repeated containment calls.
- RequestKeys.OneDraftPerKey: an empty key, which always opens a fresh draft, has no mapping and is not part of the machine.
- RateLimiter.IntervalAdmitsAtMost: the source reads the clock before taking its mutex, so two racing requests may be counted out of clock order by that much.
- ProjectionSafety.ApplyingTwiceIsApplyingOnce: a page that was rejected is stated to be rejected again at the same clock reading only; an event too far in the future is accepted later.
- Re-opening an incompatible projection after an upgrade, and the wrap-around of event sequence numbers, store revisions and failure counts, which are unbounded here.
- Stored events whose payload no longer decodes, which the receipt binding skips: the projector writes only payloads it has encoded itself.
- Worker leases, check publication and the minting and exchange of CLI revocation results.
