/** The durable rows behind one launch exchange and the conditional writes on
    them (internal/store/launch_exchange.go) together with the settlement
    transaction of internal/launch/service.go.

    Identifiers, digests and code hashes are opaque tokens: natural numbers, 0
    standing for the empty string.  SHA-256 is injective, so a digest is
    modelled by the value it covers. */
module LaunchStore {
  import opened Base
  import opened PassModel

  const EMPTY: nat := 0

  /** Everything an authorization pins about the approved pass. */
  datatype Binding = Binding(
    proposal: nat, invocation: nat, kit: nat, kitVersion: nat, arguments: seq<nat>,
    missionRef: nat, missionVersion: nat)

  datatype Pass = Pass(
    state: PassState, revision: nat, expiresAt: int, binding: Binding, sourcePinned: bool, runId: nat)

  /** The part of a CLI authorization row written at creation and never again. */
  datatype AuthCore = AuthCore(
    passId: nat, binding: Binding, redirect: nat, challenge: nat, ephemeral: nat, expiresAt: int)

  datatype RowStatus = InFlight | Completed | Failed | Expired

  datatype Row = Row(
    authId: nat, passId: nat, status: RowStatus, runId: nat,
    attDigest: nat, envelope: nat, updatedAt: int)

  datatype Artifacts = Artifacts(
    runId: nat, missionRef: nat, missionVersion: nat, envelope: nat, isolated: bool, keyTrusted: bool)

  /** Every clause of checkPassBinding. */
  predicate BindingHolds(pass: Pass, core: AuthCore, now: int) {
    && pass.state.Approved?
    && now < pass.expiresAt
    && pass.binding.proposal != EMPTY
    && pass.binding == core.binding
    && pass.sourcePinned
  }

  /** The artifact checks that precede the settlement transaction. */
  predicate Adoptable(artifacts: Artifacts, core: AuthCore) {
    && artifacts.isolated
    && artifacts.runId != EMPTY && artifacts.envelope != EMPTY
    && artifacts.missionRef == core.binding.missionRef
    && artifacts.keyTrusted
  }

  // ---- Specification of the conditional writes --------------------------

  /** INSERT ... ON CONFLICT DO NOTHING. */
  function ClaimRow(rows: map<nat, Row>, code: nat, authId: nat, passId: nat, attDigest: nat, now: int): map<nat, Row> {
    if code in rows then rows
    else rows[code := Row(authId, passId, InFlight, EMPTY, attDigest, EMPTY, now)]
  }

  predicate CanSettle(rows: map<nat, Row>, code: nat, status: RowStatus) {
    !status.InFlight? && code in rows && rows[code].status.InFlight?
  }

  /** UPDATE ... WHERE status = 'in_flight'. */
  function SettleRow(rows: map<nat, Row>, code: nat, status: RowStatus, runId: nat, envelope: nat, now: int): map<nat, Row> {
    if CanSettle(rows, code, status)
    then rows[code := rows[code].(status := status, runId := runId, envelope := envelope, updatedAt := now)]
    else rows
  }

  predicate CanAdopt(passes: map<nat, Pass>, rows: map<nat, Row>, code: nat, core: AuthCore, revision: nat, now: int) {
    && core.passId in passes
    && BindingHolds(passes[core.passId], core, now)
    && passes[core.passId].revision == revision
    && CanSettle(rows, code, RowStatus.Completed)
  }

  function LaunchedPass(pass: Pass, artifacts: Artifacts): Pass {
    pass.(state := Launching, revision := pass.revision + 1, runId := artifacts.runId,
          binding := pass.binding.(missionVersion := artifacts.missionVersion))
  }

  function AdoptedRows(rows: map<nat, Row>, code: nat, artifacts: Artifacts, now: int): map<nat, Row> {
    SettleRow(rows, code, RowStatus.Completed, artifacts.runId, artifacts.envelope, now)
  }

  // ---- The tables themselves --------------------------------------------

  class LaunchTables {
    var rows: map<nat, Row>
    var passes: map<nat, Pass>

    constructor ()
      ensures rows == map[] && passes == map[]
    {
      rows, passes := map[], map[];
    }

    method Claim(code: nat, authId: nat, passId: nat, attDigest: nat, now: int) returns (r: Outcome<bool>)
      modifies this`rows
      ensures r.Err? <==> code == EMPTY || authId == EMPTY || passId == EMPTY || attDigest == EMPTY
      ensures r.Err? ==> rows == old(rows)
      ensures r.Ok? ==> rows == ClaimRow(old(rows), code, authId, passId, attDigest, now)
      ensures r.Ok? ==> r.value == (code !in old(rows))
    {
      if code == EMPTY || authId == EMPTY || passId == EMPTY || attDigest == EMPTY {
        return Err(Invalid);
      }
      if code in rows {
        return Ok(false);
      }
      rows := rows[code := Row(authId, passId, InFlight, EMPTY, attDigest, EMPTY, now)];
      return Ok(true);
    }

    method Settle(code: nat, status: RowStatus, runId: nat, envelope: nat, now: int) returns (r: Outcome<()>)
      modifies this`rows
      ensures r.Ok? <==> CanSettle(old(rows), code, status)
      ensures rows == SettleRow(old(rows), code, status, runId, envelope, now)
      ensures r == Err(Invalid) <==> status.InFlight?
    {
      if status.InFlight? {
        return Err(Invalid);
      }
      if code !in rows || !rows[code].status.InFlight? {
        return Err(Conflict);
      }
      rows := rows[code := rows[code].(status := status, runId := runId, envelope := envelope, updatedAt := now)];
      return Ok(());
    }

    /** Compare-and-swap on the store revision. */
    method PutPass(id: nat, pass: Pass, expected: nat) returns (r: Outcome<()>)
      modifies this`passes
      ensures r.Ok? <==> if id in old(passes) then old(passes)[id].revision == expected else expected == 0
      ensures r.Ok? && id in old(passes) ==> passes == old(passes)[id := pass.(revision := expected + 1)]
      ensures r.Ok? && id !in old(passes) ==> passes == old(passes)[id := pass.(revision := 1)]
      ensures r.Err? ==> passes == old(passes) && r.error == Conflict
    {
      if id in passes {
        if passes[id].revision != expected {
          return Err(Conflict);
        }
        passes := passes[id := pass.(revision := expected + 1)];
        return Ok(());
      }
      if expected != 0 {
        return Err(Conflict);
      }
      passes := passes[id := pass.(revision := 1)];
      return Ok(());
    }

    /** The settlement transaction of adoptArtifacts: the launching pass and the
        completed row are written together or not at all. */
    method Adopt(code: nat, core: AuthCore, revision: nat, artifacts: Artifacts, now: int) returns (r: Outcome<()>)
      modifies this
      ensures r.Ok? <==> CanAdopt(old(passes), old(rows), code, core, revision, now)
      ensures r.Err? ==> rows == old(rows) && passes == old(passes)
      ensures r.Ok? ==>
                && passes == old(passes)[core.passId := LaunchedPass(old(passes)[core.passId], artifacts)]
                && rows == AdoptedRows(old(rows), code, artifacts, now)
    {
      var before := passes;
      if core.passId !in passes {
        return Err(NotFound);
      }
      var current := passes[core.passId];
      if !BindingHolds(current, core, now) {
        return Err(Invalid);
      }
      if current.revision != revision {
        return Err(Conflict);
      }
      var launching := current.(state := Launching, runId := artifacts.runId,
                                binding := current.binding.(missionVersion := artifacts.missionVersion));
      var put := PutPass(core.passId, launching, current.revision);
      if put.Err? {
        return put;
      }
      var settled := Settle(code, RowStatus.Completed, artifacts.runId, artifacts.envelope, now);
      if settled.Err? {
        // The enclosing transaction rolls the pass write back.
        passes := before;
        return settled;
      }
      return Ok(());
    }
  }

  // ---- What the conditional writes promise ------------------------------

  /** A row once settled is never rewritten, whoever tries to claim or settle
      it; an unsettled row keeps the identity it was claimed with. */
  lemma SettledRowsAreFinal(rows: map<nat, Row>, c: nat, code: nat, authId: nat, passId: nat, digest: nat,
                            status: RowStatus, runId: nat, envelope: nat, now: int)
    requires c in rows
    ensures ClaimRow(rows, code, authId, passId, digest, now)[c] == rows[c]
    ensures var after := SettleRow(rows, code, status, runId, envelope, now);
            && c in after
            && (!rows[c].status.InFlight? ==> after[c] == rows[c])
            && after[c].authId == rows[c].authId && after[c].passId == rows[c].passId
            && after[c].attDigest == rows[c].attDigest
  {
  }
}
