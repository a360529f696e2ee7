/** The other one-use memories: WebAuthn ceremonies (internal/authn/passkey.go)
    and the envelope nonces of the runner (internal/launch/envelope.go). */
module OneUse {
  import opened Base

  // ---- Ceremonies --------------------------------------------------------

  datatype Kind = Login | Registration | DecisionKind

  /** What BeginDecision binds; the digest is modelled by the claims it covers. */
  datatype Decision = Decision(workspace: nat, session: nat, subject: nat, purpose: nat, claims: nat)

  datatype Ceremony = Ceremony(kind: Kind, decision: Option<Decision>, expiresAt: int, consumed: bool)

  datatype Refusal = NoCeremony | AlreadyConsumed | Expired | WrongBinding | StaleAuthentication | NotVerified

  datatype Taken = Taken(ceremony: Ceremony) | Refused(why: Refusal)

  /** consumeCeremony: what the caller gets and what is left. */
  function Consumption(m: map<nat, Ceremony>, id: nat, kind: Kind, now: int): Taken {
    if id !in m then Refused(NoCeremony)
    else if m[id].consumed then Refused(AlreadyConsumed)
    else if m[id].expiresAt <= now then Refused(Expired)
    else if m[id].kind != kind then Refused(NoCeremony)
    else Taken(m[id])
  }

  function AfterConsumption(m: map<nat, Ceremony>, id: nat, kind: Kind, now: int): map<nat, Ceremony> {
    match Consumption(m, id, kind, now)
    case Taken(_) => m - {id}
    case Refused(why) => if why.Expired? then m - {id} else m
  }

  const FRESHNESS: int := 300               // seconds since the founder's last passkey login

  /** The checks FinishDecision makes on a ceremony it has already consumed. */
  function Judged(t: Taken, claimed: Decision, instance: nat, authAge: int, verified: bool): Option<Refusal> {
    match t
    case Refused(why) => Some(why)
    case Taken(c) =>
      if c.decision.None? || c.decision.value != claimed || claimed.workspace != instance then Some(WrongBinding)
      else if authAge > FRESHNESS then Some(StaleAuthentication)
      else if !verified then Some(NotVerified)
      else None
  }

  class Ceremonies {
    var open: map<nat, Ceremony>
    const instance: nat

    ghost predicate Valid()
      reads this
    {
      forall id | id in open :: !open[id].consumed
    }

    constructor (instance: nat)
      ensures Valid() && open == map[] && this.instance == instance
    {
      open := map[];
      this.instance := instance;
    }

    method Begin(id: nat, kind: Kind, decision: Option<Decision>, expiresAt: int)
      requires Valid()
      modifies this
      ensures Valid() && open == old(open)[id := Ceremony(kind, decision, expiresAt, false)]
    {
      open := open[id := Ceremony(kind, decision, expiresAt, false)];
    }

    method Consume(id: nat, kind: Kind, now: int) returns (r: Taken)
      requires Valid()
      modifies this
      ensures Valid()
      ensures r == Consumption(old(open), id, kind, now) && open == AfterConsumption(old(open), id, kind, now)
      ensures r != Refused(AlreadyConsumed)
    {
      if id !in open {
        return Refused(NoCeremony);
      }
      var c := open[id];
      if c.consumed {
        return Refused(AlreadyConsumed);
      }
      if c.expiresAt <= now {
        open := open - {id};
        return Refused(Expired);
      }
      if c.kind != kind {
        return Refused(NoCeremony);
      }
      open := open - {id};
      return Taken(c);
    }

    /** FinishDecision: consume first, judge afterwards. */
    method FinishDecision(id: nat, claimed: Decision, now: int, authAge: int, verified: bool) returns (refusal: Option<Refusal>)
      requires Valid()
      modifies this
      ensures Valid()
      ensures refusal == Judged(Consumption(old(open), id, DecisionKind, now), claimed, instance, authAge, verified)
      ensures open == AfterConsumption(old(open), id, DecisionKind, now)
    {
      var t := Consume(id, DecisionKind, now);
      if t.Refused? {
        return Some(t.why);
      }
      var c := t.ceremony;
      if c.decision.None? || c.decision.value != claimed || claimed.workspace != instance {
        return Some(WrongBinding);
      }
      if authAge > FRESHNESS {
        return Some(StaleAuthentication);
      }
      if !verified {
        return Some(NotVerified);
      }
      return None;
    }
  }

  datatype Op =
    | Begin(id: nat, ceremony: Ceremony)
    | Finish(id: nat, claimed: Decision, now: int, authAge: int, verified: bool)
    | ConsumeOther(id: nat, kind: Kind, now: int)

  function After(m: map<nat, Ceremony>, op: Op): map<nat, Ceremony> {
    match op
    case Begin(id, c) => m[id := c]
    case Finish(id, _, now, _, _) => AfterConsumption(m, id, DecisionKind, now)
    case ConsumeOther(id, kind, now) => AfterConsumption(m, id, kind, now)
  }

  function AfterAll(m: map<nat, Ceremony>, ops: seq<Op>): map<nat, Ceremony>
    decreases |ops|
  {
    if ops == [] then m else AfterAll(After(m, ops[0]), ops[1..])
  }

  /** This finish verifies a decision. */
  predicate Decides(m: map<nat, Ceremony>, op: Op, instance: nat) {
    op.Finish? && Judged(Consumption(m, op.id, DecisionKind, op.now), op.claimed, instance, op.authAge, op.verified).None?
  }

  /** A finish that got as far as the ceremony, successful or not, used it up. */
  predicate Reaches(m: map<nat, Ceremony>, op: Op) { op.Finish? && Consumption(m, op.id, DecisionKind, op.now).Taken? }

  lemma {:induction false} GoneStaysGone(m: map<nat, Ceremony>, ops: seq<Op>, id: nat)
    requires id !in m && forall i | 0 <= i < |ops| :: !(ops[i].Begin? && ops[i].id == id)
    ensures id !in AfterAll(m, ops)
    decreases |ops|
  {
    if ops != [] {
      GoneStaysGone(After(m, ops[0]), ops[1..], id);
    }
  }

  /** A challenge decides at most once, and not at all after a failed attempt:
      once any finish has reached it, no later one does until it is begun
      again, and a finish that decides was over exactly the begun decision. */
  lemma OneDecisionPerChallenge(m: map<nat, Ceremony>, first: Op, between: seq<Op>, second: Op, instance: nat)
    requires Reaches(m, first) && second.Finish? && second.id == first.id
    requires forall i | 0 <= i < |between| :: !(between[i].Begin? && between[i].id == first.id)
    ensures !Reaches(AfterAll(After(m, first), between), second)
    ensures !Decides(AfterAll(After(m, first), between), second, instance)
    ensures Decides(m, first, instance) ==>
              m[first.id].decision == Some(first.claimed) && first.now < m[first.id].expiresAt && first.verified
  {
    GoneStaysGone(After(m, first), between, first.id);
  }

  // ---- Exactly when a finish decides -------------------------------------

  /** This operation ends the ceremony c begun under the ID, or replaces it. */
  predicate Touches(op: Op, id: nat, c: Ceremony) {
    op.id == id && (op.ConsumeOther? ==> op.kind == c.kind || c.expiresAt <= op.now)
  }

  /** Operation i began c under the ID and nothing has touched it since. */
  ghost predicate OpenSince(ops: seq<Op>, i: nat, id: nat, c: Ceremony) {
    i < |ops| && ops[i] == Op.Begin(id, c) && forall k | i < k < |ops| :: !Touches(ops[k], id, c)
  }

  lemma {:induction false} AfterOneMore(m: map<nat, Ceremony>, ops: seq<Op>, op: Op)
    ensures AfterAll(m, ops + [op]) == After(AfterAll(m, ops), op)
    decreases |ops|
  {
    if ops == [] {
      assert ([] + [op])[1..] == [];
    } else {
      assert (ops + [op])[1..] == ops[1..] + [op];
      AfterOneMore(After(m, ops[0]), ops[1..], op);
    }
  }

  /** A decision ceremony is in memory exactly when it was begun and nothing
      has touched it since. */
  lemma {:induction false} KeptExactlyWhenOpen(ops: seq<Op>, id: nat, c: Ceremony)
    requires c.kind == DecisionKind && !c.consumed
    ensures id in AfterAll(map[], ops) && AfterAll(map[], ops)[id] == c <==> exists i: nat :: OpenSince(ops, i, id, c)
    decreases |ops|
  {
    if ops != [] {
      var n := |ops| - 1;
      var before, op := ops[..n], ops[n];
      assert ops == before + [op];
      AfterOneMore(map[], before, op);
      KeptExactlyWhenOpen(before, id, c);
      OpenOneMore(before, op, id, c);
    }
  }

  lemma OpenOneMore(before: seq<Op>, op: Op, id: nat, c: Ceremony)
    ensures (exists i: nat :: OpenSince(before + [op], i, id, c))
            <==> op == Op.Begin(id, c) || (!Touches(op, id, c) && exists i: nat :: OpenSince(before, i, id, c))
  {
    var ops := before + [op];
    if i: nat :| OpenSince(ops, i, id, c) {
      if i < |before| {
        assert !Touches(ops[|before|], id, c);
        forall k | i < k < |before|
          ensures !Touches(before[k], id, c)
        {
          assert ops[k] == before[k];
        }
        assert OpenSince(before, i, id, c);
      }
    }
    if op == Op.Begin(id, c) {
      assert OpenSince(ops, |before|, id, c);
    } else if i: nat :| !Touches(op, id, c) && OpenSince(before, i, id, c) {
      assert OpenSince(ops, i, id, c);
    }
  }

  /** Over any sequence of operations from empty memory: a finish decides
      exactly when its challenge was begun for this very decision of this
      instance and has not been touched since, it comes before the expiry, the
      founder logged in at most five minutes ago, and the assertion is verified. */
  lemma DecidesExactly(ops: seq<Op>, op: Op, instance: nat)
    requires op.Finish? && forall i | 0 <= i < |ops| :: ops[i].Begin? ==> !ops[i].ceremony.consumed
    ensures Decides(AfterAll(map[], ops), op, instance)
            <==> (op.claimed.workspace == instance && op.authAge <= 300 && op.verified
                  && exists i: nat :: OpenedFor(ops, i, op))
  {
    var m := AfterAll(map[], ops);
    AllFresh(map[], ops);
    if Decides(m, op, instance) {
      KeptExactlyWhenOpen(ops, op.id, m[op.id]);
      var i: nat :| OpenSince(ops, i, op.id, m[op.id]);
      assert OpenedFor(ops, i, op);
    }
    if i: nat :| OpenedFor(ops, i, op) {
      KeptExactlyWhenOpen(ops, op.id, ops[i].ceremony);
      assert OpenSince(ops, i, op.id, ops[i].ceremony);
    }
  }

  /** Operation i began the challenge for this decision, and it is open. */
  ghost predicate OpenedFor(ops: seq<Op>, i: nat, op: Op)
    requires op.Finish?
  {
    && i < |ops| && ops[i].Begin? && OpenSince(ops, i, op.id, ops[i].ceremony)
    && ops[i].ceremony.kind == DecisionKind && ops[i].ceremony.decision == Some(op.claimed)
    && op.now < ops[i].ceremony.expiresAt
  }

  lemma {:induction false} AllFresh(m: map<nat, Ceremony>, ops: seq<Op>)
    requires forall id | id in m :: !m[id].consumed
    requires forall i | 0 <= i < |ops| :: ops[i].Begin? ==> !ops[i].ceremony.consumed
    ensures forall id | id in AfterAll(m, ops) :: !AfterAll(m, ops)[id].consumed
    decreases |ops|
  {
    if ops != [] {
      AllFresh(After(m, ops[0]), ops[1..]);
    }
  }

  // ---- Nonces ------------------------------------------------------------

  class NonceCache {
    var seen: set<nat>

    constructor ()
      ensures seen == {}
    {
      seen := {};
    }

    method CheckAndAdd(nonce: nat) returns (ok: bool)
      modifies this
      ensures ok == (nonce !in old(seen)) && seen == old(seen) + {nonce}
    {
      if nonce in seen {
        return false;
      }
      seen := seen + {nonce};
      return true;
    }
  }

  /** The answers to a list of nonces, one after the other. */
  function Answers(seen: set<nat>, nonces: seq<nat>): (r: seq<bool>)
    ensures |r| == |nonces|
    decreases |nonces|
  {
    if nonces == [] then [] else [nonces[0] !in seen] + Answers(seen + {nonces[0]}, nonces[1..])
  }

  /** A nonce opens an envelope exactly the first time it is shown. */
  lemma {:induction false} FirstUseOnly(seen: set<nat>, nonces: seq<nat>, i: nat)
    requires i < |nonces|
    ensures Answers(seen, nonces)[i] <==> nonces[i] !in seen && nonces[i] !in nonces[..i]
    decreases |nonces|
  {
    if i > 0 {
      FirstUseOnly(seen + {nonces[0]}, nonces[1..], i - 1);
      assert nonces[1..][..i - 1] == nonces[1..i];
      assert nonces[..i] == [nonces[0]] + nonces[1..i];
    }
  }
}
