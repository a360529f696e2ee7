/** The byte strings that digests and signatures cover: the approval record
    (internal/missionpass/model.go) and the launch envelope
    (internal/launch/envelope.go). */
module CanonicalBytes {
  import opened Base
  import opened Encoding

  const APPROVAL_DOMAIN := "authscope-ope/pass-approval/v1"
  const SEALED_FORMAT := "authscope-sealed-envelope/v1"
  const SEAL_ALGORITHM := "X25519-ChaCha20-Poly1305"
  const SIGNED_DOMAIN := "authscope-launch-envelope/v1"

  /** The fields CanonicalApprovalBytes covers. */
  datatype Approval = Approval(
    workspace: seq<byte>, pass: seq<byte>, draftVersion: int, proposal: seq<byte>,
    proposalDigest: seq<byte>, invocationDigest: seq<byte>, sourceDigest: seq<byte>, baseSha: seq<byte>)

  function FieldsOf(a: Approval): seq<seq<byte>> {
    [a.workspace, a.pass, FormatInt(a.draftVersion), a.proposal,
     a.proposalDigest, a.invocationDigest, a.sourceDigest, a.baseSha]
  }

  function ApprovalOf(f: seq<seq<byte>>): Approval
    requires |f| == 8
  {
    Approval(f[0], f[1], ParseInt(f[2]), f[3], f[4], f[5], f[6], f[7])
  }

  // ---- Length-prefixed fields --------------------------------------------

  function EncodeField(f: seq<byte>): seq<byte> { BigEndian(|f|, 8) + f }

  function EncodeFields(fields: seq<seq<byte>>): seq<byte>
    decreases |fields|
  {
    if fields == [] then [] else EncodeField(fields[0]) + EncodeFields(fields[1..])
  }

  /** Exactly n fields and nothing after them. */
  function DecodeFields(b: seq<byte>, n: nat): Option<seq<seq<byte>>>
    decreases n
  {
    if n == 0 then (if b == [] then Some([]) else None)
    else if |b| < 8 then None
    else
      var len := Value(b[..8]);
      if |b| - 8 < len then None
      else
        match DecodeFields(b[8 + len..], n - 1)
        case None => None
        case Some(rest) => Some([b[8..8 + len]] + rest)
  }

  /** Every field is short enough for its 64-bit length, as every Go string is. */
  predicate Lengths(fields: seq<seq<byte>>) { forall i | 0 <= i < |fields| :: |fields[i]| < UINT64_LIMIT }

  lemma FieldThenRest(f: seq<byte>, rest: seq<byte>)
    requires |f| < UINT64_LIMIT
    ensures var b := EncodeField(f) + rest;
            && |b| >= 8 && Value(b[..8]) == |f| && |b| - 8 >= |f|
            && b[8..8 + |f|] == f && b[8 + |f|..] == rest
  {
    Uint64Fits(|f|);
    BigEndianRoundTrip(|f|, 8);
    var b := EncodeField(f) + rest;
    assert b[..8] == BigEndian(|f|, 8);
  }

  lemma {:induction false} FieldsRoundTrip(fields: seq<seq<byte>>)
    requires Lengths(fields)
    ensures DecodeFields(EncodeFields(fields), |fields|) == Some(fields)
    decreases |fields|
  {
    if fields != [] {
      FieldThenRest(fields[0], EncodeFields(fields[1..]));
      FieldsRoundTrip(fields[1..]);
      assert [fields[0]] + fields[1..] == fields;
    }
  }

  // ---- The approval bytes ------------------------------------------------

  function ApprovalBytes(a: Approval): seq<byte> {
    Ascii(APPROVAL_DOMAIN) + EncodeFields(FieldsOf(a))
  }

  function DecodeApproval(b: seq<byte>): Option<Approval> {
    var n := |APPROVAL_DOMAIN|;
    if |b| < n || b[..n] != Ascii(APPROVAL_DOMAIN) then None
    else
      match DecodeFields(b[n..], 8)
      case Some(fields) => if |fields| == 8 then Some(ApprovalOf(fields)) else None
      case None => None
  }

  predicate Encodable(a: Approval) { IsInt64(a.draftVersion) && Lengths(FieldsOf(a)) }

  /** The bytes determine the record: all eight fields come back, the decimal
      draft version included. */
  lemma ApprovalRoundTrip(a: Approval)
    requires Encodable(a)
    ensures DecodeApproval(ApprovalBytes(a)) == Some(a)
  {
    FieldsRoundTrip(FieldsOf(a));
    FormatIntRoundTrip(a.draftVersion);
    var b, n := ApprovalBytes(a), |APPROVAL_DOMAIN|;
    assert b[..n] == Ascii(APPROVAL_DOMAIN) && b[n..] == EncodeFields(FieldsOf(a));
  }

  /** Two different records never share the bytes a passkey decision binds. */
  lemma ApprovalBytesInjective(a: Approval, b: Approval)
    requires Encodable(a) && Encodable(b)
    ensures ApprovalBytes(a) == ApprovalBytes(b) <==> a == b
  {
    ApprovalRoundTrip(a);
    ApprovalRoundTrip(b);
  }

  lemma {:induction false} OneMoreField(fields: seq<seq<byte>>, f: seq<byte>)
    ensures EncodeFields(fields + [f]) == EncodeFields(fields) + EncodeField(f)
    decreases |fields|
  {
    if fields == [] {
      assert fields + [f] == [f] && [f][1..] == [];
    } else {
      assert (fields + [f])[1..] == fields[1..] + [f];
      OneMoreField(fields[1..], f);
    }
  }

  lemma Associates(a: seq<byte>, b: seq<byte>, c: seq<byte>, d: seq<byte>)
    ensures a + b + c + d == a + (b + (c + d))
  {
  }

  /** The buffer CanonicalApprovalBytes fills: a domain, then fields. */
  class Buffer {
    var data: seq<byte>
    ghost const head: seq<byte>
    ghost var fields: seq<seq<byte>>

    ghost predicate Valid()
      reads this
    {
      data == head + EncodeFields(fields)
    }

    constructor (domain: seq<byte>)
      ensures Valid() && head == domain && fields == []
    {
      data := domain;
      head := domain;
      fields := [];
    }

    /** writeApprovalField. */
    method WriteField(s: seq<byte>)
      requires Valid()
      modifies this
      ensures Valid() && fields == old(fields) + [s]
    {
      OneMoreField(fields, s);
      Associates(head, EncodeFields(fields), BigEndian(|s|, 8), s);
      data := data + BigEndian(|s|, 8);
      data := data + s;
      fields := fields + [s];
    }
  }

  method CanonicalApprovalBytes(a: Approval) returns (r: seq<byte>)
    ensures r == ApprovalBytes(a)
  {
    var b := new Buffer(Ascii(APPROVAL_DOMAIN));
    b.WriteField(a.workspace);
    b.WriteField(a.pass);
    b.WriteField(FormatInt(a.draftVersion));
    b.WriteField(a.proposal);
    b.WriteField(a.proposalDigest);
    b.WriteField(a.invocationDigest);
    b.WriteField(a.sourceDigest);
    b.WriteField(a.baseSha);
    assert b.fields == FieldsOf(a);
    return b.data;
  }

  // ---- The launch envelope -----------------------------------------------

  const PUBLIC_KEY_SIZE: nat := 32
  const NONCE_SIZE: nat := 24

  /** The additional data of the sealed envelope. */
  function SealAad(keyId: seq<byte>, publicKey: seq<byte>, nonce: seq<byte>): seq<byte> {
    Ascii(SEALED_FORMAT) + [0] + Ascii(SEAL_ALGORITHM) + [0] + keyId + [0] + publicKey + [0] + nonce
  }

  /** The additional data determines key ID, ephemeral key and nonce, even for
      key IDs that contain the separator byte: the fields after it have fixed
      sizes, the fields before it fixed contents. */
  lemma SealAadInjective(k1: seq<byte>, p1: seq<byte>, n1: seq<byte>, k2: seq<byte>, p2: seq<byte>, n2: seq<byte>)
    requires |p1| == PUBLIC_KEY_SIZE && |p2| == PUBLIC_KEY_SIZE && |n1| == NONCE_SIZE && |n2| == NONCE_SIZE
    ensures SealAad(k1, p1, n1) == SealAad(k2, p2, n2) <==> k1 == k2 && p1 == p2 && n1 == n2
  {
    if SealAad(k1, p1, n1) == SealAad(k2, p2, n2) {
      OpenAad(k1, p1, n1);
      OpenAad(k2, p2, n2);
    }
  }

  const AAD_HEAD: nat := |SEALED_FORMAT| + 1 + |SEAL_ALGORITHM| + 1
  const AAD_TAIL: nat := 1 + PUBLIC_KEY_SIZE + 1 + NONCE_SIZE

  lemma OpenAad(keyId: seq<byte>, publicKey: seq<byte>, nonce: seq<byte>)
    requires |publicKey| == PUBLIC_KEY_SIZE && |nonce| == NONCE_SIZE
    ensures var b := SealAad(keyId, publicKey, nonce);
            && |b| == AAD_HEAD + |keyId| + AAD_TAIL
            && b[AAD_HEAD..|b| - AAD_TAIL] == keyId
            && b[|b| - AAD_TAIL + 1..|b| - NONCE_SIZE - 1] == publicKey
            && b[|b| - NONCE_SIZE..] == nonce
  {
    var head := Ascii(SEALED_FORMAT) + [0] + Ascii(SEAL_ALGORITHM) + [0];
    var tail := [0] + publicKey + [0] + nonce;
    assert |head| == AAD_HEAD && |tail| == AAD_TAIL;
    assert SealAad(keyId, publicKey, nonce) == head + keyId + tail;
  }

  /** What the authority signs. */
  function SignedMessage(payload: seq<byte>): seq<byte> {
    Ascii(SIGNED_DOMAIN) + [0] + payload
  }

  /** No byte string serves two purposes: an approval, a signed launch payload
      and a seal never coincide, and one signed message is one payload. */
  lemma DomainsSeparate(a: Approval, payload: seq<byte>, other: seq<byte>, keyId: seq<byte>, publicKey: seq<byte>, nonce: seq<byte>)
    ensures ApprovalBytes(a) != SignedMessage(payload)
    ensures ApprovalBytes(a) != SealAad(keyId, publicKey, nonce)
    ensures SignedMessage(payload) != SealAad(keyId, publicKey, nonce)
    ensures SignedMessage(payload) == SignedMessage(other) <==> payload == other
  {
    // The domains differ at their eleventh character.
    assert APPROVAL_DOMAIN[10] == 'o' && SIGNED_DOMAIN[10] == 'l' && SEALED_FORMAT[10] == 's';
    assert ApprovalBytes(a)[10] == 'o' as int;
    assert SignedMessage(payload)[10] == 'l' as int;
    assert SealAad(keyId, publicKey, nonce)[10] == 's' as int;
    var n := |SIGNED_DOMAIN| + 1;
    assert SignedMessage(payload)[n..] == payload && SignedMessage(other)[n..] == other;
  }
}
