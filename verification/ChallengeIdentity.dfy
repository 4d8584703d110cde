/** What the identity digests of challenges, merchant evidence and wallet
    candidates are computed from, and what equal preimages imply. */
module ChallengeIdentity {
  import opened Decimal
  import opened Framing
  import opened Json
  import opened JsonText
  import opened Lex
  import opened Options

  const MINUS: Byte := 45

  function SignedText(n: int): Bytes {
    if n < 0 then [MINUS] + Digits(-n) else Digits(n)
  }

  lemma SignedTextInjective(m: int, n: int)
    ensures SignedText(m) == SignedText(n) <==> m == n
  {
    if SignedText(m) == SignedText(n) {
      assert m < 0 ==> SignedText(m)[0] == MINUS;
      assert n < 0 ==> SignedText(n)[0] == MINUS;
      assert m >= 0 ==> IsDigit(SignedText(m)[0]);
      assert n >= 0 ==> IsDigit(SignedText(n)[0]);
      if m < 0 {
        assert SignedText(m)[1..] == Digits(-m) && SignedText(n)[1..] == Digits(-n);
        DigitsInjective(-m, -n);
      } else {
        DigitsInjective(m, n);
      }
    }
  }

  function Ascii(text: string): Bytes {
    seq(|text|, i requires 0 <= i < |text| => text[i] as int % 256)
  }

  datatype Challenge = Challenge(resource: Bytes, expiresAt: int, wire: Json, nonce: Bytes)

  function ChallengeParts(c: Challenge): seq<Bytes> {
    [Ascii("agentvault.x402.challenge.v2"), c.resource, SignedText(c.expiresAt), Serialize(Canonical(c.wire)), c.nonce]
  }

  predicate NonceValid(nonce: Bytes) {
    |nonce| == 64 && forall i :: 0 <= i < 64 ==> 48 <= nonce[i] <= 57 || 97 <= nonce[i] <= 102
  }

  /** A wire value as it arrives from the parser. */
  predicate Parsed(c: Challenge) {
    WellFormed(c.wire) && ProperNumbers(c.wire) && Short(ChallengeParts(c))
  }

  lemma WireTextDecides(a: Json, b: Json)
    requires WellFormed(a) && WellFormed(b) && ProperNumbers(a) && ProperNumbers(b)
    ensures Serialize(Canonical(a)) == Serialize(Canonical(b)) <==> Equivalent(a, b)
  {
    CanonicalKeepsNumbers(a);
    CanonicalKeepsNumbers(b);
    SerializeInjective(Canonical(a), Canonical(b));
    CanonicalDecidesEquivalence(a, b);
  }

  /** What is hashed, for a nonce of sixty-four lower-case hexadecimal digits. */
  function ChallengePreimage(c: Challenge): Option<Bytes> {
    if NonceValid(c.nonce) then Some(Frame(ChallengeParts(c))) else None
  }

  /** Two challenges share a hash preimage exactly when their nonce is valid,
      resource, expiry and nonce agree, and the wire values differ only in member
      order. */
  lemma ChallengePreimageDecides(a: Challenge, b: Challenge)
    requires Parsed(a) && Parsed(b)
    ensures ChallengePreimage(a).Some? && ChallengePreimage(a) == ChallengePreimage(b) <==>
      && NonceValid(a.nonce) && a.resource == b.resource && a.expiresAt == b.expiresAt && a.nonce == b.nonce
      && Equivalent(a.wire, b.wire)
  {
    var p, q := ChallengeParts(a), ChallengeParts(b);
    FrameInjective(p, q);
    SignedTextInjective(a.expiresAt, b.expiresAt);
    WireTextDecides(a.wire, b.wire);
    if p == q {
      assert p[1] == q[1] && p[2] == q[2] && p[3] == q[3] && p[4] == q[4];
    }
  }

  function NonceParts(resource: Bytes, expiresAt: int, wire: Json): seq<Bytes> {
    [Ascii("agentvault.x402.challenge.nonce.v2"), resource, SignedText(expiresAt), Serialize(Canonical(wire))]
  }

  /** The derived nonce follows from the challenge up to member order, so a
      stored challenge keeps its nonce when storage reorders members. */
  lemma NoncePreimageDecides(a: Challenge, b: Challenge)
    requires Parsed(a) && Parsed(b)
    ensures
      Frame(NonceParts(a.resource, a.expiresAt, a.wire)) == Frame(NonceParts(b.resource, b.expiresAt, b.wire)) <==>
      a.resource == b.resource && a.expiresAt == b.expiresAt && Equivalent(a.wire, b.wire)
  {
    var p, q := NonceParts(a.resource, a.expiresAt, a.wire), NonceParts(b.resource, b.expiresAt, b.wire);
    assert Short(p) by { PrefixShort(a); }
    assert Short(q) by { PrefixShort(b); }
    FrameInjective(p, q);
    SignedTextInjective(a.expiresAt, b.expiresAt);
    WireTextDecides(a.wire, b.wire);
    if p == q {
      assert p[1] == q[1] && p[2] == q[2] && p[3] == q[3];
    }
  }

  lemma PrefixShort(c: Challenge)
    requires Short(ChallengeParts(c))
    ensures Short(NonceParts(c.resource, c.expiresAt, c.wire))
  {
    var p := ChallengeParts(c);
    assert |p[1]| <= U64_MAX && |p[2]| <= U64_MAX && |p[3]| <= U64_MAX;
  }

  /** The selected requirement is among the advertised ones, up to member order. */
  predicate Advertised(accepts: seq<Json>, selected: Json) {
    exists i :: 0 <= i < |accepts| && Canonical(accepts[i]) == Canonical(selected)
  }

  /** The check accepts exactly the advertised requirements, in any member order. */
  lemma AdvertisedDecides(accepts: seq<Json>, selected: Json)
    requires WellFormed(selected) && forall i :: 0 <= i < |accepts| ==> WellFormed(accepts[i])
    ensures Advertised(accepts, selected) <==> exists i :: 0 <= i < |accepts| && Equivalent(accepts[i], selected)
  {
    forall i | 0 <= i < |accepts|
      ensures Canonical(accepts[i]) == Canonical(selected) <==> Equivalent(accepts[i], selected)
    {
      CanonicalDecidesEquivalence(accepts[i], selected);
    }
  }

  // ------------------------------------------------------ merchant evidence

  datatype Evidence = Evidence(
    protocol: Bytes, intentId: Bytes, runId: Bytes, network: Bytes, transaction: Bytes, payer: Bytes)

  /** The first protocol keeps its original layout, without a protocol part. */
  function EvidenceParts(e: Evidence): seq<Bytes> {
    if e.protocol == Ascii("x402") then
      [Ascii("agentvault.x402.merchant-evidence.v1"), e.intentId, e.runId, e.network, e.transaction, e.payer]
    else
      [Ascii("agentvault.protocol.merchant-evidence.v1"), e.protocol, e.intentId, e.runId, e.network, e.transaction,
       e.payer]
  }

  /** Evidence hashes of all protocols share no preimage. */
  lemma EvidencePreimageDecides(a: Evidence, b: Evidence)
    requires Short(EvidenceParts(a)) && Short(EvidenceParts(b))
    ensures Frame(EvidenceParts(a)) == Frame(EvidenceParts(b)) <==> a == b
  {
    var p, q := EvidenceParts(a), EvidenceParts(b);
    FrameInjective(p, q);
    if p == q {
      assert |p| == |q|;
      assert p[1] == q[1] && p[2] == q[2] && p[3] == q[3] && p[4] == q[4] && p[5] == q[5];
      if |p| == 7 {
        assert p[6] == q[6];
      }
    }
  }

  function EventIdParts(protocol: Bytes, intentId: Bytes): seq<Bytes> {
    if protocol == Ascii("x402") then [Ascii("agentvault.x402.merchant-event.v1"), intentId]
    else [Ascii("agentvault.protocol.merchant-event.v1"), protocol, intentId]
  }

  /** A merchant event identifier stands for one protocol and one intent. */
  lemma EventIdPreimageDecides(p: Bytes, i: Bytes, q: Bytes, j: Bytes)
    requires Short(EventIdParts(p, i)) && Short(EventIdParts(q, j))
    ensures Frame(EventIdParts(p, i)) == Frame(EventIdParts(q, j)) <==> p == q && i == j
  {
    var l, r := EventIdParts(p, i), EventIdParts(q, j);
    FrameInjective(l, r);
    if l == r {
      assert |l| == |r| && l[1] == r[1];
      if |l| == 3 {
        assert l[2] == r[2];
      }
    }
  }

  // ------------------------------------------------------- wallet selection

  /** The domain tag in front of the frames has no length of its own. */
  function SelectionPreimage(requestHash: Bytes, policyId: Bytes, walletId: Bytes): Bytes {
    Ascii("agentvault.wallet-selection.v1") + Frame([requestHash, policyId, walletId])
  }

  /** For one request, equal selection preimages mean the same candidate. */
  lemma SelectionPreimageDecides(h: Bytes, p: Bytes, w: Bytes, i: Bytes, q: Bytes, x: Bytes)
    requires Short([h, p, w]) && Short([i, q, x])
    ensures SelectionPreimage(h, p, w) == SelectionPreimage(i, q, x) <==> h == i && p == q && w == x
  {
    var tag := Ascii("agentvault.wallet-selection.v1");
    var a, b := [h, p, w], [i, q, x];
    FrameInjective(a, b);
    if SelectionPreimage(h, p, w) == SelectionPreimage(i, q, x) {
      assert SelectionPreimage(h, p, w)[|tag|..] == Frame(a) && SelectionPreimage(i, q, x)[|tag|..] == Frame(b);
      assert a[0] == b[0] && a[1] == b[1] && a[2] == b[2];
    }
  }
}
