/** What each worker commits, as a function of the rows it read, its own clock
    and the identifiers it generated. `None` is a worker that stops with an
    error, or with an answer that writes nothing. */
module Workers {
  import opened Options
  import opened Domain
  import PolicyEngine
  import opened PaymentTables
  import opened Transactions

  // --------------------------------------------------------- authorization

  datatype AuthorizeCommand = AuthorizeCommand(
    scenarioId: Id, runId: Id, challenge: PolicyEngine.Challenge, requestHash: string)

  /** The candidate that policy evaluation chose for the command. */
  datatype Selection = Selection(policyId: Id, walletId: Id, origin: string, decision: PolicyEngine.Decision)

  datatype AuthorizationIds = AuthorizationIds(intent: Id, approval: Id, received: Id, outcome: Id)

  function AuthorizationState(decision: PolicyEngine.Decision, amount: Amount)
    : (PaymentStatus, ReservationStatus, Amount, AuthorizationAction)
  {
    match decision
    case Allowed => (Authorized, Reserved, amount, Reserve)
    case RequiresApproval => (PendingApproval, Unreserved, 0, RequestApproval)
    case Denied(_) => (Failed, Unreserved, 0, RecordDenied)
  }

  function BuildIntent(c: AuthorizeCommand, selected: Selection, ids: AuthorizationIds, now: int): Intent {
    var (status, reservation, reserved, _) := AuthorizationState(selected.decision, c.challenge.amount);
    Intent(
      Identity(ids.intent, c.scenarioId, c.runId, selected.walletId, selected.policyId, None, Outbound,
               c.challenge.protocol, c.challenge.asset, c.challenge.recipient, c.challenge.amount,
               c.challenge.resource, Some(c.challenge.challengeHash), c.requestHash, now, Some(c.challenge.expiresAt)),
      status, reservation, reserved, 0, None, None, None, now, None)
  }

  function BuildApprovalRequest(
    cfg: Config, principal: string, c: AuthorizeCommand, ids: AuthorizationIds, now: int): Approval
  {
    Approval(ids.approval, ids.intent, c.challenge.amount, principal, c.requestHash, now, ApprovalPending,
             None, None, None, None, None,
             Min(c.challenge.expiresAt, SaturatingAdd(now, cfg.approvalTtl)), None, None)
  }

  function PlainEvent(id: Id, key: EventKey, now: int): Event {
    Event(RandomId(id), key, None, None, Opaque(""), now)
  }

  function BuildAuthorization(cfg: Config, principal: string, c: AuthorizeCommand, selected: Selection,
                              ids: AuthorizationIds, now: int): AuthorizationWrite
  {
    var received := PlainEvent(ids.received, EventKey(ids.intent, ChallengeReceived, 0), now);
    var action := AuthorizationState(selected.decision, c.challenge.amount).3;
    var events := match selected.decision
      case Allowed => [received]
      case RequiresApproval => [received, PlainEvent(ids.outcome, EventKey(ids.intent, ApprovalRequested, 0), now)]
      case Denied(_) => [received, PlainEvent(ids.outcome, EventKey(ids.intent, FailedEvent, 0), now)];
    AuthorizationWrite(
      BuildIntent(c, selected, ids, now),
      if selected.decision.RequiresApproval? then Some(BuildApprovalRequest(cfg, principal, c, ids, now)) else None,
      action, selected.origin, now, events)
  }

  // -------------------------------------------------------------- approvals

  datatype DecisionRequest = DecisionRequest(
    approvalId: Id, intentId: Id, kind: DecisionKind, approvedAmount: Option<Amount>)

  function GrantExpiration(requestExpiresAt: int, decidedAt: int, ttl: nat): int {
    Min(requestExpiresAt, SaturatingAdd(decidedAt, ttl))
  }

  /** The approver differs from the requester and approves the exact amount. */
  predicate DecisionContextValid(a: Approval, i: Intent, principal: string, r: DecisionRequest, now: int) {
    && a.intentId == i.identity.id == r.intentId
    && a.intentHash == i.identity.requestHash
    && a.requestedBy != principal
    && (r.kind.Approve? ==> r.approvedAmount == Some(i.identity.amount))
    && DecisionValid(a, Decision(r.approvalId, r.intentId, r.kind, r.approvedAmount, principal, now), now)
  }

  function RejectedIntent(i: Intent, now: int): Intent {
    i.(status := Failed, reservation := Unreserved, reservedAmount := 0, nextReconcileAt := None,
       updatedAt := NextTimestamp(i.updatedAt, now))
  }

  function IssueGrant(cfg: Config, a: Approval, d: Decision, jti: Id): Option<Claims> {
    if d.approvedAmount.None? then None
    else
      var c := Claims(jti, a.id, a.intentId, a.intentHash, d.approvedAmount.value, d.approvedBy, d.decidedAt,
                      GrantExpiration(a.expiresAt, d.decidedAt, cfg.grantTtl));
      if c.Valid() then Some(c) else None
  }

  function BuildDecision(cfg: Config, a: Approval, i: Intent, principal: string, r: DecisionRequest,
                         jti: Id, eventId: Id, now: int): Option<DecisionWrite>
  {
    if !DecisionContextValid(a, i, principal, r, now) then None
    else
      var d := Decision(r.approvalId, r.intentId, r.kind, r.approvedAmount, principal, now);
      match r.kind
      case Approve =>
        var grant := IssueGrant(cfg, a, d, jti);
        if grant.None? then None
        else
          Some(DecisionWrite(d, grant, None, i.updatedAt,
                             PlainEvent(eventId, EventKey(i.identity.id, ApprovalGranted, 0), now)))
      case Reject =>
        Some(DecisionWrite(d, None, Some(RejectedIntent(i, now)), i.updatedAt,
                           PlainEvent(eventId, EventKey(i.identity.id, ApprovalRejectedEvent, 0), now)))
  }

  /** Opening the sealed token yields the claims it was sealed with; they must
      agree with every column of the row. */
  function VerifyGrant(a: Approval, now: int): Option<Claims> {
    if !(a.status.ApprovalApproved? || a.status.ApprovalConsumed?) || !a.HasPersistedGrant() then None
    else
      var c := a.sealedGrant.value;
      if && c.Valid()
         && a.grantJti == Some(c.jti)
         && c.approvalId == a.id
         && c.intentId == a.intentId
         && c.intentHash == a.intentHash
         && a.approvedAmount == Some(c.amount)
         && a.approvedBy == Some(c.approver)
         && a.approvedAt == Some(c.iat)
         && c.exp == a.expiresAt
         && c.iat <= now < c.exp
         && a.grantClaimsHash == Some(c)
      then Some(c) else None
  }

  function BuildConsumption(a: Approval, i: Intent, origin: string, eventId: Id, now: int): Option<Consumption> {
    var grant := VerifyGrant(a, now);
    if || a.intentId != i.identity.id || a.intentHash != i.identity.requestHash
       || !a.status.ApprovalApproved? || !i.status.PendingApproval?
       || grant.None?
       || grant.value.intentId != i.identity.id || grant.value.intentHash != i.identity.requestHash
       || grant.value.amount != i.identity.amount
    then None
    else
      Some(Consumption(
        grant.value,
        i.(status := Authorized, reservation := Reserved, reservedAmount := grant.value.amount,
           updatedAt := NextTimestamp(i.updatedAt, now)),
        i.updatedAt, origin, now,
        PlainEvent(eventId, EventKey(i.identity.id, ApprovalConsumedEvent, 0), now)))
  }

  // ---------------------------------------------------------------- signing

  /** What a signing brings besides the row: the credential and identifiers made
      for it; whether the balances sufficed and the adapter and signer gave a
      matching credential; and whether the client, scenario, policy, wallet and
      active key it was based on are unchanged when it commits. */
  datatype SigningRequest = SigningRequest(
    credentialHash: string, requestedId: Id, signedId: Id, funded: bool, authorityHeld: bool)

  function BuildSigning(i: Intent, signing: SigningRequest, now: int): Option<SigningWrite> {
    if !signing.funded || !(i.status.Authorized? && i.reservation.Reserved? && i.reservedAmount == i.identity.amount)
    then None
    else
      Some(SigningWrite(
        i.(status := Signed, nextReconcileAt := Some(SaturatingAdd(now, 1)),
           updatedAt := NextTimestamp(i.updatedAt, now)),
        signing.credentialHash, i.updatedAt, signing.authorityHeld, now,
        [PlainEvent(signing.requestedId, EventKey(i.identity.id, SignRequested, 0), now),
         Event(RandomId(signing.signedId), EventKey(i.identity.id, SignedEvent, 0), Some(signing.credentialHash), None,
               SignedCredential(signing.credentialHash), now)]))
  }

  // --------------------------------------------------------------- evidence

  /** A decoded merchant receipt, in canonical form. */
  datatype MerchantResponse = MerchantResponse(
    scenarioId: Id, runId: Id, intentId: Id, protocol: string,
    accepted: bool, network: Option<string>, transaction: Option<string>, payer: Option<string>)

  predicate ResponseBound(i: Intent, r: MerchantResponse) {
    && i.identity.id == r.intentId
    && i.identity.scenarioId == r.scenarioId
    && i.identity.runId == r.runId
    && i.identity.direction.Outbound?
    && i.identity.protocol == r.protocol
    && (i.status.Signed? || i.status.PendingSettlement? || i.status.Unknown? || i.status.Settled?)
  }

  function PendingIntent(i: Intent, now: int): Intent {
    var updatedAt := NextTimestamp(i.updatedAt, now);
    i.(status := PendingSettlement, updatedAt := updatedAt, nextReconcileAt := Some(updatedAt))
  }

  /** A response that reports failure writes nothing at all. */
  function BuildEvidence(i: Intent, r: MerchantResponse, expectedPayer: string, now: int): Option<EvidenceWrite> {
    var network := if r.network.Some? then r.network.value else i.identity.asset.network;
    if || !ResponseBound(i, r) || !r.accepted
       || network != i.identity.asset.network
       || r.transaction.None?
       || (r.payer.Some? && r.payer.value != expectedPayer)
    then None
    else
      var pending := PendingIntent(i, now);
      var hash := EvidenceHash(
        i.identity.protocol, i.identity.id, i.identity.runId, network, r.transaction.value, expectedPayer);
      Some(EvidenceWrite(pending, i.updatedAt, hash,
        Event(MerchantEventId(i.identity.protocol, i.identity.id), SubmittedKey(i.identity.id), None, None,
              MerchantHint(hash, r.transaction.value, network, expectedPayer), pending.updatedAt)))
  }

  // --------------------------------------------------------- reconciliation

  datatype ConfirmedSettlement = ConfirmedSettlement(
    authority: string, asset: Asset, recipient: string, payer: Option<string>, settledAmount: Amount,
    postingKey: PostingKey, txHash: Option<string>, settlementRef: Option<string>, effectRef: Option<string>,
    confirmations: nat, minimumConfirmations: nat, effectiveAt: int)

  datatype Evidence =
    | Confirmed(settlement: ConfirmedSettlement)
    | Verified(verificationRef: string)
    | StillPending
    | AuthorizationExpired
    | Inconclusive
    | Unavailable
    | LookupFailed

  function SettlementPostingKey(authority: string, network: string, tx: Option<string>, reference: Option<string>,
                                effect: Option<string>): Option<PostingKey>
  {
    if effect == Some("") then None
    else if tx.Some? && tx.value != "" then
      if network == "" then None
      else if effect.Some? then Some(ChainEffect(network, tx.value, effect.value))
      else Some(ChainFact(network, tx.value))
    else if reference.Some? && reference.value != "" then
      if authority == "" then None
      else if effect.Some? then Some(ProviderEffect(authority, reference.value, effect.value))
      else Some(ProviderFact(authority, reference.value))
    else None
  }

  predicate TrustedEffectiveTime(createdAt: int, effectiveAt: int, observedAt: int) {
    0 <= effectiveAt && createdAt - MAX_PAST_SKEW <= effectiveAt <= SaturatingAdd(observedAt, MAX_FUTURE_SKEW)
  }

  predicate SettlementValidFor(e: ConfirmedSettlement, i: Intent, observedAt: int) {
    && e.authority != ""
    && SettlementPostingKey(e.authority, i.identity.asset.network, e.txHash, e.settlementRef, e.effectRef) ==
         Some(e.postingKey)
    && e.settledAmount == i.identity.amount
    && e.asset == i.identity.asset
    && e.recipient == i.identity.recipient
    && e.minimumConfirmations <= e.confirmations
    && TrustedEffectiveTime(i.identity.createdAt, e.effectiveAt, observedAt)
    && (i.txHash.Some? ==> e.txHash == i.txHash)
    && (i.settlementRef.Some? ==> e.settlementRef == i.settlementRef)
  }

  /** What the operator's own chain access reports for a transfer query. */
  datatype Receipt =
    | ReceiptConfirmed(authority: string, transaction: string, effectRef: string,
                       confirmations: nat, minimumConfirmations: nat, effectiveAt: int)
    | ReceiptPending
    | ReceiptMismatch
    | ReceiptError

  predicate StoredResponseValid(e: Event, i: Intent) {
    && e.key.intentId == i.identity.id && e.txHash.None? && e.signatureRef.None?
    && e.payload.MerchantHint?
    && e.payload.network == i.identity.asset.network
    && e.payload.evidenceHash == EvidenceHash(i.identity.protocol, i.identity.id, i.identity.runId,
                                              e.payload.network, e.payload.transaction, e.payload.payer)
  }

  /** Outbound evidence is only ever looked up through the merchant's recorded locator. */
  function OutboundLookup(events: map<EventKey, Event>, i: Intent, expectedPayer: string, receipt: Receipt): Evidence {
    var key := SubmittedKey(i.identity.id);
    if key !in events then Unavailable
    else if !StoredResponseValid(events[key], i) then LookupFailed
    else if events[key].payload.payer != expectedPayer then Inconclusive
    else if i.identity.asset.tokenContract.None? then LookupFailed
    else match receipt
      case ReceiptPending => StillPending
      case ReceiptMismatch => Inconclusive
      case ReceiptError => LookupFailed
      case ReceiptConfirmed(authority, transaction, effect, confirmations, minimum, effectiveAt) =>
        var posting := SettlementPostingKey(authority, i.identity.asset.network, Some(transaction), None, Some(effect));
        if posting.None? then LookupFailed
        else Confirmed(ConfirmedSettlement(
               authority, i.identity.asset, i.identity.recipient, Some(expectedPayer), i.identity.amount,
               posting.value, Some(transaction), None, Some(effect), confirmations, minimum, effectiveAt))
  }

  function ReconciledIntent(i: Intent, e: ConfirmedSettlement, now: int): Intent {
    i.(status := Settled, settledAmount := e.settledAmount, txHash := e.txHash, settlementRef := e.settlementRef,
       nextReconcileAt := None, settledAt := Some(Max(e.effectiveAt, i.identity.createdAt)),
       updatedAt := NextTimestamp(i.updatedAt, now),
       reservation := if i.reservation.Reserved? then Consumed else i.reservation)
  }

  function ReconciledLedger(i: Intent, e: ConfirmedSettlement, now: int): LedgerEntry {
    LedgerEntry(
      LedgerId(i.identity.walletId, i.identity.id, e.postingKey), Some(i.identity.id), Some(i.identity.scenarioId),
      i.identity.walletId, Payment, i.identity.direction, i.identity.asset, e.settledAmount, e.postingKey, e.txHash,
      e.settlementRef, e.effectRef, e.effectiveAt, now)
  }

  function BuildConfirmed(i: Intent, e: ConfirmedSettlement, attempt: nat, now: int): Option<SettlementWrite> {
    if !SettlementValidFor(e, i, now) then None
    else
      Some(SettlementWrite(ReconciledIntent(i, e, now), i.updatedAt, [ReconciledLedger(i, e, now)],
        [Event(PostingEventId(LedgerId(i.identity.walletId, i.identity.id, e.postingKey)),
               EventKey(i.identity.id, Reconciled, attempt), None, e.txHash, Opaque(e.authority), now)]))
  }

  function ExpiredWrite(i: Intent, stage: string, attempt: nat, now: int): ProgressWrite {
    var updatedAt := NextTimestamp(i.updatedAt, now);
    ProgressWrite(
      i.(status := Expired, reservation := Released, nextReconcileAt := None, updatedAt := updatedAt), i.updatedAt,
      [Event(StableEventId(["event", i.identity.id, stage]), EventKey(i.identity.id, FailedEvent, attempt),
             None, None, Opaque(stage), updatedAt)])
  }

  function BuildExpiredChallenge(i: Intent, attempt: nat, now: int): Option<ProgressWrite> {
    if i.status.Created? && i.identity.expiresAt.Some? && i.identity.expiresAt.value <= now && i.reservation.Reserved?
    then Some(ExpiredWrite(i, "challenge_expiry", attempt, now)) else None
  }

  function BuildExpiredSettlement(i: Intent, attempt: nat, now: int): Option<ProgressWrite> {
    if i.identity.direction.Inbound? && i.identity.protocol == "x402"
       && (i.status.PendingSettlement? || i.status.Unknown?) && i.reservation.Reserved?
    then Some(ExpiredWrite(i, "settlement_authorization_expiry", attempt, now)) else None
  }

  function BuildVerified(cfg: Config, i: Intent, reference: string, attempt: nat, now: int): Option<ProgressWrite> {
    var updatedAt := NextTimestamp(i.updatedAt, now);
    if !i.status.Submitted? || reference == "" || updatedAt + cfg.initialBackoff > I64_MAX then None
    else
      Some(ProgressWrite(
        i.(status := PendingSettlement, updatedAt := updatedAt,
           nextReconcileAt := Some(updatedAt + cfg.initialBackoff)),
        i.updatedAt,
        [Event(StableEventId(["event", i.identity.id, "verified", reference]),
               EventKey(i.identity.id, CredentialVerified, attempt), None, None, Opaque(reference), updatedAt)]))
  }

  /** Exponential delay recovered from the row: the distance between its
      schedule and its version. */
  function NextBackoff(cfg: Config, i: Intent): int {
    var previous :=
      if i.nextReconcileAt.Some? && i.nextReconcileAt.value - i.updatedAt >= cfg.initialBackoff
      then i.nextReconcileAt.value - i.updatedAt else 0;
    if previous == 0 then cfg.initialBackoff else Min(2 * previous, cfg.maxBackoff)
  }
}
