/** Records of the payment core: intents, approvals, events, ledger entries and
    the catalog rows that limit them.

    Amounts are unsigned 128-bit, timestamps are signed 64-bit seconds. Digests
    (evidence hashes, posting keys, deterministic event and ledger identifiers)
    are represented by the value they are computed from. */
module Domain {
  import opened Options

  const I64_MAX: int := 0x7FFF_FFFF_FFFF_FFFF
  const U128_MAX: int := 0xFFFF_FFFF_FFFF_FFFF_FFFF_FFFF_FFFF_FFFF

  type Id = string
  type Amount = n: int | 0 <= n <= U128_MAX

  /** `i64::saturating_add` for a non-negative second operand. */
  function SaturatingAdd(time: int, seconds: nat): int {
    if time + seconds > I64_MAX then I64_MAX else time + seconds
  }

  function Max(a: int, b: int): int { if a < b then b else a }

  function Min(a: int, b: int): int { if a < b then a else b }

  /** The revision every writer stamps on the version it commits. */
  function NextTimestamp(previous: int, now: int): int {
    Max(now, SaturatingAdd(previous, 1))
  }

  function CheckedAdd(a: Amount, b: Amount): Option<Amount> {
    if a + b <= U128_MAX then Some(a + b) else None
  }

  datatype Direction = Inbound | Outbound

  datatype PaymentStatus =
    | Created | PendingApproval | Authorized | Signed | Submitted
    | PendingSettlement | Settled | Failed | Expired | Unknown

  datatype ReservationStatus = Unreserved | Reserved | Consumed | Released

  /** Scalar limits are expressed in this unit; network and token contract do
      not take part, so one denomination shares one budget. */
  datatype BudgetUnit = BudgetUnit(asset: string, decimals: nat)

  datatype Asset = Asset(network: string, unit: BudgetUnit, tokenContract: Option<string>)

  /** The columns of an intent that no update may change. */
  datatype Identity = Identity(
    id: Id, scenarioId: Id, runId: Id, walletId: Id, policyId: Id, priceId: Option<Id>,
    direction: Direction, protocol: string, asset: Asset, recipient: string, amount: Amount,
    resource: string, challengeHash: Option<string>, requestHash: string,
    createdAt: int, expiresAt: Option<int>)

  datatype Intent = Intent(
    identity: Identity,
    status: PaymentStatus,
    reservation: ReservationStatus,
    reservedAmount: Amount,
    settledAmount: Amount,
    txHash: Option<string>,
    settlementRef: Option<string>,
    nextReconcileAt: Option<int>,
    updatedAt: int,
    settledAt: Option<int>)
  {
    predicate NeedsReconciliation() {
      status.Signed? || status.Submitted? || status.PendingSettlement? || status.Unknown?
    }

    predicate IsFinal() {
      status.Settled? || status.Failed? || status.Expired?
    }
  }

  datatype ApprovalStatus = ApprovalPending | ApprovalApproved | ApprovalRejected | ApprovalExpired | ApprovalConsumed

  /** Claims of the one-time approval token; `exp` is the claim of section 4.1.4 of RFC 7519. */
  datatype Claims = Claims(
    jti: Id, approvalId: Id, intentId: Id, intentHash: string, amount: Amount,
    approver: string, iat: int, exp: int)
  {
    predicate Valid() {
      amount > 0 && 0 <= iat < exp
    }
  }

  datatype Approval = Approval(
    id: Id, intentId: Id, requestedAmount: Amount, requestedBy: string, intentHash: string, createdAt: int,
    status: ApprovalStatus,
    approvedAmount: Option<Amount>, approvedBy: Option<string>,
    grantJti: Option<Id>, grantClaimsHash: Option<Claims>, sealedGrant: Option<Claims>,
    expiresAt: int, consumedAt: Option<int>, approvedAt: Option<int>)
  {
    predicate IsActive() {
      status.ApprovalPending? || status.ApprovalApproved?
    }

    predicate HasPersistedGrant() {
      grantJti.Some? && grantClaimsHash.Some? && sealedGrant.Some?
    }
  }

  datatype EventType =
    | ChallengeCreated | ChallengeReceived | SignRequested | SignedEvent
    | ApprovalRequested | ApprovalGranted | ApprovalRejectedEvent | ApprovalConsumedEvent
    | CredentialVerified | SubmittedEvent | SettlementRequested | SettledEvent
    | Retried | FailedEvent | Reconciled

  /** Rows are unique on this triple as well as on their own identifier. */
  datatype EventKey = EventKey(intentId: Id, eventType: EventType, attemptNo: nat)

  datatype EventId =
    | RandomId(uuid: Id)
    | MerchantEventId(protocol: string, intentId: Id)
    | StableEventId(material: seq<string>)
    | PostingEventId(posting: LedgerId)
    | ApprovalExpiryId(approvalId: Id)

  datatype EvidenceHash = EvidenceHash(
    protocol: string, intentId: Id, runId: Id, network: string, transaction: string, payer: string)

  datatype Payload =
    | Opaque(note: string)
    | MerchantHint(evidenceHash: EvidenceHash, transaction: string, network: string, payer: string)
    | SignedCredential(credentialHash: string)

  datatype Event = Event(
    id: EventId, key: EventKey, signatureRef: Option<string>, txHash: Option<string>,
    payload: Payload, createdAt: int)

  datatype LedgerEntryType = Payment | Fee | Refund | Deposit | Transfer | Reversal

  /** Stable identity of one external financial fact. */
  datatype PostingKey =
    | ChainEffect(network: string, transaction: string, effect: string)
    | ChainFact(network: string, transaction: string)
    | ProviderEffect(authority: string, reference: string, effect: string)
    | ProviderFact(authority: string, reference: string)

  datatype LedgerId = LedgerId(walletId: Id, intentId: Id, postingKey: PostingKey)

  datatype LedgerEntry = LedgerEntry(
    id: LedgerId, intentId: Option<Id>, scenarioId: Option<Id>, walletId: Id,
    entryType: LedgerEntryType, direction: Direction, asset: Asset, amount: Amount,
    postingKey: PostingKey, txHash: Option<string>, settlementRef: Option<string>,
    effectRef: Option<string>, effectiveAt: int, createdAt: int)

  datatype Limits = Limits(
    maxPerPayment: Amount, maxPerDay: Amount, approvalThreshold: Option<Amount>,
    approvalEnabled: bool, approvalOverage: Option<Amount>)
  {
    function HardDailyLimit(): Option<Amount> {
      CheckedAdd(maxPerDay, if approvalOverage.Some? then approvalOverage.value else 0)
    }

    predicate RequiresApproval(amount: Amount) {
      approvalEnabled && approvalThreshold.Some? && amount >= approvalThreshold.value
    }

    predicate Valid() {
      && maxPerPayment > 0
      && maxPerDay > 0
      && maxPerPayment <= maxPerDay
      && approvalThreshold != Some(0)
      && approvalOverage != Some(0)
      && (approvalEnabled || approvalOverage.None?)
      && HardDailyLimit().Some?
    }
  }

  datatype Policy = Policy(
    id: Id, scenarioId: Id, walletIds: seq<Id>, protocols: seq<string>, networks: seq<string>,
    assets: seq<Asset>, unit: BudgetUnit, allowedRecipients: seq<string>, allowedOrigins: seq<string>,
    inboundLimits: Option<Limits>, outboundLimits: Option<Limits>, enabled: bool)
  {
    function LimitsFor(direction: Direction): Option<Limits> {
      if direction.Inbound? then inboundLimits else outboundLimits
    }

    predicate AllowsWallet(walletId: Id) { enabled && walletId in walletIds }

    predicate AllowsDirection(direction: Direction) { enabled && LimitsFor(direction).Some? }

    predicate AllowsProtocol(protocol: string) { enabled && protocol in protocols }

    predicate AllowsAsset(asset: Asset) { enabled && asset.network in networks && asset in assets }

    predicate AllowsRecipient(recipient: string) { enabled && recipient in allowedRecipients }

    predicate AllowsOrigin(origin: string) { enabled && origin in allowedOrigins }

    predicate Valid() {
      && |walletIds| > 0
      && (inboundLimits.Some? || outboundLimits.Some?)
      && (inboundLimits.Some? ==> inboundLimits.value.Valid())
      && (outboundLimits.Some? ==> outboundLimits.value.Valid())
      && (forall asset :: asset in assets ==> asset.unit == unit)
    }
  }

  datatype Wallet = Wallet(id: Id, unit: BudgetUnit, maxPerPayment: Option<Amount>, maxPerDay: Option<Amount>)
}
