/** One function per storage transaction: the tables it leaves behind, or the
    reason it refuses. All row changes of a transaction commit together. */
module Transactions {
  import opened Options
  import opened Domain
  import opened PaymentTables

  // -------------------------------------------------------- authorization

  datatype AuthorizationAction = RecordDenied | RequestApproval | Reserve

  datatype AuthorizationWrite = AuthorizationWrite(
    intent: Intent, approval: Option<Approval>, action: AuthorizationAction,
    origin: string, evaluatedAt: int, events: seq<Event>)

  predicate RunExists(s: Store, scenarioId: Id, runId: Id) {
    exists id :: id in s.intents && s.intents[id].identity.scenarioId == scenarioId
      && s.intents[id].identity.runId == runId
  }

  predicate RunBoundTo(s: Store, i: Identity) {
    exists id :: id in s.intents && s.intents[id].identity.scenarioId == i.scenarioId
      && s.intents[id].identity.runId == i.runId && s.intents[id].identity.requestHash == i.requestHash
  }

  /** Bindings every authorization needs, and the scope a non-denied one needs. */
  predicate AuthorizationGuard(cfg: Config, w: AuthorizationWrite) {
    var i := w.intent.identity;
    && RowValid(w.intent)
    && i.direction.Outbound?
    && i.policyId in cfg.policies
    && i.walletId in cfg.wallets
    && var policy := cfg.policies[i.policyId];
    && policy.scenarioId == i.scenarioId
    && i.walletId in policy.walletIds
    && (!w.action.RecordDenied? ==>
          && policy.enabled
          && cfg.wallets[i.walletId].unit == policy.unit
          && policy.AllowsDirection(i.direction)
          && policy.AllowsProtocol(i.protocol)
          && policy.AllowsAsset(i.asset)
          && policy.AllowsRecipient(i.recipient)
          && policy.AllowsOrigin(w.origin)
          && (i.expiresAt.Some? ==> w.evaluatedAt < i.expiresAt.value)
          && i.amount <= policy.LimitsFor(i.direction).value.maxPerPayment)
  }

  predicate ChallengeReceivedBound(events: seq<Event>, i: Intent) {
    && (exists n :: 0 <= n < |events| && events[n].key.eventType.ChallengeReceived?)
    && (forall n, m :: 0 <= n < m < |events|
          ==> !(events[n].key.eventType.ChallengeReceived? && events[m].key.eventType.ChallengeReceived?))
    && (forall n :: 0 <= n < |events| && events[n].key.eventType.ChallengeReceived?
          ==> && events[n].key == EventKey(i.identity.id, ChallengeReceived, 0)
              && events[n].signatureRef.None? && events[n].txHash.None?
              && events[n].createdAt == i.identity.createdAt)
  }

  predicate ActionMatches(w: AuthorizationWrite) {
    match w.action
    case RecordDenied => w.approval.None? && w.intent.status.Failed? && w.intent.reservation.Unreserved?
    case RequestApproval =>
      && w.approval.Some? && w.approval.value.intentId == w.intent.identity.id
      && w.intent.status.PendingApproval? && w.intent.reservation.Unreserved?
    case Reserve =>
      && w.approval.None? && w.intent.status.Authorized? && w.intent.reservation.Reserved?
      && w.intent.reservedAmount == w.intent.identity.amount
  }

  /** Foreign key to the intent, the active-row index and the table's checks. */
  predicate ApprovalInsertable(s: Store, a: Approval, i: Identity) {
    && a.id !in s.approvals
    && a.intentId == i.id && a.intentHash == i.requestHash
    && a.requestedAmount > 0
    && a.createdAt < a.expiresAt
    && !(exists other :: other in s.approvals && s.approvals[other].intentId == i.id && s.approvals[other].IsActive())
  }

  ghost function Authorize(cfg: Config, s: Store, w: AuthorizationWrite): Tx {
    var i := w.intent.identity;
    if RunExists(s, i.scenarioId, i.runId) then
      if RunBoundTo(s, i) then Replayed else Refused(Conflict)
    else if !AuthorizationGuard(cfg, w) then Refused(PolicyDenied)
    else if !ChallengeReceivedBound(w.events, w.intent) || !ActionMatches(w) then Refused(Conflict)
    else if w.action.Reserve? && !EnforceBudget(cfg, s, i, w.evaluatedAt, false) then Refused(PolicyDenied)
    else if i.id in s.intents then Refused(Conflict)
    else if w.approval.Some? && !ApprovalInsertable(s, w.approval.value, i) then Refused(Conflict)
    else
      var events := AppendEvents(s.events, w.events);
      if events.None? then Refused(Conflict)
      else Committed(s.(
        intents := s.intents[i.id := w.intent],
        approvals := if w.approval.Some? then s.approvals[w.approval.value.id := w.approval.value] else s.approvals,
        events := events.value))
  }

  // ------------------------------------------------------------- approvals

  datatype DecisionKind = Approve | Reject

  datatype Decision = Decision(
    approvalId: Id, intentId: Id, kind: DecisionKind, approvedAmount: Option<Amount>,
    approvedBy: string, decidedAt: int)

  datatype DecisionWrite = DecisionWrite(
    decision: Decision, grant: Option<Claims>, failed: Option<Intent>, expected: int, event: Event)

  predicate DecisionValid(a: Approval, d: Decision, now: int) {
    && a.id == d.approvalId
    && a.intentId == d.intentId
    && a.status.ApprovalPending? && now < a.expiresAt
    && (match d.kind
        case Approve => d.approvedAmount.Some? && 0 < d.approvedAmount.value <= a.requestedAmount
        case Reject => d.approvedAmount.None?)
  }

  predicate GrantValid(a: Approval, i: Intent, d: Decision, c: Claims) {
    && c.Valid()
    && c.approvalId == a.id
    && c.intentId == a.intentId
    && c.intentHash == a.intentHash == i.identity.requestHash
    && Some(c.amount) == d.approvedAmount
    && c.approver == d.approvedBy
    && c.iat == d.decidedAt
    && c.exp <= a.expiresAt
  }

  /** On approval the row takes the grant's own expiry. */
  function ApprovedRow(a: Approval, d: Decision, c: Claims): Approval {
    a.(status := ApprovalApproved, approvedAmount := Some(c.amount), approvedBy := Some(c.approver),
       grantJti := Some(c.jti), grantClaimsHash := Some(c), sealedGrant := Some(c),
       expiresAt := c.exp, approvedAt := Some(d.decidedAt))
  }

  function RejectedRow(a: Approval, d: Decision): Approval {
    a.(status := ApprovalRejected, approvedBy := Some(d.approvedBy), approvedAt := Some(d.decidedAt))
  }

  function Decide(s: Store, w: DecisionWrite): Tx {
    var d := w.decision;
    if d.approvalId !in s.approvals then Refused(NotFound)
    else
      var a := s.approvals[d.approvalId];
      if !DecisionValid(a, d, d.decidedAt) then Refused(Conflict)
      else if a.intentId !in s.intents then Refused(StorageFailure)
      else
        var i := s.intents[a.intentId];
        if a.intentHash != i.identity.requestHash || w.event.key.intentId != i.identity.id then Refused(Conflict)
        else
          var events := InsertEvent(s.events, w.event);
          match d.kind
          case Approve =>
            if w.grant.None? || !GrantValid(a, i, d, w.grant.value) || w.failed.Some? || events.None? then
              Refused(Conflict)
            else
              Committed(s.(approvals := s.approvals[a.id := ApprovedRow(a, d, w.grant.value)], events := events.value))
          case Reject =>
            if || w.grant.Some? || w.failed.None? || !CanUpdate(s, w.failed.value, w.expected, Unchanged)
               || events.None?
            then
              Refused(Conflict)
            else
              Committed(WithIntent(s, w.failed.value).(
                approvals := s.approvals[a.id := RejectedRow(a, d)], events := events.value))
  }

  datatype Consumption = Consumption(
    claims: Claims, intent: Intent, expected: int, origin: string, evaluatedAt: int, event: Event)

  predicate VerifiedGrantMatches(a: Approval, i: Intent, c: Claims, now: int) {
    && a.status.ApprovalApproved?
    && now < a.expiresAt
    && now < c.exp
    && c.approvalId == a.id
    && c.intentId == i.identity.id
    && c.intentHash == a.intentHash == i.identity.requestHash
    && a.grantJti == Some(c.jti)
    && a.grantClaimsHash == Some(c)
    && a.approvedAmount == Some(c.amount)
    && a.approvedBy == Some(c.approver)
    && a.requestedAmount == i.identity.amount == c.amount
    && i.identity.direction.Outbound?
    && i.status.Authorized?
    && i.reservation.Reserved?
    && i.reservedAmount == i.identity.amount
  }

  predicate PaymentScope(cfg: Config, i: Identity, origin: string) {
    && i.policyId in cfg.policies
    && i.walletId in cfg.wallets
    && var policy := cfg.policies[i.policyId];
    && policy.enabled
    && policy.scenarioId == i.scenarioId
    && policy.AllowsWallet(i.walletId)
    && policy.AllowsDirection(i.direction)
    && policy.AllowsProtocol(i.protocol)
    && policy.AllowsAsset(i.asset)
    && cfg.wallets[i.walletId].unit == policy.unit
    && (i.direction.Outbound? ==> policy.AllowsRecipient(i.recipient))
    && policy.AllowsOrigin(origin)
  }

  function ConsumedRow(a: Approval, now: int): Approval {
    a.(status := ApprovalConsumed, consumedAt := Some(now))
  }

  ghost function ConsumeAndReserve(cfg: Config, s: Store, w: Consumption): Tx {
    if w.claims.approvalId !in s.approvals then Refused(NotFound)
    else
      var a := s.approvals[w.claims.approvalId];
      var events := InsertEvent(s.events, w.event);
      if !VerifiedGrantMatches(a, w.intent, w.claims, w.evaluatedAt) then Refused(Conflict)
      else if !PaymentScope(cfg, w.intent.identity, w.origin) then Refused(PolicyDenied)
      else if !EnforceBudget(cfg, s, w.intent.identity, w.evaluatedAt, true) then Refused(PolicyDenied)
      else if !CanUpdate(s, w.intent, w.expected, ApprovalReserve) || events.None? then Refused(Conflict)
      else
        Committed(WithIntent(s, w.intent).(
          approvals := s.approvals[a.id := ConsumedRow(a, w.evaluatedAt)], events := events.value))
  }

  function ExpiryEvent(a: Approval, now: int): Event {
    Event(ApprovalExpiryId(a.id), EventKey(a.intentId, FailedEvent, 0), None, None, Opaque("approval_expired"), now)
  }

  function ExpiredIntent(i: Intent, now: int): Intent {
    i.(status := Expired, updatedAt := NextTimestamp(i.updatedAt, now))
  }

  /** One row of the expiry sweep. A row that is not due is skipped; the sweep
      fails closed when the bound intent already owns a reservation. */
  function ExpireApproval(s: Store, id: Id, now: int): Tx {
    if id !in s.approvals || !s.approvals[id].IsActive() || now < s.approvals[id].expiresAt then Replayed
    else
      var a := s.approvals[id];
      if a.intentId !in s.intents || !s.intents[a.intentId].reservation.Unreserved? then Refused(StorageFailure)
      else
        var i := s.intents[a.intentId];
        var expired := ExpiredIntent(i, now);
        var events := InsertEvent(s.events, ExpiryEvent(a, now));
        if !CanUpdate(s, expired, i.updatedAt, Unchanged) || events.None? then Refused(Conflict)
        else
          Committed(WithIntent(s, expired).(
            approvals := s.approvals[id := a.(status := ApprovalExpired)], events := events.value))
  }

  /** The sweep is one transaction: all selected rows, or none. */
  function ExpireDue(s: Store, ids: seq<Id>, now: int): Tx
    decreases |ids|
  {
    if ids == [] then Committed(s)
    else
      var first := ExpireApproval(s, ids[0], now);
      if first.Refused? then first else ExpireDue(After(s, first), ids[1..], now)
  }

  // --------------------------------------------------------------- signing

  datatype SigningWrite = SigningWrite(
    intent: Intent, credentialHash: string, expected: int, authorityHeld: bool, evaluatedAt: int, events: seq<Event>)

  predicate IsSignedReplayStatus(status: PaymentStatus) {
    status.Signed? || status.Submitted? || status.PendingSettlement? || status.Unknown? || status.Settled?
  }

  predicate SigningEventsValid(events: seq<Event>, id: Id, credentialHash: string) {
    && |events| == 2
    && events[0].key == EventKey(id, SignRequested, 0)
    && events[1].key == EventKey(id, SignedEvent, 0)
    && events[1].signatureRef == Some(credentialHash)
    && events[1].payload == SignedCredential(credentialHash)
  }

  /** The current row still holds its complete reservation and has not expired. */
  predicate SigningAuthority(existing: Intent, w: SigningWrite) {
    && existing.identity == w.intent.identity
    && existing.identity.direction.Outbound?
    && existing.updatedAt == w.expected
    && existing.status.Authorized?
    && existing.reservation.Reserved?
    && existing.reservedAmount == existing.identity.amount
    && existing.identity.expiresAt.Some? && w.evaluatedAt < existing.identity.expiresAt.value
    && w.intent.status.Signed?
    && w.expected < w.intent.updatedAt
  }

  function CommitSigned(s: Store, w: SigningWrite): Tx {
    if w.intent.identity.id !in s.intents then Refused(NotFound)
    else
      var existing := s.intents[w.intent.identity.id];
      if IsSignedReplayStatus(existing.status) then
        if existing.identity == w.intent.identity then Replayed else Refused(Conflict)
      else if !w.authorityHeld || !SigningAuthority(existing, w) then Refused(Conflict)
      else if !SigningEventsValid(w.events, existing.identity.id, w.credentialHash) then Refused(Conflict)
      else if !CanUpdate(s, w.intent, w.expected, Unchanged) then Refused(Conflict)
      else
        var events := AppendEvents(s.events, w.events);
        if events.None? then Refused(Conflict)
        else Committed(WithIntent(s, w.intent).(events := events.value))
  }

  // ----------------------------------------------------- merchant evidence

  datatype EvidenceWrite = EvidenceWrite(intent: Intent, expected: int, evidenceHash: EvidenceHash, event: Event)

  function SubmittedKey(id: Id): EventKey { EventKey(id, SubmittedEvent, 0) }

  predicate EvidenceReplayMatches(stored: Event, id: Id, hash: EvidenceHash) {
    && stored.key == SubmittedKey(id)
    && stored.signatureRef.None? && stored.txHash.None?
    && stored.payload.MerchantHint? && stored.payload.evidenceHash == hash
  }

  /** The hint may only move a signed or unknown payment to pending settlement,
      and leaves its reservation and every financial field alone. */
  predicate EvidenceTransitionValid(existing: Intent, w: EvidenceWrite) {
    var c := w.intent;
    && existing.updatedAt == w.expected
    && existing.identity.direction.Outbound?
    && (existing.status.Signed? || existing.status.Unknown?)
    && c.status.PendingSettlement?
    && existing.identity == c.identity
    && w.expected < c.updatedAt
    && c.reservation == existing.reservation == Reserved
    && c.reservedAmount == existing.reservedAmount == existing.identity.amount
    && c.settledAmount == existing.settledAmount
    && c.txHash == existing.txHash
    && c.settlementRef == existing.settlementRef
    && c.settledAt == existing.settledAt
    && c.nextReconcileAt.Some?
    && w.event.key == SubmittedKey(existing.identity.id)
    && w.event.signatureRef.None? && w.event.txHash.None?
    && w.event.createdAt == c.updatedAt
    && w.event.payload.MerchantHint?
    && w.event.payload.evidenceHash == w.evidenceHash
    && w.event.payload.network == existing.identity.asset.network
    && w.event.payload.transaction != "" && w.event.payload.payer != ""
  }

  function RecordEvidence(s: Store, w: EvidenceWrite): Tx {
    var id := w.intent.identity.id;
    if id !in s.intents then Refused(NotFound)
    else if SubmittedKey(id) in s.events then
      if EvidenceReplayMatches(s.events[SubmittedKey(id)], id, w.evidenceHash) then Replayed else Refused(Conflict)
    else if !EvidenceTransitionValid(s.intents[id], w) then Refused(Conflict)
    else if !CanUpdate(s, w.intent, w.expected, Unchanged) then Refused(Conflict)
    else
      var events := InsertEvent(s.events, w.event);
      if events.None? then Refused(Conflict)
      else Committed(WithIntent(s, w.intent).(events := events.value))
  }

  // -------------------------------------------------------------- progress

  datatype ProgressWrite = ProgressWrite(intent: Intent, expected: int, events: seq<Event>)

  predicate ProgressEventAllowed(e: Event, id: Id) {
    && e.key.intentId == id
    && (e.key.eventType.CredentialVerified? || e.key.eventType.SettlementRequested?
        || e.key.eventType.Retried? || e.key.eventType.FailedEvent?)
  }

  /** The reservation change a non-financial step may carry, if it is valid. */
  function ProgressMutation(existing: Intent, w: ProgressWrite): Option<Mutation> {
    var c := w.intent;
    if existing.updatedAt != w.expected
      || existing.identity != c.identity
      || !AllowedStatusTransition(existing.status, c.status)
      || !(c.status.PendingSettlement? || c.status.Unknown? || c.status.Failed? || c.status.Expired?)
      || c.settledAmount != existing.settledAmount
      || c.txHash != existing.txHash
      || c.settlementRef != existing.settlementRef
      || c.settledAt != existing.settledAt
      || w.events == []
      || (exists e :: e in w.events && !ProgressEventAllowed(e, c.identity.id))
    then None
    else if c.reservation == existing.reservation && c.reservedAmount == existing.reservedAmount then Some(Unchanged)
    else if existing.reservation.Reserved? && c.reservation.Released?
         && c.reservedAmount == existing.reservedAmount && (c.status.Failed? || c.status.Expired?)
    then Some(ReleaseOnly)
    else None
  }

  function CommitProgress(s: Store, w: ProgressWrite): Tx {
    if w.intent.identity.id !in s.intents then Refused(NotFound)
    else
      var mutation := ProgressMutation(s.intents[w.intent.identity.id], w);
      if mutation.None? || !CanUpdate(s, w.intent, w.expected, mutation.value) then Refused(Conflict)
      else
        var events := AppendEvents(s.events, w.events);
        if events.None? then Refused(Conflict)
        else Committed(WithIntent(s, w.intent).(events := events.value))
  }

  // ------------------------------------------------------------ settlement

  datatype SettlementWrite = SettlementWrite(
    intent: Intent, expected: int, entries: seq<LedgerEntry>, events: seq<Event>)

  predicate SettlementTransitionValid(existing: Intent, w: SettlementWrite) {
    var c := w.intent;
    && existing.updatedAt == w.expected
    && existing.identity == c.identity
    && AllowedStatusTransition(existing.status, c.status)
    && (forall e :: e in w.entries ==>
          && e.intentId == Some(c.identity.id)
          && e.scenarioId == Some(c.identity.scenarioId)
          && e.walletId == c.identity.walletId)
    && (if existing.reservation.Reserved? then
          && c.reservation.Consumed?
          && exists e :: e in w.entries && e.direction == c.identity.direction && e.asset.unit == c.identity.asset.unit
        else c.reservation.Consumed? ==> existing.reservation.Consumed?)
    && (c.status.Settled? ==> c.settledAt.Some? && c.settledAmount > 0 && w.entries != [])
  }

  function CommitSettlement(s: Store, w: SettlementWrite): Tx {
    if w.intent.identity.id !in s.intents then Refused(NotFound)
    else if !SettlementTransitionValid(s.intents[w.intent.identity.id], w) then Refused(Conflict)
    else
      var ledger := AppendLedger(s.ledger, w.entries);
      if ledger.None? || !CanUpdate(s, w.intent, w.expected, Settlement) then Refused(Conflict)
      else
        var events := AppendEvents(s.events, w.events);
        if events.None? then Refused(Conflict)
        else Committed(WithIntent(s, w.intent).(ledger := ledger.value, events := events.value))
  }

  // ------------------------------------------------------- inbound creation

  /** Issuing an inbound challenge inserts a created intent with its reservation. */
  predicate ChallengeInsertable(s: Store, i: Intent) {
    && RowValid(i)
    && i.identity.direction.Inbound?
    && i.status.Created?
    && i.reservation.Reserved?
    && i.reservedAmount == i.identity.amount
    && i.identity.id !in s.intents
    && !RunExists(s, i.identity.scenarioId, i.identity.runId)
  }

  function RecordChallenge(s: Store, i: Intent, events: seq<Event>): Tx {
    var stored := AppendEvents(s.events, events);
    if !ChallengeInsertable(s, i) || stored.None? then Refused(Conflict)
    else Committed(s.(intents := s.intents[i.identity.id := i], events := stored.value))
  }

  /** Binding an inbound credential keeps the reservation as it is. */
  function VerifyIncoming(s: Store, w: ProgressWrite): Tx {
    var stored := AppendEvents(s.events, w.events);
    if !w.intent.identity.direction.Inbound? || !CanUpdate(s, w.intent, w.expected, Unchanged) || stored.None? then
      Refused(Conflict)
    else Committed(WithIntent(s, w.intent).(events := stored.value))
  }

  // ---------------------------------------------------------------- leases

  predicate Due(i: Intent, now: int) {
    || (i.NeedsReconciliation() && i.nextReconcileAt.Some? && i.nextReconcileAt.value <= now)
    || (i.status.Created? && i.identity.expiresAt.Some? && i.identity.expiresAt.value <= now)
  }

  predicate Claimable(s: Store, id: Id, now: int) {
    && id in s.intents
    && Due(s.intents[id], now)
    && (id in s.leases ==> s.leases[id].expiresAt <= now)
    && Attempts(s, id) < 0xFFFF_FFFF
  }

  function Attempts(s: Store, id: Id): nat {
    if id in s.attempts then s.attempts[id] else 0
  }

  predicate LeaseHeld(s: Store, id: Id, owner: string) {
    && id in s.intents
    && id in s.leases && s.leases[id].owner == owner
    && (s.intents[id].status.Created? || s.intents[id].NeedsReconciliation())
  }

  function ClaimOne(s: Store, id: Id, owner: string, leaseUntil: int): Store {
    s.(leases := s.leases[id := Lease(owner, leaseUntil)], attempts := s.attempts[id := Attempts(s, id) + 1])
  }

  function Claim(s: Store, ids: seq<Id>, owner: string, now: int, leaseUntil: int): Tx
    decreases |ids|
  {
    if leaseUntil <= now then Refused(InvalidRequest)
    else if ids == [] then Committed(s)
    else if !Claimable(s, ids[0], now) || leaseUntil < 0 then Refused(Conflict)
    else Claim(ClaimOne(s, ids[0], owner, leaseUntil), ids[1..], owner, now, leaseUntil)
  }

  function RenewLease(s: Store, id: Id, owner: string, leaseUntil: int): Tx {
    if leaseUntil == 0 then Refused(InvalidRequest)
    else if !LeaseHeld(s, id, owner) || leaseUntil < 0 then Refused(Conflict)
    else Committed(s.(leases := s.leases[id := Lease(owner, leaseUntil)]))
  }

  /** Releasing moves only the schedule; `updated_at` stays where it was. */
  function ReleaseLease(s: Store, id: Id, owner: string, nextAttemptAt: int): Tx {
    if nextAttemptAt == 0 then Refused(InvalidRequest)
    else if !LeaseHeld(s, id, owner) || nextAttemptAt < 0 then Refused(Conflict)
    else
      Committed(WithIntent(s, s.intents[id].(nextReconcileAt := Some(nextAttemptAt))).(leases := s.leases - {id}))
  }
}
