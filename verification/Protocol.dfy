/** The payment protocol as a step system. Any number of workers take part; a
    worker reads rows at earlier moments of the run and commits later, so every
    interleaving, every stale read and every crash is a run. */
module Protocol {
  import opened Options
  import opened Domain
  import opened PaymentTables
  import opened Transactions
  import opened Workers

  /** One worker operation. Reads are named by the moment they were made: an
      index into the history of the tables. */
  datatype Op =
    | Authorize(principal: string, command: AuthorizeCommand, selected: Selection, ids: AuthorizationIds, now: int)
    | Decide(approvalRead: nat, intentRead: nat, principal: string, request: DecisionRequest, jti: Id, eventId: Id,
             now: int)
    | Consume(approvalRead: nat, intentRead: nat, approvalId: Id, intentId: Id, origin: string, eventId: Id, now: int)
    | ExpireApprovals(approvalIds: seq<Id>, now: int)
    | Sign(read: nat, intentId: Id, signing: SigningRequest, now: int)
    | RecordResponse(read: nat, response: MerchantResponse, expectedPayer: string, now: int)
    | Reconcile(read: nat, lookupRead: nat, intentId: Id, attempt: nat, expectedPayer: string, receipt: Receipt,
                providerEvidence: Evidence, now: int)
    | ClaimLeases(intentIds: seq<Id>, owner: string, now: int, leaseUntil: int)
    | Renew(intentId: Id, owner: string, leaseUntil: int)
    | Release(intentId: Id, owner: string, nextAttemptAt: int)
    | IssueChallenge(intent: Intent, events: seq<Event>)
    | Verify(progress: ProgressWrite)
    | Progress(progress: ProgressWrite)
    | Settle(settlement: SettlementWrite)

  const NotAvailable := Refused(NotFound)

  /** Writes of the inbound coordinator: anything the store accepts, as long as
      it concerns an inbound intent, its own events and inbound entries. */
  predicate InboundOnly(i: Intent, events: seq<Event>, entries: seq<LedgerEntry>) {
    && i.identity.direction.Inbound?
    && (forall e :: e in events ==> e.key.intentId == i.identity.id)
    && (forall e :: e in entries ==> e.direction.Inbound? && e.intentId == Some(i.identity.id))
  }

  function ReconcileTx(cfg: Config, s: Store, i: Intent, evidence: Evidence, attempt: nat, now: int): Tx {
    if i.status.Created? && i.identity.expiresAt.Some? && i.identity.expiresAt.value <= now then
      var w := BuildExpiredChallenge(i, attempt, now);
      if w.None? then NotAvailable else CommitProgress(s, w.value)
    else if !i.NeedsReconciliation() then NotAvailable
    else match evidence
      case Confirmed(settlement) =>
        var w := BuildConfirmed(i, settlement, attempt, now);
        if w.None? then NotAvailable else CommitSettlement(s, w.value)
      case Verified(reference) =>
        var w := BuildVerified(cfg, i, reference, attempt, now);
        if w.None? then NotAvailable else CommitProgress(s, w.value)
      case AuthorizationExpired =>
        var w := BuildExpiredSettlement(i, attempt, now);
        if w.None? then NotAvailable else CommitProgress(s, w.value)
      case _ => NotAvailable
  }

  /** What the router answers: outbound intents never reach the provider. */
  function Lookup(
    past: Store, i: Intent, expectedPayer: string, receipt: Receipt, providerEvidence: Evidence): Evidence
  {
    if i.identity.direction.Outbound? then OutboundLookup(past.events, i, expectedPayer, receipt) else providerEvidence
  }

  // The transactions of the writers, given the rows they read.

  function DecideTx(
    cfg: Config, s: Store, a: Approval, i: Intent, principal: string, request: DecisionRequest, jti: Id, eventId: Id,
    now: int): Tx
  {
    var w := BuildDecision(cfg, a, i, principal, request, jti, eventId, now);
    if w.None? then NotAvailable else Transactions.Decide(s, w.value)
  }

  ghost function ConsumeTx(cfg: Config, s: Store, a: Approval, i: Intent, origin: string, eventId: Id, now: int): Tx {
    var w := BuildConsumption(a, i, origin, eventId, now);
    if w.None? then NotAvailable else ConsumeAndReserve(cfg, s, w.value)
  }

  function SignTx(s: Store, i: Intent, signing: SigningRequest, now: int): Tx {
    var w := BuildSigning(i, signing, now);
    if w.None? then NotAvailable else CommitSigned(s, w.value)
  }

  function RecordTx(s: Store, i: Intent, response: MerchantResponse, expectedPayer: string, now: int): Tx {
    var w := BuildEvidence(i, response, expectedPayer, now);
    if w.None? then NotAvailable else RecordEvidence(s, w.value)
  }

  /** A row as it was at an earlier moment. */
  function IntentRead(past: seq<Store>, read: nat, id: Id): Option<Intent> {
    if read < |past| && id in past[read].intents then Some(past[read].intents[id]) else None
  }

  function ApprovalRead(past: seq<Store>, read: nat, id: Id): Option<Approval> {
    if read < |past| && id in past[read].approvals then Some(past[read].approvals[id]) else None
  }

  /** The transaction an operation submits against the current tables, which
      are the last of `past`. */
  ghost function Attempt(cfg: Config, past: seq<Store>, op: Op): Tx
    requires |past| > 0
  {
    var s := past[|past| - 1];
    match op
    case Authorize(principal, command, selected, ids, now) =>
      Transactions.Authorize(cfg, s, BuildAuthorization(cfg, principal, command, selected, ids, now))
    case Decide(aRead, iRead, principal, request, jti, eventId, now) =>
      var a := ApprovalRead(past, aRead, request.approvalId);
      var i := IntentRead(past, iRead, request.intentId);
      if a.None? || i.None? then NotAvailable
      else DecideTx(cfg, s, a.value, i.value, principal, request, jti, eventId, now)
    case Consume(aRead, iRead, approvalId, intentId, origin, eventId, now) =>
      var a := ApprovalRead(past, aRead, approvalId);
      var i := IntentRead(past, iRead, intentId);
      if a.None? || i.None? then NotAvailable else ConsumeTx(cfg, s, a.value, i.value, origin, eventId, now)
    case ExpireApprovals(approvalIds, now) => ExpireDue(s, approvalIds, now)
    case Sign(read, intentId, signing, now) =>
      var i := IntentRead(past, read, intentId);
      if i.None? then NotAvailable else SignTx(s, i.value, signing, now)
    case RecordResponse(read, response, expectedPayer, now) =>
      var i := IntentRead(past, read, response.intentId);
      if i.None? then NotAvailable else RecordTx(s, i.value, response, expectedPayer, now)
    case Reconcile(read, lookupRead, intentId, attempt, expectedPayer, receipt, providerEvidence, now) =>
      var i := IntentRead(past, read, intentId);
      if i.None? || lookupRead >= |past| then NotAvailable
      else
        ReconcileTx(
          cfg, s, i.value, Lookup(past[lookupRead], i.value, expectedPayer, receipt, providerEvidence), attempt, now)
    case ClaimLeases(ids, owner, now, leaseUntil) => Claim(s, ids, owner, now, leaseUntil)
    case Renew(id, owner, leaseUntil) => RenewLease(s, id, owner, leaseUntil)
    case Release(id, owner, nextAttemptAt) => ReleaseLease(s, id, owner, nextAttemptAt)
    case IssueChallenge(intent, events) =>
      if InboundOnly(intent, events, []) then RecordChallenge(s, intent, events) else NotAvailable
    case Verify(w) => if InboundOnly(w.intent, w.events, []) then VerifyIncoming(s, w) else NotAvailable
    case Progress(w) => if InboundOnly(w.intent, w.events, []) then CommitProgress(s, w) else NotAvailable
    case Settle(w) => if InboundOnly(w.intent, w.events, w.entries) then CommitSettlement(s, w) else NotAvailable
  }

  // The writers one by one: what they submit, given the rows they read.

  lemma AttemptDecide(cfg: Config, past: seq<Store>, op: Op, a: Approval, i: Intent)
    requires |past| > 0 && op.Decide?
    requires ApprovalRead(past, op.approvalRead, op.request.approvalId) == Some(a)
    requires IntentRead(past, op.intentRead, op.request.intentId) == Some(i)
    ensures Attempt(cfg, past, op) ==
      DecideTx(cfg, past[|past| - 1], a, i, op.principal, op.request, op.jti, op.eventId, op.now)
  {
  }

  lemma AttemptConsume(cfg: Config, past: seq<Store>, op: Op, a: Approval, i: Intent)
    requires |past| > 0 && op.Consume?
    requires ApprovalRead(past, op.approvalRead, op.approvalId) == Some(a)
    requires IntentRead(past, op.intentRead, op.intentId) == Some(i)
    ensures Attempt(cfg, past, op) == ConsumeTx(cfg, past[|past| - 1], a, i, op.origin, op.eventId, op.now)
  {
  }

  lemma AttemptSign(cfg: Config, past: seq<Store>, op: Op, i: Intent)
    requires |past| > 0 && op.Sign? && IntentRead(past, op.read, op.intentId) == Some(i)
    ensures Attempt(cfg, past, op) == SignTx(past[|past| - 1], i, op.signing, op.now)
  {
  }

  lemma AttemptRecord(cfg: Config, past: seq<Store>, op: Op, i: Intent)
    requires |past| > 0 && op.RecordResponse? && IntentRead(past, op.read, op.response.intentId) == Some(i)
    ensures Attempt(cfg, past, op) == RecordTx(past[|past| - 1], i, op.response, op.expectedPayer, op.now)
  {
  }

  lemma AttemptReconcile(cfg: Config, past: seq<Store>, op: Op, i: Intent, evidence: Evidence)
    requires |past| > 0 && op.Reconcile? && IntentRead(past, op.read, op.intentId) == Some(i) && op.lookupRead < |past|
    requires evidence == Lookup(past[op.lookupRead], i, op.expectedPayer, op.receipt, op.providerEvidence)
    ensures Attempt(cfg, past, op) == ReconcileTx(cfg, past[|past| - 1], i, evidence, op.attempt, op.now)
  {
    var read := IntentRead(past, op.read, op.intentId).value;
    assert read == i;
    assert Lookup(past[op.lookupRead], read, op.expectedPayer, op.receipt, op.providerEvidence) == evidence;
  }

  // And back: what a committed writer had read.

  lemma DecideAttempt(cfg: Config, past: seq<Store>, op: Op, t: Store)
    requires |past| > 0 && op.Decide? && Attempt(cfg, past, op) == Committed(t)
    ensures
      var a := ApprovalRead(past, op.approvalRead, op.request.approvalId);
      var i := IntentRead(past, op.intentRead, op.request.intentId);
      && a.Some? && i.Some?
      && DecideTx(cfg, past[|past| - 1], a.value, i.value, op.principal, op.request, op.jti, op.eventId, op.now) ==
           Committed(t)
  {
  }

  lemma ConsumeAttempt(cfg: Config, past: seq<Store>, op: Op, t: Store)
    requires |past| > 0 && op.Consume? && Attempt(cfg, past, op) == Committed(t)
    ensures
      var a := ApprovalRead(past, op.approvalRead, op.approvalId);
      var i := IntentRead(past, op.intentRead, op.intentId);
      && a.Some? && i.Some?
      && ConsumeTx(cfg, past[|past| - 1], a.value, i.value, op.origin, op.eventId, op.now) == Committed(t)
  {
  }

  lemma SignAttempt(cfg: Config, past: seq<Store>, op: Op, t: Store)
    requires |past| > 0 && op.Sign? && Attempt(cfg, past, op) == Committed(t)
    ensures
      var i := IntentRead(past, op.read, op.intentId);
      i.Some? && SignTx(past[|past| - 1], i.value, op.signing, op.now) == Committed(t)
  {
    var i := IntentRead(past, op.read, op.intentId);
    if i.Some? {
      AttemptSign(cfg, past, op, i.value);
    }
  }

  lemma RecordAttempt(cfg: Config, past: seq<Store>, op: Op, t: Store)
    requires |past| > 0 && op.RecordResponse? && Attempt(cfg, past, op) == Committed(t)
    ensures
      var i := IntentRead(past, op.read, op.response.intentId);
      i.Some? && RecordTx(past[|past| - 1], i.value, op.response, op.expectedPayer, op.now) == Committed(t)
  {
  }

  lemma ReconcileAttempt(cfg: Config, past: seq<Store>, op: Op, t: Store)
    requires |past| > 0 && op.Reconcile? && Attempt(cfg, past, op) == Committed(t)
    ensures
      var i := IntentRead(past, op.read, op.intentId);
      && i.Some? && op.lookupRead < |past|
      && var evidence := Lookup(past[op.lookupRead], i.value, op.expectedPayer, op.receipt, op.providerEvidence);
         ReconcileTx(cfg, past[|past| - 1], i.value, evidence, op.attempt, op.now) == Committed(t)
  {
  }

  /** `states[k + 1]` is what operation `k` leaves behind. A worker may also stop
      short of its commit, for any reason, at any moment. */
  ghost predicate Run(cfg: Config, states: seq<Store>, ops: seq<Op>) {
    && |states| == |ops| + 1
    && states[0] == EmptyStore
    && forall k :: 0 <= k < |ops| ==> StepAt(cfg, states, ops, k)
  }

  ghost predicate StepAt(cfg: Config, states: seq<Store>, ops: seq<Op>, k: nat)
    requires k < |ops| < |states|
  {
    || states[k + 1] == states[k]
    || Attempt(cfg, states[..k + 1], ops[k]) == Committed(states[k + 1])
  }

  // -------------------------------------------------------------- invariant

  predicate SignedOrLater(status: PaymentStatus) {
    status.Signed? || status.PendingSettlement? || status.Settled?
  }

  predicate AuthorizedOrLater(status: PaymentStatus) {
    status.Authorized? || SignedOrLater(status)
  }

  function SignedKey(id: Id): EventKey { EventKey(id, SignedEvent, 0) }

  function SignRequestedKey(id: Id): EventKey { EventKey(id, SignRequested, 0) }

  /** The reservation an outbound intent holds is decided by its status. */
  predicate ReservationMatches(i: Intent) {
    match i.status
    case PendingApproval => i.reservation.Unreserved? && i.reservedAmount == 0 && i.settledAmount == 0
    case Failed => i.reservation.Unreserved? && i.reservedAmount == 0 && i.settledAmount == 0
    case Expired => i.reservation.Unreserved? && i.reservedAmount == 0 && i.settledAmount == 0
    case Authorized => i.reservation.Reserved? && i.reservedAmount == i.identity.amount && i.settledAmount == 0
    case Signed => i.reservation.Reserved? && i.reservedAmount == i.identity.amount && i.settledAmount == 0
    case PendingSettlement => i.reservation.Reserved? && i.reservedAmount == i.identity.amount && i.settledAmount == 0
    case Settled => i.reservation.Consumed? && i.reservedAmount == i.identity.amount == i.settledAmount
    case _ => false
  }

  predicate EventsMatch(events: map<EventKey, Event>, i: Intent) {
    var id := i.identity.id;
    && (SubmittedKey(id) in events <==> i.status.PendingSettlement? || i.status.Settled?)
    && (SignedKey(id) in events <==> SignedOrLater(i.status))
    && (SignRequestedKey(id) in events <==> SignedOrLater(i.status))
    && (forall k :: k in events && k.intentId == id && k.eventType.SubmittedEvent? ==> k == SubmittedKey(id))
    && (forall k :: k in events && k.intentId == id && events[k].payload.MerchantHint? ==> k == SubmittedKey(id))
  }

  predicate EntryFor(e: LedgerEntry, i: Intent) {
    && e.entryType.Payment?
    && e.direction.Outbound?
    && e.amount == i.identity.amount
    && e.walletId == i.identity.walletId
    && e.scenarioId == Some(i.identity.scenarioId)
    && e.asset == i.identity.asset
  }

  predicate LedgerMatches(ledger: map<LedgerId, LedgerEntry>, i: Intent) {
    var id := i.identity.id;
    && (forall l :: l in ledger && ledger[l].intentId == Some(id) ==> i.status.Settled? && EntryFor(ledger[l], i))
    && (forall l, m ::
         l in ledger && m in ledger && ledger[l].intentId == Some(id) && ledger[m].intentId == Some(id) ==> l == m)
    && (i.status.Settled? ==> exists l :: l in ledger && ledger[l].intentId == Some(id))
  }

  /** An approved row carries the grant it was approved with. */
  predicate GrantBound(a: Approval, i: Identity) {
    && a.approvedBy.Some? && a.approvedBy.value != a.requestedBy
    && a.approvedAmount == Some(i.amount)
    && a.sealedGrant.Some?
    && a.grantClaimsHash == a.sealedGrant
    && var c := a.sealedGrant.value;
    && a.grantJti == Some(c.jti)
    && c.approvalId == a.id && c.intentId == i.id && c.intentHash == i.requestHash
    && c.amount == i.amount && c.approver == a.approvedBy.value
    && c.exp == a.expiresAt
  }

  predicate ApprovalMatches(a: Approval, i: Intent) {
    && a.requestedAmount == i.identity.amount
    && a.intentHash == i.identity.requestHash
    && i.identity.expiresAt.Some? && a.expiresAt <= i.identity.expiresAt.value
    && match a.status
       case ApprovalPending => i.status.PendingApproval?
       case ApprovalApproved => i.status.PendingApproval? && GrantBound(a, i.identity)
       case ApprovalRejected => i.status.Failed?
       case ApprovalExpired => i.status.Expired?
       case ApprovalConsumed => AuthorizedOrLater(i.status) && GrantBound(a, i.identity)
  }

  predicate ApprovalsMatch(approvals: map<Id, Approval>, i: Intent) {
    var id := i.identity.id;
    && (forall a :: a in approvals && approvals[a].intentId == id ==>
         approvals[a].id == a && ApprovalMatches(approvals[a], i))
    && (forall a, b ::
         a in approvals && b in approvals && approvals[a].intentId == id && approvals[b].intentId == id ==> a == b)
    && (i.status.PendingApproval? ==>
         exists a :: a in approvals && approvals[a].intentId == id && approvals[a].IsActive())
  }

  predicate InboundMatches(s: Store, id: Id) {
    && (forall l :: l in s.ledger && s.ledger[l].intentId == Some(id) ==> s.ledger[l].direction.Inbound?)
    && (forall a :: a in s.approvals ==> s.approvals[a].intentId != id)
  }

  /** Everything the tables say about one intent. */
  predicate IntentInv(s: Store, id: Id)
    requires id in s.intents
  {
    var i := s.intents[id];
    && i.identity.id == id
    && RowValid(i)
    && (i.identity.direction.Inbound? ==> InboundMatches(s, id))
    && (i.identity.direction.Outbound? ==>
          && ReservationMatches(i)
          && EventsMatch(s.events, i)
          && LedgerMatches(s.ledger, i)
          && ApprovalsMatch(s.approvals, i))
  }

  /** Foreign keys. */
  predicate References(s: Store) {
    && (forall k :: k in s.events ==> k.intentId in s.intents)
    && (forall a :: a in s.approvals ==> s.approvals[a].intentId in s.intents)
    && (forall l :: l in s.ledger ==> s.ledger[l].intentId.Some? && s.ledger[l].intentId.value in s.intents)
  }

  predicate Inv(s: Store) {
    && References(s)
    && forall id :: id in s.intents ==> IntentInv(s, id)
  }

  // -------------------------------------------------------------- evolution

  predicate SameVersion(i: Intent, j: Intent) {
    j == i.(nextReconcileAt := j.nextReconcileAt)
  }

  /** How one row may change over any number of steps. */
  predicate IntentEvolves(i: Intent, j: Intent) {
    && i.identity == j.identity
    && i.updatedAt <= j.updatedAt
    && (i.updatedAt == j.updatedAt ==> SameVersion(i, j))
    && (i.identity.direction.Outbound? ==>
          && (i.IsFinal() ==> j == i)
          && (SignedOrLater(i.status) ==> SignedOrLater(j.status))
          && (AuthorizedOrLater(i.status) ==> AuthorizedOrLater(j.status))
          && (!i.status.PendingApproval? ==> !j.status.PendingApproval?))
  }

  predicate ApprovalEvolves(a: Approval, b: Approval) {
    && a.id == b.id && a.intentId == b.intentId && a.requestedAmount == b.requestedAmount
    && a.requestedBy == b.requestedBy && a.intentHash == b.intentHash && a.createdAt == b.createdAt
    && b.expiresAt <= a.expiresAt
    && (!a.IsActive() ==> a == b)
    && (a.status.ApprovalApproved? ==>
         b == a.(status := b.status, consumedAt := b.consumedAt) && !b.status.ApprovalPending?)
  }

  predicate Evolves(s: Store, t: Store) {
    && (forall id :: id in s.intents ==> id in t.intents && IntentEvolves(s.intents[id], t.intents[id]))
    && (forall a :: a in s.approvals ==> a in t.approvals && ApprovalEvolves(s.approvals[a], t.approvals[a]))
    && (forall k :: k in s.events ==> k in t.events && t.events[k] == s.events[k])
    && (forall l :: l in s.ledger ==> l in t.ledger && t.ledger[l] == s.ledger[l])
  }

  lemma EvolvesTransitive(s: Store, t: Store, u: Store)
    requires Evolves(s, t) && Evolves(t, u)
    ensures Evolves(s, u)
  {
    forall id | id in s.intents ensures id in u.intents && IntentEvolves(s.intents[id], u.intents[id]) {
      assert IntentEvolves(s.intents[id], t.intents[id]) && IntentEvolves(t.intents[id], u.intents[id]);
    }
    forall a | a in s.approvals ensures a in u.approvals && ApprovalEvolves(s.approvals[a], u.approvals[a]) {
      assert ApprovalEvolves(s.approvals[a], t.approvals[a]) && ApprovalEvolves(t.approvals[a], u.approvals[a]);
    }
  }

  // ------------------------------------------------------------- one step

  /** Only the rows that belong to one intent differ. */
  predicate SameElsewhere(s: Store, t: Store, id: Id) {
    && t.intents.Keys == s.intents.Keys + {id}
    && (forall x :: x in s.intents && x != id ==> t.intents[x] == s.intents[x])
    && (forall k :: k in s.events ==> k in t.events && t.events[k] == s.events[k])
    && (forall k :: k in t.events && k !in s.events ==> k.intentId == id)
    && (forall l :: l in s.ledger ==> l in t.ledger && t.ledger[l] == s.ledger[l])
    && (forall l :: l in t.ledger && l !in s.ledger ==> t.ledger[l].intentId == Some(id))
    && (forall a :: a in s.approvals ==> a in t.approvals && t.approvals[a].intentId == s.approvals[a].intentId)
    && (forall a :: a in t.approvals && t.approvals[a].intentId != id ==>
         a in s.approvals && t.approvals[a] == s.approvals[a])
  }

  /** A step that touches one intent only has to be justified for that intent. */
  lemma LocalStep(s: Store, t: Store, id: Id)
    requires Inv(s)
    requires SameElsewhere(s, t, id)
    requires IntentInv(t, id)
    ensures Inv(t)
  {
    LocalReferences(s, t, id);
    forall x | x in t.intents ensures IntentInv(t, x) {
      if x != id {
        assert IntentInv(s, x);
        OtherIntentKeeps(s, t, id, x);
      }
    }
  }

  lemma LocalReferences(s: Store, t: Store, id: Id)
    requires References(s) && SameElsewhere(s, t, id) && id in t.intents
    ensures References(t)
  {
  }

  lemma OtherIntentKeeps(s: Store, t: Store, id: Id, x: Id)
    requires SameElsewhere(s, t, id)
    requires x != id && x in s.intents && IntentInv(s, x)
    ensures IntentInv(t, x)
  {
    var i := s.intents[x];
    if i.identity.direction.Outbound? {
      OtherEvents(s, t, id, i);
      OtherLedger(s, t, id, i);
      OtherApprovals(s, t, id, i);
    } else {
      OtherInbound(s, t, id, x);
    }
  }

  lemma OtherEvents(s: Store, t: Store, id: Id, i: Intent)
    requires SameElsewhere(s, t, id) && i.identity.id != id && EventsMatch(s.events, i)
    ensures EventsMatch(t.events, i)
  {
    assert forall k: EventKey :: k.intentId == i.identity.id ==> (k in t.events <==> k in s.events);
    assert SubmittedKey(i.identity.id) in t.events <==> SubmittedKey(i.identity.id) in s.events;
  }

  lemma OtherLedger(s: Store, t: Store, id: Id, i: Intent)
    requires SameElsewhere(s, t, id) && i.identity.id != id && LedgerMatches(s.ledger, i)
    ensures LedgerMatches(t.ledger, i)
  {
    var x := i.identity.id;
    assert forall l :: l in t.ledger && t.ledger[l].intentId == Some(x) ==> l in s.ledger;
    if i.status.Settled? {
      var l :| l in s.ledger && s.ledger[l].intentId == Some(x);
      assert t.ledger[l].intentId == Some(x);
    }
  }

  lemma OtherApprovals(s: Store, t: Store, id: Id, i: Intent)
    requires SameElsewhere(s, t, id) && i.identity.id != id && ApprovalsMatch(s.approvals, i)
    ensures ApprovalsMatch(t.approvals, i)
  {
    var x := i.identity.id;
    assert forall a :: a in t.approvals && t.approvals[a].intentId == x ==> a in s.approvals;
    if i.status.PendingApproval? {
      var a :| a in s.approvals && s.approvals[a].intentId == x && s.approvals[a].IsActive();
      assert a in t.approvals && t.approvals[a].intentId == x;
    }
  }

  lemma OtherInbound(s: Store, t: Store, id: Id, x: Id)
    requires SameElsewhere(s, t, id) && x != id && InboundMatches(s, x)
    ensures InboundMatches(t, x)
  {
    assert forall l :: l in t.ledger && t.ledger[l].intentId == Some(x) ==> l in s.ledger;
    assert forall a :: a in t.approvals && t.approvals[a].intentId == x ==> a in s.approvals;
  }
}
