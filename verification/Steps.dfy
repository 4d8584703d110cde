/** Every transaction, submitted by its worker after any stale read, keeps the
    invariant and only moves rows forward. */
module Steps {
  import opened Options
  import opened Domain
  import opened PaymentTables
  import opened Transactions
  import opened Workers
  import opened Protocol

  /** A step that moves the rows of one intent forward and keeps what the
      tables say about it. */
  predicate LocalMove(s: Store, t: Store, id: Id) {
    && SameElsewhere(s, t, id)
    && IntentInv(t, id)
    && (id in s.intents ==> IntentEvolves(s.intents[id], t.intents[id]))
    && (forall a :: a in s.approvals && s.approvals[a].intentId == id ==>
         ApprovalEvolves(s.approvals[a], t.approvals[a]))
  }

  lemma MoveKeeps(s: Store, t: Store, id: Id)
    requires Inv(s) && LocalMove(s, t, id)
    ensures Inv(t) && Evolves(s, t)
  {
    LocalStep(s, t, id);
    MoveEvolves(s, t, id);
  }

  lemma MoveEvolves(s: Store, t: Store, id: Id)
    requires LocalMove(s, t, id)
    ensures Evolves(s, t)
  {
    forall x | x in s.intents ensures IntentEvolves(s.intents[x], t.intents[x]) {
      if x != id {
        assert t.intents[x] == s.intents[x];
      }
    }
    forall a | a in s.approvals ensures ApprovalEvolves(s.approvals[a], t.approvals[a]) {
      if s.approvals[a].intentId != id {
        assert t.approvals[a] == s.approvals[a];
      }
    }
  }

  /** The parts of an outbound move, put together. */
  lemma Assemble(s: Store, t: Store, next: Intent)
    requires next.identity.id in s.intents && next.identity.id in t.intents && t.intents[next.identity.id] == next
    requires next.identity.direction.Outbound? && RowValid(next)
    requires SameElsewhere(s, t, next.identity.id)
    requires ReservationMatches(next) && EventsMatch(t.events, next) && LedgerMatches(t.ledger, next)
    requires ApprovalsMatch(t.approvals, next)
    requires IntentEvolves(s.intents[next.identity.id], next)
    requires ApprovalsEvolve(s.approvals, t.approvals)
    ensures LocalMove(s, t, next.identity.id)
  {
  }

  predicate ApprovalsEvolve(before: map<Id, Approval>, after: map<Id, Approval>) {
    forall a :: a in before ==> a in after && ApprovalEvolves(before[a], after[a])
  }

  lemma OneApprovalEvolves(approvals: map<Id, Approval>, a: Id, row: Approval)
    requires a in approvals && ApprovalEvolves(approvals[a], row)
    ensures ApprovalsEvolve(approvals, approvals[a := row])
  {
  }

  lemma NoApprovalEvolves(approvals: map<Id, Approval>)
    ensures ApprovalsEvolve(approvals, approvals)
  {
  }

  lemma UnsettledLedger(ledger: map<LedgerId, LedgerEntry>, i: Intent, j: Intent)
    requires LedgerMatches(ledger, i) && i.identity == j.identity
    requires !i.status.Settled? && !j.status.Settled?
    ensures LedgerMatches(ledger, j)
  {
  }

  /** Events that say nothing about signing or submission. */
  predicate Quiet(es: seq<Event>, id: Id) {
    forall e :: e in es ==>
      && e.key.intentId == id
      && !e.key.eventType.SubmittedEvent? && !e.key.eventType.SignedEvent? && !e.key.eventType.SignRequested?
      && !e.payload.MerchantHint?
  }

  /** The statuses that the event log tells apart. */
  predicate SameEventClass(i: Intent, j: Intent) {
    && i.identity == j.identity
    && SignedOrLater(i.status) == SignedOrLater(j.status)
    && (i.status.PendingSettlement? || i.status.Settled?) == (j.status.PendingSettlement? || j.status.Settled?)
  }

  lemma AppendedLocal(events: map<EventKey, Event>, es: seq<Event>, id: Id)
    requires forall e :: e in es ==> e.key.intentId == id
    requires AppendEvents(events, es).Some?
    ensures var r := AppendEvents(events, es).value;
      && (forall k :: k in events ==> k in r && r[k] == events[k])
      && (forall k :: k in r && k !in events ==> k.intentId == id && r[k] in es)
  {
    var r := AppendEvents(events, es).value;
    forall k | k in r && k !in events ensures k.intentId == id && r[k] in es {
      var e :| e in es && e.key == k;
      assert r[k] == e;
    }
  }

  lemma QuietKeepsEvents(events: map<EventKey, Event>, es: seq<Event>, i: Intent, j: Intent)
    requires EventsMatch(events, i) && SameEventClass(i, j)
    requires Quiet(es, i.identity.id) && AppendEvents(events, es).Some?
    ensures EventsMatch(AppendEvents(events, es).value, j)
  {
    AppendedLocal(events, es, i.identity.id);
  }

  lemma QuietStartsEvents(events: map<EventKey, Event>, es: seq<Event>, i: Intent)
    requires forall k :: k in events ==> k.intentId != i.identity.id
    requires Quiet(es, i.identity.id) && AppendEvents(events, es).Some?
    requires !SignedOrLater(i.status)
    ensures EventsMatch(AppendEvents(events, es).value, i)
  {
    AppendedLocal(events, es, i.identity.id);
  }

  lemma InsertIsAppend(events: map<EventKey, Event>, e: Event)
    ensures AppendEvents(events, [e]) == InsertEvent(events, e)
  {
    var first := InsertEvent(events, e);
    if first.Some? {
      assert AppendEvents(first.value, []) == first;
    }
  }

  // ---------------------------------------------------------- authorization

  /** The rows a committed authorization leaves behind. */
  predicate Inserted(s: Store, t: Store, w: AuthorizationWrite) {
    && w.intent.identity.id !in s.intents
    && RowValid(w.intent)
    && AppendEvents(s.events, w.events) == Some(t.events)
    && t.intents == s.intents[w.intent.identity.id := w.intent]
    && (w.approval.Some? ==> w.approval.value.id !in s.approvals)
    && t.approvals == (if w.approval.Some? then s.approvals[w.approval.value.id := w.approval.value] else s.approvals)
    && t.ledger == s.ledger
  }

  lemma AuthorizeInserts(cfg: Config, s: Store, t: Store, w: AuthorizationWrite)
    requires Transactions.Authorize(cfg, s, w) == Committed(t)
    ensures Inserted(s, t, w)
    ensures w.action.Reserve? ==>
      AuthorizationGuard(cfg, w) && EnforceBudget(cfg, s, w.intent.identity, w.evaluatedAt, false)
  {
  }

  lemma InsertedElsewhere(s: Store, t: Store, w: AuthorizationWrite)
    requires Inserted(s, t, w) && Quiet(w.events, w.intent.identity.id)
    requires w.approval.Some? ==> w.approval.value.intentId == w.intent.identity.id
    ensures SameElsewhere(s, t, w.intent.identity.id)
  {
    AppendedLocal(s.events, w.events, w.intent.identity.id);
  }

  lemma BuiltQuietly(
    cfg: Config, principal: string, c: AuthorizeCommand, selected: Selection, ids: AuthorizationIds, now: int)
    ensures Quiet(BuildAuthorization(cfg, principal, c, selected, ids, now).events, ids.intent)
    ensures ReservationMatches(BuildIntent(c, selected, ids, now))
    ensures !SignedOrLater(BuildIntent(c, selected, ids, now).status) 
  {
  }

  lemma InsertedKeeps(cfg: Config, s: Store, t: Store, principal: string, c: AuthorizeCommand, selected: Selection,
                      ids: AuthorizationIds, now: int)
    requires Inv(s)
    requires Inserted(s, t, BuildAuthorization(cfg, principal, c, selected, ids, now))
    ensures Inv(t) && Evolves(s, t)
  {
    var w := BuildAuthorization(cfg, principal, c, selected, ids, now);
    var id := ids.intent;
    BuiltQuietly(cfg, principal, c, selected, ids, now);
    InsertedElsewhere(s, t, w);
    QuietStartsEvents(s.events, w.events, w.intent);
    AuthorizedApprovals(cfg, s, t, principal, c, selected, ids, now);
    assert IntentInv(t, id);
    MoveKeeps(s, t, id);
  }

  lemma AuthorizedApprovals(
    cfg: Config, s: Store, t: Store, principal: string, c: AuthorizeCommand, selected: Selection,
    ids: AuthorizationIds, now: int)
    requires References(s) && ids.intent !in s.intents
    requires
      var w := BuildAuthorization(cfg, principal, c, selected, ids, now);
      && t.approvals == (if w.approval.Some? then s.approvals[w.approval.value.id := w.approval.value] else s.approvals)
      && (w.approval.Some? ==> ids.approval !in s.approvals)
    ensures ApprovalsMatch(t.approvals, BuildIntent(c, selected, ids, now))
  {
    var w := BuildAuthorization(cfg, principal, c, selected, ids, now);
    if w.approval.Some? {
      assert t.approvals[ids.approval] == BuildApprovalRequest(cfg, principal, c, ids, now);
    }
  }

  // -------------------------------------------------------------- approvals

  /** One event about one intent, and one approval row of that intent. */
  lemma ApprovalElsewhere(s: Store, t: Store, id: Id, a: Id, e: Event)
    requires id in s.intents && t.intents.Keys == s.intents.Keys
    requires forall x :: x in s.intents && x != id ==> t.intents[x] == s.intents[x]
    requires e.key.intentId == id && InsertEvent(s.events, e) == Some(t.events)
    requires a in s.approvals && s.approvals[a].intentId == id
    requires a in t.approvals && t.approvals == s.approvals[a := t.approvals[a]] && t.approvals[a].intentId == id
    requires t.ledger == s.ledger
    ensures SameElsewhere(s, t, id)
  {
    assert t.intents.Keys == s.intents.Keys + {id};
  }

  lemma ApproveCommits(s: Store, t: Store, w: DecisionWrite)
    requires Transactions.Decide(s, w) == Committed(t) && w.decision.kind.Approve?
    ensures w.decision.approvalId in s.approvals
    ensures var a := s.approvals[w.decision.approvalId];
      && a.id == w.decision.approvalId
      && a.status.ApprovalPending? && a.intentId == w.decision.intentId
      && w.grant.Some? && a.intentId in s.intents
      && GrantValid(a, s.intents[a.intentId], w.decision, w.grant.value)
      && InsertEvent(s.events, w.event) == Some(t.events)
      && t == s.(approvals := s.approvals[a.id := ApprovedRow(a, w.decision, w.grant.value)], events := t.events)
  {
  }

  lemma GrantMoves(s: Store, t: Store, row: Approval, d: Decision, c: Claims, e: Event)
    requires row.id in s.approvals && s.approvals[row.id] == row && row.status.ApprovalPending?
    requires row.intentId in s.intents && IntentInv(s, row.intentId)
    requires s.intents[row.intentId].identity.direction.Outbound?
    requires GrantValid(row, s.intents[row.intentId], d, c)
    requires d.approvedBy != row.requestedBy && d.approvedAmount == Some(s.intents[row.intentId].identity.amount)
    requires Quiet([e], row.intentId) && InsertEvent(s.events, e) == Some(t.events)
    requires t == s.(approvals := s.approvals[row.id := ApprovedRow(row, d, c)], events := t.events)
    ensures LocalMove(s, t, row.intentId)
  {
    var id := row.intentId;
    var current := s.intents[id];
    assert e in [e];
    ApprovalElsewhere(s, t, id, row.id, e);
    InsertIsAppend(s.events, e);
    QuietKeepsEvents(s.events, [e], current, current);
    assert ApprovalMatches(row, current);
    assert GrantBound(t.approvals[row.id], current.identity);
    assert t.approvals[row.id].IsActive();
    assert ApprovalsMatch(t.approvals, current);
  }

  lemma ApproveMoves(cfg: Config, s: Store, t: Store, a: Approval, i: Intent, principal: string, r: DecisionRequest,
                     jti: Id, eventId: Id, now: int)
    requires r.intentId in s.intents && IntentInv(s, r.intentId) && s.intents[r.intentId].identity.direction.Outbound?
    requires r.approvalId in s.approvals && ApprovalEvolves(a, s.approvals[r.approvalId])
    requires IntentEvolves(i, s.intents[r.intentId])
    requires r.kind.Approve?
    requires BuildDecision(cfg, a, i, principal, r, jti, eventId, now).Some?
    requires Transactions.Decide(s, BuildDecision(cfg, a, i, principal, r, jti, eventId, now).value) == Committed(t)
    ensures LocalMove(s, t, r.intentId)
  {
    var w := BuildDecision(cfg, a, i, principal, r, jti, eventId, now).value;
    ApproveCommits(s, t, w);
    GrantMoves(s, t, s.approvals[r.approvalId], w.decision, w.grant.value, w.event);
  }

  lemma ApproveKeeps(cfg: Config, s: Store, t: Store, a: Approval, i: Intent, principal: string, r: DecisionRequest,
                     jti: Id, eventId: Id, now: int)
    requires Inv(s)
    requires r.approvalId in s.approvals && ApprovalEvolves(a, s.approvals[r.approvalId])
    requires r.intentId in s.intents && IntentEvolves(i, s.intents[r.intentId])
    requires r.kind.Approve?
    requires BuildDecision(cfg, a, i, principal, r, jti, eventId, now).Some?
    requires Transactions.Decide(s, BuildDecision(cfg, a, i, principal, r, jti, eventId, now).value) == Committed(t)
    ensures Inv(t) && Evolves(s, t)
  {
    assert IntentInv(s, r.intentId);
    ApproveMoves(cfg, s, t, a, i, principal, r, jti, eventId, now);
    MoveKeeps(s, t, r.intentId);
  }

  lemma RejectCommits(s: Store, t: Store, w: DecisionWrite)
    requires Transactions.Decide(s, w) == Committed(t) && w.decision.kind.Reject?
    ensures w.decision.approvalId in s.approvals
    ensures var a := s.approvals[w.decision.approvalId];
      && a.id == w.decision.approvalId
      && a.status.ApprovalPending? && a.intentId == w.decision.intentId
      && w.failed.Some? && CanUpdate(s, w.failed.value, w.expected, Unchanged)
      && InsertEvent(s.events, w.event) == Some(t.events)
      && t == WithIntent(s, w.failed.value).(
                approvals := s.approvals[a.id := RejectedRow(a, w.decision)], events := t.events)
  {
  }

  lemma RejectMoves(cfg: Config, s: Store, t: Store, a: Approval, i: Intent, principal: string, r: DecisionRequest,
                    jti: Id, eventId: Id, now: int)
    requires r.intentId in s.intents && IntentInv(s, r.intentId) && s.intents[r.intentId].identity.direction.Outbound?
    requires r.approvalId in s.approvals && ApprovalEvolves(a, s.approvals[r.approvalId])
    requires IntentEvolves(i, s.intents[r.intentId])
    requires r.kind.Reject?
    requires BuildDecision(cfg, a, i, principal, r, jti, eventId, now).Some?
    requires Transactions.Decide(s, BuildDecision(cfg, a, i, principal, r, jti, eventId, now).value) == Committed(t)
    ensures LocalMove(s, t, r.intentId)
  {
    var w := BuildDecision(cfg, a, i, principal, r, jti, eventId, now).value;
    RejectCommits(s, t, w);
    CloseMoves(s, t, r.intentId, RejectedIntent(i, now), RejectedRow(s.approvals[r.approvalId], w.decision), w.event);
  }

  lemma RejectKeeps(cfg: Config, s: Store, t: Store, a: Approval, i: Intent, principal: string, r: DecisionRequest,
                    jti: Id, eventId: Id, now: int)
    requires Inv(s)
    requires r.approvalId in s.approvals && ApprovalEvolves(a, s.approvals[r.approvalId])
    requires r.intentId in s.intents && IntentEvolves(i, s.intents[r.intentId])
    requires r.kind.Reject?
    requires BuildDecision(cfg, a, i, principal, r, jti, eventId, now).Some?
    requires Transactions.Decide(s, BuildDecision(cfg, a, i, principal, r, jti, eventId, now).value) == Committed(t)
    ensures Inv(t) && Evolves(s, t)
  {
    assert IntentInv(s, r.intentId);
    RejectMoves(cfg, s, t, a, i, principal, r, jti, eventId, now);
    MoveKeeps(s, t, r.intentId);
  }

  lemma OutboundParts(s: Store, id: Id)
    requires id in s.intents && IntentInv(s, id) && s.intents[id].identity.direction.Outbound?
    ensures
      var i := s.intents[id];
      && i.identity.id == id && ReservationMatches(i) && EventsMatch(s.events, i) && LedgerMatches(s.ledger, i)
      && ApprovalsMatch(s.approvals, i)
  {
  }

  predicate Closes(current: Intent, closed: Intent, before: Approval, row: Approval) {
    && closed.identity == current.identity && current.updatedAt < closed.updatedAt && RowValid(closed)
    && before.intentId == current.identity.id && before.IsActive() && ApprovalEvolves(before, row)
    && (|| (closed.status.Failed? && row.status.ApprovalRejected?)
        || (closed.status.Expired? && row.status.ApprovalExpired?))
    && closed.reservation.Unreserved? && closed.reservedAmount == 0 && closed.settledAmount == current.settledAmount
  }

  /** Closing an approval that was never consumed fails or expires its intent. */
  lemma CloseMoves(s: Store, t: Store, id: Id, closed: Intent, row: Approval, e: Event)
    requires id in s.intents && IntentInv(s, id) && row.id in s.approvals
    requires s.intents[id].identity.direction.Outbound?
    requires Closes(s.intents[id], closed, s.approvals[row.id], row)
    requires Quiet([e], id) && InsertEvent(s.events, e) == Some(t.events)
    requires t == WithIntent(s, closed).(approvals := s.approvals[row.id := row], events := t.events)
    ensures LocalMove(s, t, id)
  {
    OutboundParts(s, id);
    CloseElsewhere(s, t, id, closed, row, e);
    CloseRows(s, t, s.intents[id], closed, row, e);
    OneApprovalEvolves(s.approvals, row.id, row);
    Assemble(s, t, closed);
  }

  lemma CloseElsewhere(s: Store, t: Store, id: Id, closed: Intent, row: Approval, e: Event)
    requires id in s.intents && closed.identity.id == id
    requires row.id in s.approvals && s.approvals[row.id].intentId == id == row.intentId
    requires Quiet([e], id) && InsertEvent(s.events, e) == Some(t.events)
    requires t == WithIntent(s, closed).(approvals := s.approvals[row.id := row], events := t.events)
    ensures SameElsewhere(s, t, id)
  {
    assert e in [e];
    ApprovalElsewhere(s, t, id, row.id, e);
  }

  lemma CloseRows(s: Store, t: Store, current: Intent, closed: Intent, row: Approval, e: Event)
    requires current.identity.direction.Outbound? && ReservationMatches(current)
    requires EventsMatch(s.events, current) && LedgerMatches(s.ledger, current) && ApprovalsMatch(s.approvals, current)
    requires row.id in s.approvals && Closes(current, closed, s.approvals[row.id], row)
    requires Quiet([e], current.identity.id) && InsertEvent(s.events, e) == Some(t.events)
    requires t.ledger == s.ledger && t.approvals == s.approvals[row.id := row]
    ensures ReservationMatches(closed) && IntentEvolves(current, closed)
    ensures EventsMatch(t.events, closed) && LedgerMatches(t.ledger, closed) && ApprovalsMatch(t.approvals, closed)
  {
    assert ApprovalMatches(s.approvals[row.id], current);
    assert EventsMatch(t.events, closed) by {
      InsertIsAppend(s.events, e);
      QuietKeepsEvents(s.events, [e], current, closed);
    }
    assert LedgerMatches(t.ledger, closed) by { UnsettledLedger(s.ledger, current, closed); }
    assert ApprovalsMatch(t.approvals, closed) by { ClosedApprovals(s.approvals, current, closed, row); }
  }

  lemma ClosedApprovals(approvals: map<Id, Approval>, current: Intent, closed: Intent, row: Approval)
    requires ApprovalsMatch(approvals, current) && closed.identity == current.identity
    requires row.id in approvals && approvals[row.id].intentId == current.identity.id
    requires ApprovalEvolves(approvals[row.id], row)
    requires
      || (closed.status.Failed? && row.status.ApprovalRejected?)
      || (closed.status.Expired? && row.status.ApprovalExpired?)
    ensures ApprovalsMatch(approvals[row.id := row], closed)
  {
    assert ApprovalMatches(approvals[row.id], current);
  }

  lemma ExpireMoves(s: Store, t: Store, a: Id, now: int)
    requires ExpireApproval(s, a, now) == Committed(t)
    requires s.approvals[a].id == a && s.intents[s.approvals[a].intentId].identity.direction.Outbound?
    requires IntentInv(s, s.approvals[a].intentId)
    ensures LocalMove(s, t, s.approvals[a].intentId)
  {
    var row := s.approvals[a];
    var expired := ExpiredIntent(s.intents[row.intentId], now);
    CloseMoves(s, t, row.intentId, expired, row.(status := ApprovalExpired), ExpiryEvent(row, now));
  }

  lemma ExpireOneKeeps(s: Store, a: Id, now: int)
    requires Inv(s)
    ensures var t := After(s, ExpireApproval(s, a, now)); Inv(t) && Evolves(s, t)
  {
    var tx := ExpireApproval(s, a, now);
    if tx.Committed? {
      assert IntentInv(s, s.approvals[a].intentId);
      ExpireMoves(s, tx.store, a, now);
      MoveKeeps(s, tx.store, s.approvals[a].intentId);
    }
  }

  lemma {:induction false} ExpireDueKeeps(s: Store, t: Store, ids: seq<Id>, now: int)
    requires Inv(s)
    requires ExpireDue(s, ids, now) == Committed(t)
    ensures Inv(t) && Evolves(s, t)
    decreases |ids|
  {
    if ids != [] {
      var next := After(s, ExpireApproval(s, ids[0], now));
      ExpireOneKeeps(s, ids[0], now);
      ExpireDueKeeps(next, t, ids[1..], now);
      EvolvesTransitive(s, next, t);
    }
  }

  /** The row the compare-and-swap found is the version the worker had read. */
  lemma SwappedCurrent(s: Store, read: Intent, candidate: Intent, mutation: Mutation)
    requires candidate.identity == read.identity
    requires read.identity.id in s.intents ==> IntentEvolves(read, s.intents[read.identity.id])
    requires CanUpdate(s, candidate, read.updatedAt, mutation)
    ensures SameVersion(read, s.intents[read.identity.id])
  {
  }

  lemma ConsumeCommits(cfg: Config, s: Store, t: Store, w: Consumption)
    requires ConsumeAndReserve(cfg, s, w) == Committed(t)
    ensures w.claims.approvalId in s.approvals
    ensures EnforceBudget(cfg, s, w.intent.identity, w.evaluatedAt, true)
    ensures PaymentScope(cfg, w.intent.identity, w.origin)
    ensures var a := s.approvals[w.claims.approvalId];
      && VerifiedGrantMatches(a, w.intent, w.claims, w.evaluatedAt)
      && CanUpdate(s, w.intent, w.expected, ApprovalReserve)
      && InsertEvent(s.events, w.event) == Some(t.events)
      && t == WithIntent(s, w.intent).(
                approvals := s.approvals[a.id := ConsumedRow(a, w.evaluatedAt)], events := t.events)
  {
  }

  lemma ConsumedApprovals(approvals: map<Id, Approval>, current: Intent, reserved: Intent, a: Id, now: int)
    requires ApprovalsMatch(approvals, current) && reserved.identity == current.identity
    requires a in approvals && approvals[a].intentId == current.identity.id && approvals[a].status.ApprovalApproved?
    requires reserved.status.Authorized?
    ensures ApprovalsMatch(approvals[a := ConsumedRow(approvals[a], now)], reserved)
  {
    assert ApprovalMatches(approvals[a], current);
  }

  lemma ConsumeMoves(s: Store, t: Store, id: Id, a: Id, reserved: Intent, e: Event, now: int)
    requires id in s.intents && IntentInv(s, id) && a in s.approvals
    requires s.approvals[a].intentId == id && s.approvals[a].status.ApprovalApproved?
    requires s.intents[id].identity.direction.Outbound? && s.intents[id].status.PendingApproval?
    requires reserved.identity == s.intents[id].identity && s.intents[id].updatedAt < reserved.updatedAt
    requires reserved.status.Authorized? && ReservationMatches(reserved) && RowValid(reserved)
    requires Quiet([e], id) && InsertEvent(s.events, e) == Some(t.events)
    requires t ==
      WithIntent(s, reserved).(approvals := s.approvals[a := ConsumedRow(s.approvals[a], now)], events := t.events)
    ensures LocalMove(s, t, id)
  {
    var current := s.intents[id];
    assert e in [e];
    ApprovalElsewhere(s, t, id, a, e);
    InsertIsAppend(s.events, e);
    QuietKeepsEvents(s.events, [e], current, reserved);
    UnsettledLedger(s.ledger, current, reserved);
    ConsumedApprovals(s.approvals, current, reserved, a, now);
    OneApprovalEvolves(s.approvals, a, ConsumedRow(s.approvals[a], now));
    Assemble(s, t, reserved);
  }

  lemma ConsumeTxMoves(cfg: Config, s: Store, t: Store, a: Approval, i: Intent, origin: string, eventId: Id, now: int)
    requires i.identity.id in s.intents && IntentInv(s, i.identity.id)
    requires a.id in s.approvals && s.approvals[a.id].id == a.id && ApprovalEvolves(a, s.approvals[a.id])
    requires IntentEvolves(i, s.intents[i.identity.id])
    requires i.identity.direction.Outbound? ==> ReservationMatches(i)
    requires BuildConsumption(a, i, origin, eventId, now).Some?
    requires ConsumeAndReserve(cfg, s, BuildConsumption(a, i, origin, eventId, now).value) == Committed(t)
    ensures LocalMove(s, t, i.identity.id)
  {
    var w := BuildConsumption(a, i, origin, eventId, now).value;
    ConsumeCommits(cfg, s, t, w);
    SwappedCurrent(s, i, w.intent, ApprovalReserve);
    ConsumeMoves(s, t, i.identity.id, a.id, w.intent, w.event, now);
  }

  lemma ConsumeKeeps(cfg: Config, s: Store, t: Store, a: Approval, i: Intent, origin: string, eventId: Id, now: int)
    requires Inv(s)
    requires a.id in s.approvals && s.approvals[a.id].id == a.id && ApprovalEvolves(a, s.approvals[a.id])
    requires i.identity.id in s.intents && IntentEvolves(i, s.intents[i.identity.id])
    requires i.identity.direction.Outbound? ==> ReservationMatches(i)
    requires BuildConsumption(a, i, origin, eventId, now).Some?
    requires ConsumeAndReserve(cfg, s, BuildConsumption(a, i, origin, eventId, now).value) == Committed(t)
    ensures Inv(t) && Evolves(s, t)
  {
    assert IntentInv(s, i.identity.id);
    ConsumeTxMoves(cfg, s, t, a, i, origin, eventId, now);
    MoveKeeps(s, t, i.identity.id);
  }

  // ------------------------------------------------------------- signing on

  /** Events of one intent, and nothing but its own row and its ledger entries. */
  lemma UpdateElsewhere(s: Store, t: Store, i: Intent, es: seq<Event>)
    requires t.intents == s.intents[i.identity.id := i]
    requires forall e :: e in es ==> e.key.intentId == i.identity.id
    requires AppendEvents(s.events, es) == Some(t.events)
    requires t.approvals == s.approvals
    requires forall l :: l in s.ledger ==> l in t.ledger && t.ledger[l] == s.ledger[l]
    requires forall l :: l in t.ledger && l !in s.ledger ==> t.ledger[l].intentId == Some(i.identity.id)
    ensures SameElsewhere(s, t, i.identity.id)
  {
    AppendedLocal(s.events, es, i.identity.id);
  }

  lemma LaterApprovals(approvals: map<Id, Approval>, current: Intent, later: Intent)
    requires ApprovalsMatch(approvals, current) && later.identity == current.identity
    requires AuthorizedOrLater(current.status) && AuthorizedOrLater(later.status)
    ensures ApprovalsMatch(approvals, later)
  {
    forall a | a in approvals && approvals[a].intentId == current.identity.id
      ensures ApprovalMatches(approvals[a], later)
    {
      assert ApprovalMatches(approvals[a], current);
    }
  }

  /** A committed version of an intent that is signed or about to be. */
  predicate Advances(i: Intent, j: Intent) {
    && i.identity == j.identity && i.identity.direction.Outbound? && RowValid(j)
    && i.updatedAt < j.updatedAt && !i.IsFinal()
    && AuthorizedOrLater(i.status) && AuthorizedOrLater(j.status)
    && (SignedOrLater(i.status) ==> SignedOrLater(j.status))
    && ReservationMatches(j)
  }

  /** Past authorization the approvals no longer move. */
  lemma LaterMoves(s: Store, t: Store, next: Intent)
    requires next.identity.id in s.intents && next.identity.id in t.intents && t.intents[next.identity.id] == next
    requires Advances(s.intents[next.identity.id], next)
    requires ApprovalsMatch(s.approvals, s.intents[next.identity.id]) && t.approvals == s.approvals
    requires SameElsewhere(s, t, next.identity.id)
    requires EventsMatch(t.events, next) && LedgerMatches(t.ledger, next)
    ensures LocalMove(s, t, next.identity.id)
  {
    LaterApprovals(s.approvals, s.intents[next.identity.id], next);
    NoApprovalEvolves(s.approvals);
    Assemble(s, t, next);
  }

  lemma SignCommits(s: Store, t: Store, w: SigningWrite)
    requires CommitSigned(s, w) == Committed(t)
    ensures CanUpdate(s, w.intent, w.expected, Unchanged)
    ensures SigningAuthority(s.intents[w.intent.identity.id], w)
    ensures AppendEvents(s.events, w.events) == Some(t.events)
    ensures t == WithIntent(s, w.intent).(events := t.events)
  {
  }

  lemma SignMoves(s: Store, t: Store, current: Intent, signed: Intent, requested: Event, e: Event)
    requires current.identity.id in s.intents && s.intents[current.identity.id] == current
    requires IntentInv(s, current.identity.id)
    requires current.identity.direction.Outbound? && current.status.Authorized?
    requires signed.identity == current.identity && current.updatedAt < signed.updatedAt
    requires signed.status.Signed? && ReservationMatches(signed) && RowValid(signed)
    requires requested.key == SignRequestedKey(current.identity.id) && !requested.payload.MerchantHint?
    requires e.key == SignedKey(current.identity.id) && !e.payload.MerchantHint?
    requires AppendEvents(s.events, [requested, e]) == Some(t.events)
    requires t == WithIntent(s, signed).(events := t.events)
    ensures LocalMove(s, t, current.identity.id)
  {
    var id := current.identity.id;
    UpdateElsewhere(s, t, signed, [requested, e]);
    SignedEvents(s.events, current, signed, requested, e);
    UnsettledLedger(s.ledger, current, signed);
    LaterMoves(s, t, signed);
  }

  lemma SignedEvents(events: map<EventKey, Event>, current: Intent, signed: Intent, requested: Event, e: Event)
    requires EventsMatch(events, current) && current.status.Authorized?
    requires signed.identity == current.identity && signed.status.Signed?
    requires requested.key == SignRequestedKey(current.identity.id) && !requested.payload.MerchantHint?
    requires e.key == SignedKey(current.identity.id) && !e.payload.MerchantHint?
    requires AppendEvents(events, [requested, e]).Some?
    ensures EventsMatch(AppendEvents(events, [requested, e]).value, signed)
  {
    AppendedLocal(events, [requested, e], current.identity.id);
    assert e in [requested, e] && requested in [requested, e];
  }

  lemma SignKeeps(s: Store, t: Store, i: Intent, signing: SigningRequest, now: int)
    requires Inv(s)
    requires i.identity.id in s.intents ==> IntentEvolves(i, s.intents[i.identity.id])
    requires i.identity.direction.Outbound? ==> ReservationMatches(i)
    requires BuildSigning(i, signing, now).Some?
    requires CommitSigned(s, BuildSigning(i, signing, now).value) == Committed(t)
    ensures Inv(t) && Evolves(s, t)
  {
    var w := BuildSigning(i, signing, now).value;
    SignCommits(s, t, w);
    SwappedCurrent(s, i, w.intent, Unchanged);
    assert IntentInv(s, i.identity.id);
    SignMoves(s, t, s.intents[i.identity.id], w.intent, w.events[0], w.events[1]);
    MoveKeeps(s, t, i.identity.id);
  }

  lemma EvidenceCommits(s: Store, t: Store, w: EvidenceWrite)
    requires RecordEvidence(s, w) == Committed(t)
    ensures CanUpdate(s, w.intent, w.expected, Unchanged)
    ensures EvidenceTransitionValid(s.intents[w.intent.identity.id], w)
    ensures SubmittedKey(w.intent.identity.id) !in s.events
    ensures InsertEvent(s.events, w.event) == Some(t.events)
    ensures t == WithIntent(s, w.intent).(events := t.events)
  {
  }

  lemma EvidenceMoves(s: Store, t: Store, current: Intent, pending: Intent, e: Event)
    requires current.identity.id in s.intents && s.intents[current.identity.id] == current
    requires IntentInv(s, current.identity.id)
    requires current.identity.direction.Outbound? && current.status.Signed?
    requires pending.identity == current.identity && current.updatedAt < pending.updatedAt
    requires pending.status.PendingSettlement? && ReservationMatches(pending) && RowValid(pending)
    requires e.key == SubmittedKey(current.identity.id)
    requires InsertEvent(s.events, e) == Some(t.events)
    requires t == WithIntent(s, pending).(events := t.events)
    ensures LocalMove(s, t, current.identity.id)
  {
    InsertIsAppend(s.events, e);
    UpdateElsewhere(s, t, pending, [e]);
    SubmittedEvents(s.events, current, pending, e);
    UnsettledLedger(s.ledger, current, pending);
    LaterMoves(s, t, pending);
  }

  lemma SubmittedEvents(events: map<EventKey, Event>, current: Intent, pending: Intent, e: Event)
    requires EventsMatch(events, current) && current.status.Signed?
    requires pending.identity == current.identity && pending.status.PendingSettlement?
    requires e.key == SubmittedKey(current.identity.id) && InsertEvent(events, e).Some?
    ensures EventsMatch(InsertEvent(events, e).value, pending)
  {
  }

  lemma EvidenceKeeps(s: Store, t: Store, i: Intent, r: MerchantResponse, expectedPayer: string, now: int)
    requires Inv(s)
    requires i.identity.id in s.intents ==> IntentEvolves(i, s.intents[i.identity.id])
    requires i.identity.direction.Outbound? ==> ReservationMatches(i)
    requires BuildEvidence(i, r, expectedPayer, now).Some?
    requires RecordEvidence(s, BuildEvidence(i, r, expectedPayer, now).value) == Committed(t)
    ensures Inv(t) && Evolves(s, t)
  {
    var w := BuildEvidence(i, r, expectedPayer, now).value;
    EvidenceCommits(s, t, w);
    assert IntentInv(s, i.identity.id);
    EvidenceMoves(s, t, s.intents[i.identity.id], w.intent, w.event);
    MoveKeeps(s, t, i.identity.id);
  }

  // ---------------------------------------------------------- reconciliation

  lemma SettlementCommits(s: Store, t: Store, w: SettlementWrite)
    requires CommitSettlement(s, w) == Committed(t)
    ensures CanUpdate(s, w.intent, w.expected, Settlement)
    ensures AppendLedger(s.ledger, w.entries) == Some(t.ledger)
    ensures AppendEvents(s.events, w.events) == Some(t.events)
    ensures t == WithIntent(s, w.intent).(ledger := t.ledger, events := t.events)
  {
  }

  /** A fresh posting is inserted: an entry that was already there would belong
      to the same intent. */
  lemma PostsOnce(ledger: map<LedgerId, LedgerEntry>, e: LedgerEntry)
    requires e.intentId.Some?
    requires forall l :: l in ledger ==> ledger[l].intentId != e.intentId
    requires AppendLedger(ledger, [e]).Some?
    ensures e.id !in ledger && AppendLedger(ledger, [e]) == Some(ledger[e.id := e])
  {
    var first := InsertLedger(ledger, e);
    assert first.Some?;
    assert AppendLedger(first.value, []) == first;
  }

  lemma SettleElsewhere(s: Store, t: Store, settled: Intent, entry: LedgerEntry, e: Event)
    requires entry.intentId == Some(settled.identity.id) && entry.id !in s.ledger
    requires Quiet([e], settled.identity.id) && AppendEvents(s.events, [e]) == Some(t.events)
    requires t == WithIntent(s, settled).(ledger := s.ledger[entry.id := entry], events := t.events)
    ensures SameElsewhere(s, t, settled.identity.id)
  {
    assert e in [e];
    UpdateElsewhere(s, t, settled, [e]);
  }

  lemma SettleMoves(s: Store, t: Store, current: Intent, settled: Intent, entry: LedgerEntry, e: Event)
    requires current.identity.id in s.intents && s.intents[current.identity.id] == current
    requires EventsMatch(s.events, current) && LedgerMatches(s.ledger, current) && ApprovalsMatch(s.approvals, current)
    requires Advances(current, settled) && current.status.PendingSettlement? && settled.status.Settled?
    requires entry.intentId == Some(current.identity.id) && EntryFor(entry, settled)
    requires Quiet([e], current.identity.id) && AppendEvents(s.events, [e]) == Some(t.events)
    requires entry.id !in s.ledger
    requires t == WithIntent(s, settled).(ledger := s.ledger[entry.id := entry], events := t.events)
    ensures LocalMove(s, t, current.identity.id)
  {
    SettleElsewhere(s, t, settled, entry, e);
    QuietKeepsEvents(s.events, [e], current, settled);
    PostedLedger(s.ledger, current, settled, entry);
    LaterMoves(s, t, settled);
  }

  lemma PostedLedger(ledger: map<LedgerId, LedgerEntry>, current: Intent, settled: Intent, entry: LedgerEntry)
    requires LedgerMatches(ledger, current) && !current.status.Settled?
    requires settled.identity == current.identity && settled.status.Settled?
    requires entry.intentId == Some(current.identity.id) && EntryFor(entry, settled)
    ensures LedgerMatches(ledger[entry.id := entry], settled)
  {
    assert ledger[entry.id := entry][entry.id].intentId == Some(settled.identity.id);
  }

  /** What a committed settlement of an intent without an entry has written. */
  lemma ConfirmedWrites(s: Store, t: Store, i: Intent, settlement: ConfirmedSettlement, attempt: nat, now: int)
    requires i.identity.id in s.intents && IntentEvolves(i, s.intents[i.identity.id])
    requires forall l :: l in s.ledger ==> s.ledger[l].intentId != Some(i.identity.id)
    requires BuildConfirmed(i, settlement, attempt, now).Some?
    requires CommitSettlement(s, BuildConfirmed(i, settlement, attempt, now).value) == Committed(t)
    ensures SameVersion(i, s.intents[i.identity.id]) && SettlementValidFor(settlement, i, now)
    ensures
      var (w, entry) := (BuildConfirmed(i, settlement, attempt, now).value, ReconciledLedger(i, settlement, now));
      && entry.id !in s.ledger && AppendEvents(s.events, w.events) == Some(t.events) && RowValid(w.intent)
      && i.updatedAt < w.intent.updatedAt
      && t == WithIntent(s, w.intent).(ledger := s.ledger[entry.id := entry], events := t.events)
  {
    var w := BuildConfirmed(i, settlement, attempt, now).value;
    SettlementCommits(s, t, w);
    SwappedCurrent(s, i, w.intent, Settlement);
    PostsOnce(s.ledger, ReconciledLedger(i, settlement, now));
  }

  lemma Unposted(s: Store, i: Intent)
    requires i.identity.id in s.intents && IntentInv(s, i.identity.id) && IntentEvolves(i, s.intents[i.identity.id])
    requires i.identity.direction.Outbound? && !s.intents[i.identity.id].status.Settled?
    ensures forall l :: l in s.ledger ==> s.ledger[l].intentId != Some(i.identity.id)
  {
  }

  lemma ConfirmedAdvances(current: Intent, i: Intent, settlement: ConfirmedSettlement, now: int)
    requires SameVersion(i, current) && i.identity.direction.Outbound? && i.NeedsReconciliation()
    requires ReservationMatches(i) && SettlementValidFor(settlement, i, now)
    requires
      var settled := ReconciledIntent(i, settlement, now);
      RowValid(settled) && i.updatedAt < settled.updatedAt
    requires current.status.PendingSettlement?
    ensures
      var settled := ReconciledIntent(i, settlement, now);
      Advances(current, settled) && settled.status.Settled? && EntryFor(ReconciledLedger(i, settlement, now), settled)
  {
  }

  lemma ConfirmedMoves(s: Store, t: Store, i: Intent, settlement: ConfirmedSettlement, attempt: nat, now: int)
    requires i.identity.id in s.intents && IntentInv(s, i.identity.id) && SameVersion(i, s.intents[i.identity.id])
    requires i.identity.direction.Outbound? && i.NeedsReconciliation() && ReservationMatches(i)
    requires SubmittedKey(i.identity.id) in s.events
    requires BuildConfirmed(i, settlement, attempt, now).Some? && SettlementValidFor(settlement, i, now)
    requires
      var (w, entry) := (BuildConfirmed(i, settlement, attempt, now).value, ReconciledLedger(i, settlement, now));
      && entry.id !in s.ledger && AppendEvents(s.events, w.events) == Some(t.events) && RowValid(w.intent)
      && i.updatedAt < w.intent.updatedAt
      && t == WithIntent(s, w.intent).(ledger := s.ledger[entry.id := entry], events := t.events)
    ensures LocalMove(s, t, i.identity.id)
  {
    var w := BuildConfirmed(i, settlement, attempt, now).value;
    assert w.events == [w.events[0]];
    OutboundParts(s, i.identity.id);
    ConfirmedAdvances(s.intents[i.identity.id], i, settlement, now);
    SettleMoves(s, t, s.intents[i.identity.id], w.intent, ReconciledLedger(i, settlement, now), w.events[0]);
  }

  lemma ConfirmedKeeps(s: Store, t: Store, i: Intent, settlement: ConfirmedSettlement, attempt: nat, now: int)
    requires Inv(s)
    requires i.identity.id in s.intents ==> IntentEvolves(i, s.intents[i.identity.id])
    requires i.identity.direction.Outbound? && i.NeedsReconciliation() && ReservationMatches(i)
    requires SubmittedKey(i.identity.id) in s.events
    requires BuildConfirmed(i, settlement, attempt, now).Some?
    requires CommitSettlement(s, BuildConfirmed(i, settlement, attempt, now).value) == Committed(t)
    ensures Inv(t) && Evolves(s, t)
    ensures Posted(s, t, i.identity.id, ReconciledLedger(i, settlement, now).id)
  {
    SettlementCommits(s, t, BuildConfirmed(i, settlement, attempt, now).value);
    assert IntentInv(s, i.identity.id);
    Unposted(s, i);
    ConfirmedWrites(s, t, i, settlement, attempt, now);
    ConfirmedPosts(s, t, i, settlement, now);
    ConfirmedMoves(s, t, i, settlement, attempt, now);
    MoveKeeps(s, t, i.identity.id);
  }

  // ------------------------------------------------------- inbound and leases

  /** Writes about an inbound intent cannot disturb an outbound one. */
  lemma InboundKeeps(s: Store, t: Store, i: Intent, es: seq<Event>)
    requires Inv(s)
    requires i.identity.direction.Inbound? && RowValid(i)
    requires i.identity.id in s.intents ==>
      && s.intents[i.identity.id].identity == i.identity && s.intents[i.identity.id].updatedAt < i.updatedAt
    requires t.intents == s.intents[i.identity.id := i]
    requires forall e :: e in es ==> e.key.intentId == i.identity.id
    requires AppendEvents(s.events, es) == Some(t.events)
    requires t.approvals == s.approvals
    requires forall l :: l in s.ledger ==> l in t.ledger && t.ledger[l] == s.ledger[l]
    requires forall l :: l in t.ledger && l !in s.ledger ==>
      t.ledger[l].intentId == Some(i.identity.id) && t.ledger[l].direction.Inbound?
    ensures Inv(t) && Evolves(s, t)
  {
    var id := i.identity.id;
    UpdateElsewhere(s, t, i, es);
    if id in s.intents {
      assert IntentInv(s, id);
    }
    assert InboundMatches(t, id);
    MoveKeeps(s, t, id);
  }

  lemma InboundProgressKeeps(s: Store, t: Store, w: ProgressWrite)
    requires Inv(s) && w.intent.identity.direction.Inbound?
    requires forall e :: e in w.events ==> e.key.intentId == w.intent.identity.id
    requires CommitProgress(s, w) == Committed(t) || VerifyIncoming(s, w) == Committed(t)
    ensures Inv(t) && Evolves(s, t)
  {
    InboundKeeps(s, t, w.intent, w.events);
  }

  lemma InboundSettlementKeeps(s: Store, t: Store, w: SettlementWrite)
    requires Inv(s) && InboundOnly(w.intent, w.events, w.entries)
    requires CommitSettlement(s, w) == Committed(t)
    ensures Inv(t) && Evolves(s, t)
  {
    SettlementCommits(s, t, w);
    InboundKeeps(s, t, w.intent, w.events);
  }

  lemma SameRowsKeep(s: Store, t: Store)
    requires Inv(s)
    requires t == s.(leases := t.leases, attempts := t.attempts)
    ensures Inv(t) && Evolves(s, t)
  {
    forall id | id in t.intents ensures IntentInv(t, id) {
      assert IntentInv(s, id);
      SameRowsInv(s, t, id);
    }
    SameRowsEvolve(s, t);
  }

  lemma SameRowsInv(s: Store, t: Store, id: Id)
    requires t == s.(leases := t.leases, attempts := t.attempts) && id in s.intents && IntentInv(s, id)
    ensures IntentInv(t, id)
  {
  }

  lemma SameRowsEvolve(s: Store, t: Store)
    requires t == s.(leases := t.leases, attempts := t.attempts)
    ensures Evolves(s, t)
  {
  }

  lemma {:induction false} ClaimChangesLeasesOnly(
    s: Store, t: Store, ids: seq<Id>, owner: string, now: int, leaseUntil: int)
    requires Claim(s, ids, owner, now, leaseUntil) == Committed(t)
    ensures t == s.(leases := t.leases, attempts := t.attempts)
    decreases |ids|
  {
    if ids != [] {
      ClaimChangesLeasesOnly(ClaimOne(s, ids[0], owner, leaseUntil), t, ids[1..], owner, now, leaseUntil);
    }
  }

  lemma RescheduleMoves(s: Store, t: Store, id: Id, next: Option<int>)
    requires id in s.intents && IntentInv(s, id) && !s.intents[id].IsFinal() && (next.Some? ==> 0 <= next.value)
    requires t == WithIntent(s, s.intents[id].(nextReconcileAt := next)).(leases := t.leases)
    ensures LocalMove(s, t, id)
  {
    assert SameElsewhere(s, t, id) by {
      assert t.intents.Keys == s.intents.Keys + {id};
    }
    if s.intents[id].identity.direction.Outbound? {
      RescheduledOutbound(s, t, s.intents[id], s.intents[id].(nextReconcileAt := next));
    } else {
      NoApprovalEvolves(s.approvals);
      assert InboundMatches(t, id);
    }
  }

  lemma RescheduledOutbound(s: Store, t: Store, current: Intent, moved: Intent)
    requires current.identity.id in s.intents && s.intents[current.identity.id] == current
    requires current.identity.id in t.intents && t.intents[current.identity.id] == moved
    requires IntentInv(s, current.identity.id) && current.identity.direction.Outbound? && !current.IsFinal()
    requires SameVersion(current, moved) && RowValid(moved)
    requires t.events == s.events && t.ledger == s.ledger && t.approvals == s.approvals
    requires SameElsewhere(s, t, current.identity.id)
    ensures LocalMove(s, t, current.identity.id)
  {
    UnsettledLedger(s.ledger, current, moved);
    RescheduledApprovals(s.approvals, current, moved);
    NoApprovalEvolves(s.approvals);
    Assemble(s, t, moved);
  }

  lemma RescheduledApprovals(approvals: map<Id, Approval>, i: Intent, j: Intent)
    requires ApprovalsMatch(approvals, i) && i.identity == j.identity && i.status == j.status
    ensures ApprovalsMatch(approvals, j)
  {
  }

  lemma ReleaseKeeps(s: Store, t: Store, id: Id, owner: string, nextAttemptAt: int)
    requires Inv(s)
    requires ReleaseLease(s, id, owner, nextAttemptAt) == Committed(t)
    ensures Inv(t) && Evolves(s, t)
  {
    assert IntentInv(s, id);
    RescheduleMoves(s, t, id, Some(nextAttemptAt));
    MoveKeeps(s, t, id);
  }

  // ----------------------------------------------------------- money effects

  /** What an intent holds of the outbound budgets. */
  function Holding(i: Intent): Option<(Identity, Amount)> {
    if i.identity.direction.Outbound? && i.reservation.Reserved? then Some((i.identity, i.reservedAmount)) else None
  }

  /** No outbound reservation and no outbound entry comes or goes. */
  predicate Neutral(s: Store, t: Store) {
    && (forall id :: id in s.intents ==> id in t.intents && Holding(t.intents[id]) == Holding(s.intents[id]))
    && (forall id :: id in t.intents && id !in s.intents ==> Holding(t.intents[id]).None?)
    && (forall l :: l in s.ledger ==> l in t.ledger && t.ledger[l] == s.ledger[l])
    && (forall l :: l in t.ledger && l !in s.ledger ==> t.ledger[l].direction.Inbound?)
  }

  lemma UnchangedNeutral(s: Store, t: Store, candidate: Intent, expected: int)
    requires CanUpdate(s, candidate, expected, Unchanged)
    requires t.intents == s.intents[candidate.identity.id := candidate] && t.ledger == s.ledger
    ensures Neutral(s, t)
  {
  }

  lemma ExpireOneNeutral(s: Store, a: Id, now: int)
    ensures Neutral(s, After(s, ExpireApproval(s, a, now)))
  {
    var tx := ExpireApproval(s, a, now);
    if tx.Committed? {
      var i := s.intents[s.approvals[a].intentId];
      UnchangedNeutral(s, tx.store, ExpiredIntent(i, now), i.updatedAt);
    }
  }

  lemma {:induction false} ExpireDueNeutral(s: Store, t: Store, ids: seq<Id>, now: int)
    requires ExpireDue(s, ids, now) == Committed(t)
    ensures Neutral(s, t)
    decreases |ids|
  {
    if ids != [] {
      var next := After(s, ExpireApproval(s, ids[0], now));
      ExpireOneNeutral(s, ids[0], now);
      ExpireDueNeutral(next, t, ids[1..], now);
    }
  }

  /** One intent takes its full amount out of the budgets, after the guard
      admitted it against the tables as they are. */
  ghost predicate Granted(cfg: Config, s: Store, t: Store, id: Id, now: int, approved: bool) {
    && id in t.intents
    && t.intents == s.intents[id := t.intents[id]]
    && t.ledger == s.ledger
    && var i := t.intents[id];
    && i.identity.id == id
    && Holding(i) == Some((i.identity, i.identity.amount))
    && (id in s.intents ==> Holding(s.intents[id]).None?)
    && EnforceBudget(cfg, s, i.identity, now, approved)
    && cfg.policies[i.identity.policyId].scenarioId == i.identity.scenarioId
    && cfg.policies[i.identity.policyId].unit == i.identity.asset.unit
  }

  /** One intent turns its reservation into one ledger entry of the same amount. */
  predicate Posted(s: Store, t: Store, id: Id, l: LedgerId) {
    && id in s.intents && id in t.intents && l in t.ledger
    && t.intents == s.intents[id := t.intents[id]]
    && l !in s.ledger && t.ledger == s.ledger[l := t.ledger[l]]
    && var i := s.intents[id];
    && Holding(i) == Some((i.identity, i.identity.amount))
    && t.intents[id].identity == i.identity
    && Holding(t.intents[id]).None?
    && t.ledger[l].intentId == Some(id) && EntryFor(t.ledger[l], i)
  }

  lemma InsertedGrants(cfg: Config, s: Store, t: Store, w: AuthorizationWrite)
    requires Inserted(s, t, w) && w.intent.identity.direction.Outbound?
    requires w.action.Reserve? ==>
      && AuthorizationGuard(cfg, w) && EnforceBudget(cfg, s, w.intent.identity, w.evaluatedAt, false)
      && Holding(w.intent) == Some((w.intent.identity, w.intent.identity.amount))
    requires !w.action.Reserve? ==> Holding(w.intent).None?
    ensures if w.action.Reserve? then Granted(cfg, s, t, w.intent.identity.id, w.evaluatedAt, false) else Neutral(s, t)
  {
  }

  lemma ConsumeGrants(cfg: Config, s: Store, t: Store, w: Consumption)
    requires ConsumeAndReserve(cfg, s, w) == Committed(t)
    ensures Granted(cfg, s, t, w.intent.identity.id, w.evaluatedAt, true)
  {
    ConsumeCommits(cfg, s, t, w);
  }

  lemma ConfirmedPosts(s: Store, t: Store, i: Intent, settlement: ConfirmedSettlement, now: int)
    requires i.identity.id in s.intents && SameVersion(i, s.intents[i.identity.id])
    requires i.identity.direction.Outbound? && i.NeedsReconciliation() && ReservationMatches(i)
    requires SettlementValidFor(settlement, i, now)
    requires t.intents == s.intents[i.identity.id := ReconciledIntent(i, settlement, now)]
    requires
      var entry := ReconciledLedger(i, settlement, now);
      entry.id !in s.ledger && t.ledger == s.ledger[entry.id := entry]
    ensures Posted(s, t, i.identity.id, ReconciledLedger(i, settlement, now).id)
  {
  }
}
