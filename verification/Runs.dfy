/** Safety over whole runs: what every reachable state satisfies and how any
    two states of a run relate. */
module Runs {
  import opened Options
  import opened Domain
  import opened PaymentTables
  import opened Transactions
  import opened Workers
  import opened Protocol
  import opened Steps

  /** A row read earlier, against the tables it is used on. */
  predicate IntentSound(i: Intent, s: Store, id: Id) {
    && id in s.intents && i.identity.id == id && IntentEvolves(i, s.intents[id])
    && (i.identity.direction.Outbound? ==> ReservationMatches(i))
  }

  predicate ApprovalSound(a: Approval, s: Store, id: Id) {
    id in s.approvals && a.id == id && ApprovalEvolves(a, s.approvals[id])
  }

  /** What a worker may rely on about anything it read earlier. */
  predicate ReadSound(past: Store, s: Store) {
    && (forall id :: id in past.intents ==> IntentSound(past.intents[id], s, id))
    && (forall a :: a in past.approvals ==> ApprovalSound(past.approvals[a], s, a))
    && EventsKept(past, s)
  }

  predicate EventsKept(past: Store, s: Store) {
    forall k :: k in past.events ==> k in s.events
  }

  predicate AllReadsSound(past: seq<Store>)
    requires |past| > 0
  {
    forall k {:trigger ReadSound(past[k], past[|past| - 1])} :: 0 <= k < |past| ==> ReadSound(past[k], past[|past| - 1])
  }

  lemma SoundIntent(past: seq<Store>, read: nat, id: Id)
    requires |past| > 0 && AllReadsSound(past) && IntentRead(past, read, id).Some?
    ensures IntentSound(IntentRead(past, read, id).value, past[|past| - 1], id)
  {
    assert ReadSound(past[read], past[|past| - 1]);
  }

  lemma SoundApproval(past: seq<Store>, read: nat, id: Id)
    requires |past| > 0 && AllReadsSound(past) && ApprovalRead(past, read, id).Some?
    ensures ApprovalSound(ApprovalRead(past, read, id).value, past[|past| - 1], id)
  {
    assert ReadSound(past[read], past[|past| - 1]);
  }

  lemma SoundEvents(past: seq<Store>, read: nat)
    requires 0 <= read < |past| && AllReadsSound(past)
    ensures EventsKept(past[read], past[|past| - 1])
  {
    assert ReadSound(past[read], past[|past| - 1]);
  }

  lemma ReadIsSound(past: Store, s: Store)
    requires Inv(past) && Evolves(past, s)
    ensures ReadSound(past, s)
  {
    forall id | id in past.intents ensures IntentSound(past.intents[id], s, id) {
      assert IntentInv(past, id);
    }
    forall a | a in past.approvals ensures ApprovalSound(past.approvals[a], s, a) {
      assert IntentInv(past, past.approvals[a].intentId);
    }
  }

  /** The effect of a committed operation on the money it is about. */
  ghost predicate Effect(cfg: Config, s: Store, t: Store, op: Op) {
    match op
    case Authorize(_, _, selected, ids, now) =>
      && ids.intent !in s.intents
      && if selected.decision.Allowed? then Granted(cfg, s, t, ids.intent, now, false) else Neutral(s, t)
    case Consume(_, _, _, intentId, _, _, now) => Granted(cfg, s, t, intentId, now, true)
    case Reconcile(_, _, intentId, _, _, _, _, _) => Neutral(s, t) || exists l :: Posted(s, t, intentId, l)
    case _ => Neutral(s, t)
  }

  ghost predicate Sound(cfg: Config, s: Store, t: Store, op: Op) {
    Inv(t) && Evolves(s, t) && Effect(cfg, s, t, op)
  }

  lemma AuthorizeEffect(cfg: Config, s: Store, t: Store, op: Op)
    requires op.Authorize?
    requires
      var w := BuildAuthorization(cfg, op.principal, op.command, op.selected, op.ids, op.now);
      Transactions.Authorize(cfg, s, w) == Committed(t)
    ensures Effect(cfg, s, t, op)
    ensures Inserted(s, t, BuildAuthorization(cfg, op.principal, op.command, op.selected, op.ids, op.now))
  {
    var w := BuildAuthorization(cfg, op.principal, op.command, op.selected, op.ids, op.now);
    AuthorizeInserts(cfg, s, t, w);
    InsertedGrants(cfg, s, t, w);
  }

  lemma AuthorizeStep(cfg: Config, past: seq<Store>, op: Op, t: Store)
    requires |past| > 0 && Inv(past[|past| - 1])
    requires op.Authorize? && Attempt(cfg, past, op) == Committed(t)
    ensures Sound(cfg, past[|past| - 1], t, op)
  {
    AuthorizeEffect(cfg, past[|past| - 1], t, op);
    InsertedKeeps(cfg, past[|past| - 1], t, op.principal, op.command, op.selected, op.ids, op.now);
  }

  lemma SameMoneyNeutral(s: Store, t: Store)
    requires t.intents == s.intents && t.ledger == s.ledger
    ensures Neutral(s, t)
  {
  }

  lemma DecideBuilt(cfg: Config, s: Store, t: Store, a: Approval, i: Intent, op: Op)
    requires op.Decide?
    requires DecideTx(cfg, s, a, i, op.principal, op.request, op.jti, op.eventId, op.now) == Committed(t)
    ensures
      var w := BuildDecision(cfg, a, i, op.principal, op.request, op.jti, op.eventId, op.now);
      w.Some? && w.value.decision.kind == op.request.kind && Transactions.Decide(s, w.value) == Committed(t)
  {
  }

  lemma ApproveSound(cfg: Config, s: Store, t: Store, a: Approval, i: Intent, op: Op)
    requires Inv(s) && op.Decide? && op.request.kind.Approve?
    requires ApprovalSound(a, s, op.request.approvalId) && IntentSound(i, s, op.request.intentId)
    requires DecideTx(cfg, s, a, i, op.principal, op.request, op.jti, op.eventId, op.now) == Committed(t)
    ensures Inv(t) && Evolves(s, t) && Neutral(s, t)
  {
    DecideBuilt(cfg, s, t, a, i, op);
    ApproveKeeps(cfg, s, t, a, i, op.principal, op.request, op.jti, op.eventId, op.now);
    ApproveNeutral(s, t, BuildDecision(cfg, a, i, op.principal, op.request, op.jti, op.eventId, op.now).value);
  }

  lemma ApproveNeutral(s: Store, t: Store, w: DecisionWrite)
    requires w.decision.kind.Approve? && Transactions.Decide(s, w) == Committed(t)
    ensures Neutral(s, t)
  {
    ApproveCommits(s, t, w);
    SameMoneyNeutral(s, t);
  }

  lemma RejectNeutral(s: Store, t: Store, w: DecisionWrite)
    requires w.decision.kind.Reject? && Transactions.Decide(s, w) == Committed(t)
    ensures Neutral(s, t)
  {
    RejectCommits(s, t, w);
    UnchangedNeutral(s, t, w.failed.value, w.expected);
  }

  lemma RejectSound(cfg: Config, s: Store, t: Store, a: Approval, i: Intent, op: Op)
    requires Inv(s) && op.Decide? && op.request.kind.Reject?
    requires ApprovalSound(a, s, op.request.approvalId) && IntentSound(i, s, op.request.intentId)
    requires DecideTx(cfg, s, a, i, op.principal, op.request, op.jti, op.eventId, op.now) == Committed(t)
    ensures Inv(t) && Evolves(s, t) && Neutral(s, t)
  {
    DecideBuilt(cfg, s, t, a, i, op);
    RejectKeeps(cfg, s, t, a, i, op.principal, op.request, op.jti, op.eventId, op.now);
    RejectNeutral(s, t, BuildDecision(cfg, a, i, op.principal, op.request, op.jti, op.eventId, op.now).value);
  }

  lemma DecideStep(cfg: Config, past: seq<Store>, op: Op, t: Store)
    requires |past| > 0 && Inv(past[|past| - 1]) && AllReadsSound(past)
    requires op.Decide? && Attempt(cfg, past, op) == Committed(t)
    ensures Sound(cfg, past[|past| - 1], t, op)
  {
    DecideAttempt(cfg, past, op, t);
    SoundApproval(past, op.approvalRead, op.request.approvalId);
    SoundIntent(past, op.intentRead, op.request.intentId);
    var a := ApprovalRead(past, op.approvalRead, op.request.approvalId).value;
    var i := IntentRead(past, op.intentRead, op.request.intentId).value;
    if op.request.kind.Approve? {
      ApproveSound(cfg, past[|past| - 1], t, a, i, op);
    } else {
      RejectSound(cfg, past[|past| - 1], t, a, i, op);
    }
  }

  lemma ConsumeSound(cfg: Config, s: Store, t: Store, a: Approval, i: Intent, op: Op)
    requires Inv(s) && op.Consume? && ApprovalSound(a, s, op.approvalId) && IntentSound(i, s, op.intentId)
    requires ConsumeTx(cfg, s, a, i, op.origin, op.eventId, op.now) == Committed(t)
    ensures Inv(t) && Evolves(s, t) && Granted(cfg, s, t, op.intentId, op.now, true)
  {
    ConsumeKeeps(cfg, s, t, a, i, op.origin, op.eventId, op.now);
    ConsumeGrants(cfg, s, t, BuildConsumption(a, i, op.origin, op.eventId, op.now).value);
  }

  lemma ConsumeStep(cfg: Config, past: seq<Store>, op: Op, t: Store)
    requires |past| > 0 && Inv(past[|past| - 1]) && AllReadsSound(past)
    requires op.Consume? && Attempt(cfg, past, op) == Committed(t)
    ensures Sound(cfg, past[|past| - 1], t, op)
  {
    ConsumeAttempt(cfg, past, op, t);
    SoundApproval(past, op.approvalRead, op.approvalId);
    SoundIntent(past, op.intentRead, op.intentId);
    var a := ApprovalRead(past, op.approvalRead, op.approvalId).value;
    var i := IntentRead(past, op.intentRead, op.intentId).value;
    ConsumeSound(cfg, past[|past| - 1], t, a, i, op);
  }

  lemma SignSound(s: Store, t: Store, i: Intent, op: Op)
    requires Inv(s) && op.Sign? && IntentSound(i, s, op.intentId)
    requires SignTx(s, i, op.signing, op.now) == Committed(t)
    ensures Inv(t) && Evolves(s, t) && Neutral(s, t)
  {
    var w := BuildSigning(i, op.signing, op.now).value;
    SignKeeps(s, t, i, op.signing, op.now);
    SignCommits(s, t, w);
    UnchangedNeutral(s, t, w.intent, w.expected);
  }

  lemma SignStep(cfg: Config, past: seq<Store>, op: Op, t: Store)
    requires |past| > 0 && Inv(past[|past| - 1]) && AllReadsSound(past)
    requires op.Sign? && Attempt(cfg, past, op) == Committed(t)
    ensures Sound(cfg, past[|past| - 1], t, op)
  {
    SignAttempt(cfg, past, op, t);
    SoundIntent(past, op.read, op.intentId);
    SignSound(past[|past| - 1], t, IntentRead(past, op.read, op.intentId).value, op);
  }

  lemma EvidenceSound(s: Store, t: Store, i: Intent, op: Op)
    requires Inv(s) && op.RecordResponse? && IntentSound(i, s, op.response.intentId)
    requires RecordTx(s, i, op.response, op.expectedPayer, op.now) == Committed(t)
    ensures Inv(t) && Evolves(s, t) && Neutral(s, t)
  {
    var w := BuildEvidence(i, op.response, op.expectedPayer, op.now).value;
    EvidenceKeeps(s, t, i, op.response, op.expectedPayer, op.now);
    EvidenceCommits(s, t, w);
    UnchangedNeutral(s, t, w.intent, w.expected);
  }

  lemma EvidenceStep(cfg: Config, past: seq<Store>, op: Op, t: Store)
    requires |past| > 0 && Inv(past[|past| - 1]) && AllReadsSound(past)
    requires op.RecordResponse? && Attempt(cfg, past, op) == Committed(t)
    ensures Sound(cfg, past[|past| - 1], t, op)
  {
    RecordAttempt(cfg, past, op, t);
    SoundIntent(past, op.read, op.response.intentId);
    EvidenceSound(past[|past| - 1], t, IntentRead(past, op.read, op.response.intentId).value, op);
  }

  /** Whatever the evidence, an outbound intent can only be settled, and only
      after its merchant locator was recorded. */
  lemma OutboundReconcileTx(cfg: Config, s: Store, t: Store, i: Intent, evidence: Evidence, attempt: nat, now: int)
    requires Inv(s)
    requires i.identity.id in s.intents ==> IntentEvolves(i, s.intents[i.identity.id])
    requires i.identity.direction.Outbound? && ReservationMatches(i)
    requires evidence.Confirmed? ==> SubmittedKey(i.identity.id) in s.events
    requires ReconcileTx(cfg, s, i, evidence, attempt, now) == Committed(t)
    ensures Inv(t) && Evolves(s, t)
    ensures evidence.Confirmed? && Posted(s, t, i.identity.id, ReconciledLedger(i, evidence.settlement, now).id)
  {
    ConfirmedKeeps(s, t, i, evidence.settlement, attempt, now);
  }

  lemma InboundReconcileTx(cfg: Config, s: Store, t: Store, i: Intent, evidence: Evidence, attempt: nat, now: int)
    requires Inv(s)
    requires i.identity.direction.Inbound?
    requires ReconcileTx(cfg, s, i, evidence, attempt, now) == Committed(t)
    ensures Inv(t) && Evolves(s, t) && Neutral(s, t)
  {
    var progress, settlement := InboundReconcileWrite(cfg, s, t, i, evidence, attempt, now);
    if progress.Some? {
      InboundProgressStep(s, t, progress.value);
    } else {
      InboundSettlementStep(s, t, settlement.value);
    }
  }

  lemma InboundReconcileWrite(cfg: Config, s: Store, t: Store, i: Intent, evidence: Evidence, attempt: nat, now: int)
    returns (progress: Option<ProgressWrite>, settlement: Option<SettlementWrite>)
    requires i.identity.direction.Inbound?
    requires ReconcileTx(cfg, s, i, evidence, attempt, now) == Committed(t)
    ensures progress.Some? || settlement.Some?
    ensures progress.Some? ==>
      InboundOnly(progress.value.intent, progress.value.events, []) && CommitProgress(s, progress.value) == Committed(t)
    ensures settlement.Some? ==>
      && InboundOnly(settlement.value.intent, settlement.value.events, settlement.value.entries)
      && CommitSettlement(s, settlement.value) == Committed(t)
  {
    progress, settlement := None, None;
    if i.status.Created? && i.identity.expiresAt.Some? && i.identity.expiresAt.value <= now {
      progress := BuildExpiredChallenge(i, attempt, now);
    } else {
      match evidence
      case Confirmed(confirmed) => settlement := BuildConfirmed(i, confirmed, attempt, now);
      case Verified(reference) => progress := BuildVerified(cfg, i, reference, attempt, now);
      case AuthorizationExpired => progress := BuildExpiredSettlement(i, attempt, now);
    }
  }

  lemma InboundProgressStep(s: Store, t: Store, w: ProgressWrite)
    requires Inv(s) && InboundOnly(w.intent, w.events, [])
    requires CommitProgress(s, w) == Committed(t) || VerifyIncoming(s, w) == Committed(t)
    ensures Inv(t) && Evolves(s, t) && Neutral(s, t)
  {
    InboundProgressKeeps(s, t, w);
    InboundProgressNeutral(s, t, w);
  }

  lemma InboundProgressNeutral(s: Store, t: Store, w: ProgressWrite)
    requires w.intent.identity.direction.Inbound?
    requires CommitProgress(s, w) == Committed(t) || VerifyIncoming(s, w) == Committed(t)
    ensures Neutral(s, t)
  {
  }

  lemma InboundSettlementStep(s: Store, t: Store, w: SettlementWrite)
    requires Inv(s) && InboundOnly(w.intent, w.events, w.entries)
    requires CommitSettlement(s, w) == Committed(t)
    ensures Inv(t) && Evolves(s, t) && Neutral(s, t)
  {
    InboundSettlementKeeps(s, t, w);
    InboundSettlementNeutral(s, t, w);
  }

  lemma InboundSettlementNeutral(s: Store, t: Store, w: SettlementWrite)
    requires InboundOnly(w.intent, w.events, w.entries) && CommitSettlement(s, w) == Committed(t)
    ensures Neutral(s, t)
  {
    SettlementCommits(s, t, w);
  }

  /** A confirmed answer about an outbound intent went through its locator. */
  lemma ConfirmedThroughLocator(past: Store, i: Intent, payer: string, receipt: Receipt, provider: Evidence)
    ensures i.identity.direction.Outbound? && Lookup(past, i, payer, receipt, provider).Confirmed? ==>
      SubmittedKey(i.identity.id) in past.events && receipt.ReceiptConfirmed?
  {
  }

  lemma PostingIsSound(cfg: Config, s: Store, t: Store, op: Op, l: LedgerId)
    requires Inv(t) && Evolves(s, t) && op.Reconcile? && Posted(s, t, op.intentId, l)
    ensures Sound(cfg, s, t, op)
  {
  }

  lemma OutboundReconcileSound(cfg: Config, s: Store, t: Store, i: Intent, evidence: Evidence, op: Op)
    requires Inv(s) && op.Reconcile? && IntentSound(i, s, op.intentId)
    requires i.identity.direction.Outbound? && (evidence.Confirmed? ==> SubmittedKey(i.identity.id) in s.events)
    requires ReconcileTx(cfg, s, i, evidence, op.attempt, op.now) == Committed(t)
    ensures Sound(cfg, s, t, op)
  {
    OutboundReconcileTx(cfg, s, t, i, evidence, op.attempt, op.now);
    PostingIsSound(cfg, s, t, op, ReconciledLedger(i, evidence.settlement, op.now).id);
  }

  lemma InboundReconcileSound(cfg: Config, s: Store, t: Store, i: Intent, evidence: Evidence, op: Op)
    requires Inv(s) && op.Reconcile? && i.identity.direction.Inbound?
    requires ReconcileTx(cfg, s, i, evidence, op.attempt, op.now) == Committed(t)
    ensures Sound(cfg, s, t, op)
  {
    InboundReconcileTx(cfg, s, t, i, evidence, op.attempt, op.now);
  }

  lemma ReconcileStep(cfg: Config, past: seq<Store>, op: Op, t: Store)
    requires |past| > 0 && Inv(past[|past| - 1]) && AllReadsSound(past)
    requires op.Reconcile? && Attempt(cfg, past, op) == Committed(t)
    ensures Sound(cfg, past[|past| - 1], t, op)
  {
    ReconcileAttempt(cfg, past, op, t);
    SoundIntent(past, op.read, op.intentId);
    SoundEvents(past, op.lookupRead);
    var s, i := past[|past| - 1], IntentRead(past, op.read, op.intentId).value;
    var evidence := Lookup(past[op.lookupRead], i, op.expectedPayer, op.receipt, op.providerEvidence);
    ConfirmedThroughLocator(past[op.lookupRead], i, op.expectedPayer, op.receipt, op.providerEvidence);
    if i.identity.direction.Outbound? {
      OutboundReconcileSound(cfg, s, t, i, evidence, op);
    } else {
      InboundReconcileSound(cfg, s, t, i, evidence, op);
    }
  }

  lemma ClaimStep(s: Store, t: Store, ids: seq<Id>, owner: string, now: int, leaseUntil: int)
    requires Inv(s) && Claim(s, ids, owner, now, leaseUntil) == Committed(t)
    ensures Inv(t) && Evolves(s, t) && Neutral(s, t)
  {
    ClaimChangesLeasesOnly(s, t, ids, owner, now, leaseUntil);
    SameRowsKeep(s, t);
    SameMoneyNeutral(s, t);
  }

  lemma RenewStep(s: Store, t: Store, id: Id, owner: string, leaseUntil: int)
    requires Inv(s) && RenewLease(s, id, owner, leaseUntil) == Committed(t)
    ensures Inv(t) && Evolves(s, t) && Neutral(s, t)
  {
    SameRowsKeep(s, t);
    SameMoneyNeutral(s, t);
  }

  lemma ReleaseStep(s: Store, t: Store, id: Id, owner: string, nextAttemptAt: int)
    requires Inv(s) && ReleaseLease(s, id, owner, nextAttemptAt) == Committed(t)
    ensures Inv(t) && Evolves(s, t) && Neutral(s, t)
  {
    ReleaseKeeps(s, t, id, owner, nextAttemptAt);
    ReleaseNeutral(s, t, id, owner, nextAttemptAt);
  }

  lemma ReleaseNeutral(s: Store, t: Store, id: Id, owner: string, nextAttemptAt: int)
    requires Inv(s) && ReleaseLease(s, id, owner, nextAttemptAt) == Committed(t)
    ensures Neutral(s, t)
  {
    assert IntentInv(s, id);
  }

  lemma ChallengeStep(s: Store, t: Store, i: Intent, events: seq<Event>)
    requires Inv(s) && InboundOnly(i, events, []) && RecordChallenge(s, i, events) == Committed(t)
    ensures Inv(t) && Evolves(s, t) && Neutral(s, t)
  {
    ChallengeKeeps(s, t, i, events);
    ChallengeNeutral(s, t, i, events);
  }

  lemma ChallengeKeeps(s: Store, t: Store, i: Intent, events: seq<Event>)
    requires Inv(s) && InboundOnly(i, events, []) && RecordChallenge(s, i, events) == Committed(t)
    ensures Inv(t) && Evolves(s, t)
  {
    InboundKeeps(s, t, i, events);
  }

  lemma ChallengeNeutral(s: Store, t: Store, i: Intent, events: seq<Event>)
    requires i.identity.direction.Inbound? && RecordChallenge(s, i, events) == Committed(t)
    ensures Neutral(s, t)
  {
  }

  lemma ExpireStep(s: Store, t: Store, ids: seq<Id>, now: int)
    requires Inv(s) && ExpireDue(s, ids, now) == Committed(t)
    ensures Inv(t) && Evolves(s, t) && Neutral(s, t)
  {
    ExpireDueKeeps(s, t, ids, now);
    ExpireDueNeutral(s, t, ids, now);
  }

  lemma WriterStep(cfg: Config, past: seq<Store>, op: Op, t: Store)
    requires |past| > 0 && Inv(past[|past| - 1]) && AllReadsSound(past)
    requires op.Authorize? || op.Decide? || op.Consume? || op.Sign? || op.RecordResponse? || op.Reconcile?
    requires Attempt(cfg, past, op) == Committed(t)
    ensures Sound(cfg, past[|past| - 1], t, op)
  {
    if op.Authorize? {
      AuthorizeStep(cfg, past, op, t);
    } else if op.Decide? {
      DecideStep(cfg, past, op, t);
    } else if op.Consume? {
      ConsumeStep(cfg, past, op, t);
    } else if op.Sign? {
      SignStep(cfg, past, op, t);
    } else if op.RecordResponse? {
      EvidenceStep(cfg, past, op, t);
    } else {
      ReconcileStep(cfg, past, op, t);
    }
  }

  lemma StoreStep(cfg: Config, past: seq<Store>, op: Op, t: Store)
    requires |past| > 0 && Inv(past[|past| - 1]) && Attempt(cfg, past, op) == Committed(t)
    requires !(op.Authorize? || op.Decide? || op.Consume? || op.Sign? || op.RecordResponse? || op.Reconcile?)
    ensures var s := past[|past| - 1]; Inv(t) && Evolves(s, t) && Neutral(s, t)
  {
    var s := past[|past| - 1];
    match op
    case ExpireApprovals(ids, now) => ExpireStep(s, t, ids, now);
    case ClaimLeases(ids, owner, now, leaseUntil) => ClaimStep(s, t, ids, owner, now, leaseUntil);
    case Renew(id, owner, leaseUntil) => RenewStep(s, t, id, owner, leaseUntil);
    case Release(id, owner, nextAttemptAt) => ReleaseStep(s, t, id, owner, nextAttemptAt);
    case IssueChallenge(i, events) => ChallengeStep(s, t, i, events);
    case Verify(w) => InboundProgressStep(s, t, w);
    case Progress(w) => InboundProgressStep(s, t, w);
    case Settle(w) => InboundSettlementStep(s, t, w);
  }

  lemma StepIsSound(cfg: Config, past: seq<Store>, op: Op, t: Store)
    requires |past| > 0 && Inv(past[|past| - 1]) && AllReadsSound(past)
    requires Attempt(cfg, past, op) == Committed(t)
    ensures Sound(cfg, past[|past| - 1], t, op)
  {
    if op.Authorize? || op.Decide? || op.Consume? || op.Sign? || op.RecordResponse? || op.Reconcile? {
      WriterStep(cfg, past, op, t);
    } else {
      StoreStep(cfg, past, op, t);
    }
  }

  // --------------------------------------------------------------- whole runs

  predicate Linked(earlier: Store, later: Store) {
    Inv(earlier) && Inv(later) && Evolves(earlier, later)
  }

  lemma EmptyInv()
    ensures Inv(EmptyStore)
  {
  }

  lemma EvolvesReflexive(s: Store)
    ensures Evolves(s, s)
  {
  }

  /** Every state of a run satisfies the invariant. */
  lemma {:induction false} RunInv(cfg: Config, states: seq<Store>, ops: seq<Op>, k: nat)
    requires Run(cfg, states, ops) && k < |states|
    ensures Inv(states[k])
    decreases k, 0
  {
    if k == 0 {
      EmptyInv();
    } else {
      RunStep(cfg, states, ops, k - 1);
    }
  }

  predicate LinkEvolves(states: seq<Store>, n: nat)
    requires n + 1 < |states|
  {
    Evolves(states[n], states[n + 1])
  }

  lemma {:induction false} ChainEvolves(states: seq<Store>, j: nat, k: nat)
    requires j <= k < |states| && forall n :: j <= n < k ==> LinkEvolves(states, n)
    ensures Evolves(states[j], states[k])
    decreases k
  {
    if j == k {
      EvolvesReflexive(states[k]);
    } else {
      ChainEvolves(states, j, k - 1);
      assert LinkEvolves(states, k - 1);
      EvolvesTransitive(states[j], states[k - 1], states[k]);
    }
  }

  /** Every state of a run evolves into every later one. */
  lemma {:induction false} RunEvolves(cfg: Config, states: seq<Store>, ops: seq<Op>, j: nat, k: nat)
    requires Run(cfg, states, ops) && j <= k < |states|
    ensures Evolves(states[j], states[k])
    decreases k, 0
  {
    forall n | j <= n < k ensures LinkEvolves(states, n) {
      RunStep(cfg, states, ops, n);
    }
    ChainEvolves(states, j, k);
  }

  /** Everything read so far can be relied on. */
  lemma {:induction false} RunReads(cfg: Config, states: seq<Store>, ops: seq<Op>, past: seq<Store>, k: nat)
    requires Run(cfg, states, ops) && k < |ops| && past == states[..k + 1]
    ensures AllReadsSound(past)
    decreases k, 1
  {
    forall j | 0 <= j < |past| ensures ReadSound(past[j], states[k]) {
      RunInv(cfg, states, ops, j);
      RunEvolves(cfg, states, ops, j, k);
      ReadIsSound(states[j], states[k]);
    }
  }

  /** Every step of a run is sound. */
  lemma {:induction false} RunStep(cfg: Config, states: seq<Store>, ops: seq<Op>, k: nat)
    requires Run(cfg, states, ops) && k < |ops|
    ensures Inv(states[k + 1]) && Evolves(states[k], states[k + 1])
    ensures states[k + 1] == states[k] || Effect(cfg, states[k], states[k + 1], ops[k])
    decreases k, 2
  {
    RunInv(cfg, states, ops, k);
    if states[k + 1] == states[k] {
      EvolvesReflexive(states[k]);
    } else {
      var past := states[..k + 1];
      RunReads(cfg, states, ops, past, k);
      CommittedAt(cfg, states, ops, k);
      StepIsSound(cfg, past, ops[k], states[k + 1]);
    }
  }

  lemma RunLinks(cfg: Config, states: seq<Store>, ops: seq<Op>, j: nat, k: nat)
    requires Run(cfg, states, ops) && j <= k < |states|
    ensures Linked(states[j], states[k])
  {
    RunInv(cfg, states, ops, j);
    RunInv(cfg, states, ops, k);
    RunEvolves(cfg, states, ops, j, k);
  }

  lemma RunStepEffect(cfg: Config, states: seq<Store>, ops: seq<Op>, k: nat)
    requires Run(cfg, states, ops) && k < |ops|
    ensures states[k + 1] == states[k] || Effect(cfg, states[k], states[k + 1], ops[k])
  {
    RunStep(cfg, states, ops, k);
  }

  /** Anything a worker read at moment `j` can be relied on at moment `k`. */
  lemma IntentAt(cfg: Config, states: seq<Store>, ops: seq<Op>, j: nat, k: nat, id: Id)
    requires Run(cfg, states, ops) && j <= k < |states| && id in states[j].intents
    ensures id in states[k].intents && states[j].intents[id].identity.id == id
    ensures IntentEvolves(states[j].intents[id], states[k].intents[id])
    ensures states[j].intents[id].identity.direction.Outbound? ==> ReservationMatches(states[j].intents[id])
  {
    RunLinks(cfg, states, ops, j, k);
    ReadIsSound(states[j], states[k]);
  }

  lemma IdentityAt(cfg: Config, states: seq<Store>, ops: seq<Op>, k: nat, id: Id)
    requires Run(cfg, states, ops) && k < |states| && id in states[k].intents
    ensures states[k].intents[id].identity.id == id
  {
    IntentAt(cfg, states, ops, k, k, id);
  }

  lemma ApprovalAt(cfg: Config, states: seq<Store>, ops: seq<Op>, j: nat, k: nat, a: Id)
    requires Run(cfg, states, ops) && j <= k < |states| && a in states[j].approvals
    ensures a in states[k].approvals && states[j].approvals[a].id == a
    ensures ApprovalEvolves(states[j].approvals[a], states[k].approvals[a])
  {
    RunLinks(cfg, states, ops, j, k);
    ReadIsSound(states[j], states[k]);
  }

  lemma CommittedAt(cfg: Config, states: seq<Store>, ops: seq<Op>, k: nat)
    requires Run(cfg, states, ops) && k < |ops| && states[k + 1] != states[k]
    ensures Attempt(cfg, states[..k + 1], ops[k]) == Committed(states[k + 1])
  {
    assert StepAt(cfg, states, ops, k);
  }
}
