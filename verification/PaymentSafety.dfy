/** The promises of the payment core, for every run: settlement is final and
    posted once, a signed payment keeps its reservation, grants are used once
    and in time, and versions only move forward. */
module PaymentSafety {
  import opened Options
  import opened Domain
  import opened PaymentTables
  import opened Transactions
  import opened Workers
  import opened Protocol
  import opened Steps
  import opened Runs

  predicate OutboundAt(s: Store, id: Id) {
    id in s.intents && s.intents[id].identity.direction.Outbound?
  }

  predicate EntryOf(s: Store, l: LedgerId, id: Id) {
    l in s.ledger && s.ledger[l].intentId == Some(id)
  }

  /** An outbound intent is settled exactly when it has a ledger entry; the
      entry is then its only one, a payment of exactly its amount. */
  lemma SettledHasOneEntry(cfg: Config, states: seq<Store>, ops: seq<Op>, k: nat, id: Id)
    requires Run(cfg, states, ops) && k < |states| && OutboundAt(states[k], id)
    ensures states[k].intents[id].status.Settled? <==> exists l :: EntryOf(states[k], l, id)
    ensures forall l, m :: EntryOf(states[k], l, id) && EntryOf(states[k], m, id) ==> l == m
    ensures forall l :: EntryOf(states[k], l, id) ==> EntryFor(states[k].ledger[l], states[k].intents[id])
  {
    RunLinks(cfg, states, ops, k, k);
    assert IntentInv(states[k], id);
    if states[k].intents[id].status.Settled? {
      var l :| l in states[k].ledger && states[k].ledger[l].intentId == Some(id);
      assert EntryOf(states[k], l, id);
    }
  }

  /** A settled, failed or expired outbound intent never changes again. */
  lemma FinalIsForever(cfg: Config, states: seq<Store>, ops: seq<Op>, j: nat, k: nat, id: Id)
    requires Run(cfg, states, ops) && j <= k < |states|
    requires OutboundAt(states[j], id) && states[j].intents[id].IsFinal()
    ensures id in states[k].intents && states[k].intents[id] == states[j].intents[id]
  {
    IntentAt(cfg, states, ops, j, k, id);
  }

  /** The recorder does build a pending version of a settled intent, and the
      store never commits it: the settled intent already has its submission
      event, so the write is a replay of the same evidence or a conflict. */
  lemma RecorderCannotReopen(cfg: Config, states: seq<Store>, ops: seq<Op>, read: nat, k: nat,
                             r: MerchantResponse, expectedPayer: string, now: int)
    requires Run(cfg, states, ops) && read <= k < |states|
    requires OutboundAt(states[read], r.intentId) && states[read].intents[r.intentId].status.Settled?
    requires BuildEvidence(states[read].intents[r.intentId], r, expectedPayer, now).Some?
    ensures
      var w := BuildEvidence(states[read].intents[r.intentId], r, expectedPayer, now).value;
      && w.intent.status.PendingSettlement?
      && SubmittedKey(r.intentId) in states[k].events
      && RecordEvidence(states[k], w) ==
           if EvidenceReplayMatches(states[k].events[SubmittedKey(r.intentId)], r.intentId, w.evidenceHash)
           then Replayed else Refused(Conflict)
  {
    RunLinks(cfg, states, ops, read, k);
    assert IntentInv(states[read], r.intentId);
  }

  predicate Locator(s: Store, key: EventKey, id: Id) {
    key in s.events && key.intentId == id && s.events[key].payload.MerchantHint?
  }

  /** At most one merchant locator is ever recorded for an outbound intent. */
  lemma OneLocator(cfg: Config, states: seq<Store>, ops: seq<Op>, j: nat, k: nat, id: Id, x: EventKey, y: EventKey)
    requires Run(cfg, states, ops) && j <= k < |states| && OutboundAt(states[k], id)
    requires Locator(states[j], x, id) && Locator(states[k], y, id)
    ensures x == y == SubmittedKey(id) && states[j].events[x] == states[k].events[y]
    ensures states[k].intents[id].status.PendingSettlement? || states[k].intents[id].status.Settled?
  {
    RunLinks(cfg, states, ops, j, k);
    assert IntentInv(states[k], id);
  }

  /** Once signed, an outbound intent stays reserved at its full amount until it
      is settled, and is then consumed. It is never released. */
  lemma SignedIsNeverReleased(cfg: Config, states: seq<Store>, ops: seq<Op>, j: nat, k: nat, id: Id)
    requires Run(cfg, states, ops) && j <= k < |states|
    requires OutboundAt(states[j], id) && SignedOrLater(states[j].intents[id].status)
    ensures id in states[k].intents && states[k].intents[id].identity == states[j].intents[id].identity
    ensures
      var i := states[k].intents[id];
      if i.status.Settled? then i.reservation.Consumed? && i.settledAmount == i.identity.amount
      else (i.status.Signed? || i.status.PendingSettlement?) && Holding(i) == Some((i.identity, i.identity.amount))
  {
    IntentAt(cfg, states, ops, j, k, id);
    IntentAt(cfg, states, ops, k, k, id);
  }

  lemma ReconcileConfirms(cfg: Config, past: Store, s: Store, t: Store, i: Intent, op: Op)
    requires op.Reconcile? && i.identity.direction.Outbound? && ReservationMatches(i)
    requires
      var evidence := Lookup(past, i, op.expectedPayer, op.receipt, op.providerEvidence);
      ReconcileTx(cfg, s, i, evidence, op.attempt, op.now) == Committed(t)
    ensures op.receipt.ReceiptConfirmed? && SubmittedKey(i.identity.id) in past.events
  {
    ConfirmedThroughLocator(past, i, op.expectedPayer, op.receipt, op.providerEvidence);
    assert Lookup(past, i, op.expectedPayer, op.receipt, op.providerEvidence).Confirmed?;
  }

  /** A reservation ends in one way only: the reconciler commits a settlement
      that the operator's own chain access confirmed, through the recorded
      locator. */
  lemma ReservationEndsByConfirmation(cfg: Config, states: seq<Store>, ops: seq<Op>, k: nat, id: Id)
    requires Run(cfg, states, ops) && k < |ops|
    requires id in states[k].intents && Holding(states[k].intents[id]).Some?
    requires id in states[k + 1].intents && Holding(states[k + 1].intents[id]).None?
    ensures states[k + 1].intents[id].status.Settled?
    ensures ops[k].Reconcile? && ops[k].intentId == id && ops[k].receipt.ReceiptConfirmed?
    ensures ops[k].lookupRead <= k && SubmittedKey(id) in states[ops[k].lookupRead].events
  {
    RunStepEffect(cfg, states, ops, k);
    PostsOnlyByReconcile(cfg, states[k], states[k + 1], ops[k], id);
    HoldingLost(cfg, states, ops, k, id);
    CommittedAt(cfg, states, ops, k);
    ReconcileAttempt(cfg, states[..k + 1], ops[k], states[k + 1]);
    IntentAt(cfg, states, ops, ops[k].read, k, id);
    ReconcileConfirms(
      cfg, states[ops[k].lookupRead], states[k], states[k + 1], states[ops[k].read].intents[id], ops[k]);
  }

  lemma PostsOnlyByReconcile(cfg: Config, s: Store, t: Store, op: Op, id: Id)
    requires s == t || Effect(cfg, s, t, op)
    requires id in s.intents && Holding(s.intents[id]).Some?
    requires id in t.intents && Holding(t.intents[id]).None?
    ensures op.Reconcile? && op.intentId == id
  {
  }

  lemma HoldingLost(cfg: Config, states: seq<Store>, ops: seq<Op>, k: nat, id: Id)
    requires Run(cfg, states, ops) && k < |ops|
    requires id in states[k].intents && Holding(states[k].intents[id]).Some?
    requires id in states[k + 1].intents && Holding(states[k + 1].intents[id]).None?
    ensures OutboundAt(states[k + 1], id) && states[k + 1].intents[id].status.Settled?
  {
    IntentAt(cfg, states, ops, k, k + 1, id);
    IntentAt(cfg, states, ops, k + 1, k + 1, id);
  }

  // ---------------------------------------------------------------- approvals

  /** Every approval row of a run was once a pending request. */
  lemma {:induction false} ApprovalWasRequested(
    cfg: Config, states: seq<Store>, ops: seq<Op>, k: nat, a: Id) returns (j: nat)
    requires Run(cfg, states, ops) && k < |states| && a in states[k].approvals
    ensures j <= k && a in states[j].approvals && states[j].approvals[a].status.ApprovalPending?
    decreases k
  {
    if states[k].approvals[a].status.ApprovalPending? {
      j := k;
    } else if a in states[k - 1].approvals {
      j := ApprovalWasRequested(cfg, states, ops, k - 1, a);
    } else {
      assert StepAt(cfg, states, ops, k - 1);
      NewApprovalIsPending(cfg, states[..k], ops[k - 1], states[k], a);
    }
  }

  lemma NewApprovalIsPending(cfg: Config, past: seq<Store>, op: Op, t: Store, a: Id)
    requires |past| > 0 && Attempt(cfg, past, op) == Committed(t)
    requires a !in past[|past| - 1].approvals && a in t.approvals
    ensures t.approvals[a].status.ApprovalPending?
  {
    if op.Authorize? {
      var w := BuildAuthorization(cfg, op.principal, op.command, op.selected, op.ids, op.now);
      AuthorizeInserts(cfg, past[|past| - 1], t, w);
    } else {
      OnlyAuthorizeAdds(cfg, past, op, t);
    }
  }

  /** No operation but an authorization adds an approval row. */
  lemma OnlyAuthorizeAdds(cfg: Config, past: seq<Store>, op: Op, t: Store)
    requires |past| > 0 && !op.Authorize? && Attempt(cfg, past, op) == Committed(t)
    ensures t.approvals.Keys == past[|past| - 1].approvals.Keys
  {
    if op.Decide? {
      DecideApprovals(cfg, past, op, t);
    } else if op.Consume? {
      ConsumeApprovals(cfg, past, op, t);
    } else if op.Sign? {
      SignApprovals(cfg, past, op, t);
    } else if op.RecordResponse? {
      EvidenceApprovals(cfg, past, op, t);
    } else if op.Reconcile? {
      ReconcileApprovals(cfg, past, op, t);
    } else {
      UnreadApprovals(cfg, past, op, t);
    }
  }

  lemma SignApprovals(cfg: Config, past: seq<Store>, op: Op, t: Store)
    requires |past| > 0 && op.Sign? && Attempt(cfg, past, op) == Committed(t)
    ensures t.approvals == past[|past| - 1].approvals
  {
    SignAttempt(cfg, past, op, t);
    SignSwaps(past[|past| - 1], t, IntentRead(past, op.read, op.intentId).value, op.signing, op.now);
  }

  lemma EvidenceApprovals(cfg: Config, past: seq<Store>, op: Op, t: Store)
    requires |past| > 0 && op.RecordResponse? && Attempt(cfg, past, op) == Committed(t)
    ensures t.approvals == past[|past| - 1].approvals
  {
    RecordAttempt(cfg, past, op, t);
    var i := IntentRead(past, op.read, op.response.intentId).value;
    EvidenceSwaps(past[|past| - 1], t, i, op.response, op.expectedPayer, op.now);
  }

  lemma ReconcileApprovals(cfg: Config, past: seq<Store>, op: Op, t: Store)
    requires |past| > 0 && op.Reconcile? && Attempt(cfg, past, op) == Committed(t)
    ensures t.approvals == past[|past| - 1].approvals
  {
    ReconcileAttempt(cfg, past, op, t);
    var i := IntentRead(past, op.read, op.intentId).value;
    var evidence := Lookup(past[op.lookupRead], i, op.expectedPayer, op.receipt, op.providerEvidence);
    ReconcileSwaps(cfg, past[|past| - 1], t, i, evidence, op.attempt, op.now);
  }

  lemma UnreadApprovals(cfg: Config, past: seq<Store>, op: Op, t: Store)
    requires |past| > 0 && Attempt(cfg, past, op) == Committed(t)
    requires !(op.Authorize? || op.Decide? || op.Consume? || op.Sign? || op.RecordResponse? || op.Reconcile?)
    ensures t.approvals.Keys == past[|past| - 1].approvals.Keys
  {
    if op.ExpireApprovals? {
      ExpireDueApprovals(past[|past| - 1], t, op.approvalIds, op.now);
    } else if op.ClaimLeases? {
      ClaimChangesLeasesOnly(past[|past| - 1], t, op.intentIds, op.owner, op.now, op.leaseUntil);
    }
  }

  lemma DecideApprovals(cfg: Config, past: seq<Store>, op: Op, t: Store)
    requires |past| > 0 && op.Decide? && Attempt(cfg, past, op) == Committed(t)
    ensures t.approvals.Keys == past[|past| - 1].approvals.Keys
  {
    DecideAttempt(cfg, past, op, t);
    var a := ApprovalRead(past, op.approvalRead, op.request.approvalId).value;
    var i := IntentRead(past, op.intentRead, op.request.intentId).value;
    var w := BuildDecision(cfg, a, i, op.principal, op.request, op.jti, op.eventId, op.now).value;
    DecideKeepsRows(past[|past| - 1], t, w);
  }

  lemma DecideKeepsRows(s: Store, t: Store, w: DecisionWrite)
    requires Transactions.Decide(s, w) == Committed(t)
    ensures t.approvals.Keys == s.approvals.Keys
  {
    if w.decision.kind.Approve? {
      ApproveCommits(s, t, w);
    } else {
      RejectCommits(s, t, w);
    }
  }

  lemma ConsumeApprovals(cfg: Config, past: seq<Store>, op: Op, t: Store)
    requires |past| > 0 && op.Consume? && Attempt(cfg, past, op) == Committed(t)
    ensures t.approvals.Keys == past[|past| - 1].approvals.Keys
  {
    ConsumeAttempt(cfg, past, op, t);
    var a := ApprovalRead(past, op.approvalRead, op.approvalId).value;
    var i := IntentRead(past, op.intentRead, op.intentId).value;
    ConsumeCommits(cfg, past[|past| - 1], t, BuildConsumption(a, i, op.origin, op.eventId, op.now).value);
  }

  lemma {:induction false} ExpireDueApprovals(s: Store, t: Store, ids: seq<Id>, now: int)
    requires ExpireDue(s, ids, now) == Committed(t)
    ensures t.approvals.Keys == s.approvals.Keys
    decreases |ids|
  {
    if ids != [] {
      var next := After(s, ExpireApproval(s, ids[0], now));
      assert next.approvals.Keys == s.approvals.Keys;
      ExpireDueApprovals(next, t, ids[1..], now);
    }
  }

  /** A committed consumption, against the rows it was committed on. */
  lemma ConsumeDetails(cfg: Config, s: Store, t: Store, a: Approval, i: Intent, origin: string, eventId: Id, now: int)
    requires BuildConsumption(a, i, origin, eventId, now).Some?
    requires ConsumeAndReserve(cfg, s, BuildConsumption(a, i, origin, eventId, now).value) == Committed(t)
    requires a.id in s.approvals ==> ApprovalEvolves(a, s.approvals[a.id])
    ensures a.id in s.approvals && a.id in t.approvals
    ensures s.approvals[a.id].status.ApprovalApproved? && s.approvals[a.id].intentId == i.identity.id
    ensures now < s.approvals[a.id].expiresAt
    ensures t.approvals[a.id].status.ApprovalConsumed?
  {
    ConsumeCommits(cfg, s, t, BuildConsumption(a, i, origin, eventId, now).value);
  }

  lemma ConsumeAt(cfg: Config, states: seq<Store>, ops: seq<Op>, k: nat)
    requires Run(cfg, states, ops) && k < |ops| && states[k + 1] != states[k] && ops[k].Consume?
    ensures
      var a := ops[k].approvalId;
      && a in states[k].approvals && a in states[k + 1].approvals
      && states[k].approvals[a].status.ApprovalApproved? && states[k].approvals[a].intentId == ops[k].intentId
      && ops[k].now < states[k].approvals[a].expiresAt
      && states[k + 1].approvals[a].status.ApprovalConsumed?
  {
    var op := ops[k];
    CommittedAt(cfg, states, ops, k);
    ConsumeAttempt(cfg, states[..k + 1], op, states[k + 1]);
    ApprovalAt(cfg, states, ops, op.approvalRead, k, op.approvalId);
    IdentityAt(cfg, states, ops, op.intentRead, op.intentId);
    ConsumeDetails(
      cfg, states[k], states[k + 1], states[op.approvalRead].approvals[op.approvalId],
      states[op.intentRead].intents[op.intentId], op.origin, op.eventId, op.now);
  }

  /** Step `k` authorizes an intent that was waiting for approval. */
  predicate AuthorizesAt(states: seq<Store>, k: nat, id: Id)
    requires k + 1 < |states|
  {
    && OutboundAt(states[k], id) && states[k].intents[id].status.PendingApproval?
    && id in states[k + 1].intents && AuthorizedOrLater(states[k + 1].intents[id].status)
  }

  /** The grant chain of one authorization: the pending `request`, the approved
      `row` it became, and the moment `now` of its consumption. */
  predicate GrantChain(request: Approval, row: Approval, i: Identity, now: int) {
    && request.intentId == row.intentId == i.id
    && request.status.ApprovalPending? && row.status.ApprovalApproved?
    && row.sealedGrant.Some?
    && var c := row.sealedGrant.value;
    && c.approver != request.requestedBy
    && c.amount == i.amount == request.requestedAmount
    && c.intentHash == i.requestHash
    && i.expiresAt.Some?
    && now < c.exp <= request.expiresAt <= i.expiresAt.value
  }

  lemma GrantOnlyByConsume(cfg: Config, s: Store, t: Store, op: Op, id: Id)
    requires s == t || Effect(cfg, s, t, op)
    requires id in s.intents && id in t.intents
    requires Holding(s.intents[id]).None? && Holding(t.intents[id]).Some?
    ensures op.Consume? && op.intentId == id
  {
  }

  /** An intent leaves approval for authorization only through a grant: another
      person's, for the exact amount and request, before the grant, the request
      and the challenge expire, in that order. */
  lemma AuthorizedThroughGrant(cfg: Config, states: seq<Store>, ops: seq<Op>, k: nat, id: Id) returns (j: nat)
    requires Run(cfg, states, ops) && k < |ops| && AuthorizesAt(states, k, id)
    ensures ops[k].Consume? && ops[k].intentId == id
    ensures j <= k && ops[k].approvalId in states[j].approvals && ops[k].approvalId in states[k].approvals
    ensures GrantChain(states[j].approvals[ops[k].approvalId], states[k].approvals[ops[k].approvalId],
                       states[k].intents[id].identity, ops[k].now)
    ensures ops[k].approvalId in states[k + 1].approvals
    ensures states[k + 1].approvals[ops[k].approvalId].status.ApprovalConsumed?
  {
    AuthorizationHolds(cfg, states, ops, k, id);
    RunStepEffect(cfg, states, ops, k);
    GrantOnlyByConsume(cfg, states[k], states[k + 1], ops[k], id);
    ConsumeAt(cfg, states, ops, k);
    j := ApprovalWasRequested(cfg, states, ops, k, ops[k].approvalId);
    ChainAt(cfg, states, ops, j, k, ops[k].approvalId, ops[k].now);
  }

  lemma AuthorizationHolds(cfg: Config, states: seq<Store>, ops: seq<Op>, k: nat, id: Id)
    requires Run(cfg, states, ops) && k < |ops| && AuthorizesAt(states, k, id)
    ensures Holding(states[k].intents[id]).None?
    ensures Holding(states[k + 1].intents[id]).Some?
  {
    IntentAt(cfg, states, ops, k, k + 1, id);
    IntentAt(cfg, states, ops, k + 1, k + 1, id);
    if states[k + 1].intents[id].status.Settled? {
      SettledHasOneEntry(cfg, states, ops, k, id);
      SettledHasOneEntry(cfg, states, ops, k + 1, id);
      var l :| EntryOf(states[k + 1], l, id);
      assert !EntryOf(states[k], l, id);
      RunStepEffect(cfg, states, ops, k);
      NoEntryWithoutHolding(cfg, states[k], states[k + 1], ops[k], id, l);
    }
  }

  /** Only an intent that holds its reservation gets a new outbound entry. */
  lemma NoEntryWithoutHolding(cfg: Config, s: Store, t: Store, op: Op, id: Id, l: LedgerId)
    requires s == t || Effect(cfg, s, t, op)
    requires id in s.intents && EntryOf(t, l, id) && t.ledger[l].direction.Outbound? && !EntryOf(s, l, id)
    ensures Holding(s.intents[id]).Some?
  {
    var m :| Posted(s, t, op.intentId, m);
  }

  /** Every approval row agrees with the intent it belongs to. */
  lemma ApprovalMatchesAt(cfg: Config, states: seq<Store>, ops: seq<Op>, k: nat, a: Id)
    requires Run(cfg, states, ops) && k < |states| && a in states[k].approvals
    ensures var row := states[k].approvals[a];
      && OutboundAt(states[k], row.intentId) && states[k].intents[row.intentId].identity.id == row.intentId
      && ApprovalMatches(row, states[k].intents[row.intentId])
  {
    RunLinks(cfg, states, ops, k, k);
    assert IntentInv(states[k], states[k].approvals[a].intentId);
  }

  lemma ChainOf(request: Approval, row: Approval, i: Intent, j: Intent, now: int)
    requires ApprovalEvolves(request, row) && request.status.ApprovalPending? && row.status.ApprovalApproved?
    requires ApprovalMatches(request, i) && ApprovalMatches(row, j)
    requires i.identity == j.identity && row.intentId == j.identity.id && now < row.expiresAt
    ensures GrantChain(request, row, j.identity, now)
  {
  }

  lemma ChainAt(cfg: Config, states: seq<Store>, ops: seq<Op>, j: nat, k: nat, a: Id, now: int)
    requires Run(cfg, states, ops) && j <= k < |states|
    requires a in states[j].approvals && states[j].approvals[a].status.ApprovalPending?
    requires a in states[k].approvals && states[k].approvals[a].status.ApprovalApproved?
    requires now < states[k].approvals[a].expiresAt
    ensures states[k].approvals[a].intentId in states[k].intents
    ensures
      var identity := states[k].intents[states[k].approvals[a].intentId].identity;
      GrantChain(states[j].approvals[a], states[k].approvals[a], identity, now)
  {
    var id := states[k].approvals[a].intentId;
    ApprovalAt(cfg, states, ops, j, k, a);
    ApprovalMatchesAt(cfg, states, ops, j, a);
    ApprovalMatchesAt(cfg, states, ops, k, a);
    IntentAt(cfg, states, ops, j, k, id);
    ChainOf(states[j].approvals[a], states[k].approvals[a], states[j].intents[id], states[k].intents[id], now);
  }

  /** It happens at most once per intent. */
  lemma AuthorizedOnce(cfg: Config, states: seq<Store>, ops: seq<Op>, j: nat, k: nat, id: Id)
    requires Run(cfg, states, ops) && j <= k < |ops|
    requires AuthorizesAt(states, j, id) && AuthorizesAt(states, k, id)
    ensures j == k
  {
    if j < k {
      IntentAt(cfg, states, ops, j, j + 1, id);
      IntentAt(cfg, states, ops, j + 1, k, id);
    }
  }

  // ----------------------------------------------------------------- versions

  /** Versions never go back, and a version identifies the row up to its schedule. */
  lemma VersionsOnlyGrow(cfg: Config, states: seq<Store>, ops: seq<Op>, j: nat, k: nat, id: Id)
    requires Run(cfg, states, ops) && j <= k < |states| && id in states[j].intents
    ensures id in states[k].intents && states[j].intents[id].updatedAt <= states[k].intents[id].updatedAt
    ensures states[j].intents[id].updatedAt == states[k].intents[id].updatedAt
      ==> SameVersion(states[j].intents[id], states[k].intents[id])
  {
    IntentAt(cfg, states, ops, j, k, id);
  }

  /** Step `k` commits a new version of the intent. */
  predicate Commits(states: seq<Store>, k: nat, id: Id)
    requires k + 1 < |states|
  {
    && id in states[k].intents && id in states[k + 1].intents
    && !SameVersion(states[k].intents[id], states[k + 1].intents[id])
  }

  /** Two commits on one intent found, and left, strictly increasing versions. */
  lemma CommitsStrictlyIncrease(cfg: Config, states: seq<Store>, ops: seq<Op>, j: nat, k: nat, id: Id)
    requires Run(cfg, states, ops) && j < k < |ops|
    requires Commits(states, j, id) && Commits(states, k, id)
    ensures states[j].intents[id].updatedAt < states[j + 1].intents[id].updatedAt
    ensures states[j + 1].intents[id].updatedAt <= states[k].intents[id].updatedAt < states[k + 1].intents[id].updatedAt
  {
    VersionsOnlyGrow(cfg, states, ops, j, j + 1, id);
    VersionsOnlyGrow(cfg, states, ops, j + 1, k, id);
    VersionsOnlyGrow(cfg, states, ops, k, k + 1, id);
  }

  /** The intent and the version a writer built its commit from. */
  function BuiltFrom(past: seq<Store>, op: Op): Option<(Id, int)> {
    var read := WriterReads(op);
    var i := if read.Some? then IntentRead(past, read.value.0, read.value.1) else None;
    if i.Some? then Some((read.value.1, i.value.updatedAt)) else None
  }

  /** The moment and the intent a writer builds its new version from. */
  function WriterReads(op: Op): Option<(nat, Id)> {
    match op
    case Decide(_, iRead, _, request, _, _, _) => if request.kind.Reject? then Some((iRead, request.intentId)) else None
    case Consume(_, iRead, _, intentId, _, _, _) => Some((iRead, intentId))
    case Sign(read, intentId, _, _) => Some((read, intentId))
    case RecordResponse(read, response, _, _) => Some((read, response.intentId))
    case Reconcile(read, _, intentId, _, _, _, _, _) => Some((read, intentId))
    case _ => None
  }

  /** The version `i` was replaced by a later one. */
  predicate Swapped(s: Store, t: Store, i: Intent) {
    var id := i.identity.id;
    id in s.intents && id in t.intents && s.intents[id].updatedAt == i.updatedAt < t.intents[id].updatedAt
  }

  lemma RejectSwaps(cfg: Config, s: Store, t: Store, a: Approval, i: Intent, op: Op)
    requires op.Decide? && op.request.kind.Reject?
    requires DecideTx(cfg, s, a, i, op.principal, op.request, op.jti, op.eventId, op.now) == Committed(t)
    ensures Swapped(s, t, i)
  {
    RejectCommits(s, t, BuildDecision(cfg, a, i, op.principal, op.request, op.jti, op.eventId, op.now).value);
  }

  lemma ConsumeSwaps(cfg: Config, s: Store, t: Store, a: Approval, i: Intent, origin: string, eventId: Id, now: int)
    requires ConsumeTx(cfg, s, a, i, origin, eventId, now) == Committed(t)
    ensures Swapped(s, t, i)
  {
    ConsumeCommits(cfg, s, t, BuildConsumption(a, i, origin, eventId, now).value);
  }

  lemma SignSwaps(s: Store, t: Store, i: Intent, signing: SigningRequest, now: int)
    requires SignTx(s, i, signing, now) == Committed(t)
    ensures Swapped(s, t, i) && t.approvals == s.approvals
  {
    SignCommits(s, t, BuildSigning(i, signing, now).value);
  }

  lemma EvidenceSwaps(s: Store, t: Store, i: Intent, r: MerchantResponse, payer: string, now: int)
    requires RecordTx(s, i, r, payer, now) == Committed(t)
    ensures Swapped(s, t, i) && t.approvals == s.approvals
  {
    EvidenceCommits(s, t, BuildEvidence(i, r, payer, now).value);
  }

  lemma ProgressSwaps(s: Store, t: Store, w: ProgressWrite, i: Intent)
    requires CommitProgress(s, w) == Committed(t) && w.intent.identity == i.identity && w.expected == i.updatedAt
    ensures Swapped(s, t, i) && t.approvals == s.approvals
  {
  }

  lemma SettlementSwaps(s: Store, t: Store, w: SettlementWrite, i: Intent)
    requires CommitSettlement(s, w) == Committed(t) && w.intent.identity == i.identity && w.expected == i.updatedAt
    ensures Swapped(s, t, i) && t.approvals == s.approvals
  {
    SettlementCommits(s, t, w);
  }

  lemma ReconcileSwaps(cfg: Config, s: Store, t: Store, i: Intent, evidence: Evidence, attempt: nat, now: int)
    requires ReconcileTx(cfg, s, i, evidence, attempt, now) == Committed(t)
    ensures Swapped(s, t, i) && t.approvals == s.approvals
  {
    if i.status.Created? && i.identity.expiresAt.Some? && i.identity.expiresAt.value <= now {
      ProgressSwaps(s, t, BuildExpiredChallenge(i, attempt, now).value, i);
    } else {
      match evidence
      case Confirmed(settlement) => SettlementSwaps(s, t, BuildConfirmed(i, settlement, attempt, now).value, i);
      case Verified(reference) => ProgressSwaps(s, t, BuildVerified(cfg, i, reference, attempt, now).value, i);
      case AuthorizationExpired => ProgressSwaps(s, t, BuildExpiredSettlement(i, attempt, now).value, i);
    }
  }

  /** The commit replaces the version the writer was built from. */
  predicate SwapsRead(past: seq<Store>, op: Op, t: Store)
    requires |past| > 0
  {
    BuiltFrom(past, op).Some? ==>
      var (id, version) := BuiltFrom(past, op).value;
      var s := past[|past| - 1];
      && id in s.intents && id in t.intents
      && s.intents[id].updatedAt == version < t.intents[id].updatedAt
  }

  /** The row a writer read was stored under its own identifier. */
  predicate ReadUnderId(past: seq<Store>, op: Op) {
    BuiltFrom(past, op).Some? ==>
      var (read, id) := WriterReads(op).value;
      IntentRead(past, read, id).value.identity.id == id
  }

  lemma SwappedRead(past: seq<Store>, op: Op, t: Store, read: nat, id: Id, i: Intent)
    requires |past| > 0 && WriterReads(op) == Some((read, id)) && IntentRead(past, read, id) == Some(i)
    requires ReadUnderId(past, op) && Swapped(past[|past| - 1], t, i)
    ensures SwapsRead(past, op, t)
  {
  }

  lemma RejectWriter(cfg: Config, past: seq<Store>, op: Op, t: Store)
    requires |past| > 0 && op.Decide? && Attempt(cfg, past, op) == Committed(t) && ReadUnderId(past, op)
    ensures SwapsRead(past, op, t)
  {
    DecideAttempt(cfg, past, op, t);
    if op.request.kind.Reject? {
      var a := ApprovalRead(past, op.approvalRead, op.request.approvalId).value;
      var i := IntentRead(past, op.intentRead, op.request.intentId).value;
      RejectSwaps(cfg, past[|past| - 1], t, a, i, op);
      SwappedRead(past, op, t, op.intentRead, op.request.intentId, i);
    }
  }

  lemma ConsumeWriter(cfg: Config, past: seq<Store>, op: Op, t: Store)
    requires |past| > 0 && op.Consume? && Attempt(cfg, past, op) == Committed(t) && ReadUnderId(past, op)
    ensures SwapsRead(past, op, t)
  {
    ConsumeAttempt(cfg, past, op, t);
    var a := ApprovalRead(past, op.approvalRead, op.approvalId).value;
    var i := IntentRead(past, op.intentRead, op.intentId).value;
    ConsumeSwaps(cfg, past[|past| - 1], t, a, i, op.origin, op.eventId, op.now);
    SwappedRead(past, op, t, op.intentRead, op.intentId, i);
  }

  lemma SignWriter(cfg: Config, past: seq<Store>, op: Op, t: Store)
    requires |past| > 0 && op.Sign? && Attempt(cfg, past, op) == Committed(t) && ReadUnderId(past, op)
    ensures SwapsRead(past, op, t)
  {
    SignAttempt(cfg, past, op, t);
    var i := IntentRead(past, op.read, op.intentId).value;
    SignSwaps(past[|past| - 1], t, i, op.signing, op.now);
    SwappedRead(past, op, t, op.read, op.intentId, i);
  }

  lemma EvidenceWriter(cfg: Config, past: seq<Store>, op: Op, t: Store)
    requires |past| > 0 && op.RecordResponse? && Attempt(cfg, past, op) == Committed(t) && ReadUnderId(past, op)
    ensures SwapsRead(past, op, t)
  {
    RecordAttempt(cfg, past, op, t);
    var i := IntentRead(past, op.read, op.response.intentId).value;
    EvidenceSwaps(past[|past| - 1], t, i, op.response, op.expectedPayer, op.now);
    SwappedRead(past, op, t, op.read, op.response.intentId, i);
  }

  lemma ReconcileWriter(cfg: Config, past: seq<Store>, op: Op, t: Store)
    requires |past| > 0 && op.Reconcile? && Attempt(cfg, past, op) == Committed(t) && ReadUnderId(past, op)
    ensures SwapsRead(past, op, t)
  {
    ReconcileAttempt(cfg, past, op, t);
    var i := IntentRead(past, op.read, op.intentId).value;
    var evidence := Lookup(past[op.lookupRead], i, op.expectedPayer, op.receipt, op.providerEvidence);
    ReconcileSwaps(cfg, past[|past| - 1], t, i, evidence, op.attempt, op.now);
    SwappedRead(past, op, t, op.read, op.intentId, i);
  }

  lemma AttemptSwaps(cfg: Config, past: seq<Store>, op: Op, t: Store)
    requires |past| > 0 && Attempt(cfg, past, op) == Committed(t) && ReadUnderId(past, op)
    ensures SwapsRead(past, op, t)
  {
    if op.Decide? {
      RejectWriter(cfg, past, op, t);
    } else if op.Consume? {
      ConsumeWriter(cfg, past, op, t);
    } else if op.Sign? {
      SignWriter(cfg, past, op, t);
    } else if op.RecordResponse? {
      EvidenceWriter(cfg, past, op, t);
    } else if op.Reconcile? {
      ReconcileWriter(cfg, past, op, t);
    }
  }

  lemma ReadAt(states: seq<Store>, k: nat, read: nat, id: Id)
    requires k < |states| && IntentRead(states[..k + 1], read, id).Some?
    ensures read <= k && id in states[read].intents
    ensures IntentRead(states[..k + 1], read, id).value == states[read].intents[id]
  {
  }

  lemma RunReadsUnderId(cfg: Config, states: seq<Store>, ops: seq<Op>, k: nat)
    requires Run(cfg, states, ops) && k < |ops|
    ensures ReadUnderId(states[..k + 1], ops[k])
  {
    if BuiltFrom(states[..k + 1], ops[k]).Some? {
      var (read, id) := WriterReads(ops[k]).value;
      ReadAt(states, k, read, id);
      IdentityAt(cfg, states, ops, read, id);
    }
  }

  lemma CommitSwaps(cfg: Config, states: seq<Store>, ops: seq<Op>, k: nat)
    requires Run(cfg, states, ops) && k < |ops| && states[k + 1] != states[k]
    ensures SwapsRead(states[..k + 1], ops[k], states[k + 1])
  {
    RunReadsUnderId(cfg, states, ops, k);
    CommittedAt(cfg, states, ops, k);
    AttemptSwaps(cfg, states[..k + 1], ops[k], states[k + 1]);
  }

  /** A writer's commit replaces exactly the version it was built from. */
  lemma WriterSwaps(cfg: Config, states: seq<Store>, ops: seq<Op>, k: nat)
    requires Run(cfg, states, ops) && k < |ops| && states[k + 1] != states[k]
    requires BuiltFrom(states[..k + 1], ops[k]).Some?
    ensures
      var (id, version) := BuiltFrom(states[..k + 1], ops[k]).value;
      && id in states[k].intents && id in states[k + 1].intents
      && states[k].intents[id].updatedAt == version < states[k + 1].intents[id].updatedAt
  {
    CommitSwaps(cfg, states, ops, k);
    assert states[..k + 1][|states[..k + 1]| - 1] == states[k];
  }

  /** Of any writers that read the same version of an intent, one commits. */
  lemma OneCommitPerVersion(cfg: Config, states: seq<Store>, ops: seq<Op>, j: nat, k: nat)
    requires Run(cfg, states, ops) && j <= k < |ops|
    requires BuiltFrom(states[..j + 1], ops[j]).Some?
    requires BuiltFrom(states[..k + 1], ops[k]) == BuiltFrom(states[..j + 1], ops[j])
    requires states[j + 1] != states[j] && states[k + 1] != states[k]
    ensures j == k
  {
    if j < k {
      WriterSwaps(cfg, states, ops, j);
      WriterSwaps(cfg, states, ops, k);
      VersionsOnlyGrow(cfg, states, ops, j + 1, k, BuiltFrom(states[..j + 1], ops[j]).value.0);
    }
  }

  // --------------------------------------------- fail-closed checks never trip

  /** The sweep never meets an active approval whose intent owns a reservation. */
  lemma SweepFindsNoReservation(cfg: Config, states: seq<Store>, ops: seq<Op>, k: nat, a: Id, now: int)
    requires Run(cfg, states, ops) && k < |states|
    ensures ExpireApproval(states[k], a, now) != Refused(StorageFailure)
  {
    if a in states[k].approvals {
      ApprovalMatchesAt(cfg, states, ops, k, a);
      IntentAt(cfg, states, ops, k, k, states[k].approvals[a].intentId);
    }
  }

  /** The budget snapshot never meets a consumed reservation without its fact. */
  lemma SnapshotFindsLedger(cfg: Config, states: seq<Store>, ops: seq<Op>, k: nat, i: Identity)
    requires Run(cfg, states, ops) && k < |states| && i.direction.Outbound?
    ensures ConsumedHaveLedger(states[k], i)
  {
    RunLinks(cfg, states, ops, k, k);
    var s := states[k];
    forall id |
      id in s.intents && s.intents[id].identity.direction == i.direction && s.intents[id].reservation.Consumed?
      ensures exists l :: l in s.ledger && MatchesConsumed(s.ledger[l], s.intents[id])
    {
      assert IntentInv(s, id);
      var l :| l in s.ledger && s.ledger[l].intentId == Some(id);
      assert MatchesConsumed(s.ledger[l], s.intents[id]);
    }
  }
}
