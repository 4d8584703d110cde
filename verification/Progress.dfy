/** What safety alone does not say: a payment that is allowed to move can move.
    Each worker that reads the current rows and meets its conditions commits, and
    the steps compose into runs that authorize and settle a payment. */
module Progress {
  import opened Domain
  import opened Options
  import PolicyEngine
  import opened PaymentTables
  import opened Transactions
  import opened Workers
  import opened Protocol
  import opened Steps
  import opened Runs
  import opened PaymentSafety

  /** A generated identifier that no event uses yet. */
  predicate FreshId(events: map<EventKey, Event>, id: EventId) {
    forall k :: k in events ==> events[k].id != id
  }

  lemma FreshInsert(events: map<EventKey, Event>, e: Event)
    requires FreshId(events, e.id) && e.key !in events
    ensures InsertEvent(events, e) == Some(events[e.key := e])
  {
  }

  lemma FreshAppend(events: map<EventKey, Event>, e: Event, f: Event)
    requires FreshId(events, e.id) && FreshId(events, f.id) && e.id != f.id
    requires e.key !in events && f.key !in events && e.key != f.key
    ensures AppendEvents(events, [e, f]) == Some(events[e.key := e][f.key := f])
  {
    FreshInsert(events, e);
    var next := events[e.key := e];
    FreshInsert(next, f);
    InsertIsAppend(next, f);
    assert [e, f][1..] == [f];
  }

  /** Time is representable and the version can still grow. */
  predicate ClockFits(i: Intent, now: int) {
    0 <= now <= I64_MAX && i.updatedAt < I64_MAX
  }

  /** The stamp every writer uses is a strictly later version, whatever its
      clock says, exactly until the last representable second. */
  lemma NextTimestampAdvances(previous: int, now: int)
    requires now <= I64_MAX && previous <= I64_MAX
    ensures previous < NextTimestamp(previous, now) <==> previous < I64_MAX
    ensures now <= NextTimestamp(previous, now) <= I64_MAX
  {
  }

  // ------------------------------------------------------- authorized to settled

  /** The tables after signing: the new version and its two events. */
  function SignedStore(s: Store, i: Intent, signing: SigningRequest, now: int): Store {
    var w := BuildSigning(i, signing.(funded := true), now);
    if w.None? then s
    else
      var id := i.identity.id;
      var events := s.events[SignRequestedKey(id) := w.value.events[0]][SignedKey(id) := w.value.events[1]];
      WithIntent(s, w.value.intent).(events := events)
  }

  /** An unexpired authorized intent is signed exactly when the balances and the
      signer allow it and the catalog rows it was based on still hold. */
  lemma SignCommitsNow(s: Store, id: Id, signing: SigningRequest, now: int)
    requires OutboundAt(s, id) && IntentInv(s, id) && s.intents[id].status.Authorized? && ClockFits(s.intents[id], now)
    requires s.intents[id].identity.expiresAt.Some? && now < s.intents[id].identity.expiresAt.value
    requires signing.requestedId != signing.signedId
    requires FreshId(s.events, RandomId(signing.requestedId)) && FreshId(s.events, RandomId(signing.signedId))
    ensures SignTx(s, s.intents[id], signing, now) ==
      if !signing.funded then NotAvailable
      else if !signing.authorityHeld then Refused(Conflict)
      else Committed(SignedStore(s, s.intents[id], signing, now))
  {
    if signing.funded {
      SigningIsValid(s.intents[id], signing, now);
      SigningAppends(s.events, s.intents[id], signing, now);
    }
  }

  lemma SigningAppends(events: map<EventKey, Event>, i: Intent, signing: SigningRequest, now: int)
    requires BuildSigning(i, signing, now).Some? && signing.requestedId != signing.signedId
    requires FreshId(events, RandomId(signing.requestedId)) && FreshId(events, RandomId(signing.signedId))
    requires SignRequestedKey(i.identity.id) !in events && SignedKey(i.identity.id) !in events
    ensures
      var w := BuildSigning(i, signing, now).value;
      AppendEvents(events, w.events) ==
        Some(events[SignRequestedKey(i.identity.id) := w.events[0]][SignedKey(i.identity.id) := w.events[1]])
  {
    var w := BuildSigning(i, signing, now).value;
    assert w.events == [w.events[0], w.events[1]];
    FreshAppend(events, w.events[0], w.events[1]);
  }

  lemma SigningIsValid(i: Intent, signing: SigningRequest, now: int)
    requires i.identity.direction.Outbound? && i.status.Authorized? && ReservationMatches(i) && RowValid(i)
    requires signing.funded && ClockFits(i, now)
    requires i.identity.expiresAt.Some? && now < i.identity.expiresAt.value
    ensures
      var w := BuildSigning(i, signing, now);
      && w.Some? && SigningAuthority(i, w.value)
      && SigningEventsValid(w.value.events, i.identity.id, signing.credentialHash)
      && RowValid(w.value.intent) && MutationAllowed(Unchanged, i, w.value.intent)
  {
    NextTimestampAdvances(i.updatedAt, now);
  }

  lemma EvidenceCommitsNow(s: Store, id: Id, r: MerchantResponse, payer: string, now: int) returns (t: Store)
    requires OutboundAt(s, id) && IntentInv(s, id) && s.intents[id].status.Signed? && ClockFits(s.intents[id], now)
    requires ResponseBound(s.intents[id], r) && r.accepted && payer != ""
    requires r.transaction.Some? && r.transaction.value != ""
    requires r.network.None? || r.network.value == s.intents[id].identity.asset.network
    requires r.payer.None? || r.payer.value == payer
    requires FreshId(s.events, MerchantEventId(s.intents[id].identity.protocol, id))
    ensures
      var w := BuildEvidence(s.intents[id], r, payer, now);
      && w.Some? && RecordEvidence(s, w.value) == Committed(t)
      && t == WithIntent(s, w.value.intent).(events := s.events[SubmittedKey(id) := w.value.event])
      && StoredResponseValid(w.value.event, w.value.intent) && w.value.event.payload.payer == payer
  {
    var w := BuildEvidence(s.intents[id], r, payer, now).value;
    NextTimestampAdvances(s.intents[id].updatedAt, now);
    FreshInsert(s.events, w.event);
    t := RecordEvidence(s, w).store;
  }

  /** The chain confirms the transfer in time, under a posting of its own. */
  predicate ReceiptFits(s: Store, i: Intent, receipt: Receipt, now: int) {
    && receipt.ReceiptConfirmed?
    && receipt.authority != "" && receipt.transaction != "" && receipt.effectRef != "" && i.identity.asset.network != ""
    && receipt.minimumConfirmations <= receipt.confirmations
    && TrustedEffectiveTime(i.identity.createdAt, receipt.effectiveAt, now)
    && var posting := ChainEffect(i.identity.asset.network, receipt.transaction, receipt.effectRef);
    && (forall l :: l in s.ledger ==>
         !(s.ledger[l].walletId == i.identity.walletId && s.ledger[l].postingKey == posting))
    && LedgerId(i.identity.walletId, i.identity.id, posting) !in s.ledger
    && FreshId(s.events, PostingEventId(LedgerId(i.identity.walletId, i.identity.id, posting)))
  }

  lemma LookupConfirms(s: Store, id: Id, payer: string, receipt: Receipt, now: int)
    requires id in s.intents && s.intents[id].identity.id == id && s.intents[id].identity.asset.tokenContract.Some?
    requires SubmittedKey(id) in s.events && StoredResponseValid(s.events[SubmittedKey(id)], s.intents[id])
    requires s.events[SubmittedKey(id)].payload.payer == payer
    requires s.intents[id].txHash.None? && s.intents[id].settlementRef.None?
    requires ReceiptFits(s, s.intents[id], receipt, now)
    ensures
      var evidence := OutboundLookup(s.events, s.intents[id], payer, receipt);
      && evidence.Confirmed? && SettlementValidFor(evidence.settlement, s.intents[id], now)
      && evidence.settlement.postingKey ==
           ChainEffect(s.intents[id].identity.asset.network, receipt.transaction, receipt.effectRef)
      && evidence.settlement.effectiveAt == receipt.effectiveAt && evidence.settlement.txHash.Some?
  {
  }

  /** A posting that the wallet has not seen is appended. */
  lemma FreshPosting(ledger: map<LedgerId, LedgerEntry>, e: LedgerEntry)
    requires LedgerEntryValid(e) && e.id !in ledger
    requires forall l :: l in ledger ==> !(ledger[l].walletId == e.walletId && ledger[l].postingKey == e.postingKey)
    ensures AppendLedger(ledger, [e]) == Some(ledger[e.id := e])
  {
    assert InsertLedger(ledger, e) == Some(ledger[e.id := e]);
    assert AppendLedger(ledger[e.id := e], []) == Some(ledger[e.id := e]);
    assert [e][1..] == [];
  }

  lemma SettleCommitsNow(s: Store, id: Id, settlement: ConfirmedSettlement, attempt: nat, now: int) returns (t: Store)
    requires OutboundAt(s, id) && IntentInv(s, id) && s.intents[id].status.PendingSettlement?
    requires ClockFits(s.intents[id], now)
    requires SettlementValidFor(settlement, s.intents[id], now) && settlement.txHash.Some?
    requires forall l :: l in s.ledger ==>
      !(s.ledger[l].walletId == s.intents[id].identity.walletId && s.ledger[l].postingKey == settlement.postingKey)
    requires LedgerId(s.intents[id].identity.walletId, id, settlement.postingKey) !in s.ledger
    requires FreshId(s.events, PostingEventId(LedgerId(s.intents[id].identity.walletId, id, settlement.postingKey)))
    requires EventKey(id, Reconciled, attempt) !in s.events
    ensures
      var w := BuildConfirmed(s.intents[id], settlement, attempt, now);
      && w.Some? && CommitSettlement(s, w.value) == Committed(t) && t.intents == s.intents[id := w.value.intent]
      && w.value.intent.status.Settled?
  {
    var i := s.intents[id];
    var w := BuildConfirmed(i, settlement, attempt, now).value;
    var entry := ReconciledLedger(i, settlement, now);
    assert w.entries == [entry] && entry in w.entries && w.events == [w.events[0]];
    NextTimestampAdvances(i.updatedAt, now);
    FreshInsert(s.events, w.events[0]);
    InsertIsAppend(s.events, w.events[0]);
    FreshPosting(s.ledger, entry);
    SettlementIsValid(i, settlement, attempt, now);
    assert CanUpdate(s, w.intent, w.expected, Settlement);
    t := CommitSettlement(s, w).store;
  }

  lemma SettlementIsValid(i: Intent, settlement: ConfirmedSettlement, attempt: nat, now: int)
    requires i.identity.direction.Outbound? && i.status.PendingSettlement? && ReservationMatches(i) && RowValid(i)
    requires ClockFits(i, now) && SettlementValidFor(settlement, i, now)
    ensures
      var w := BuildConfirmed(i, settlement, attempt, now).value;
      SettlementTransitionValid(i, w) && RowValid(w.intent)
  {
    var w := BuildConfirmed(i, settlement, attempt, now).value;
    assert ReconciledLedger(i, settlement, now) in w.entries;
    NextTimestampAdvances(i.updatedAt, now);
  }

  // -------------------------------------------------------------- whole runs

  /** A committed operation extends a run. */
  lemma ExtendRun(cfg: Config, states: seq<Store>, ops: seq<Op>, op: Op, t: Store)
    requires Run(cfg, states, ops) && Attempt(cfg, states, op) == Committed(t)
    ensures Run(cfg, states + [t], ops + [op])
  {
    var more, all := states + [t], ops + [op];
    forall k | 0 <= k < |all| ensures StepAt(cfg, more, all, k) {
      assert more[..k + 1] == states[..k + 1];
      if k < |ops| {
        assert StepAt(cfg, states, ops, k);
      } else {
        assert states[..k + 1] == states;
      }
    }
  }

  lemma SignExtends(
    cfg: Config, states: seq<Store>, ops: seq<Op>, id: Id, signing: SigningRequest, now: int, t: Store)
    requires Run(cfg, states, ops) && id in states[|states| - 1].intents
    requires SignTx(states[|states| - 1], states[|states| - 1].intents[id], signing, now) == Committed(t)
    ensures Run(cfg, states + [t], ops + [Sign(|states| - 1, id, signing, now)])
  {
    var op := Sign(|states| - 1, id, signing, now);
    AttemptSign(cfg, states, op, states[|states| - 1].intents[id]);
    ExtendRun(cfg, states, ops, op, t);
  }

  lemma RecordExtends(
    cfg: Config, states: seq<Store>, ops: seq<Op>, response: MerchantResponse, payer: string, now: int, t: Store)
    requires Run(cfg, states, ops) && response.intentId in states[|states| - 1].intents
    requires
      RecordTx(states[|states| - 1], states[|states| - 1].intents[response.intentId], response, payer, now) ==
        Committed(t)
    ensures Run(cfg, states + [t], ops + [RecordResponse(|states| - 1, response, payer, now)])
  {
    var op := RecordResponse(|states| - 1, response, payer, now);
    AttemptRecord(cfg, states, op, states[|states| - 1].intents[response.intentId]);
    ExtendRun(cfg, states, ops, op, t);
  }

  lemma DecideExtends(
    cfg: Config, states: seq<Store>, ops: seq<Op>, principal: string, request: DecisionRequest, jti: Id, eventId: Id,
    now: int, t: Store)
    requires Run(cfg, states, ops)
    requires
      var s := states[|states| - 1];
      && request.approvalId in s.approvals && request.intentId in s.intents
      && var (a, i) := (s.approvals[request.approvalId], s.intents[request.intentId]);
         DecideTx(cfg, s, a, i, principal, request, jti, eventId, now) == Committed(t)
    ensures
      var n := |states| - 1;
      Run(cfg, states + [t], ops + [Decide(n, n, principal, request, jti, eventId, now)])
  {
    var n := |states| - 1;
    var op := Decide(n, n, principal, request, jti, eventId, now);
    AttemptDecide(cfg, states, op, states[n].approvals[request.approvalId], states[n].intents[request.intentId]);
    ExtendRun(cfg, states, ops, op, t);
  }

  lemma ConsumeExtends(
    cfg: Config, states: seq<Store>, ops: seq<Op>, a: Id, id: Id, origin: string, eventId: Id, now: int, t: Store)
    requires Run(cfg, states, ops)
    requires
      var s := states[|states| - 1];
      && a in s.approvals && id in s.intents
      && ConsumeTx(cfg, s, s.approvals[a], s.intents[id], origin, eventId, now) == Committed(t)
    ensures
      var n := |states| - 1;
      Run(cfg, states + [t], ops + [Consume(n, n, a, id, origin, eventId, now)])
  {
    var n := |states| - 1;
    var op := Consume(n, n, a, id, origin, eventId, now);
    AttemptConsume(cfg, states, op, states[n].approvals[a], states[n].intents[id]);
    ExtendRun(cfg, states, ops, op, t);
  }

  lemma LastInv(cfg: Config, states: seq<Store>, ops: seq<Op>, id: Id)
    requires Run(cfg, states, ops) && id in states[|states| - 1].intents
    ensures IntentInv(states[|states| - 1], id)
  {
    RunLinks(cfg, states, ops, |states| - 1, |states| - 1);
  }

  /** What a settlement needs from outside: a merchant that answers, a chain that
      confirms in time, identifiers that are new, and time left on the clock. */
  datatype Outside = Outside(
    signing: SigningRequest, response: MerchantResponse, payer: string,
    receipt: Receipt, attempt: nat, now: int)

  predicate Cooperates(s: Store, id: Id, o: Outside)
    requires id in s.intents
  {
    var i := s.intents[id];
    && 0 <= o.now <= I64_MAX - 3 && i.updatedAt <= I64_MAX - 4
    && i.identity.expiresAt.Some? && o.now < i.identity.expiresAt.value
    && i.identity.asset.tokenContract.Some? && i.txHash.None? && i.settlementRef.None?
    && o.signing.funded && o.signing.authorityHeld && o.signing.requestedId != o.signing.signedId
    && FreshId(s.events, RandomId(o.signing.requestedId)) && FreshId(s.events, RandomId(o.signing.signedId))
    && ResponseBound(i.(status := Signed), o.response) && o.response.accepted && o.payer != ""
    && o.response.transaction.Some? && o.response.transaction.value != ""
    && (o.response.network.None? || o.response.network.value == i.identity.asset.network)
    && (o.response.payer.None? || o.response.payer.value == o.payer)
    && FreshId(s.events, MerchantEventId(i.identity.protocol, id))
    && ReceiptFits(s, i, o.receipt, o.now)
    && EventKey(id, Reconciled, o.attempt) !in s.events
  }

  lemma CanSign(cfg: Config, states: seq<Store>, ops: seq<Op>, id: Id, o: Outside) returns (op: Op, t: Store)
    requires Run(cfg, states, ops)
    requires
      var s := states[|states| - 1];
      OutboundAt(s, id) && s.intents[id].status.Authorized? && Cooperates(s, id, o)
    ensures Run(cfg, states + [t], ops + [op]) && SignedFrom(states[|states| - 1], t, id, o)
  {
    var s := states[|states| - 1];
    LastInv(cfg, states, ops, id);
    SignCommitsNow(s, id, o.signing, o.now);
    op, t := Sign(|states| - 1, id, o.signing, o.now), SignedStore(s, s.intents[id], o.signing, o.now);
    SignExtends(cfg, states, ops, id, o.signing, o.now, t);
  }

  /** The intent has been signed from `s`, with its two events and nothing more. */
  predicate SignedFrom(s: Store, t: Store, id: Id, o: Outside)
    requires id in s.intents
  {
    && s.intents[id].identity.id == id && BuildSigning(s.intents[id], o.signing, o.now).Some?
    && t == SignedStore(s, s.intents[id], o.signing, o.now)
  }

  lemma CanRecord(
    cfg: Config, states: seq<Store>, ops: seq<Op>, s: Store, id: Id, o: Outside) returns (op: Op, t: Store)
    requires Run(cfg, states, ops)
    requires OutboundAt(s, id) && Cooperates(s, id, o) && SignedFrom(s, states[|states| - 1], id, o)
    ensures Run(cfg, states + [t], ops + [op])
    ensures RecordedFrom(states[|states| - 1], t, id, o)
  {
    var signed := states[|states| - 1];
    LastInv(cfg, states, ops, id);
    t := EvidenceCommitsNow(signed, id, o.response, o.payer, o.now);
    op := RecordResponse(|states| - 1, o.response, o.payer, o.now);
    RecordExtends(cfg, states, ops, o.response, o.payer, o.now, t);
  }

  predicate RecordedFrom(s: Store, t: Store, id: Id, o: Outside) {
    && id in s.intents && s.intents[id].identity.id == id
    && var w := BuildEvidence(s.intents[id], o.response, o.payer, o.now);
    && w.Some?
    && t == WithIntent(s, w.value.intent).(events := s.events[SubmittedKey(id) := w.value.event])
    && StoredResponseValid(w.value.event, w.value.intent) && w.value.event.payload.payer == o.payer
  }

  /** After signing and recording, everything the settlement needs still holds. */
  lemma StillCooperates(s: Store, signed: Store, recorded: Store, id: Id, o: Outside)
    requires OutboundAt(s, id) && Cooperates(s, id, o) && SignedFrom(s, signed, id, o)
    requires RecordedFrom(signed, recorded, id, o)
    ensures
      && OutboundAt(recorded, id) && recorded.intents[id].identity == s.intents[id].identity
      && recorded.intents[id].status.PendingSettlement? && ClockFits(recorded.intents[id], o.now)
      && recorded.intents[id].txHash.None? && recorded.intents[id].settlementRef.None?
      && ReceiptFits(recorded, recorded.intents[id], o.receipt, o.now)
      && EventKey(id, Reconciled, o.attempt) !in recorded.events
      && SubmittedKey(id) in recorded.events
      && StoredResponseValid(recorded.events[SubmittedKey(id)], recorded.intents[id])
      && recorded.events[SubmittedKey(id)].payload.payer == o.payer
  {
    NextTimestampAdvances(s.intents[id].updatedAt, o.now);
    NextTimestampAdvances(signed.intents[id].updatedAt, o.now);
    assert ReceiptFits(signed, signed.intents[id], o.receipt, o.now);
  }

  lemma SettlesNow(cfg: Config, s: Store, signed: Store, recorded: Store, id: Id, o: Outside) returns (t: Store)
    requires OutboundAt(s, id) && Cooperates(s, id, o) && SignedFrom(s, signed, id, o)
    requires RecordedFrom(signed, recorded, id, o)
    requires IntentInv(recorded, id)
    ensures
      var i := recorded.intents[id];
      ReconcileTx(cfg, recorded, i, Lookup(recorded, i, o.payer, o.receipt, Unavailable), o.attempt, o.now) ==
        Committed(t)
    ensures id in t.intents && t.intents[id].status.Settled?
  {
    StillCooperates(s, signed, recorded, id, o);
    LookupConfirms(recorded, id, o.payer, o.receipt, o.now);
    var evidence := OutboundLookup(recorded.events, recorded.intents[id], o.payer, o.receipt);
    t := SettleCommitsNow(recorded, id, evidence.settlement, o.attempt, o.now);
  }

  lemma ReconcileExtends(
    cfg: Config, states: seq<Store>, ops: seq<Op>, id: Id, payer: string, receipt: Receipt, attempt: nat, now: int,
    t: Store)
    requires Run(cfg, states, ops) && id in states[|states| - 1].intents
    requires
      var s := states[|states| - 1];
      ReconcileTx(cfg, s, s.intents[id], Lookup(s, s.intents[id], payer, receipt, Unavailable), attempt, now) ==
        Committed(t)
    ensures
      var op := Reconcile(|states| - 1, |states| - 1, id, attempt, payer, receipt, Unavailable, now);
      Run(cfg, states + [t], ops + [op])
  {
    var op := Reconcile(|states| - 1, |states| - 1, id, attempt, payer, receipt, Unavailable, now);
    var i := states[|states| - 1].intents[id];
    AttemptReconcile(cfg, states, op, i, Lookup(states[|states| - 1], i, payer, receipt, Unavailable));
    ExtendRun(cfg, states, ops, op, t);
  }

  lemma CanSettle(
    cfg: Config, states: seq<Store>, ops: seq<Op>, s: Store, signed: Store, id: Id, o: Outside)
    returns (op: Op, t: Store)
    requires Run(cfg, states, ops)
    requires OutboundAt(s, id) && Cooperates(s, id, o) && SignedFrom(s, signed, id, o)
    requires RecordedFrom(signed, states[|states| - 1], id, o)
    ensures Run(cfg, states + [t], ops + [op]) && id in t.intents && t.intents[id].status.Settled?
  {
    LastInv(cfg, states, ops, id);
    t := SettlesNow(cfg, s, signed, states[|states| - 1], id, o);
    op := Reconcile(|states| - 1, |states| - 1, id, o.attempt, o.payer, o.receipt, Unavailable, o.now);
    ReconcileExtends(cfg, states, ops, id, o.payer, o.receipt, o.attempt, o.now, t);
  }

  /** No reachable authorized payment is stuck: with a cooperating merchant and
      chain, three more steps settle it. */
  lemma AuthorizedCanSettle(cfg: Config, states: seq<Store>, ops: seq<Op>, id: Id, o: Outside)
    returns (states': seq<Store>, ops': seq<Op>)
    requires Run(cfg, states, ops)
    requires var s := states[|states| - 1];
      OutboundAt(s, id) && s.intents[id].status.Authorized? && Cooperates(s, id, o)
    ensures Run(cfg, states', ops') && states <= states' && ops <= ops' && |ops'| == |ops| + 3
    ensures var t := states'[|states'| - 1]; id in t.intents && t.intents[id].status.Settled?
  {
    var s := states[|states| - 1];
    var op1, signed := CanSign(cfg, states, ops, id, o);
    var states1, ops1 := states + [signed], ops + [op1];
    var op2, recorded := CanRecord(cfg, states1, ops1, s, id, o);
    var states2, ops2 := states1 + [recorded], ops1 + [op2];
    var op3, settled := CanSettle(cfg, states2, ops2, s, signed, id, o);
    states', ops' := states2 + [settled], ops2 + [op3];
    assert states <= states1 <= states2 <= states' && ops <= ops1 <= ops2 <= ops';
  }

  // ---------------------------------------------------- requested to authorized

  /** Another person approves a pending request for the exact amount. */
  lemma ApproveCommitsNow(
    cfg: Config, s: Store, a: Id, principal: string, jti: Id, eventId: Id, now: int) returns (t: Store)
    requires a in s.approvals && s.approvals[a].id == a && s.approvals[a].status.ApprovalPending?
    requires OutboundAt(s, s.approvals[a].intentId) && IntentInv(s, s.approvals[a].intentId)
    requires principal != s.approvals[a].requestedBy && 0 <= now < s.approvals[a].expiresAt <= I64_MAX
    requires cfg.grantTtl > 0
    requires EventKey(s.approvals[a].intentId, ApprovalGranted, 0) !in s.events && FreshId(s.events, RandomId(eventId))
    ensures
      var i := s.intents[s.approvals[a].intentId];
      var r := DecisionRequest(a, i.identity.id, Approve, Some(i.identity.amount));
      var w := BuildDecision(cfg, s.approvals[a], i, principal, r, jti, eventId, now);
      && w.Some? && w.value.grant.Some? && Transactions.Decide(s, w.value) == Committed(t)
      && w.value.grant.value.exp == GrantExpiration(s.approvals[a].expiresAt, now, cfg.grantTtl)
      && t == s.(approvals := s.approvals[a := ApprovedRow(s.approvals[a], w.value.decision, w.value.grant.value)],
                 events := s.events[w.value.event.key := w.value.event])
  {
    var row := s.approvals[a];
    var i := s.intents[row.intentId];
    assert ApprovalMatches(row, i);
    var r := DecisionRequest(a, i.identity.id, Approve, Some(i.identity.amount));
    var w := BuildDecision(cfg, row, i, principal, r, jti, eventId, now).value;
    FreshInsert(s.events, w.event);
    t := Transactions.Decide(s, w).store;
  }

  /** The grant is consumed at once, if scope and budget still allow it. */
  lemma ConsumeCommitsNow(cfg: Config, s: Store, a: Id, origin: string, eventId: Id, now: int) returns (t: Store)
    requires a in s.approvals && s.approvals[a].id == a && s.approvals[a].status.ApprovalApproved?
    requires OutboundAt(s, s.approvals[a].intentId) && IntentInv(s, s.approvals[a].intentId)
    requires VerifyGrant(s.approvals[a], now).Some?
    requires ClockFits(s.intents[s.approvals[a].intentId], now)
    requires
      var i := s.intents[s.approvals[a].intentId].identity;
      PaymentScope(cfg, i, origin) && EnforceBudget(cfg, s, i, now, true)
    requires EventKey(s.approvals[a].intentId, ApprovalConsumedEvent, 0) !in s.events
    requires FreshId(s.events, RandomId(eventId))
    ensures
      var i := s.intents[s.approvals[a].intentId];
      var w := BuildConsumption(s.approvals[a], i, origin, eventId, now);
      && w.Some? && ConsumeAndReserve(cfg, s, w.value) == Committed(t)
      && i.identity.id in t.intents && t.intents[i.identity.id].status.Authorized?
      && Holding(t.intents[i.identity.id]) == Some((i.identity, i.identity.amount))
  {
    var row := s.approvals[a];
    var i := s.intents[row.intentId];
    assert ApprovalMatches(row, i);
    var w := BuildConsumption(row, i, origin, eventId, now).value;
    NextTimestampAdvances(i.updatedAt, now);
    FreshInsert(s.events, w.event);
    assert VerifiedGrantMatches(row, w.intent, w.claims, now);
    assert CanUpdate(s, w.intent, w.expected, ApprovalReserve);
    t := ConsumeAndReserve(cfg, s, w).store;
  }

  /** A second person, in time, with fresh identifiers and the budget's consent. */
  ghost predicate Approvable(
    cfg: Config, s: Store, a: Id, principal: string, origin: string, grantedId: Id, consumedId: Id, now: int)
  {
    && a in s.approvals && s.approvals[a].status.ApprovalPending? && s.approvals[a].intentId in s.intents
    && var id := s.approvals[a].intentId;
    && principal != s.approvals[a].requestedBy && 0 <= now < s.approvals[a].expiresAt <= I64_MAX && cfg.grantTtl > 0
    && ClockFits(s.intents[id], now)
    && PaymentScope(cfg, s.intents[id].identity, origin) && EnforceBudget(cfg, s, s.intents[id].identity, now, true)
    && grantedId != consumedId && FreshId(s.events, RandomId(grantedId)) && FreshId(s.events, RandomId(consumedId))
    && EventKey(id, ApprovalGranted, 0) !in s.events && EventKey(id, ApprovalConsumedEvent, 0) !in s.events
  }

  /** The request is approved and its grant can be consumed. */
  ghost predicate Consumable(cfg: Config, t: Store, id: Id, a: Id, origin: string, consumedId: Id, now: int) {
    && a in t.approvals && t.approvals[a].id == a && t.approvals[a].status.ApprovalApproved?
    && t.approvals[a].intentId == id
    && OutboundAt(t, id) && VerifyGrant(t.approvals[a], now).Some? && ClockFits(t.intents[id], now)
    && PaymentScope(cfg, t.intents[id].identity, origin) && EnforceBudget(cfg, t, t.intents[id].identity, now, true)
    && EventKey(id, ApprovalConsumedEvent, 0) !in t.events && FreshId(t.events, RandomId(consumedId))
  }

  lemma ApprovesNow(
    cfg: Config, s: Store, a: Id, principal: string, origin: string, jti: Id, grantedId: Id, consumedId: Id, now: int)
    returns (t: Store)
    requires Approvable(cfg, s, a, principal, origin, grantedId, consumedId, now)
    requires s.approvals[a].id == a && OutboundAt(s, s.approvals[a].intentId) && IntentInv(s, s.approvals[a].intentId)
    ensures
      var i := s.intents[s.approvals[a].intentId];
      var r := DecisionRequest(a, i.identity.id, Approve, Some(i.identity.amount));
      var w := BuildDecision(cfg, s.approvals[a], i, principal, r, jti, grantedId, now);
      w.Some? && Transactions.Decide(s, w.value) == Committed(t)
    ensures Consumable(cfg, t, s.approvals[a].intentId, a, origin, consumedId, now)
  {
    t := ApproveCommitsNow(cfg, s, a, principal, jti, grantedId, now);
    var i := s.intents[s.approvals[a].intentId];
    var r := DecisionRequest(a, i.identity.id, Approve, Some(i.identity.amount));
    var w := BuildDecision(cfg, s.approvals[a], i, principal, r, jti, grantedId, now).value;
    ApprovedIsConsumable(cfg, s, t, a, principal, origin, jti, grantedId, consumedId, now, w);
  }

  lemma ApprovedIsConsumable(
    cfg: Config, s: Store, t: Store, a: Id, principal: string, origin: string, jti: Id, grantedId: Id, consumedId: Id,
    now: int, w: DecisionWrite)
    requires Approvable(cfg, s, a, principal, origin, grantedId, consumedId, now)
    requires s.approvals[a].id == a && OutboundAt(s, s.approvals[a].intentId)
    requires
      var i := s.intents[s.approvals[a].intentId];
      var r := DecisionRequest(a, i.identity.id, Approve, Some(i.identity.amount));
      BuildDecision(cfg, s.approvals[a], i, principal, r, jti, grantedId, now) == Some(w) && w.grant.Some?
    requires
      && w.grant.value.exp == GrantExpiration(s.approvals[a].expiresAt, now, cfg.grantTtl)
      && t == s.(approvals := s.approvals[a := ApprovedRow(s.approvals[a], w.decision, w.grant.value)],
                 events := s.events[w.event.key := w.event])
    ensures Consumable(cfg, t, s.approvals[a].intentId, a, origin, consumedId, now)
  {
    SameBudget(cfg, s, t, s.intents[s.approvals[a].intentId].identity, now);
  }

  lemma CanApprove(cfg: Config, states: seq<Store>, ops: seq<Op>, a: Id, principal: string, origin: string,
                   jti: Id, grantedId: Id, consumedId: Id, now: int) returns (op: Op, t: Store)
    requires Run(cfg, states, ops)
    requires Approvable(cfg, states[|states| - 1], a, principal, origin, grantedId, consumedId, now)
    ensures Run(cfg, states + [t], ops + [op])
    ensures Consumable(cfg, t, states[|states| - 1].approvals[a].intentId, a, origin, consumedId, now)
  {
    var n := |states| - 1;
    var id := states[n].approvals[a].intentId;
    ApprovalMatchesAt(cfg, states, ops, n, a);
    ApprovalAt(cfg, states, ops, n, n, a);
    LastInv(cfg, states, ops, id);
    t := ApprovesNow(cfg, states[n], a, principal, origin, jti, grantedId, consumedId, now);
    var request := DecisionRequest(a, id, Approve, Some(states[n].intents[id].identity.amount));
    op := Decide(n, n, principal, request, jti, grantedId, now);
    DecideExtends(cfg, states, ops, principal, request, jti, grantedId, now, t);
  }

  lemma CanConsume(
    cfg: Config, states: seq<Store>, ops: seq<Op>, id: Id, a: Id, origin: string, consumedId: Id, now: int)
    returns (op: Op, t: Store)
    requires Run(cfg, states, ops) && Consumable(cfg, states[|states| - 1], id, a, origin, consumedId, now)
    ensures Run(cfg, states + [t], ops + [op])
    ensures id in t.intents && t.intents[id].status.Authorized? && t.intents[id].reservation.Reserved?
  {
    var n := |states| - 1;
    LastInv(cfg, states, ops, id);
    t := ConsumeCommitsNow(cfg, states[n], a, origin, consumedId, now);
    op := Consume(n, n, a, id, origin, consumedId, now);
    ConsumeExtends(cfg, states, ops, a, id, origin, consumedId, now, t);
  }

  /** No reachable request is stuck: a second person's approval and its
      consumption authorize it, as long as the budget guard agrees. */
  lemma RequestedCanBeAuthorized(
    cfg: Config, states: seq<Store>, ops: seq<Op>, a: Id, principal: string, origin: string, jti: Id, grantedId: Id,
    consumedId: Id, now: int)
    returns (states': seq<Store>, ops': seq<Op>)
    requires Run(cfg, states, ops)
    requires Approvable(cfg, states[|states| - 1], a, principal, origin, grantedId, consumedId, now)
    ensures Run(cfg, states', ops') && states <= states' && ops <= ops' && |ops'| == |ops| + 2
    ensures
      var id := states[|states| - 1].approvals[a].intentId;
      var t := states'[|states'| - 1];
      id in t.intents && t.intents[id].status.Authorized? && t.intents[id].reservation.Reserved?
  {
    var op1, granted := CanApprove(cfg, states, ops, a, principal, origin, jti, grantedId, consumedId, now);
    var id := states[|states| - 1].approvals[a].intentId;
    var op2, consumed := CanConsume(cfg, states + [granted], ops + [op1], id, a, origin, consumedId, now);
    states', ops' := states + [granted] + [consumed], ops + [op1] + [op2];
  }

  lemma SameBudget(cfg: Config, s: Store, t: Store, i: Identity, now: int)
    requires t.intents == s.intents && t.ledger == s.ledger && EnforceBudget(cfg, s, i, now, true)
    ensures EnforceBudget(cfg, t, i, now, true)
  {
  }

  // ------------------------------------------------- decided to authorized

  /** What the evaluator is shown: the usages of the day in the current tables. */
  ghost predicate EvaluatedOn(cfg: Config, s: Store, c: AuthorizeCommand, selected: Selection, now: int) {
    && selected.policyId in cfg.policies && selected.walletId in cfg.wallets
    && var wallet := cfg.wallets[selected.walletId];
    && var unit := c.challenge.asset.unit;
    && var scenarioUsage := Usage(s, ScenarioScope(c.scenarioId), Outbound, unit, UtcDayStart(now));
    && var walletUsage := Usage(s, WalletScope(selected.walletId), Outbound, unit, UtcDayStart(now));
    && scenarioUsage <= U128_MAX && walletUsage <= U128_MAX
    && PolicyEngine.Evaluate(
         cfg.policies[selected.policyId], Outbound, c.challenge, selected.walletId, selected.origin, scenarioUsage,
         PolicyEngine.WalletBudget(
           walletUsage, SharedWallet(cfg, selected.walletId), wallet.maxPerPayment, wallet.maxPerDay),
         now)
       == PolicyEngine.Decided(selected.decision)
  }

  /** The rest of what the transaction checks on the catalog and the tables. */
  predicate Insertable(
    cfg: Config, s: Store, c: AuthorizeCommand, selected: Selection, ids: AuthorizationIds, now: int)
  {
    && 0 <= now && c.challenge.amount > 0 && c.scenarioId == c.challenge.scenarioId
    && selected.policyId in cfg.policies && selected.walletId in cfg.wallets
    && cfg.wallets[selected.walletId].unit == cfg.policies[selected.policyId].unit
    && !RunExists(s, c.scenarioId, c.runId) && ids.intent !in s.intents
    && (forall l :: l in s.ledger ==> s.ledger[l].effectiveAt <= SaturatingAdd(now, MAX_FUTURE_SKEW))
    && FreshId(s.events, RandomId(ids.received)) && EventKey(ids.intent, ChallengeReceived, 0) !in s.events
  }

  lemma AllowedIsGuarded(
    cfg: Config, s: Store, c: AuthorizeCommand, selected: Selection, ids: AuthorizationIds, now: int)
    requires EvaluatedOn(cfg, s, c, selected, now) && Insertable(cfg, s, c, selected, ids, now)
    requires selected.decision.Allowed?
    ensures cfg.policies[selected.policyId].Valid()
    ensures
      var policy := cfg.policies[selected.policyId];
      var wallet := cfg.wallets[selected.walletId];
      var unit := c.challenge.asset.unit;
      && policy.outboundLimits.Some? && now < c.challenge.expiresAt && policy.unit == unit
      && PolicyEngine.ScopeMatches(policy, c.challenge, selected.walletId, selected.origin)
      && PolicyEngine.BudgetAllows(
           policy.outboundLimits.value, c.challenge.amount,
           Usage(s, ScenarioScope(c.scenarioId), Outbound, unit, UtcDayStart(now)),
           PolicyEngine.WalletBudget(
             Usage(s, WalletScope(selected.walletId), Outbound, unit, UtcDayStart(now)),
             SharedWallet(cfg, selected.walletId), wallet.maxPerPayment, wallet.maxPerDay),
           false)
  {
    var policy := cfg.policies[selected.policyId];
    var wallet := cfg.wallets[selected.walletId];
    var unit := c.challenge.asset.unit;
    PolicyEngine.EvaluateAgreesWithGuard(
      policy, Outbound, c.challenge, selected.walletId, selected.origin,
      Usage(s, ScenarioScope(c.scenarioId), Outbound, unit, UtcDayStart(now)),
      PolicyEngine.WalletBudget(Usage(s, WalletScope(selected.walletId), Outbound, unit, UtcDayStart(now)),
                                SharedWallet(cfg, selected.walletId), wallet.maxPerPayment, wallet.maxPerDay), now);
  }

  lemma AllowedInsert(
    cfg: Config, s: Store, principal: string, c: AuthorizeCommand, selected: Selection, ids: AuthorizationIds,
    now: int)
    requires Insertable(cfg, s, c, selected, ids, now) && selected.decision.Allowed?
    requires cfg.policies[selected.policyId].Valid() && cfg.policies[selected.policyId].outboundLimits.Some?
    requires now < c.challenge.expiresAt && cfg.policies[selected.policyId].unit == c.challenge.asset.unit
    requires PolicyEngine.ScopeMatches(cfg.policies[selected.policyId], c.challenge, selected.walletId, selected.origin)
    requires c.challenge.amount <= cfg.policies[selected.policyId].outboundLimits.value.maxPerPayment
    ensures
      var w := BuildAuthorization(cfg, principal, c, selected, ids, now);
      && AuthorizationGuard(cfg, w) && ChallengeReceivedBound(w.events, w.intent) && ActionMatches(w)
      && AppendEvents(s.events, w.events).Some?
  {
    var w := BuildAuthorization(cfg, principal, c, selected, ids, now);
    assert w.events == [w.events[0]] && w.events[0].key.eventType.ChallengeReceived?;
    FreshInsert(s.events, w.events[0]);
    InsertIsAppend(s.events, w.events[0]);
  }

  /** A payment the evaluator allows on the current tables is reserved in full
      by the transaction that repeats the decision under its locks. */
  lemma AllowedIsReserved(cfg: Config, states: seq<Store>, ops: seq<Op>, principal: string, c: AuthorizeCommand,
                          selected: Selection, ids: AuthorizationIds, now: int) returns (t: Store)
    requires Run(cfg, states, ops) && selected.decision.Allowed?
    requires EvaluatedOn(cfg, states[|states| - 1], c, selected, now)
    requires Insertable(cfg, states[|states| - 1], c, selected, ids, now)
    ensures Run(cfg, states + [t], ops + [Authorize(principal, c, selected, ids, now)])
    ensures ids.intent in t.intents && t.intents[ids.intent] == BuildIntent(c, selected, ids, now)
    ensures Holding(t.intents[ids.intent]) == Some((t.intents[ids.intent].identity, c.challenge.amount))
  {
    var s := states[|states| - 1];
    AllowedIsGuarded(cfg, s, c, selected, ids, now);
    AllowedInsert(cfg, s, principal, c, selected, ids, now);
    SnapshotFindsLedger(cfg, states, ops, |states| - 1, BuildIntent(c, selected, ids, now).identity);
    t := ReservesNow(cfg, s, principal, c, selected, ids, now);
    ExtendRun(cfg, states, ops, Authorize(principal, c, selected, ids, now), t);
  }

  lemma ReservesNow(
    cfg: Config, s: Store, principal: string, c: AuthorizeCommand, selected: Selection, ids: AuthorizationIds,
    now: int)
    returns (t: Store)
    requires Insertable(cfg, s, c, selected, ids, now) && selected.decision.Allowed?
    requires EvaluatedOn(cfg, s, c, selected, now)
    requires
      var w := BuildAuthorization(cfg, principal, c, selected, ids, now);
      && AuthorizationGuard(cfg, w) && ChallengeReceivedBound(w.events, w.intent) && ActionMatches(w)
      && AppendEvents(s.events, w.events).Some? && ConsumedHaveLedger(s, w.intent.identity)
    ensures Transactions.Authorize(cfg, s, BuildAuthorization(cfg, principal, c, selected, ids, now)) == Committed(t)
    ensures t.intents == s.intents[ids.intent := BuildIntent(c, selected, ids, now)]
  {
    var w := BuildAuthorization(cfg, principal, c, selected, ids, now);
    AllowedIsGuarded(cfg, s, c, selected, ids, now);
    assert EnforceBudget(cfg, s, w.intent.identity, now, false);
    t := Transactions.Authorize(cfg, s, w).store;
  }
}
