/** The payment services on the store they share. A service reads rows, and some
    time later, after any calls of others, commits: each commit is one step of the
    protocol, so the calls of a store form a run. Budgets are summed row by row
    and batches are processed in loops. */
module PaymentService {
  import opened Domain
  import opened Options
  import PolicyEngine
  import opened PaymentTables
  import P = Protocol
  import Progress
  import Runs
  import opened Sums
  import opened Transactions
  import opened Workers

  method SumIntents(intents: map<Id, Intent>, scope: Scope, direction: Direction, unit: BudgetUnit) returns (total: nat)
    ensures total == Total(intents, ReservedPart(scope, direction, unit))
  {
    total := 0;
    var rest := intents.Keys;
    ghost var done: map<Id, Intent> := map[];
    ghost var weight := ReservedPart(scope, direction, unit);
    while rest != {}
      invariant rest <= intents.Keys && done == map k | k in intents && k !in rest :: intents[k]
      invariant total == Total(done, weight)
      decreases |rest|
    {
      var k :| k in rest;
      var i := intents[k];
      TotalInsert(done, weight, k, i);
      if IntentInScope(scope, i.identity) && i.identity.direction == direction
         && i.identity.asset.unit == unit && i.reservation.Reserved? {
        total := total + i.reservedAmount;
      }
      done := done[k := i];
      rest := rest - {k};
    }
    assert done == intents;
  }

  method SumLedger(ledger: map<LedgerId, LedgerEntry>, scope: Scope, direction: Direction, unit: BudgetUnit, since: int)
    returns (total: nat)
    ensures total == Total(ledger, ConfirmedPart(scope, direction, unit, since))
  {
    total := 0;
    var rest := ledger.Keys;
    ghost var done: map<LedgerId, LedgerEntry> := map[];
    ghost var weight := ConfirmedPart(scope, direction, unit, since);
    while rest != {}
      invariant rest <= ledger.Keys && done == map l | l in ledger && l !in rest :: ledger[l]
      invariant total == Total(done, weight)
      decreases |rest|
    {
      var l :| l in rest;
      var e := ledger[l];
      TotalInsert(done, weight, l, e);
      if EntryInScope(scope, e) && e.direction == direction && e.asset.unit == unit && since <= e.effectiveAt {
        total := total + e.amount;
      }
      done := done[l := e];
      rest := rest - {l};
    }
    assert done == ledger;
  }

  method AppendAll(events: map<EventKey, Event>, es: seq<Event>) returns (r: Option<map<EventKey, Event>>)
    ensures r == AppendEvents(events, es)
  {
    var current := events;
    for i := 0 to |es|
      invariant AppendEvents(events, es) == AppendEvents(current, es[i..])
    {
      var next := InsertEvent(current, es[i]);
      assert es[i..][0] == es[i] && es[i..][1..] == es[i + 1..];
      if next.None? {
        return None;
      }
      current := next.value;
    }
    assert es[|es|..] == [];
    r := Some(current);
  }

  /** The call was the protocol's step `op`; a commit extends the run by it. */
  ghost predicate Stepped(
    cfg: Config, before: seq<Store>, done: seq<P.Op>, op: P.Op, tx: Tx, after: seq<Store>, ops: seq<P.Op>)
  {
    && |before| > 0 && tx == P.Attempt(cfg, before, op)
    && after == (if tx.Committed? then before + [tx.store] else before)
    && ops == (if tx.Committed? then done + [op] else done)
  }

  class PaymentStore {
    var tables: Store
    const cfg: Config

    /** The tables after every commit so far, and the operations that made them. */
    ghost var history: seq<Store>
    ghost var ops: seq<P.Op>

    ghost predicate Valid()
      reads this
    {
      P.Run(cfg, history, ops) && tables == history[|history| - 1]
    }

    constructor (cfg: Config)
      ensures Valid() && this.cfg == cfg && history == [EmptyStore] && ops == []
    {
      this.cfg, tables := cfg, EmptyStore;
      history, ops := [EmptyStore], [];
    }

    /** A row as it is now, and the moment it was read. */
    method LoadIntent(id: Id) returns (i: Option<Intent>, ghost moment: nat)
      requires Valid()
      ensures moment == |history| - 1 && i == P.IntentRead(history, moment, id)
    {
      i := if id in tables.intents then Some(tables.intents[id]) else None;
      moment := |history| - 1;
    }

    method LoadApproval(id: Id) returns (a: Option<Approval>, ghost moment: nat)
      requires Valid()
      ensures moment == |history| - 1 && a == P.ApprovalRead(history, moment, id)
    {
      a := if id in tables.approvals then Some(tables.approvals[id]) else None;
      moment := |history| - 1;
    }

    ghost method Extend(op: P.Op, tx: Tx)
      requires P.Run(cfg, history, ops) && tx == P.Attempt(cfg, history, op)
      requires tables == After(history[|history| - 1], tx)
      modifies this`history, this`ops
      ensures Valid() && Stepped(cfg, old(history), old(ops), op, tx, history, ops)
    {
      if tx.Committed? {
        Progress.ExtendRun(cfg, history, ops, op, tx.store);
        history, ops := history + [tx.store], ops + [op];
      }
    }

    method ScopeUsage(scope: Scope, direction: Direction, unit: BudgetUnit, since: int) returns (total: nat)
      ensures total == Usage(tables, scope, direction, unit, since)
    {
      var reserved := SumIntents(tables.intents, scope, direction, unit);
      var confirmed := SumLedger(tables.ledger, scope, direction, unit, since);
      total := reserved + confirmed;
    }

    /** The budget guard, from fresh sums over the current rows. */
    method BudgetGuard(i: Identity, now: int, approved: bool) returns (ok: bool)
      ensures ok == EnforceBudget(cfg, tables, i, now, approved)
    {
      if i.policyId !in cfg.policies || i.walletId !in cfg.wallets {
        return false;
      }
      var policy, wallet := cfg.policies[i.policyId], cfg.wallets[i.walletId];
      var dayStart := UtcDayStart(now);
      if policy.LimitsFor(i.direction).None? || wallet.unit != i.asset.unit || dayStart < 0
         || !LedgerWithinSkew(tables, i, now) || !ConsumedHaveLedger(tables, i) {
        return false;
      }
      var scenarioUsage := ScopeUsage(ScenarioScope(i.scenarioId), i.direction, i.asset.unit, dayStart);
      var walletUsage := ScopeUsage(WalletScope(i.walletId), i.direction, i.asset.unit, dayStart);
      if scenarioUsage > U128_MAX || walletUsage > U128_MAX {
        return false;
      }
      var budget := PolicyEngine.WalletBudget(
        walletUsage, SharedWallet(cfg, i.walletId), wallet.maxPerPayment, wallet.maxPerDay);
      ok := PolicyEngine.BudgetAllows(policy.LimitsFor(i.direction).value, i.amount, scenarioUsage, budget, approved);
    }

    method Authorize(principal: string, command: AuthorizeCommand, selected: Selection, ids: AuthorizationIds, now: int)
      returns (tx: Tx)
      requires Valid()
      modifies this
      ensures Valid()
      ensures
        Stepped(cfg, old(history), old(ops), P.Authorize(principal, command, selected, ids, now), tx, history, ops)
    {
      tx := InsertAuthorization(principal, command, selected, ids, now);
      Extend(P.Authorize(principal, command, selected, ids, now), tx);
    }

    method InsertAuthorization(
      principal: string, command: AuthorizeCommand, selected: Selection, ids: AuthorizationIds, now: int)
      returns (tx: Tx)
      modifies this`tables
      ensures
        tx == Transactions.Authorize(cfg, old(tables), BuildAuthorization(cfg, principal, command, selected, ids, now))
      ensures tables == After(old(tables), tx)
    {
      var w := BuildAuthorization(cfg, principal, command, selected, ids, now);
      var i := w.intent.identity;
      if RunExists(tables, i.scenarioId, i.runId) {
        return if RunBoundTo(tables, i) then Replayed else Refused(Conflict);
      }
      if !AuthorizationGuard(cfg, w) {
        return Refused(PolicyDenied);
      }
      if !ChallengeReceivedBound(w.events, w.intent) || !ActionMatches(w) {
        return Refused(Conflict);
      }
      if w.action.Reserve? {
        var allowed := BudgetGuard(i, now, false);
        if !allowed {
          return Refused(PolicyDenied);
        }
      }
      if i.id in tables.intents || (w.approval.Some? && !ApprovalInsertable(tables, w.approval.value, i)) {
        return Refused(Conflict);
      }
      var events := AppendAll(tables.events, w.events);
      if events.None? {
        return Refused(Conflict);
      }
      var approvals := tables.approvals;
      if w.approval.Some? {
        approvals := approvals[w.approval.value.id := w.approval.value];
      }
      tables := tables.(intents := tables.intents[i.id := w.intent], approvals := approvals, events := events.value);
      tx := Committed(tables);
    }

    method SubmitDecision(
      a: Approval, i: Intent, ghost aRead: nat, ghost iRead: nat, principal: string, request: DecisionRequest, jti: Id,
      eventId: Id, now: int) returns (tx: Tx)
      requires Valid() && P.ApprovalRead(history, aRead, request.approvalId) == Some(a)
      requires P.IntentRead(history, iRead, request.intentId) == Some(i)
      modifies this
      ensures Valid()
      ensures
        var op := P.Decide(aRead, iRead, principal, request, jti, eventId, now);
        Stepped(cfg, old(history), old(ops), op, tx, history, ops)
    {
      ghost var op := P.Decide(aRead, iRead, principal, request, jti, eventId, now);
      P.AttemptDecide(cfg, history, op, a, i);
      var w := BuildDecision(cfg, a, i, principal, request, jti, eventId, now);
      tx := if w.None? then P.NotAvailable else Transactions.Decide(tables, w.value);
      tables := After(tables, tx);
      Extend(op, tx);
    }

    method ConsumeGrant(
      a: Approval, i: Intent, ghost aRead: nat, ghost iRead: nat, approvalId: Id, intentId: Id, origin: string,
      eventId: Id, now: int) returns (tx: Tx)
      requires Valid() && P.ApprovalRead(history, aRead, approvalId) == Some(a)
      requires P.IntentRead(history, iRead, intentId) == Some(i)
      modifies this
      ensures Valid()
      ensures
        var op := P.Consume(aRead, iRead, approvalId, intentId, origin, eventId, now);
        Stepped(cfg, old(history), old(ops), op, tx, history, ops)
    {
      ghost var op := P.Consume(aRead, iRead, approvalId, intentId, origin, eventId, now);
      P.AttemptConsume(cfg, history, op, a, i);
      tx := ReserveConsumed(a, i, origin, eventId, now);
      Extend(op, tx);
    }

    method ReserveConsumed(approval: Approval, intent: Intent, origin: string, eventId: Id, now: int) returns (tx: Tx)
      modifies this`tables
      ensures tx == P.ConsumeTx(cfg, old(tables), approval, intent, origin, eventId, now)
      ensures tables == After(old(tables), tx)
    {
      var built := BuildConsumption(approval, intent, origin, eventId, now);
      if built.None? {
        return P.NotAvailable;
      }
      var w := built.value;
      if w.claims.approvalId !in tables.approvals {
        return Refused(NotFound);
      }
      var row := tables.approvals[w.claims.approvalId];
      if !VerifiedGrantMatches(row, w.intent, w.claims, now) {
        return Refused(Conflict);
      }
      if !PaymentScope(cfg, w.intent.identity, origin) {
        return Refused(PolicyDenied);
      }
      var allowed := BudgetGuard(w.intent.identity, now, true);
      if !allowed {
        return Refused(PolicyDenied);
      }
      var events := InsertEvent(tables.events, w.event);
      if !CanUpdate(tables, w.intent, w.expected, ApprovalReserve) || events.None? {
        return Refused(Conflict);
      }
      tables := WithIntent(tables, w.intent).(
        approvals := tables.approvals[row.id := ConsumedRow(row, now)], events := events.value);
      tx := Committed(tables);
    }

    /** All due rows expire together, or none does. */
    method ExpireApprovals(approvalIds: seq<Id>, now: int) returns (tx: Tx)
      requires Valid()
      modifies this
      ensures Valid()
      ensures Stepped(cfg, old(history), old(ops), P.ExpireApprovals(approvalIds, now), tx, history, ops)
    {
      tx := ExpireRows(approvalIds, now);
      Extend(P.ExpireApprovals(approvalIds, now), tx);
    }

    method ExpireRows(approvalIds: seq<Id>, now: int) returns (tx: Tx)
      modifies this`tables
      ensures tx == ExpireDue(old(tables), approvalIds, now)
      ensures tables == After(old(tables), tx)
    {
      var work := tables;
      for n := 0 to |approvalIds|
        invariant tables == old(tables)
        invariant ExpireDue(tables, approvalIds, now) == ExpireDue(work, approvalIds[n..], now)
      {
        var one := ExpireApproval(work, approvalIds[n], now);
        assert approvalIds[n..][0] == approvalIds[n] && approvalIds[n..][1..] == approvalIds[n + 1..];
        if one.Refused? {
          return one;
        }
        work := After(work, one);
      }
      assert approvalIds[|approvalIds|..] == [];
      tables := work;
      tx := Committed(tables);
    }

    method SignPayment(i: Intent, ghost read: nat, intentId: Id, signing: SigningRequest, now: int) returns (tx: Tx)
      requires Valid() && P.IntentRead(history, read, intentId) == Some(i)
      modifies this
      ensures Valid()
      ensures Stepped(cfg, old(history), old(ops), P.Sign(read, intentId, signing, now), tx, history, ops)
    {
      ghost var op := P.Sign(read, intentId, signing, now);
      P.AttemptSign(cfg, history, op, i);
      var w := BuildSigning(i, signing, now);
      tx := if w.None? then P.NotAvailable else CommitSigned(tables, w.value);
      tables := After(tables, tx);
      Extend(op, tx);
    }

    method RecordMerchantResponse(
      i: Intent, ghost read: nat, response: MerchantResponse, expectedPayer: string, now: int) returns (tx: Tx)
      requires Valid() && P.IntentRead(history, read, response.intentId) == Some(i)
      modifies this
      ensures Valid()
      ensures
        Stepped(cfg, old(history), old(ops), P.RecordResponse(read, response, expectedPayer, now), tx, history, ops)
    {
      ghost var op := P.RecordResponse(read, response, expectedPayer, now);
      P.AttemptRecord(cfg, history, op, i);
      var w := BuildEvidence(i, response, expectedPayer, now);
      tx := if w.None? then P.NotAvailable else RecordEvidence(tables, w.value);
      tables := After(tables, tx);
      Extend(op, tx);
    }

    /** A claim takes every selected row or none. */
    method ClaimReconciliation(intentIds: seq<Id>, owner: string, now: int, leaseUntil: int) returns (tx: Tx)
      requires Valid()
      modifies this
      ensures Valid()
      ensures
        Stepped(cfg, old(history), old(ops), P.ClaimLeases(intentIds, owner, now, leaseUntil), tx, history, ops)
    {
      tx := ClaimRows(intentIds, owner, now, leaseUntil);
      Extend(P.ClaimLeases(intentIds, owner, now, leaseUntil), tx);
    }

    method ClaimRows(intentIds: seq<Id>, owner: string, now: int, leaseUntil: int) returns (tx: Tx)
      modifies this`tables
      ensures tx == Claim(old(tables), intentIds, owner, now, leaseUntil)
      ensures tables == After(old(tables), tx)
    {
      if leaseUntil <= now {
        return Refused(InvalidRequest);
      }
      var work := tables;
      for n := 0 to |intentIds|
        invariant tables == old(tables)
        invariant Claim(tables, intentIds, owner, now, leaseUntil) ==
          Claim(work, intentIds[n..], owner, now, leaseUntil)
      {
        assert intentIds[n..][0] == intentIds[n] && intentIds[n..][1..] == intentIds[n + 1..];
        if !Claimable(work, intentIds[n], now) || leaseUntil < 0 {
          return Refused(Conflict);
        }
        work := ClaimOne(work, intentIds[n], owner, leaseUntil);
      }
      assert intentIds[|intentIds|..] == [];
      tables := work;
      tx := Committed(tables);
    }
  }

  /** Whatever calls a store has seen, in whatever order and with whatever reads,
      its tables satisfy the invariant and every earlier state evolves into them. */
  lemma StoreIsSafe(store: PaymentStore, k: nat)
    requires store.Valid() && k < |store.history|
    ensures P.Inv(store.tables) && P.Evolves(store.history[k], store.tables)
  {
    Runs.RunLinks(store.cfg, store.history, store.ops, k, |store.history| - 1);
  }
}
