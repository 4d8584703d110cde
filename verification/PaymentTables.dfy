/** The authoritative tables and the row-level rules every transaction uses:
    guarded intent updates, append-only events and ledger entries, budgets. */
module PaymentTables {
  import opened Options
  import opened Domain
  import opened PolicyEngine
  import opened Sums

  datatype Lease = Lease(owner: string, expiresAt: int)

  datatype Store = Store(
    intents: map<Id, Intent>,
    approvals: map<Id, Approval>,
    events: map<EventKey, Event>,
    ledger: map<LedgerId, LedgerEntry>,
    leases: map<Id, Lease>,
    attempts: map<Id, nat>)

  const EmptyStore := Store(map[], map[], map[], map[], map[], map[])

  /** Catalog rows and worker settings, fixed for the length of a run. */
  datatype Config = Config(
    policies: map<Id, Policy>, wallets: map<Id, Wallet>,
    approvalTtl: nat, grantTtl: nat, initialBackoff: nat, maxBackoff: nat)

  datatype Refusal = NotFound | Conflict | PolicyDenied | InvalidRequest | StorageFailure

  datatype Tx = Committed(store: Store) | Replayed | Refused(reason: Refusal)

  /** A refused or replayed transaction leaves the tables as they were. */
  function After(s: Store, tx: Tx): Store {
    if tx.Committed? then tx.store else s
  }

  // ---------------------------------------------------------------- intents

  /** Domain validation together with the table's own constraints. */
  predicate RowValid(i: Intent) {
    && i.identity.amount > 0
    && (i.identity.direction.Outbound? <==> i.identity.priceId.None?)
    && i.settledAmount <= i.identity.amount
    && i.reservedAmount <= i.identity.amount
    && (i.reservation.Unreserved? <==> i.reservedAmount == 0)
    && (i.status.Settled? <==> i.settledAt.Some?)
    && 0 <= i.identity.createdAt <= i.updatedAt
    && (i.identity.expiresAt.Some? ==> i.identity.createdAt <= i.identity.expiresAt.value)
    && (i.settledAt.Some? ==> i.identity.createdAt <= i.settledAt.value)
    && (i.nextReconcileAt.Some? ==> 0 <= i.nextReconcileAt.value)
  }

  predicate AllowedStatusTransition(from: PaymentStatus, to: PaymentStatus) {
    from == to ||
    match from
    case Created => to.PendingApproval? || to.Authorized? || to.Submitted? || to.Failed? || to.Expired?
    case PendingApproval => to.Authorized? || to.Failed? || to.Expired?
    case Authorized =>
      to.Signed? || to.Submitted? || to.PendingSettlement? || to.Failed? || to.Expired? || to.Unknown?
    case Signed => to.Submitted? || to.PendingSettlement? || to.Settled? || to.Failed? || to.Unknown?
    case Submitted => to.PendingSettlement? || to.Settled? || to.Failed? || to.Unknown?
    case PendingSettlement => to.Settled? || to.Failed? || to.Expired? || to.Unknown?
    case Unknown => to.Submitted? || to.PendingSettlement? || to.Settled? || to.Failed? || to.Expired?
    case _ => false
  }

  datatype Mutation = Unchanged | ReleaseOnly | Settlement | ApprovalReserve

  predicate MutationAllowed(mutation: Mutation, existing: Intent, candidate: Intent) {
    match mutation
    case Unchanged =>
      candidate.reservation == existing.reservation && candidate.reservedAmount == existing.reservedAmount
    case ReleaseOnly =>
      && existing.reservation.Reserved? && candidate.reservation.Released?
      && candidate.reservedAmount == existing.reservedAmount
    case Settlement =>
      || ((existing.reservation.Reserved? || existing.reservation.Consumed?) && candidate.reservation.Consumed?)
      || (existing.reservation.Unreserved? && candidate.reservation.Unreserved?)
      || (existing.reservation.Released? && candidate.reservation.Released?)
    case ApprovalReserve =>
      && existing.reservation.Unreserved? && candidate.reservation.Reserved?
      && candidate.reservedAmount == candidate.identity.amount
  }

  /** Compare-and-swap on `updated_at`, with the lifecycle rules of the row. */
  predicate CanUpdate(s: Store, candidate: Intent, expected: int, mutation: Mutation) {
    && candidate.identity.id in s.intents
    && var existing := s.intents[candidate.identity.id];
    && RowValid(candidate)
    && existing.updatedAt == expected
    && expected < candidate.updatedAt
    && existing.identity == candidate.identity
    && existing.settledAmount <= candidate.settledAmount
    && AllowedStatusTransition(existing.status, candidate.status)
    && MutationAllowed(mutation, existing, candidate)
  }

  function WithIntent(s: Store, i: Intent): Store {
    s.(intents := s.intents[i.identity.id := i])
  }

  // ----------------------------------------------------------------- events

  predicate EventIdUsedElsewhere(events: map<EventKey, Event>, id: EventId, key: EventKey) {
    exists k :: k in events && k != key && events[k].id == id
  }

  /** Insert-or-ignore on both unique keys; an exact duplicate is a replay and
      anything else that collides is refused. */
  function InsertEvent(events: map<EventKey, Event>, e: Event): Option<map<EventKey, Event>> {
    if EventIdUsedElsewhere(events, e.id, e.key) then None
    else if e.key !in events then Some(events[e.key := e])
    else if events[e.key] == e then Some(events)
    else None
  }

  function EventKeys(es: seq<Event>): set<EventKey> {
    set e | e in es :: e.key
  }

  function AppendEvents(events: map<EventKey, Event>, es: seq<Event>): (r: Option<map<EventKey, Event>>)
    ensures r.Some? ==> r.value.Keys == events.Keys + EventKeys(es)
    ensures r.Some? ==> forall k :: k in events ==> r.value[k] == events[k]
    ensures r.Some? ==> forall e :: e in es ==> r.value[e.key] == e
    decreases |es|
  {
    if es == [] then Some(events)
    else
      var first := InsertEvent(events, es[0]);
      if first.None? then None
      else
        assert es == [es[0]] + es[1..];
        AppendEvents(first.value, es[1..])
  }

  // ----------------------------------------------------------------- ledger

  predicate LedgerEntryValid(e: LedgerEntry) {
    e.amount > 0 && (e.txHash.Some? || e.settlementRef.Some?) && 0 <= e.effectiveAt
  }

  /** Same posting and same financial content; the identifier and the creation
      time of the row do not take part. */
  predicate SameFact(a: LedgerEntry, b: LedgerEntry) {
    a.(id := b.id, createdAt := b.createdAt) == b
  }

  predicate SamePosting(a: LedgerEntry, b: LedgerEntry) {
    a.walletId == b.walletId && a.postingKey == b.postingKey
  }

  function InsertLedger(ledger: map<LedgerId, LedgerEntry>, e: LedgerEntry): Option<map<LedgerId, LedgerEntry>> {
    if !LedgerEntryValid(e) then None
    else if e.id !in ledger && !(exists l :: l in ledger && SamePosting(ledger[l], e)) then Some(ledger[e.id := e])
    else if exists l :: l in ledger && SamePosting(ledger[l], e) && SameFact(ledger[l], e) then Some(ledger)
    else None
  }

  function AppendLedger(
    ledger: map<LedgerId, LedgerEntry>, es: seq<LedgerEntry>): (r: Option<map<LedgerId, LedgerEntry>>)
    ensures r.Some? ==> forall l :: l in ledger ==> l in r.value && r.value[l] == ledger[l]
    ensures r.Some? ==> forall l :: l in r.value && l !in ledger ==> r.value[l] in es
    decreases |es|
  {
    if es == [] then Some(ledger)
    else
      var first := InsertLedger(ledger, es[0]);
      if first.None? then None else AppendLedger(first.value, es[1..])
  }

  // ---------------------------------------------------------------- budgets

  const DAY_SECONDS := 86_400
  const MAX_FUTURE_SKEW := 60
  const MAX_PAST_SKEW := 600

  function UtcDayStart(now: int): int {
    now - now % DAY_SECONDS
  }

  datatype Scope = WalletScope(walletId: Id) | ScenarioScope(scenarioId: Id)

  predicate IntentInScope(scope: Scope, i: Identity) {
    match scope
    case WalletScope(w) => i.walletId == w
    case ScenarioScope(c) => i.scenarioId == c
  }

  predicate EntryInScope(scope: Scope, e: LedgerEntry) {
    match scope
    case WalletScope(w) => e.walletId == w
    case ScenarioScope(c) => e.scenarioId == Some(c)
  }

  /** What one intent row contributes to the outstanding reservations of a budget. */
  function ReservedPart(scope: Scope, direction: Direction, unit: BudgetUnit): (Id, Intent) -> nat {
    (id: Id, i: Intent) =>
      if IntentInScope(scope, i.identity) && i.identity.direction == direction
         && i.identity.asset.unit == unit && i.reservation.Reserved?
      then i.reservedAmount else 0
  }

  /** What one ledger row contributes to the flow confirmed since `since`. */
  function ConfirmedPart(
    scope: Scope, direction: Direction, unit: BudgetUnit, since: int): (LedgerId, LedgerEntry) -> nat
  {
    (id: LedgerId, e: LedgerEntry) =>
      if EntryInScope(scope, e) && e.direction == direction && e.asset.unit == unit && since <= e.effectiveAt
      then e.amount else 0
  }

  ghost function Usage(s: Store, scope: Scope, direction: Direction, unit: BudgetUnit, since: int): nat {
    Total(s.intents, ReservedPart(scope, direction, unit))
    + Total(s.ledger, ConfirmedPart(scope, direction, unit, since))
  }

  /** Enabled policies of more than one scenario use the wallet. */
  predicate SharedWallet(cfg: Config, walletId: Id) {
    exists p, q ::
      && p in cfg.policies && q in cfg.policies
      && cfg.policies[p].AllowsWallet(walletId) && cfg.policies[q].AllowsWallet(walletId)
      && cfg.policies[p].scenarioId != cfg.policies[q].scenarioId
  }

  /** Fail-closed checks of the snapshot: no fact beyond the accepted clock
      skew, and no consumed reservation without its ledger fact. */
  predicate LedgerWithinSkew(s: Store, i: Identity, now: int) {
    forall l :: l in s.ledger
      && (EntryInScope(ScenarioScope(i.scenarioId), s.ledger[l]) || EntryInScope(WalletScope(i.walletId), s.ledger[l]))
      && s.ledger[l].direction == i.direction && s.ledger[l].asset.unit == i.asset.unit
      ==> s.ledger[l].effectiveAt <= SaturatingAdd(now, MAX_FUTURE_SKEW)
  }

  predicate MatchesConsumed(e: LedgerEntry, i: Intent) {
    && e.intentId == Some(i.identity.id)
    && e.scenarioId == Some(i.identity.scenarioId)
    && e.walletId == i.identity.walletId
    && e.direction == i.identity.direction
    && e.asset.unit == i.identity.asset.unit
  }

  predicate ConsumedHaveLedger(s: Store, i: Identity) {
    forall id :: id in s.intents
      && (s.intents[id].identity.scenarioId == i.scenarioId || s.intents[id].identity.walletId == i.walletId)
      && s.intents[id].identity.direction == i.direction && s.intents[id].identity.asset.unit == i.asset.unit
      && s.intents[id].reservation.Consumed?
      ==> exists l :: l in s.ledger && MatchesConsumed(s.ledger[l], s.intents[id])
  }

  /** The guard of the reserving transaction, on the tables it has locked. */
  ghost predicate EnforceBudget(cfg: Config, s: Store, i: Identity, now: int, approved: bool) {
    && i.policyId in cfg.policies
    && i.walletId in cfg.wallets
    && var policy := cfg.policies[i.policyId];
    && var wallet := cfg.wallets[i.walletId];
    && var scenarioUsage := Usage(s, ScenarioScope(i.scenarioId), i.direction, i.asset.unit, UtcDayStart(now));
    && var walletUsage := Usage(s, WalletScope(i.walletId), i.direction, i.asset.unit, UtcDayStart(now));
    && policy.LimitsFor(i.direction).Some?
    && wallet.unit == i.asset.unit
    && 0 <= UtcDayStart(now)
    && LedgerWithinSkew(s, i, now)
    && ConsumedHaveLedger(s, i)
    && scenarioUsage <= U128_MAX
    && walletUsage <= U128_MAX
    && BudgetAllows(policy.LimitsFor(i.direction).value, i.amount, scenarioUsage,
                    WalletBudget(walletUsage, SharedWallet(cfg, i.walletId), wallet.maxPerPayment, wallet.maxPerDay),
                    approved)
  }
}
