/** Money over whole runs: what was reserved is either still reserved or posted,
    and no daily ceiling is ever passed. */
module Conservation {
  import opened Options
  import opened Domain
  import opened Sums
  import opened PaymentTables
  import opened Protocol
  import opened Steps
  import opened Runs

  // -------------------------------------------------- totals across one step

  ghost predicate ByHolding(weight: (Id, Intent) -> nat) {
    && (forall id, i, j :: Holding(i) == Holding(j) ==> weight(id, i) == weight(id, j))
    && (forall id, i :: Holding(i).None? ==> weight(id, i) == 0)
  }

  ghost predicate OutboundOnly(weight: (LedgerId, LedgerEntry) -> nat) {
    forall l, e: LedgerEntry :: e.direction.Inbound? ==> weight(l, e) == 0
  }

  lemma NeutralTotals(s: Store, t: Store, w: (Id, Intent) -> nat, v: (LedgerId, LedgerEntry) -> nat)
    requires Neutral(s, t) && ByHolding(w) && OutboundOnly(v)
    ensures Total(t.intents, w) == Total(s.intents, w) && Total(t.ledger, v) == Total(s.ledger, v)
  {
    TotalExtend(s.intents, t.intents, w);
    TotalExtend(s.ledger, t.ledger, v);
  }

  lemma GrantedTotals(cfg: Config, s: Store, t: Store, id: Id, now: int, approved: bool, w: (Id, Intent) -> nat)
    requires Granted(cfg, s, t, id, now, approved) && ByHolding(w)
    ensures Total(t.intents, w) == Total(s.intents, w) + w(id, t.intents[id])
  {
    if id in s.intents {
      TotalUpdate(s.intents, w, id, t.intents[id]);
    } else {
      TotalInsert(s.intents, w, id, t.intents[id]);
    }
  }

  lemma PostedTotals(s: Store, t: Store, id: Id, l: LedgerId, w: (Id, Intent) -> nat, v: (LedgerId, LedgerEntry) -> nat)
    requires Posted(s, t, id, l) && ByHolding(w)
    ensures Total(t.intents, w) + w(id, s.intents[id]) == Total(s.intents, w)
    ensures Total(t.ledger, v) == Total(s.ledger, v) + v(l, t.ledger[l])
  {
    TotalUpdate(s.intents, w, id, t.intents[id]);
    TotalInsert(s.ledger, v, l, t.ledger[l]);
  }

  // ------------------------------------------------------------ conservation

  function OutboundReserved(): (Id, Intent) -> nat {
    (id: Id, i: Intent) => if Holding(i).Some? then Holding(i).value.1 else 0
  }

  function OutboundPosted(): (LedgerId, LedgerEntry) -> nat {
    (l: LedgerId, e: LedgerEntry) => if e.direction.Outbound? then e.amount else 0
  }

  /** The intent an operation reserves for, if it is a reserving one. */
  function ReservesFor(op: Op): Option<Id> {
    match op
    case Authorize(_, _, selected, ids, _) => if selected.decision.Allowed? then Some(ids.intent) else None
    case Consume(_, _, _, intentId, _, _, _) => Some(intentId)
    case _ => None
  }

  /** What a step took out of the budgets: the whole amount of its intent, or
      nothing when the step wrote nothing. */
  function ReservedBy(s: Store, t: Store, op: Op): nat {
    var id := ReservesFor(op);
    if s != t && id.Some? && id.value in t.intents then t.intents[id.value].identity.amount else 0
  }

  function EverReserved(states: seq<Store>, ops: seq<Op>, n: nat): nat
    requires n <= |ops| < |states|
  {
    if n == 0 then 0 else EverReserved(states, ops, n - 1) + ReservedBy(states[n - 1], states[n], ops[n - 1])
  }

  ghost function Outstanding(s: Store): nat { Total(s.intents, OutboundReserved()) }

  ghost function PostedOutbound(s: Store): nat { Total(s.ledger, OutboundPosted()) }

  /** A step reserves for its intent, or posts a settlement, or moves no money. */
  lemma EffectKind(cfg: Config, s: Store, t: Store, op: Op) returns (l: Option<LedgerId>)
    requires Effect(cfg, s, t, op)
    ensures
      if ReservesFor(op).Some? then Granted(cfg, s, t, ReservesFor(op).value, op.now, op.Consume?)
      else if l.Some? then op.Reconcile? && Posted(s, t, op.intentId, l.value)
      else Neutral(s, t)
  {
    l := None;
    if op.Reconcile? && !Neutral(s, t) {
      var posted :| Posted(s, t, op.intentId, posted);
      l := Some(posted);
    }
  }

  lemma PostedConserves(s: Store, t: Store, id: Id, l: LedgerId)
    requires Posted(s, t, id, l)
    ensures Outstanding(t) + PostedOutbound(t) == Outstanding(s) + PostedOutbound(s)
  {
    PostedTotals(s, t, id, l, OutboundReserved(), OutboundPosted());
  }

  lemma NeutralConserves(s: Store, t: Store)
    requires Neutral(s, t)
    ensures Outstanding(t) + PostedOutbound(t) == Outstanding(s) + PostedOutbound(s)
  {
    NeutralTotals(s, t, OutboundReserved(), OutboundPosted());
  }

  lemma GrantedConserves(cfg: Config, s: Store, t: Store, id: Id, now: int, approved: bool)
    requires Granted(cfg, s, t, id, now, approved)
    ensures s != t && id in t.intents
    ensures Outstanding(t) + PostedOutbound(t) == Outstanding(s) + PostedOutbound(s) + t.intents[id].identity.amount
  {
    GrantedTotals(cfg, s, t, id, now, approved, OutboundReserved());
  }

  lemma ConservationStep(cfg: Config, s: Store, t: Store, op: Op)
    requires s == t || Effect(cfg, s, t, op)
    ensures Outstanding(t) + PostedOutbound(t) == Outstanding(s) + PostedOutbound(s) + ReservedBy(s, t, op)
  {
    if s != t {
      var l := EffectKind(cfg, s, t, op);
      if ReservesFor(op).Some? {
        GrantedConserves(cfg, s, t, ReservesFor(op).value, op.now, op.Consume?);
      } else if l.Some? {
        PostedConserves(s, t, op.intentId, l.value);
      } else {
        NeutralConserves(s, t);
      }
    }
  }

  /** Conservation: in every run, everything ever reserved for outbound payments
      is still reserved or has been posted. */
  lemma {:induction false} ReservedIsConserved(cfg: Config, states: seq<Store>, ops: seq<Op>, n: nat)
    requires Run(cfg, states, ops) && n <= |ops|
    ensures EverReserved(states, ops, n) == Outstanding(states[n]) + PostedOutbound(states[n])
  {
    if n > 0 {
      ReservedIsConserved(cfg, states, ops, n - 1);
      RunStepEffect(cfg, states, ops, n - 1);
      ConservationStep(cfg, states[n - 1], states[n], ops[n - 1]);
    }
  }

  // ---------------------------------------------------------------- ceilings

  /** No reservation has been made for a day after the one that starts at `day`. */
  predicate ReservedUpTo(ops: seq<Op>, n: nat, day: int)
    requires n <= |ops|
  {
    forall k :: 0 <= k < n && ReservesFor(ops[k]).Some? ==> UtcDayStart(ops[k].now) <= day
  }

  lemma UsageAntitone(s: Store, scope: Scope, unit: BudgetUnit, early: int, late: int)
    requires early <= late
    ensures Usage(s, scope, Outbound, unit, late) <= Usage(s, scope, Outbound, unit, early)
  {
    TotalPointwise(s.ledger, ConfirmedPart(scope, Outbound, unit, late), ConfirmedPart(scope, Outbound, unit, early));
  }

  lemma PostedUsage(s: Store, t: Store, id: Id, l: LedgerId, scope: Scope, unit: BudgetUnit, day: int)
    requires Posted(s, t, id, l)
    ensures Usage(t, scope, Outbound, unit, day) <= Usage(s, scope, Outbound, unit, day)
  {
    PostedTotals(s, t, id, l, ReservedPart(scope, Outbound, unit), ConfirmedPart(scope, Outbound, unit, day));
  }

  predicate Charges(scope: Scope, unit: BudgetUnit, i: Identity) {
    IntentInScope(scope, i) && i.asset.unit == unit
  }

  lemma GrantedUsage(
    cfg: Config, s: Store, t: Store, id: Id, now: int, approved: bool, scope: Scope, unit: BudgetUnit, day: int)
    requires Granted(cfg, s, t, id, now, approved)
    ensures
      var i := t.intents[id].identity;
      Usage(t, scope, Outbound, unit, day) ==
        Usage(s, scope, Outbound, unit, day) + if Charges(scope, unit, i) then i.amount else 0
  {
    GrantedTotals(cfg, s, t, id, now, approved, ReservedPart(scope, Outbound, unit));
  }

  lemma NeutralUsage(s: Store, t: Store, scope: Scope, unit: BudgetUnit, day: int)
    requires Neutral(s, t)
    ensures Usage(t, scope, Outbound, unit, day) == Usage(s, scope, Outbound, unit, day)
  {
    NeutralTotals(s, t, ReservedPart(scope, Outbound, unit), ConfirmedPart(scope, Outbound, unit, day));
  }

  /** Only a grant in the same scope and unit can raise a usage; a posting can
      only lower it, when its effect predates the day. */
  lemma UsageStep(cfg: Config, s: Store, t: Store, op: Op, scope: Scope, unit: BudgetUnit, day: int)
    requires s == t || Effect(cfg, s, t, op)
    ensures
      var before, after := Usage(s, scope, Outbound, unit, day), Usage(t, scope, Outbound, unit, day);
      || after <= before
      || (&& ReservesFor(op).Some? && Granted(cfg, s, t, ReservesFor(op).value, op.now, op.Consume?)
          && var i := t.intents[ReservesFor(op).value].identity;
          && Charges(scope, unit, i) && after == before + i.amount)
  {
    if s != t {
      var l := EffectKind(cfg, s, t, op);
      if ReservesFor(op).Some? {
        GrantedUsage(cfg, s, t, ReservesFor(op).value, op.now, op.Consume?, scope, unit, day);
      } else if l.Some? {
        PostedUsage(s, t, op.intentId, l.value, scope, unit, day);
      } else {
        NeutralUsage(s, t, scope, unit, day);
      }
    }
  }

  lemma WalletCeilingStep(cfg: Config, s: Store, t: Store, op: Op, wallet: Id, day: int)
    requires s == t || Effect(cfg, s, t, op)
    requires ReservesFor(op).Some? ==> UtcDayStart(op.now) <= day
    requires wallet in cfg.wallets && cfg.wallets[wallet].maxPerDay.Some?
    requires Usage(s, WalletScope(wallet), Outbound, cfg.wallets[wallet].unit, day) <=
      cfg.wallets[wallet].maxPerDay.value
    ensures Usage(t, WalletScope(wallet), Outbound, cfg.wallets[wallet].unit, day) <=
      cfg.wallets[wallet].maxPerDay.value
  {
    var scope, unit := WalletScope(wallet), cfg.wallets[wallet].unit;
    UsageStep(cfg, s, t, op, scope, unit, day);
    if Usage(t, scope, Outbound, unit, day) > Usage(s, scope, Outbound, unit, day) {
      UsageAntitone(s, scope, unit, UtcDayStart(op.now), day);
    }
  }

  lemma EmptyUsage(scope: Scope, unit: BudgetUnit, day: int)
    ensures Usage(EmptyStore, scope, Outbound, unit, day) == 0
  {
  }

  /** Outstanding reservations plus flow confirmed since the day began never
      exceed the wallet's daily limit. */
  lemma {:induction false} WalletCeiling(cfg: Config, states: seq<Store>, ops: seq<Op>, n: nat, wallet: Id, day: int)
    requires Run(cfg, states, ops) && n <= |ops| && ReservedUpTo(ops, n, day)
    requires wallet in cfg.wallets && cfg.wallets[wallet].maxPerDay.Some?
    ensures Usage(states[n], WalletScope(wallet), Outbound, cfg.wallets[wallet].unit, day) <=
      cfg.wallets[wallet].maxPerDay.value
  {
    if n == 0 {
      EmptyUsage(WalletScope(wallet), cfg.wallets[wallet].unit, day);
    } else {
      WalletCeiling(cfg, states, ops, n - 1, wallet, day);
      RunStepEffect(cfg, states, ops, n - 1);
      WalletCeilingStep(cfg, states[n - 1], states[n], ops[n - 1], wallet, day);
    }
  }

  /** The most a policy admits in one day: its automatic budget and its overage. */
  function HardCeiling(l: Limits): nat {
    l.maxPerDay + if l.approvalOverage.Some? then l.approvalOverage.value else 0
  }

  /** No policy of the scenario and unit has a hard daily limit above `limit`. */
  predicate ScenarioLimit(cfg: Config, scenario: Id, unit: BudgetUnit, limit: nat) {
    forall p :: p in cfg.policies && cfg.policies[p].scenarioId == scenario && cfg.policies[p].unit == unit
                && cfg.policies[p].outboundLimits.Some?
      ==> HardCeiling(cfg.policies[p].outboundLimits.value) <= limit
  }

  lemma ScenarioCeilingStep(
    cfg: Config, s: Store, t: Store, op: Op, scenario: Id, unit: BudgetUnit, limit: nat, day: int)
    requires s == t || Effect(cfg, s, t, op)
    requires ReservesFor(op).Some? ==> UtcDayStart(op.now) <= day
    requires ScenarioLimit(cfg, scenario, unit, limit)
    requires Usage(s, ScenarioScope(scenario), Outbound, unit, day) <= limit
    ensures Usage(t, ScenarioScope(scenario), Outbound, unit, day) <= limit
  {
    var scope := ScenarioScope(scenario);
    UsageStep(cfg, s, t, op, scope, unit, day);
    if Usage(t, scope, Outbound, unit, day) > Usage(s, scope, Outbound, unit, day) {
      UsageAntitone(s, scope, unit, UtcDayStart(op.now), day);
    }
  }

  /** The same for a scenario, against the largest hard daily limit among its
      policies of that unit. */
  lemma {:induction false} ScenarioCeiling(cfg: Config, states: seq<Store>, ops: seq<Op>, n: nat,
                                           scenario: Id, unit: BudgetUnit, limit: nat, day: int)
    requires Run(cfg, states, ops) && n <= |ops| && ReservedUpTo(ops, n, day)
    requires ScenarioLimit(cfg, scenario, unit, limit)
    ensures Usage(states[n], ScenarioScope(scenario), Outbound, unit, day) <= limit
  {
    if n == 0 {
      EmptyUsage(ScenarioScope(scenario), unit, day);
    } else {
      ScenarioCeiling(cfg, states, ops, n - 1, scenario, unit, limit, day);
      RunStepEffect(cfg, states, ops, n - 1);
      ScenarioCeilingStep(cfg, states[n - 1], states[n], ops[n - 1], scenario, unit, limit, day);
    }
  }
}
