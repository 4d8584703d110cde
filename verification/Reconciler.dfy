/** One pass of the reconciliation worker over the intents it has claimed. The
    tables may change under the worker at any time, so each claim finds whatever
    tables the other workers have left. */
module Reconciler {
  import opened Domain
  import opened Options
  import opened PaymentTables
  import Protocol
  import opened Transactions
  import opened Workers

  datatype Outcome = SettledOutcome | VerifiedOutcome | ExpiredOutcome | PendingOutcome | UnknownOutcome
                   | UnavailableOutcome | ProviderErrorOutcome | SkippedOutcome

  /** How the worker gives an intent up: a committed transition, or a lease
      released until a later attempt. */
  datatype Ending = ByCommit | ByRelease(nextAttemptAt: int)

  datatype Turn = Finished(outcome: Outcome, store: Store, ending: Ending) | Aborted

  predicate ConfigValid(cfg: Config) {
    0 < cfg.initialBackoff <= cfg.maxBackoff <= I64_MAX
  }

  function Reschedule(cfg: Config, owner: string, s: Store, i: Intent, now: int, outcome: Outcome): Turn {
    var at := now + NextBackoff(cfg, i);
    if at > I64_MAX then Aborted
    else
      var tx := ReleaseLease(s, i.identity.id, owner, at);
      if tx.Committed? then Finished(outcome, tx.store, ByRelease(at)) else Aborted
  }

  function Commit(tx: Tx, outcome: Outcome): Turn {
    if tx.Committed? then Finished(outcome, tx.store, ByCommit) else Aborted
  }

  /** Expiry first, then whatever the evidence says. Evidence that does not fit
      the intent is not trusted: the settlement stays unknown. */
  function ReconcileIntent(
    cfg: Config, owner: string, s: Store, i: Intent, evidence: Evidence, attempt: nat, now: int): Turn
  {
    if i.status.Created? && i.identity.expiresAt.Some? && i.identity.expiresAt.value <= now then
      var w := BuildExpiredChallenge(i, attempt, now);
      if w.None? then Aborted else Commit(CommitProgress(s, w.value), ExpiredOutcome)
    else if !i.NeedsReconciliation() then Reschedule(cfg, owner, s, i, now, SkippedOutcome)
    else match evidence
      case Confirmed(settlement) =>
        var w := BuildConfirmed(i, settlement, attempt, now);
        if w.None? then Reschedule(cfg, owner, s, i, now, UnknownOutcome)
        else Commit(CommitSettlement(s, w.value), SettledOutcome)
      case Verified(reference) =>
        var w := BuildVerified(cfg, i, reference, attempt, now);
        if w.None? then Aborted else Commit(CommitProgress(s, w.value), VerifiedOutcome)
      case AuthorizationExpired =>
        var w := BuildExpiredSettlement(i, attempt, now);
        if w.None? then Aborted else Commit(CommitProgress(s, w.value), ExpiredOutcome)
      case StillPending => Reschedule(cfg, owner, s, i, now, PendingOutcome)
      case Inconclusive => Reschedule(cfg, owner, s, i, now, UnknownOutcome)
      case Unavailable => Reschedule(cfg, owner, s, i, now, UnavailableOutcome)
      case LookupFailed => Reschedule(cfg, owner, s, i, now, ProviderErrorOutcome)
  }

  // ---------------------------------------------------------------- backoff

  /** A delay is never below the initial one nor above the maximum. */
  lemma BackoffInRange(cfg: Config, i: Intent)
    requires ConfigValid(cfg)
    ensures cfg.initialBackoff <= NextBackoff(cfg, i) <= cfg.maxBackoff
  {
  }

  /** After a release at `now + d` the next delay has doubled, up to the
      maximum, exactly when the row's version is not ahead of the worker's
      clock, or the two configured delays are one, or the version is so little
      ahead that twice what is left of the delay still reaches the maximum. */
  lemma BackoffDoubles(cfg: Config, i: Intent, now: int, d: int)
    requires ConfigValid(cfg) && cfg.initialBackoff <= d <= cfg.maxBackoff
    requires i.nextReconcileAt == Some(now + d)
    ensures Min(2 * d, cfg.maxBackoff) <= NextBackoff(cfg, i) <==>
      || i.updatedAt <= now
      || cfg.initialBackoff == cfg.maxBackoff
      || (&& cfg.initialBackoff <= now + d - i.updatedAt
          && cfg.maxBackoff <= 2 * (now + d - i.updatedAt))
  {
  }

  /** A row written by a worker whose clock is one millisecond ahead: the delay
      stays at 2 where doubling would make it 4. */
  lemma VersionAheadResetsBackoff(cfg: Config, i: Intent, now: int)
    requires cfg.initialBackoff == 2 && cfg.maxBackoff == 100
    requires i.updatedAt == now + 1 && i.nextReconcileAt == Some(now + 2)
    ensures NextBackoff(cfg, i) == 2 < Min(2 * 2, cfg.maxBackoff)
  {
  }

  // ------------------------------------------------------- how a claim ends

  /** The lease is gone, the schedule is set, and nothing else has changed. */
  predicate Released(s: Store, t: Store, id: Id, at: int) {
    && id in s.intents && id !in t.leases
    && t == s.(intents := s.intents[id := s.intents[id].(nextReconcileAt := Some(at))], leases := s.leases - {id})
  }

  /** The intent has a new version: final, or verified and waiting to settle.
      The lease columns stay as they are until they run out. */
  predicate Moved(s: Store, t: Store, id: Id) {
    && id in s.intents && id in t.intents && t.leases == s.leases
    && s.intents[id].updatedAt < t.intents[id].updatedAt
    && (t.intents[id].IsFinal() || t.intents[id].status.PendingSettlement?)
  }

  lemma RescheduleEnds(cfg: Config, owner: string, s: Store, i: Intent, now: int, outcome: Outcome)
    requires ConfigValid(cfg) && (i.identity.id in s.intents ==> s.intents[i.identity.id].identity.id == i.identity.id)
    ensures
      var turn := Reschedule(cfg, owner, s, i, now, outcome);
      turn.Finished? ==>
        && turn.outcome == outcome && turn.ending.ByRelease?
        && cfg.initialBackoff <= turn.ending.nextAttemptAt - now <= cfg.maxBackoff
        && Released(s, turn.store, i.identity.id, turn.ending.nextAttemptAt)
        && ReleaseLease(s, i.identity.id, owner, turn.ending.nextAttemptAt) == Committed(turn.store)
  {
    BackoffInRange(cfg, i);
  }

  lemma ProgressMoves(s: Store, t: Store, w: ProgressWrite)
    requires CommitProgress(s, w) == Committed(t) && (w.intent.IsFinal() || w.intent.status.PendingSettlement?)
    ensures Moved(s, t, w.intent.identity.id)
  {
  }

  lemma SettlementMoves(s: Store, t: Store, w: SettlementWrite)
    requires CommitSettlement(s, w) == Committed(t) && w.intent.status.Settled?
    ensures Moved(s, t, w.intent.identity.id)
  {
  }

  lemma CommitEnds(cfg: Config, owner: string, s: Store, i: Intent, evidence: Evidence, attempt: nat, now: int)
    requires
      var turn := ReconcileIntent(cfg, owner, s, i, evidence, attempt, now);
      turn.Finished? && turn.ending.ByCommit?
    ensures
      var turn := ReconcileIntent(cfg, owner, s, i, evidence, attempt, now);
      && Moved(s, turn.store, i.identity.id)
      && (turn.outcome.SettledOutcome? || turn.outcome.VerifiedOutcome? || turn.outcome.ExpiredOutcome?)
      && Protocol.ReconcileTx(cfg, s, i, evidence, attempt, now) == Committed(turn.store)
  {
    var turn := ReconcileIntent(cfg, owner, s, i, evidence, attempt, now);
    if i.status.Created? && i.identity.expiresAt.Some? && i.identity.expiresAt.value <= now {
      ProgressMoves(s, turn.store, BuildExpiredChallenge(i, attempt, now).value);
    } else {
      match evidence
      case Confirmed(settlement) => SettlementMoves(s, turn.store, BuildConfirmed(i, settlement, attempt, now).value);
      case Verified(reference) => ProgressMoves(s, turn.store, BuildVerified(cfg, i, reference, attempt, now).value);
      case AuthorizationExpired => ProgressMoves(s, turn.store, BuildExpiredSettlement(i, attempt, now).value);
    }
  }

  lemma ReleaseTurn(cfg: Config, owner: string, s: Store, i: Intent, evidence: Evidence, attempt: nat, now: int)
    requires
      var turn := ReconcileIntent(cfg, owner, s, i, evidence, attempt, now);
      turn.Finished? && turn.ending.ByRelease?
    ensures
      var turn := ReconcileIntent(cfg, owner, s, i, evidence, attempt, now);
      && turn == Reschedule(cfg, owner, s, i, now, turn.outcome)
      && !(turn.outcome.SettledOutcome? || turn.outcome.VerifiedOutcome? || turn.outcome.ExpiredOutcome?)
  {
  }

  /** A turn that finishes ends the claim one way: by a commit that moves the
      intent, or by a release after a delay within bounds. Which way it ends
      follows from the outcome it is counted under. */
  lemma TurnEnds(cfg: Config, owner: string, s: Store, i: Intent, evidence: Evidence, attempt: nat, now: int)
    requires ConfigValid(cfg) && (i.identity.id in s.intents ==> s.intents[i.identity.id].identity.id == i.identity.id)
    requires ReconcileIntent(cfg, owner, s, i, evidence, attempt, now).Finished?
    ensures
      var turn := ReconcileIntent(cfg, owner, s, i, evidence, attempt, now);
      match turn.ending
      case ByCommit =>
        && Moved(s, turn.store, i.identity.id)
        && (turn.outcome.SettledOutcome? || turn.outcome.VerifiedOutcome? || turn.outcome.ExpiredOutcome?)
        && Protocol.ReconcileTx(cfg, s, i, evidence, attempt, now) == Committed(turn.store)
      case ByRelease(at) =>
        && Released(s, turn.store, i.identity.id, at)
        && cfg.initialBackoff <= at - now <= cfg.maxBackoff
        && !(turn.outcome.SettledOutcome? || turn.outcome.VerifiedOutcome? || turn.outcome.ExpiredOutcome?)
        && ReleaseLease(s, i.identity.id, owner, at) == Committed(turn.store)
  {
    var turn := ReconcileIntent(cfg, owner, s, i, evidence, attempt, now);
    if turn.ending.ByCommit? {
      CommitEnds(cfg, owner, s, i, evidence, attempt, now);
    } else {
      ReleaseTurn(cfg, owner, s, i, evidence, attempt, now);
      RescheduleEnds(cfg, owner, s, i, now, turn.outcome);
    }
  }

  /** A release followed by an unchanged row: the next delay is at least double. */
  lemma NextTurnBacksOff(cfg: Config, owner: string, s: Store, i: Intent, evidence: Evidence, attempt: nat, now: int)
    requires ConfigValid(cfg) && i.identity.id in s.intents && s.intents[i.identity.id].identity.id == i.identity.id
    requires s.intents[i.identity.id].updatedAt <= now
    requires
      var turn := ReconcileIntent(cfg, owner, s, i, evidence, attempt, now);
      turn.Finished? && turn.ending.ByRelease?
    ensures
      var turn := ReconcileIntent(cfg, owner, s, i, evidence, attempt, now);
      i.identity.id in turn.store.intents &&
      Min(2 * (turn.ending.nextAttemptAt - now), cfg.maxBackoff) <= NextBackoff(cfg, turn.store.intents[i.identity.id])
  {
    TurnEnds(cfg, owner, s, i, evidence, attempt, now);
    var turn := ReconcileIntent(cfg, owner, s, i, evidence, attempt, now);
    BackoffDoubles(cfg, turn.store.intents[i.identity.id], now, turn.ending.nextAttemptAt - now);
  }

  // --------------------------------------------------------------- the pass

  const MAX_BATCH_SIZE := 1000
  const U32_MAX := 0xFFFF_FFFF

  function Saturating(n: nat): nat { if n < U32_MAX then n + 1 else n }

  datatype Claimed = Claimed(intent: Intent, attempt: nat)

  /** What the worker meets when it turns to a claim: the time, the tables at the
      renewal of its lease, the evidence it finds, the tables at its commit. */
  datatype Encounter = Encounter(now: int, atRenewal: Store, evidence: Evidence, atCommit: Store)

  function TurnOf(cfg: Config, owner: string, lease: nat, c: Claimed, e: Encounter): Turn {
    if e.now + lease > I64_MAX then Aborted
    else if !RenewLease(e.atRenewal, c.intent.identity.id, owner, e.now + lease).Committed? then Aborted
    else ReconcileIntent(cfg, owner, e.atCommit, c.intent, e.evidence, c.attempt, e.now)
  }

  /** Every claim whose turn finishes ends one way, whatever tables the worker met. */
  lemma ClaimEnds(cfg: Config, owner: string, lease: nat, c: Claimed, e: Encounter)
    requires ConfigValid(cfg) && TurnOf(cfg, owner, lease, c, e).Finished?
    requires c.intent.identity.id in e.atCommit.intents ==>
      e.atCommit.intents[c.intent.identity.id].identity.id == c.intent.identity.id
    ensures
      var turn := TurnOf(cfg, owner, lease, c, e);
      match turn.ending
      case ByCommit => Moved(e.atCommit, turn.store, c.intent.identity.id)
      case ByRelease(at) =>
        Released(e.atCommit, turn.store, c.intent.identity.id, at) && cfg.initialBackoff <= at - e.now <= cfg.maxBackoff
  {
    TurnEnds(cfg, owner, e.atCommit, c.intent, e.evidence, c.attempt, e.now);
  }

  /** The summary of a pass. */
  datatype Summary = Summary(
    claimed: nat, settled: nat, verified: nat, expired: nat, pending: nat, unknown: nat,
    unavailable: nat, providerErrors: nat, skipped: nat)
  {
    function Counted(): nat {
      settled + verified + expired + pending + unknown + unavailable + providerErrors + skipped
    }

    function For(outcome: Outcome): nat {
      match outcome
      case SettledOutcome => settled
      case VerifiedOutcome => verified
      case ExpiredOutcome => expired
      case PendingOutcome => pending
      case UnknownOutcome => unknown
      case UnavailableOutcome => unavailable
      case ProviderErrorOutcome => providerErrors
      case SkippedOutcome => skipped
    }

    function Bump(outcome: Outcome): Summary {
      match outcome
      case SettledOutcome => this.(settled := Saturating(settled))
      case VerifiedOutcome => this.(verified := Saturating(verified))
      case ExpiredOutcome => this.(expired := Saturating(expired))
      case PendingOutcome => this.(pending := Saturating(pending))
      case UnknownOutcome => this.(unknown := Saturating(unknown))
      case UnavailableOutcome => this.(unavailable := Saturating(unavailable))
      case ProviderErrorOutcome => this.(providerErrors := Saturating(providerErrors))
      case SkippedOutcome => this.(skipped := Saturating(skipped))
    }
  }

  function Summarize(claimed: nat, turns: seq<Turn>): Summary {
    if turns == [] then Summary(claimed, 0, 0, 0, 0, 0, 0, 0, 0)
    else
      var last := turns[|turns| - 1];
      var earlier := Summarize(claimed, turns[..|turns| - 1]);
      if last.Finished? then earlier.Bump(last.outcome) else earlier
  }

  function CountOf(turns: seq<Turn>, outcome: Outcome): nat {
    if turns == [] then 0
    else
      var last := turns[|turns| - 1];
      CountOf(turns[..|turns| - 1], outcome) + if last.Finished? && last.outcome == outcome then 1 else 0
  }

  lemma BumpCounts(s: Summary, o: Outcome, p: Outcome)
    requires s.Counted() < U32_MAX
    ensures s.Bump(o).claimed == s.claimed && s.Bump(o).Counted() == s.Counted() + 1
    ensures s.Bump(o).For(p) == s.For(p) + if o == p then 1 else 0
  {
  }

  /** Every finished turn is counted under its outcome and under no other, so
      the counts add up to the number of claims. */
  lemma {:induction false} EachTurnCountedOnce(claimed: nat, turns: seq<Turn>, outcome: Outcome)
    requires |turns| <= MAX_BATCH_SIZE && forall n :: 0 <= n < |turns| ==> turns[n].Finished?
    ensures Summarize(claimed, turns).claimed == claimed
    ensures Summarize(claimed, turns).Counted() == |turns|
    ensures Summarize(claimed, turns).For(outcome) == CountOf(turns, outcome) <= |turns|
  {
    if turns != [] {
      var last := |turns| - 1;
      EachTurnCountedOnce(claimed, turns[..last], outcome);
      BumpCounts(Summarize(claimed, turns[..last]), turns[last].outcome, outcome);
    }
  }

  class PaymentReconciler {
    var run: Summary
    const cfg: Config
    const owner: string
    const lease: nat

    constructor (cfg: Config, owner: string, lease: nat)
      requires ConfigValid(cfg)
      ensures this.cfg == cfg && this.owner == owner && this.lease == lease && run == Summarize(0, [])
    {
      this.cfg, this.owner, this.lease := cfg, owner, lease;
      run := Summary(0, 0, 0, 0, 0, 0, 0, 0, 0);
    }

    /** A pass takes the claims in order. It succeeds when every turn finishes,
        and otherwise stops at the first turn that fails. */
    method RunOnce(claims: seq<Claimed>, encounters: seq<Encounter>) returns (ok: bool, turns: seq<Turn>)
      requires |claims| <= MAX_BATCH_SIZE && |encounters| == |claims|
      modifies this
      ensures |turns| <= |claims| && run == Summarize(|claims|, turns)
      ensures forall n :: 0 <= n < |turns| ==>
        turns[n].Finished? && turns[n] == TurnOf(cfg, owner, lease, claims[n], encounters[n])
      ensures if ok then |turns| == |claims| && run.Counted() == run.claimed == |claims|
              else |turns| < |claims| && TurnOf(cfg, owner, lease, claims[|turns|], encounters[|turns|]).Aborted?
    {
      run := Summary(|claims|, 0, 0, 0, 0, 0, 0, 0, 0);
      turns := [];
      for n := 0 to |claims|
        invariant n == |turns| && run == Summarize(|claims|, turns)
        invariant forall k :: 0 <= k < n ==>
          turns[k].Finished? && turns[k] == TurnOf(cfg, owner, lease, claims[k], encounters[k])
      {
        var turn := TurnOf(cfg, owner, lease, claims[n], encounters[n]);
        if turn.Aborted? {
          return false, turns;
        }
        run := run.Bump(turn.outcome);
        assert (turns + [turn])[..n] == turns;
        turns := turns + [turn];
      }
      EachTurnCountedOnce(|claims|, turns, SkippedOutcome);
      ok := true;
    }
  }
}
