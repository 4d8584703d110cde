/** Deterministic policy evaluation, and the budget guard that the reserving
    transaction repeats under its locks. */
module PolicyEngine {
  import opened Options
  import opened Domain

  datatype Challenge = Challenge(
    scenarioId: Id, resource: string, protocol: string, asset: Asset, amount: Amount,
    recipient: string, challengeHash: string, expiresAt: int)

  /** Usage is outstanding reservations plus the confirmed flow of the day. */
  datatype WalletBudget = WalletBudget(
    usage: Amount, shared: bool, maxPerPayment: Option<Amount>, maxPerDay: Option<Amount>)

  datatype Decision = Allowed | RequiresApproval | Denied(reason: string)

  datatype Evaluation = Decided(decision: Decision) | InvalidPolicy

  predicate ScopeMatches(policy: Policy, challenge: Challenge, walletId: Id, origin: string) {
    && policy.AllowsWallet(walletId)
    && policy.scenarioId == challenge.scenarioId
    && policy.AllowsProtocol(challenge.protocol)
    && policy.AllowsAsset(challenge.asset)
    && policy.AllowsRecipient(challenge.recipient)
    && policy.AllowsOrigin(origin)
  }

  /** True when adding `requested` to `current` overflows or passes `limit`. */
  predicate Exceeds(current: Amount, requested: Amount, limit: Amount) {
    var total := CheckedAdd(current, requested);
    total.None? || total.value > limit
  }

  function Evaluate(policy: Policy, direction: Direction, challenge: Challenge, walletId: Id, origin: string,
                    scenarioUsage: Amount, wallet: WalletBudget, now: int): Evaluation
  {
    if !policy.Valid() then InvalidPolicy
    else if challenge.expiresAt <= now then Decided(Denied("challenge expired"))
    else if policy.LimitsFor(direction).None? then
      Decided(Denied("policy does not authorize this payment direction"))
    else if !ScopeMatches(policy, challenge, walletId, origin) then
      Decided(Denied("policy scope does not match the payment"))
    else
      var limits := policy.LimitsFor(direction).value;
      if challenge.amount > limits.maxPerPayment then Decided(Denied("per-payment policy limit exceeded"))
      else
        var scenarioAfter := CheckedAdd(scenarioUsage, challenge.amount);
        var hardLimit := limits.HardDailyLimit();
        if hardLimit.None? then InvalidPolicy
        else if scenarioAfter.None? || scenarioAfter.value > hardLimit.value then
          Decided(Denied("daily scenario hard ceiling exceeded"))
        else if wallet.shared && (wallet.maxPerPayment.None? || wallet.maxPerDay.None?) then
          Decided(Denied("shared-wallet hard limits are required"))
        else if (wallet.maxPerPayment.Some? && challenge.amount > wallet.maxPerPayment.value)
             || (wallet.maxPerDay.Some? && Exceeds(wallet.usage, challenge.amount, wallet.maxPerDay.value)) then
          Decided(Denied("shared-wallet hard limit exceeded"))
        else
          var exceedsAutomatic := scenarioAfter.value > limits.maxPerDay;
          if exceedsAutomatic && !limits.approvalEnabled then Decided(Denied("daily scenario budget exceeded"))
          else if exceedsAutomatic || limits.RequiresApproval(challenge.amount) then Decided(RequiresApproval)
          else Decided(Allowed)
  }

  /** The guard inside the reserving transaction; an approved payment may use
      the policy's overage, an automatic one may not. */
  predicate BudgetAllows(limits: Limits, amount: Amount, scenarioUsage: Amount, wallet: WalletBudget, approved: bool) {
    var policyLimit := if approved then limits.HardDailyLimit() else Some(limits.maxPerDay);
    && amount <= limits.maxPerPayment
    && policyLimit.Some?
    && !Exceeds(scenarioUsage, amount, policyLimit.value)
    && (if wallet.maxPerPayment.Some? then amount <= wallet.maxPerPayment.value else !wallet.shared)
    && (if wallet.maxPerDay.Some? then !Exceeds(wallet.usage, amount, wallet.maxPerDay.value) else !wallet.shared)
  }

  /** What the evaluator answers before the transaction is what the guard
      enforces inside it: an automatic payment is allowed exactly when the guard
      would reserve it, and a payment goes to approval exactly when only the
      approved guard would, or when its amount reaches the threshold. */
  lemma EvaluateAgreesWithGuard(policy: Policy, direction: Direction, challenge: Challenge, walletId: Id,
                                origin: string, scenarioUsage: Amount, wallet: WalletBudget, now: int)
    requires policy.Valid()
    ensures
      var result := Evaluate(policy, direction, challenge, walletId, origin, scenarioUsage, wallet, now);
      var inScope :=
        && now < challenge.expiresAt
        && policy.LimitsFor(direction).Some?
        && ScopeMatches(policy, challenge, walletId, origin);
      && result.Decided?
      && (!inScope ==> result.decision.Denied?)
      && (inScope ==>
            var limits := policy.LimitsFor(direction).value;
            var automatic := BudgetAllows(limits, challenge.amount, scenarioUsage, wallet, false);
            var approved := BudgetAllows(limits, challenge.amount, scenarioUsage, wallet, true);
            var threshold := limits.RequiresApproval(challenge.amount);
            && (result.decision.Allowed? <==> automatic && !threshold)
            && (result.decision.RequiresApproval? <==>
                  approved && limits.approvalEnabled && (threshold || !automatic)))
  {
  }
}
