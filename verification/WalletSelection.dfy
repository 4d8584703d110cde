/** Choosing one policy and wallet for an outbound payment: every eligible pair
    is evaluated, the candidates are ordered, the least one is taken. */
module WalletSelection {
  import opened Domain
  import Lex
  import opened Options
  import PolicyEngine

  datatype Strategy = LeastSpent | StableRandom

  datatype Candidate = Candidate(
    policyId: Id, walletId: Id, selectionKey: Lex.Bytes, spent: Amount, decision: PolicyEngine.Decision)

  function Rank(d: PolicyEngine.Decision): nat {
    match d
    case Allowed => 0
    case RequiresApproval => 1
    case Denied(_) => 2
  }

  function Codes(s: string): seq<int> {
    seq(|s|, i requires 0 <= i < |s| => s[i] as int)
  }

  lemma CodesInjective(s: string, t: string)
    requires Codes(s) == Codes(t)
    ensures s == t
  {
    assert |s| == |Codes(s)| == |t|;
    forall i | 0 <= i < |s| ensures s[i] == t[i] {
      assert Codes(s)[i] == Codes(t)[i];
    }
  }

  /** The fields that decide, most significant first, as one sequence of texts. */
  function SortKey(strategy: Strategy, c: Candidate): seq<seq<int>> {
    match strategy
    case LeastSpent => [[Rank(c.decision)], [c.spent], c.selectionKey, Codes(c.policyId), Codes(c.walletId)]
    case StableRandom => [[Rank(c.decision)], c.selectionKey, [c.spent], Codes(c.policyId), Codes(c.walletId)]
  }

  predicate KeyLess(a: seq<seq<int>>, b: seq<seq<int>>)
    requires |a| == |b|
  {
    a != [] && (Lex.Less(a[0], b[0]) || (a[0] == b[0] && KeyLess(a[1..], b[1..])))
  }

  predicate Precedes(strategy: Strategy, a: Candidate, b: Candidate) {
    KeyLess(SortKey(strategy, a), SortKey(strategy, b))
  }

  lemma {:induction false} KeyLessTotal(a: seq<seq<int>>, b: seq<seq<int>>)
    requires |a| == |b|
    ensures a == b || KeyLess(a, b) || KeyLess(b, a)
    ensures !(KeyLess(a, b) && KeyLess(b, a)) && !KeyLess(a, a)
  {
    if a != [] {
      Lex.Total(a[0], b[0]);
      Lex.Asymmetric(a[0], b[0]);
      Lex.Asymmetric(a[0], a[0]);
      KeyLessTotal(a[1..], b[1..]);
      KeyLessTotal(a[1..], a[1..]);
      assert a == [a[0]] + a[1..] && b == [b[0]] + b[1..];
    }
  }

  lemma {:induction false} KeyLessTransitive(a: seq<seq<int>>, b: seq<seq<int>>, c: seq<seq<int>>)
    requires |a| == |b| == |c| && KeyLess(a, b) && KeyLess(b, c)
    ensures KeyLess(a, c)
  {
    if Lex.Less(a[0], b[0]) && Lex.Less(b[0], c[0]) {
      Lex.Transitive(a[0], b[0], c[0]);
    } else if a[0] == b[0] == c[0] {
      KeyLessTransitive(a[1..], b[1..], c[1..]);
    }
  }

  lemma SameKeySameIds(strategy: Strategy, a: Candidate, b: Candidate)
    ensures SortKey(strategy, a) == SortKey(strategy, b) ==> a.policyId == b.policyId && a.walletId == b.walletId
  {
    var p, q := SortKey(strategy, a), SortKey(strategy, b);
    if p == q {
      assert p[3] == q[3] && p[4] == q[4];
      CodesInjective(a.policyId, b.policyId);
      CodesInjective(a.walletId, b.walletId);
    }
  }

  // ------------------------------------------------------------ the choice

  predicate IsLeast(strategy: Strategy, c: Candidate, cs: seq<Candidate>) {
    c in cs && forall d :: d in cs ==> !Precedes(strategy, d, c)
  }

  /** Candidates carry one result per policy and wallet. */
  predicate OnePerPair(cs: seq<Candidate>) {
    forall c, d :: c in cs && d in cs && c.policyId == d.policyId && c.walletId == d.walletId ==> c == d
  }

  /** The least candidate is unique, so the choice is a function of the set. */
  lemma LeastIsUnique(strategy: Strategy, a: Candidate, b: Candidate, cs: seq<Candidate>, ds: seq<Candidate>)
    requires IsLeast(strategy, a, cs) && IsLeast(strategy, b, ds)
    requires OnePerPair(cs) && forall c :: c in cs <==> c in ds
    ensures a == b
  {
    KeyLessTotal(SortKey(strategy, a), SortKey(strategy, b));
    SameKeySameIds(strategy, a, b);
  }

  lemma RankDecides(strategy: Strategy, a: Candidate, b: Candidate)
    ensures Rank(a.decision) < Rank(b.decision) ==> Precedes(strategy, a, b)
  {
    assert Rank(a.decision) < Rank(b.decision) ==> Lex.Less([Rank(a.decision)], [Rank(b.decision)]);
  }

  lemma SpentDecides(a: Candidate, b: Candidate)
    ensures Rank(a.decision) == Rank(b.decision) && a.spent < b.spent ==> Precedes(LeastSpent, a, b)
  {
    var p, q := SortKey(LeastSpent, a), SortKey(LeastSpent, b);
    assert a.spent < b.spent ==> Lex.Less([a.spent], [b.spent]);
    assert p[1..][0] == [a.spent] && q[1..][0] == [b.spent];
  }

  /** Rank comes first in both strategies: a denied pair is chosen only when
      there is nothing else. */
  lemma LeastHasBestRank(strategy: Strategy, c: Candidate, cs: seq<Candidate>)
    requires IsLeast(strategy, c, cs)
    ensures forall d :: d in cs ==> Rank(c.decision) <= Rank(d.decision)
    ensures c.decision.Denied? ==> forall d :: d in cs ==> d.decision.Denied?
  {
    forall d | d in cs ensures Rank(c.decision) <= Rank(d.decision) {
      RankDecides(strategy, d, c);
    }
  }

  /** Under least-spent, no candidate of the chosen rank has spent less. */
  lemma LeastHasSpentLeast(c: Candidate, cs: seq<Candidate>)
    requires IsLeast(LeastSpent, c, cs)
    ensures forall d :: d in cs && Rank(d.decision) == Rank(c.decision) ==> c.spent <= d.spent
  {
    forall d | d in cs && Rank(d.decision) == Rank(c.decision) ensures c.spent <= d.spent {
      SpentDecides(d, c);
    }
  }

  /** Stable insertion into a sorted vector of candidates. */
  function Insert(strategy: Strategy, c: Candidate, sorted: seq<Candidate>): seq<Candidate> {
    if sorted == [] || !Precedes(strategy, sorted[0], c) then [c] + sorted
    else [sorted[0]] + Insert(strategy, c, sorted[1..])
  }

  function SortBy(strategy: Strategy, cs: seq<Candidate>): seq<Candidate> {
    if cs == [] then [] else Insert(strategy, cs[0], SortBy(strategy, cs[1..]))
  }

  lemma {:induction false} InsertKeeps(strategy: Strategy, c: Candidate, sorted: seq<Candidate>)
    ensures forall x :: x in Insert(strategy, c, sorted) <==> x == c || x in sorted
  {
    if sorted != [] && Precedes(strategy, sorted[0], c) {
      InsertKeeps(strategy, c, sorted[1..]);
      assert sorted == [sorted[0]] + sorted[1..];
    }
  }

  /** The head of the sorted vector is the least candidate. */
  lemma {:induction false} HeadIsLeast(strategy: Strategy, cs: seq<Candidate>)
    ensures forall x :: x in SortBy(strategy, cs) <==> x in cs
    ensures cs != [] ==> SortBy(strategy, cs) != [] && IsLeast(strategy, SortBy(strategy, cs)[0], cs)
  {
    if cs != [] {
      var rest := SortBy(strategy, cs[1..]);
      HeadIsLeast(strategy, cs[1..]);
      InsertKeeps(strategy, cs[0], rest);
      assert cs == [cs[0]] + cs[1..];
      var head := SortBy(strategy, cs)[0];
      forall d | d in cs ensures !Precedes(strategy, d, head) {
        HeadBeats(strategy, cs[0], rest, cs[1..], d);
      }
    }
  }

  lemma HeadBeats(strategy: Strategy, c: Candidate, rest: seq<Candidate>, tail: seq<Candidate>, d: Candidate)
    requires d == c || d in tail
    requires tail != [] ==> rest != [] && IsLeast(strategy, rest[0], tail)
    requires tail == [] ==> rest == []
    ensures !Precedes(strategy, d, Insert(strategy, c, rest)[0])
  {
    KeyLessTotal(SortKey(strategy, c), SortKey(strategy, c));
    if rest != [] {
      var first := rest[0];
      KeyLessTotal(SortKey(strategy, c), SortKey(strategy, first));
      if !Precedes(strategy, first, c) && d in tail && Precedes(strategy, d, c) {
        if SortKey(strategy, c) != SortKey(strategy, first) {
          KeyLessTransitive(SortKey(strategy, d), SortKey(strategy, c), SortKey(strategy, first));
        }
      }
    }
  }

  // ------------------------------------------------------ all the candidates

  const MAX_WALLET_CANDIDATES := 4096

  datatype Snapshot = Snapshot(
    walletEnabled: bool, hasActiveKey: bool, networkSupported: bool,
    scenarioUsage: Amount, budget: PolicyEngine.WalletBudget)

  /** What the selection reads: the request, one budget snapshot per pair (or a
      failure to read it) and the digest of each pair. */
  datatype Context = Context(
    challenge: PolicyEngine.Challenge, origin: string, now: int, strategy: Strategy,
    snapshot: (Id, Id) -> Option<Snapshot>, selectionKey: (Id, Id) -> Lex.Bytes)

  predicate MustBeValid(p: Policy) { p.enabled && p.AllowsDirection(Outbound) }

  predicate Eligible(ctx: Context, p: Policy) {
    && p.enabled
    && p.AllowsDirection(Outbound)
    && p.AllowsProtocol(ctx.challenge.protocol)
    && p.AllowsAsset(ctx.challenge.asset)
    && p.AllowsRecipient(ctx.challenge.recipient)
    && p.AllowsOrigin(ctx.origin)
  }

  function DecisionFor(ctx: Context, p: Policy, wallet: Id, s: Snapshot): Option<PolicyEngine.Decision> {
    if !s.walletEnabled then Some(PolicyEngine.Denied("payment wallet is disabled"))
    else if !s.hasActiveKey then Some(PolicyEngine.Denied("payment wallet has no active local signing key"))
    else if !s.networkSupported then
      Some(PolicyEngine.Denied("payment wallet is incompatible with the payment network"))
    else
      var e := PolicyEngine.Evaluate(
        p, Outbound, ctx.challenge, wallet, ctx.origin, s.scenarioUsage, s.budget, ctx.now);
      if e.Decided? then Some(e.decision) else None
  }

  function CandidateFor(ctx: Context, p: Policy, wallet: Id): Option<Candidate> {
    var s := ctx.snapshot(p.id, wallet);
    if s.None? then None
    else
      var d := DecisionFor(ctx, p, wallet, s.value);
      if d.None? then None
      else Some(Candidate(p.id, wallet, ctx.selectionKey(p.id, wallet), s.value.budget.usage, d.value))
  }

  /** The candidates of one policy, or a failure. */
  function PairCandidates(ctx: Context, p: Policy, wallets: seq<Id>): Option<seq<Candidate>> {
    if wallets == [] then Some([])
    else
      var last := |wallets| - 1;
      var earlier := PairCandidates(ctx, p, wallets[..last]);
      var c := CandidateFor(ctx, p, wallets[last]);
      if earlier.None? || c.None? then None else Some(earlier.value + [c.value])
  }

  function PolicyCandidates(ctx: Context, p: Policy): Option<seq<Candidate>> {
    if MustBeValid(p) && !p.Valid() then None
    else if !Eligible(ctx, p) then Some([])
    else PairCandidates(ctx, p, p.walletIds)
  }

  function AllCandidates(ctx: Context, policies: seq<Policy>): Option<seq<Candidate>> {
    if policies == [] then Some([])
    else
      var last := |policies| - 1;
      var earlier := AllCandidates(ctx, policies[..last]);
      var cs := PolicyCandidates(ctx, policies[last]);
      if earlier.None? || cs.None? then None else Some(earlier.value + cs.value)
  }

  /** The selected pair, if the scenario's policies were all read, none failed,
      and there is at least one candidate and not too many. */
  function Select(ctx: Context, policies: seq<Policy>, total: nat): Option<Candidate> {
    var cs := AllCandidates(ctx, policies);
    if total != |policies| || cs.None? || cs.value == [] || |cs.value| > MAX_WALLET_CANDIDATES then None
    else
      HeadIsLeast(ctx.strategy, cs.value);
      Some(SortBy(ctx.strategy, cs.value)[0])
  }

  lemma {:induction false} PairsGrow(ctx: Context, p: Policy, wallets: seq<Id>, n: nat)
    requires n <= |wallets|
    ensures PairCandidates(ctx, p, wallets).Some? ==>
      PairCandidates(ctx, p, wallets[..n]).Some? && |PairCandidates(ctx, p, wallets).value| == |wallets|
    decreases |wallets|
  {
    if n < |wallets| {
      var last := |wallets| - 1;
      PairsGrow(ctx, p, wallets[..last], n);
      assert wallets[..last][..n] == wallets[..n];
    } else {
      assert wallets[..n] == wallets;
      if wallets != [] {
        PairsGrow(ctx, p, wallets[..|wallets| - 1], 0);
      }
    }
  }

  lemma {:induction false} CandidatesGrow(ctx: Context, policies: seq<Policy>, n: nat)
    requires n <= |policies|
    ensures AllCandidates(ctx, policies).Some? ==>
      && AllCandidates(ctx, policies[..n]).Some?
      && |AllCandidates(ctx, policies[..n]).value| <= |AllCandidates(ctx, policies).value|
    decreases |policies|
  {
    if n < |policies| {
      var last := |policies| - 1;
      CandidatesGrow(ctx, policies[..last], n);
      assert policies[..last][..n] == policies[..n];
    } else {
      assert policies[..n] == policies;
    }
  }

  lemma StepCandidates(ctx: Context, policies: seq<Policy>, n: nat)
    requires n < |policies|
    ensures
      var (before, here) := (AllCandidates(ctx, policies[..n]), PolicyCandidates(ctx, policies[n]));
      && AllCandidates(ctx, policies[..n + 1]) ==
           (if before.None? || here.None? then None else Some(before.value + here.value))
      && (AllCandidates(ctx, policies).Some? ==>
            before.Some? && here.Some? && |before.value| + |here.value| <= |AllCandidates(ctx, policies).value|)
  {
    assert policies[..n + 1][..n] == policies[..n];
    CandidatesGrow(ctx, policies, n + 1);
  }

  /** The two nested loops, with every early exit. */
  method PolicyDecision(ctx: Context, policies: seq<Policy>, total: nat) returns (r: Option<Candidate>)
    ensures r == Select(ctx, policies, total)
  {
    if total != |policies| {
      return None;
    }
    var candidates: seq<Candidate> := [];
    for i := 0 to |policies|
      invariant AllCandidates(ctx, policies[..i]) == Some(candidates) && |candidates| <= MAX_WALLET_CANDIDATES
    {
      var p := policies[i];
      StepCandidates(ctx, policies, i);
      if MustBeValid(p) && !p.Valid() {
        return None;
      }
      if Eligible(ctx, p) {
        var more := CollectPairs(ctx, p, MAX_WALLET_CANDIDATES - |candidates|);
        if more.None? {
          return None;
        }
        candidates := candidates + more.value;
      } else {
        assert candidates + [] == candidates;
      }
    }
    assert policies[..|policies|] == policies;
    if candidates == [] {
      return None;
    }
    var sorted := SortBy(ctx.strategy, candidates);
    HeadIsLeast(ctx.strategy, candidates);
    r := Some(sorted[0]);
  }

  method CollectPairs(ctx: Context, p: Policy, room: nat) returns (r: Option<seq<Candidate>>)
    ensures r.Some? ==> PairCandidates(ctx, p, p.walletIds) == r && |r.value| <= room
    ensures r.None? ==> PairCandidates(ctx, p, p.walletIds).None? || |PairCandidates(ctx, p, p.walletIds).value| > room
  {
    var found: seq<Candidate> := [];
    for i := 0 to |p.walletIds|
      invariant PairCandidates(ctx, p, p.walletIds[..i]) == Some(found) && |found| == i <= room
    {
      PairsGrow(ctx, p, p.walletIds, i + 1);
      assert p.walletIds[..i + 1][..i] == p.walletIds[..i];
      if |found| >= room {
        return None;
      }
      var c := CandidateFor(ctx, p, p.walletIds[i]);
      if c.None? {
        return None;
      }
      found := found + [c.value];
    }
    assert p.walletIds[..|p.walletIds|] == p.walletIds;
    r := Some(found);
  }

  // -------------------------------------------------------- listing order

  predicate FromPolicy(ctx: Context, p: Policy, c: Candidate) {
    Eligible(ctx, p) && c.walletId in p.walletIds && CandidateFor(ctx, p, c.walletId) == Some(c)
  }

  lemma {:induction false} PairMembers(ctx: Context, p: Policy, wallets: seq<Id>, c: Candidate)
    requires PairCandidates(ctx, p, wallets).Some?
    ensures c in PairCandidates(ctx, p, wallets).value <==>
      c.walletId in wallets && CandidateFor(ctx, p, c.walletId) == Some(c)
    decreases |wallets|
  {
    if wallets != [] {
      var last := |wallets| - 1;
      PairMembers(ctx, p, wallets[..last], c);
      assert wallets == wallets[..last] + [wallets[last]];
    }
  }

  lemma {:induction false} CandidateMembers(ctx: Context, policies: seq<Policy>, c: Candidate)
    requires AllCandidates(ctx, policies).Some?
    ensures c in AllCandidates(ctx, policies).value <==> exists p :: p in policies && FromPolicy(ctx, p, c)
    decreases |policies|
  {
    if policies != [] {
      var last := |policies| - 1;
      CandidateMembers(ctx, policies[..last], c);
      if Eligible(ctx, policies[last]) {
        PairMembers(ctx, policies[last], policies[last].walletIds, c);
      }
      assert policies == policies[..last] + [policies[last]];
      assert policies[last] in policies;
      assert forall p :: p in policies <==> p in policies[..last] || p == policies[last];
      if c in AllCandidates(ctx, policies[..last]).value {
        var p :| p in policies[..last] && FromPolicy(ctx, p, c);
        assert p in policies;
      }
    }
  }

  /** A policy up to the order of its wallets. */
  type Shape = (Policy, multiset<Id>)

  function ShapeOf(p: Policy): Shape { (p.(walletIds := []), multiset(p.walletIds)) }

  function Shapes(ps: seq<Policy>): seq<Shape> {
    seq(|ps|, i requires 0 <= i < |ps| => ShapeOf(ps[i]))
  }

  /** The same policies and wallets, listed in another order. */
  predicate Relisted(ps: seq<Policy>, qs: seq<Policy>) {
    multiset(Shapes(ps)) == multiset(Shapes(qs))
  }

  predicate UniquePolicies(ps: seq<Policy>) {
    forall p, q :: p in ps && q in ps && p.id == q.id ==> p == q
  }

  lemma ShapesHold(ps: seq<Policy>, shape: Shape)
    ensures shape in multiset(Shapes(ps)) <==> exists p :: p in ps && ShapeOf(p) == shape
  {
    if shape in Shapes(ps) {
      var i :| 0 <= i < |ps| && Shapes(ps)[i] == shape;
      assert ps[i] in ps && ShapeOf(ps[i]) == shape;
    }
    if p :| p in ps && ShapeOf(p) == shape {
      var i :| 0 <= i < |ps| && ps[i] == p;
      assert Shapes(ps)[i] == shape;
    }
  }

  lemma RelistedPolicy(ps: seq<Policy>, qs: seq<Policy>, p: Policy) returns (q: Policy)
    requires Relisted(ps, qs) && p in ps
    ensures q in qs && ShapeOf(q) == ShapeOf(p)
  {
    ShapesHold(ps, ShapeOf(p));
    ShapesHold(qs, ShapeOf(p));
    q :| q in qs && ShapeOf(q) == ShapeOf(p);
  }

  /** What the selection asks of a policy does not depend on the wallets' order. */
  lemma SameShape(ctx: Context, p: Policy, q: Policy, wallet: Id)
    requires ShapeOf(p) == ShapeOf(q)
    ensures MustBeValid(p) == MustBeValid(q) && p.Valid() == q.Valid() && Eligible(ctx, p) == Eligible(ctx, q)
    ensures wallet in p.walletIds <==> wallet in q.walletIds
    ensures CandidateFor(ctx, p, wallet) == CandidateFor(ctx, q, wallet)
  {
    assert q == p.(walletIds := q.walletIds);
    assert |p.walletIds| == |multiset(p.walletIds)| == |q.walletIds|;
    assert forall w :: w in p.walletIds <==> w in multiset(p.walletIds);
    assert forall w :: w in q.walletIds <==> w in multiset(q.walletIds);
  }

  lemma {:induction false} PairFails(ctx: Context, p: Policy, wallets: seq<Id>)
    ensures PairCandidates(ctx, p, wallets).None? <==> exists w :: w in wallets && CandidateFor(ctx, p, w).None?
    decreases |wallets|
  {
    if wallets != [] {
      var last := |wallets| - 1;
      PairFails(ctx, p, wallets[..last]);
      assert wallets == wallets[..last] + [wallets[last]];
      assert wallets[last] in wallets;
    }
  }

  lemma {:induction false} SelectionFails(ctx: Context, ps: seq<Policy>)
    ensures AllCandidates(ctx, ps).None? <==> exists p :: p in ps && PolicyCandidates(ctx, p).None?
    decreases |ps|
  {
    if ps != [] {
      var last := |ps| - 1;
      SelectionFails(ctx, ps[..last]);
      assert ps == ps[..last] + [ps[last]];
      assert ps[last] in ps;
    }
  }

  lemma SameShapeFails(ctx: Context, p: Policy, q: Policy)
    requires ShapeOf(p) == ShapeOf(q) && PolicyCandidates(ctx, p).None?
    ensures PolicyCandidates(ctx, q).None?
  {
    SameShape(ctx, p, q, p.id);
    if !(MustBeValid(p) && !p.Valid()) {
      PairFails(ctx, p, p.walletIds);
      var w :| w in p.walletIds && CandidateFor(ctx, p, w).None?;
      SameShape(ctx, p, q, w);
      PairFails(ctx, q, q.walletIds);
    }
  }

  lemma RelistedFails(ctx: Context, ps: seq<Policy>, qs: seq<Policy>)
    requires Relisted(ps, qs) && AllCandidates(ctx, ps).None?
    ensures AllCandidates(ctx, qs).None?
  {
    SelectionFails(ctx, ps);
    var p :| p in ps && PolicyCandidates(ctx, p).None?;
    var q := RelistedPolicy(ps, qs, p);
    SameShapeFails(ctx, p, q);
    SelectionFails(ctx, qs);
  }

  lemma RelistedCandidate(ctx: Context, ps: seq<Policy>, qs: seq<Policy>, c: Candidate)
    requires AllCandidates(ctx, ps).Some? && AllCandidates(ctx, qs).Some? && Relisted(ps, qs)
    requires c in AllCandidates(ctx, ps).value
    ensures c in AllCandidates(ctx, qs).value
  {
    CandidateMembers(ctx, ps, c);
    var p :| p in ps && FromPolicy(ctx, p, c);
    var q := RelistedPolicy(ps, qs, p);
    SameShape(ctx, p, q, c.walletId);
    CandidateMembers(ctx, qs, c);
  }

  // The number of candidates, which the bound is about.

  function Weight(ctx: Context, shape: Shape): nat {
    if Eligible(ctx, shape.0) then |shape.1| else 0
  }

  function Weights(ctx: Context, shapes: seq<Shape>): nat {
    if shapes == [] then 0
    else Weights(ctx, shapes[..|shapes| - 1]) + Weight(ctx, shapes[|shapes| - 1])
  }

  lemma {:induction false} CandidatesWeigh(ctx: Context, ps: seq<Policy>)
    requires AllCandidates(ctx, ps).Some?
    ensures |AllCandidates(ctx, ps).value| == Weights(ctx, Shapes(ps))
    decreases |ps|
  {
    if ps != [] {
      var last := |ps| - 1;
      CandidatesWeigh(ctx, ps[..last]);
      assert Shapes(ps)[..last] == Shapes(ps[..last]);
      PairsGrow(ctx, ps[last], ps[last].walletIds, 0);
      assert |multiset(ps[last].walletIds)| == |ps[last].walletIds|;
    }
  }

  lemma {:induction false} WeightsWithout(ctx: Context, shapes: seq<Shape>, i: nat)
    requires i < |shapes|
    ensures Weights(ctx, shapes) == Weights(ctx, shapes[..i] + shapes[i + 1..]) + Weight(ctx, shapes[i])
    decreases |shapes|
  {
    var last := |shapes| - 1;
    if i == last {
      assert shapes[..i] + shapes[i + 1..] == shapes[..last];
    } else {
      var rest := shapes[..i] + shapes[i + 1..];
      WeightsWithout(ctx, shapes[..last], i);
      assert rest[..|rest| - 1] == shapes[..last][..i] + shapes[..last][i + 1..];
    }
  }

  lemma MultisetWithout<T>(s: seq<T>, i: nat)
    requires i < |s|
    ensures multiset(s[..i] + s[i + 1..]) == multiset(s) - multiset{s[i]}
  {
    assert s == s[..i] + ([s[i]] + s[i + 1..]);
  }

  lemma {:induction false} WeightsIgnoreOrder(ctx: Context, a: seq<Shape>, b: seq<Shape>)
    requires multiset(a) == multiset(b)
    ensures Weights(ctx, a) == Weights(ctx, b)
    decreases |a|
  {
    if a == [] {
      assert |multiset(b)| == 0;
    } else {
      var last := |a| - 1;
      assert a[last] in multiset(b);
      var i :| 0 <= i < |b| && b[i] == a[last];
      var rest := b[..i] + b[i + 1..];
      MultisetWithout(b, i);
      MultisetWithout(a, last);
      assert a[..last] + a[last + 1..] == a[..last];
      WeightsIgnoreOrder(ctx, a[..last], rest);
      WeightsWithout(ctx, b, i);
    }
  }

  lemma UniquePairs(ctx: Context, ps: seq<Policy>)
    requires UniquePolicies(ps) && AllCandidates(ctx, ps).Some?
    ensures OnePerPair(AllCandidates(ctx, ps).value)
  {
    var cs := AllCandidates(ctx, ps).value;
    forall c, d | c in cs && d in cs && c.policyId == d.policyId && c.walletId == d.walletId ensures c == d {
      CandidateMembers(ctx, ps, c);
      CandidateMembers(ctx, ps, d);
      var p :| p in ps && FromPolicy(ctx, p, c);
      var q :| q in ps && FromPolicy(ctx, q, d);
    }
  }

  lemma RelistedLeast(ctx: Context, ps: seq<Policy>, qs: seq<Policy>)
    requires UniquePolicies(ps) && Relisted(ps, qs)
    requires AllCandidates(ctx, ps).Some? && AllCandidates(ctx, qs).Some?
    requires AllCandidates(ctx, ps).value != [] && AllCandidates(ctx, qs).value != []
    ensures
      var (cs, ds) := (AllCandidates(ctx, ps).value, AllCandidates(ctx, qs).value);
      SortBy(ctx.strategy, cs) != [] && SortBy(ctx.strategy, ds) != [] &&
      SortBy(ctx.strategy, cs)[0] == SortBy(ctx.strategy, ds)[0]
  {
    var (cs, ds) := (AllCandidates(ctx, ps).value, AllCandidates(ctx, qs).value);
    HeadIsLeast(ctx.strategy, cs);
    HeadIsLeast(ctx.strategy, ds);
    forall c ensures c in cs <==> c in ds {
      if c in cs {
        RelistedCandidate(ctx, ps, qs, c);
      }
      if c in ds {
        RelistedCandidate(ctx, qs, ps, c);
      }
    }
    UniquePairs(ctx, ps);
    LeastIsUnique(ctx.strategy, SortBy(ctx.strategy, cs)[0], SortBy(ctx.strategy, ds)[0], cs, ds);
  }

  /** Two listings of the same policies and wallets give the same answer: both
      fail, or both select the same pair. */
  lemma SelectionIgnoresListing(ctx: Context, ps: seq<Policy>, qs: seq<Policy>, total: nat)
    requires UniquePolicies(ps) && Relisted(ps, qs)
    ensures Select(ctx, ps, total) == Select(ctx, qs, total)
  {
    assert |ps| == |Shapes(ps)| == |multiset(Shapes(ps))| == |multiset(Shapes(qs))| == |Shapes(qs)| == |qs|;
    if AllCandidates(ctx, ps).None? {
      RelistedFails(ctx, ps, qs);
    } else if AllCandidates(ctx, qs).None? {
      RelistedFails(ctx, qs, ps);
    } else {
      CandidatesWeigh(ctx, ps);
      CandidatesWeigh(ctx, qs);
      WeightsIgnoreOrder(ctx, Shapes(ps), Shapes(qs));
      if AllCandidates(ctx, ps).value != [] {
        RelistedLeast(ctx, ps, qs);
      }
    }
  }

  /** What a successful selection promises about the pair it picked. */
  lemma SelectionIsBest(ctx: Context, ps: seq<Policy>, total: nat)
    requires Select(ctx, ps, total).Some?
    ensures
      var (c, cs) := (Select(ctx, ps, total).value, AllCandidates(ctx, ps).value);
      && IsLeast(ctx.strategy, c, cs)
      && (c.decision.Denied? ==> forall d :: d in cs ==> d.decision.Denied?)
      && (ctx.strategy.LeastSpent? ==>
            forall d :: d in cs && Rank(d.decision) == Rank(c.decision) ==> c.spent <= d.spent)
  {
    var (c, cs) := (Select(ctx, ps, total).value, AllCandidates(ctx, ps).value);
    HeadIsLeast(ctx.strategy, cs);
    LeastHasBestRank(ctx.strategy, c, cs);
    if ctx.strategy.LeastSpent? {
      LeastHasSpentLeast(c, cs);
    }
  }
}
