/**
 Programme tier rules (packages/programs/src/tier-rules.ts, services/pay/src/transactions/tier.ts):
 the validator's loop, the lookup, and that what the first accepts the second can rely on.
 Amounts are integers, in minor units.
 */
module TierRules {
  import opened Prelude

  datatype CredentialKind = PLATFORM | CROSS_PLATFORM

  datatype TierRule = TierRule(
    amountMinMinor: int, amountMaxMinor: Option<int>, allowedKinds: seq<CredentialKind>, title: Option<string>)

  // --- the schema ---------------------------------------------------------------------------

  /** The bounds tierRuleSchema puts on the amounts of one rule. */
  predicate RangeOk(r: TierRule) {
    && 0 <= r.amountMinMinor
    && (r.amountMaxMinor.Some? ==> r.amountMaxMinor.value > 0 && r.amountMaxMinor.value > r.amountMinMinor)
  }

  predicate DetailsOk(r: TierRule) {
    r.allowedKinds != [] && (r.title.Some? ==> 1 <= |r.title.value| <= 128)
  }

  datatype Issue = FirstNotZero | LastBounded | UnboundedBefore(index: nat) | NotContiguous(index: nat)

  function PairIssues(rules: seq<TierRule>, i: nat): seq<Issue>
    requires i < |rules|
    decreases |rules| - i
  {
    if i == |rules| - 1 then []
    else if rules[i].amountMaxMinor.None? then [UnboundedBefore(i)]
    else (if rules[i].amountMaxMinor.value != rules[i + 1].amountMinMinor then [NotContiguous(i + 1)] else [])
         + PairIssues(rules, i + 1)
  }

  function Issues(rules: seq<TierRule>): seq<Issue>
    requires rules != []
  {
    (if rules[0].amountMinMinor != 0 then [FirstNotZero] else [])
    + (if rules[|rules| - 1].amountMaxMinor.Some? then [LastBounded] else [])
    + PairIssues(rules, 0)
  }

  /** The superRefine callback, collecting into ctx; None is the throw of rules[0] on an empty list. */
  method SuperRefine(rules: seq<TierRule>) returns (r: Option<seq<Issue>>)
    ensures r == if rules == [] then None else Some(Issues(rules))
  {
    if rules == [] {
      return None;
    }
    var ctx := [];
    if rules[0].amountMinMinor != 0 {
      ctx := ctx + [FirstNotZero];
    }
    var last := rules[|rules| - 1];
    if last.amountMaxMinor.Some? {
      ctx := ctx + [LastBounded];
    }
    var i := 0;
    while i < |rules| - 1
      invariant 0 <= i < |rules|
      invariant ctx + PairIssues(rules, i) == Issues(rules)
    {
      var cur, next := rules[i], rules[i + 1];
      if cur.amountMaxMinor.None? {
        ctx := ctx + [UnboundedBefore(i)];
        return Some(ctx);
      }
      if cur.amountMaxMinor.value != next.amountMinMinor {
        ctx := ctx + [NotContiguous(i + 1)];
      }
      i := i + 1;
    }
    assert PairIssues(rules, i) == [] && ctx + [] == ctx;
    return Some(ctx);
  }

  /** The order in which issues are reported. */
  function Rank(x: Issue): nat {
    match x
    case FirstNotZero => 0
    case LastBounded => 1
    case UnboundedBefore(i) => i + 2
    case NotContiguous(i) => i + 1
  }

  /** Every rule before the k-th ends. */
  predicate EndBefore(rules: seq<TierRule>, k: nat)
    requires k <= |rules|
  {
    forall j | 0 <= j < k :: rules[j].amountMaxMinor.Some?
  }

  /** What is wrong: the walk over the pairs stops at the first rule without an end. */
  predicate Wrong(rules: seq<TierRule>, x: Issue)
    requires rules != []
  {
    match x
    case FirstNotZero => rules[0].amountMinMinor != 0
    case LastBounded => rules[|rules| - 1].amountMaxMinor.Some?
    case UnboundedBefore(i) => i + 1 < |rules| && EndBefore(rules, i) && rules[i].amountMaxMinor.None?
    case NotContiguous(i) => && 0 < i < |rules| && EndBefore(rules, i)
                             && rules[i - 1].amountMaxMinor.value != rules[i].amountMinMinor
  }

  predicate InOrder(xs: seq<Issue>) { forall a, b | 0 <= a < b < |xs| :: Rank(xs[a]) < Rank(xs[b]) }

  lemma {:induction false} PairIssuesAre(rules: seq<TierRule>, i: nat)
    requires i < |rules| && EndBefore(rules, i)
    ensures InOrder(PairIssues(rules, i))
    ensures forall x :: x in PairIssues(rules, i) <==> Wrong(rules, x) && Rank(x) >= i + 2
    decreases |rules| - i
  {
    forall x
      ensures Wrong(rules, x) && Rank(x) >= i + 2
              <==> WrongHere(rules, i, x) || (EndBefore(rules, i + 1) && Wrong(rules, x) && Rank(x) >= i + 3)
    {
      WrongHereOrLater(rules, i, x);
    }
    hide Wrong;
    if i + 1 < |rules| && rules[i].amountMaxMinor.Some? {
      PairIssuesAre(rules, i + 1);
    }
  }

  /** What is wrong between rule i and the next. */
  predicate WrongHere(rules: seq<TierRule>, i: nat, x: Issue)
    requires i < |rules|
  {
    && i + 1 < |rules|
    && if rules[i].amountMaxMinor.None? then x == UnboundedBefore(i)
       else rules[i].amountMaxMinor.value != rules[i + 1].amountMinMinor && x == NotContiguous(i + 1)
  }

  lemma WrongHereOrLater(rules: seq<TierRule>, i: nat, x: Issue)
    requires i < |rules| && EndBefore(rules, i)
    ensures Wrong(rules, x) && Rank(x) >= i + 2
            <==> WrongHere(rules, i, x) || (EndBefore(rules, i + 1) && Wrong(rules, x) && Rank(x) >= i + 3)
  {
  }

  /** Exactly what is wrong is reported, each issue once, and in order. */
  lemma IssuesAreWhatIsWrong(rules: seq<TierRule>)
    requires rules != []
    ensures InOrder(Issues(rules))
    ensures forall x :: x in Issues(rules) <==> Wrong(rules, x)
  {
    PairIssuesAre(rules, 0);
  }

  /** parseTierRuleSet returns rather than throws. */
  predicate Accepts(rules: seq<TierRule>) {
    && rules != []
    && (forall r | r in rules :: RangeOk(r) && DetailsOk(r))
    && Issues(rules) == []
  }

  // --- what acceptance means --------------------------------------------------------------------

  /** n is in the half-open range of r. */
  predicate Covers(r: TierRule, n: int) {
    r.amountMinMinor <= n && (r.amountMaxMinor.None? || n < r.amountMaxMinor.value)
  }

  /** Some rule of the list covers n. */
  predicate Covered(rules: seq<TierRule>, n: int) { exists r :: r in rules && Covers(r, n) }

  ghost predicate NonEmptyRange(r: TierRule) { exists n :: Covers(r, n) }

  predicate Before(r: TierRule, q: TierRule, m: int, n: int) { Covers(r, m) && Covers(q, n) ==> m < n }

  /** The ranges, in list order, partition the non-negative integers. */
  ghost predicate Partition(rules: seq<TierRule>) {
    && (forall r | r in rules :: NonEmptyRange(r))
    && (forall n :: Covered(rules, n) <==> 0 <= n)
    && (forall i, j, m, n | 0 <= i < j < |rules| :: Before(rules[i], rules[j], m, n))
  }

  /** Each rule ends where the next starts, from 0 to no end. */
  predicate Chained(rules: seq<TierRule>) {
    && rules != []
    && rules[0].amountMinMinor == 0 && rules[|rules| - 1].amountMaxMinor.None?
    && forall i | 0 <= i < |rules| - 1 :: rules[i].amountMaxMinor == Some(rules[i + 1].amountMinMinor)
  }

  lemma {:induction false} NoPairIssues(rules: seq<TierRule>, i: nat)
    requires i < |rules|
    ensures PairIssues(rules, i) == []
            <==> forall k | i <= k < |rules| - 1 :: rules[k].amountMaxMinor == Some(rules[k + 1].amountMinMinor)
    decreases |rules| - i
  {
    if i < |rules| - 1 {
      NoPairIssues(rules, i + 1);
    }
  }

  lemma NoIssuesIffChained(rules: seq<TierRule>)
    requires rules != []
    ensures Issues(rules) == [] <==> Chained(rules)
  {
    NoPairIssues(rules, 0);
  }

  /** Along a chain of sound ranges the bounds rise. */
  lemma {:induction false} ChainRises(rules: seq<TierRule>, i: nat, j: nat)
    requires Chained(rules) && (forall r | r in rules :: RangeOk(r)) && i < j < |rules|
    ensures rules[i].amountMaxMinor.Some? && rules[i].amountMaxMinor.value <= rules[j].amountMinMinor
    decreases j - i
  {
    if i + 1 < j {
      ChainRises(rules, i + 1, j);
      assert RangeOk(rules[i + 1]);
    }
  }

  /** Every amount is met on the way up. */
  lemma {:induction false} ChainCovers(rules: seq<TierRule>, n: int, k: nat)
    requires Chained(rules) && k < |rules| && rules[k].amountMinMinor <= n
    ensures exists i :: k <= i < |rules| && Covers(rules[i], n)
    decreases |rules| - k
  {
    if k + 1 < |rules| && rules[k + 1].amountMinMinor <= n {
      ChainCovers(rules, n, k + 1);
    } else {
      assert Covers(rules[k], n);
    }
  }

  lemma ChainIsPartition(rules: seq<TierRule>)
    requires Chained(rules) && forall r | r in rules :: RangeOk(r)
    ensures Partition(rules)
  {
    forall r | r in rules
      ensures NonEmptyRange(r)
    {
      assert Covers(r, r.amountMinMinor);
    }
    forall n
      ensures Covered(rules, n) <==> 0 <= n
    {
      if 0 <= n {
        ChainCovers(rules, n, 0);
      }
    }
    forall i, j, m, n | 0 <= i < j < |rules|
      ensures Before(rules[i], rules[j], m, n)
    {
      ChainRises(rules, i, j);
    }
  }

  lemma PartitionRangesAreSound(rules: seq<TierRule>, r: TierRule)
    requires Partition(rules) && r in rules
    ensures RangeOk(r)
  {
    assert NonEmptyRange(r);
    var n :| Covers(r, n);
    assert Covers(r, r.amountMinMinor);
    assert Covered(rules, r.amountMinMinor);
  }

  /** In a partition, a rule that is not the last ends, and what it ends at the next one covers. */
  lemma PartitionIsChain(rules: seq<TierRule>)
    requires Partition(rules) && rules != []
    ensures Chained(rules)
  {
    forall r | r in rules
      ensures RangeOk(r)
    {
      PartitionRangesAreSound(rules, r);
    }
    FirstIsZero(rules);
    LastIsUnbounded(rules);
    forall i | 0 <= i < |rules| - 1
      ensures rules[i].amountMaxMinor == Some(rules[i + 1].amountMinMinor)
    {
      NextStartsThere(rules, i);
    }
  }

  lemma FirstIsZero(rules: seq<TierRule>)
    requires Partition(rules) && rules != [] && forall r | r in rules :: RangeOk(r)
    ensures rules[0].amountMinMinor == 0
  {
    assert Covered(rules, 0);
    var k :| 0 <= k < |rules| && Covers(rules[k], 0);
    assert RangeOk(rules[0]);
    assert k > 0 ==> Before(rules[0], rules[k], rules[0].amountMinMinor, 0);
  }

  lemma LastIsUnbounded(rules: seq<TierRule>)
    requires Partition(rules) && rules != [] && forall r | r in rules :: RangeOk(r)
    ensures rules[|rules| - 1].amountMaxMinor.None?
  {
    var l := |rules| - 1;
    var last := rules[l];
    if last.amountMaxMinor.Some? {
      var end := last.amountMaxMinor.value;
      assert RangeOk(last);
      assert Covered(rules, end);
      var k :| 0 <= k < |rules| && Covers(rules[k], end);
      assert k < l ==> Before(rules[k], rules[l], end, last.amountMinMinor);
    }
  }

  lemma NextStartsThere(rules: seq<TierRule>, i: nat)
    requires Partition(rules) && i + 1 < |rules| && forall r | r in rules :: RangeOk(r)
    ensures rules[i].amountMaxMinor == Some(rules[i + 1].amountMinMinor)
  {
    var cur, next := rules[i], rules[i + 1];
    assert RangeOk(cur) && RangeOk(next);
    var high := if cur.amountMinMinor < next.amountMinMinor then next.amountMinMinor else cur.amountMinMinor;
    assert Before(cur, next, high, next.amountMinMinor);
    var end := cur.amountMaxMinor.value;
    assert Before(cur, next, end - 1, next.amountMinMinor);
    assert Covered(rules, end);
    var k :| 0 <= k < |rules| && Covers(rules[k], end);
    assert k < i ==> Before(rules[k], cur, end, end - 1);
    assert k > i + 1 ==> Before(next, rules[k], next.amountMinMinor, end);
  }

  /**
   A rule list is accepted exactly if its half-open ranges, in list order, partition the
   non-negative integers, and every rule allows some kind and has a label of legal length.
   */
  lemma AcceptsIffPartition(rules: seq<TierRule>)
    ensures Accepts(rules) <==>
              && Partition(rules)
              && forall r | r in rules :: |r.allowedKinds| >= 1 && (r.title.Some? ==> 1 <= |r.title.value| <= 128)
  {
    if rules == [] {
      assert !Covered(rules, 0);
    } else {
      NoIssuesIffChained(rules);
      if Partition(rules) {
        PartitionIsChain(rules);
        forall r | r in rules
          ensures RangeOk(r)
        {
          PartitionRangesAreSound(rules, r);
        }
      }
      if Accepts(rules) {
        ChainIsPartition(rules);
      }
    }
  }

  /** parseTierRuleSet: ok is false where it throws. */
  method ParseTierRuleSet(rules: seq<TierRule>) returns (ok: bool)
    ensures ok <==> Partition(rules) && forall r | r in rules :: DetailsOk(r)
  {
    AcceptsIffPartition(rules);
    var issues := SuperRefine(rules);
    ok := issues == Some([]) && forall r | r in rules :: RangeOk(r) && DetailsOk(r);
  }

  // --- the lookup ---------------------------------------------------------------------------------

  datatype MatchError = Negative | NoRule

  function Find(rules: seq<TierRule>, n: int): Option<TierRule> {
    if rules == [] then None else if Covers(rules[0], n) then Some(rules[0]) else Find(rules[1..], n)
  }

  function MatchRule(rules: seq<TierRule>, n: int): Result<TierRule, MatchError> {
    if n < 0 then Err(Negative)
    else
      match Find(rules, n)
      case None => Err(NoRule)
      case Some(hit) => Ok(hit)
  }

  lemma {:induction false} FindFinds(rules: seq<TierRule>, n: int)
    ensures match Find(rules, n)
            case None => forall r | r in rules :: !Covers(r, n)
            case Some(hit) => hit in rules && Covers(hit, n)
  {
    if rules != [] {
      FindFinds(rules[1..], n);
      assert rules == [rules[0]] + rules[1..];
    }
  }

  /** Of any list, accepted or not, the first rule that covers the amount is found. */
  lemma FirstCoveringRuleMatches(rules: seq<TierRule>, n: int)
    ensures var r := MatchRule(rules, n);
            && (r == Err(Negative) <==> n < 0)
            && (r == Err(NoRule) <==> n >= 0 && forall i | 0 <= i < |rules| :: !Covers(rules[i], n))
            && (r.Ok? ==> exists i :: && 0 <= i < |rules| && r.value == rules[i] && Covers(rules[i], n)
                                      && forall k | 0 <= k < i :: !Covers(rules[k], n))
  {
    FindIsFirst(rules, n);
  }

  lemma {:induction false} FindIsFirst(rules: seq<TierRule>, n: int)
    ensures match Find(rules, n)
            case None => forall i | 0 <= i < |rules| :: !Covers(rules[i], n)
            case Some(hit) => exists i :: && 0 <= i < |rules| && hit == rules[i] && Covers(rules[i], n)
                                          && forall k | 0 <= k < i :: !Covers(rules[k], n)
  {
    if rules != [] && !Covers(rules[0], n) {
      FindIsFirst(rules[1..], n);
      assert forall i | 0 <= i < |rules[1..]| :: rules[1..][i] == rules[i + 1];
      if Find(rules[1..], n).Some? {
        var i :| 0 <= i < |rules[1..]| && Find(rules, n).value == rules[1..][i] && Covers(rules[1..][i], n)
                 && forall k | 0 <= k < i :: !Covers(rules[1..][k], n);
        forall k | 0 <= k < i + 1
          ensures !Covers(rules[k], n)
        {
          assert k > 0 ==> !Covers(rules[1..][k - 1], n);
        }
        assert Find(rules, n).value == rules[i + 1];
      }
    }
  }

  /** For an accepted list exactly one rule covers a non-negative amount, and it is the one found. */
  lemma ExactlyOneRuleMatches(rules: seq<TierRule>, n: int)
    requires Accepts(rules)
    ensures if n < 0 then MatchRule(rules, n) == Err(Negative)
            else exists i :: && 0 <= i < |rules| && MatchRule(rules, n) == Ok(rules[i])
                             && Covers(rules[i], n) && forall j | 0 <= j < |rules| && j != i :: !Covers(rules[j], n)
  {
    if n >= 0 {
      AcceptsIffPartition(rules);
      assert Covered(rules, n);
      FindFinds(rules, n);
      var hit := Find(rules, n).value;
      var i :| 0 <= i < |rules| && rules[i] == hit;
      forall j | 0 <= j < |rules| && j != i
        ensures !Covers(rules[j], n)
      {
        assert i < j ==> Before(rules[i], rules[j], n, n);
        assert j < i ==> Before(rules[j], rules[i], n, n);
      }
    }
  }

  /** So the order of an accepted list does not matter to the lookup. */
  lemma OrderDoesNotMatter(rules: seq<TierRule>, shuffled: seq<TierRule>, n: int)
    requires Accepts(rules) && multiset(shuffled) == multiset(rules)
    ensures MatchRule(shuffled, n) == MatchRule(rules, n)
  {
    if n >= 0 {
      ExactlyOneRuleMatches(rules, n);
      FindFinds(shuffled, n);
      var i :| 0 <= i < |rules| && MatchRule(rules, n) == Ok(rules[i])
               && Covers(rules[i], n) && forall j | 0 <= j < |rules| && j != i :: !Covers(rules[j], n);
      assert rules[i] in multiset(shuffled);
      assert rules[i] in shuffled;
      var hit := Find(shuffled, n).value;
      assert hit in multiset(rules);
      assert hit in rules;
    }
  }

  // --- tiers ------------------------------------------------------------------------------------------

  datatype Tier = TIER_1 | TIER_2 | TIER_3

  datatype TierDecision = TierDecision(allowedKinds: seq<CredentialKind>, tier: Tier, title: Option<string>)

  function SummariseTier(kinds: seq<CredentialKind>): Tier {
    var hasPlatform := PLATFORM in kinds;
    var hasCross := CROSS_PLATFORM in kinds;
    if hasPlatform && hasCross then TIER_3 else if hasCross then TIER_2 else TIER_1
  }

  function EvaluateTierRules(rules: seq<TierRule>, n: int): Result<TierDecision, MatchError> {
    match MatchRule(rules, n)
    case Err(e) => Err(e)
    case Ok(rule) => Ok(TierDecision(rule.allowedKinds, SummariseTier(rule.allowedKinds), rule.title))
  }

  /** What a tier says is allowed. */
  function KindsOf(t: Tier): set<CredentialKind> {
    match t
    case TIER_1 => {PLATFORM}
    case TIER_2 => {CROSS_PLATFORM}
    case TIER_3 => {PLATFORM, CROSS_PLATFORM}
  }

  /** A summary stands for exactly the kinds it was made from, unless there were none: that is TIER_1 too. */
  lemma SummaryStandsForKindsIff(kinds: seq<CredentialKind>)
    ensures KindsOf(SummariseTier(kinds)) == (set k | k in kinds) <==> kinds != []
  {
    var all := set k | k in kinds;
    if kinds == [] {
      assert PLATFORM in KindsOf(SummariseTier(kinds)) && PLATFORM !in all;
    } else {
      assert kinds[0] == PLATFORM || kinds[0] == CROSS_PLATFORM;
      forall k: CredentialKind
        ensures k in KindsOf(SummariseTier(kinds)) <==> k in all
      {
        match k
        case PLATFORM =>
        case CROSS_PLATFORM =>
      }
    }
  }

  /** With accepted rules every non-negative amount gets a decision, whose tier stands for the kinds it allows. */
  lemma TierStandsForItsKinds(rules: seq<TierRule>, n: int)
    requires Accepts(rules) && 0 <= n
    ensures var d := EvaluateTierRules(rules, n);
            d.Ok? && KindsOf(d.value.tier) == (set k | k in d.value.allowedKinds)
  {
    ExactlyOneRuleMatches(rules, n);
    assert DetailsOk(MatchRule(rules, n).value);
    SummaryStandsForKindsIff(MatchRule(rules, n).value.allowedKinds);
  }

  /** The decision is the one covering rule's: its kinds, its title, and its kinds in one word. */
  lemma DecisionIsTheCoveringRules(rules: seq<TierRule>, n: int)
    requires Accepts(rules)
    ensures var d := EvaluateTierRules(rules, n);
            if n < 0 then d == Err(Negative)
            else exists i :: && 0 <= i < |rules| && d.Ok?
                             && rules[i].amountMinMinor <= n
                             && (rules[i].amountMaxMinor.Some? ==> n < rules[i].amountMaxMinor.value)
                             && d.value.allowedKinds == rules[i].allowedKinds && d.value.title == rules[i].title
                             && (d.value.tier == TIER_1 <==> CROSS_PLATFORM !in rules[i].allowedKinds)
                             && (d.value.tier == TIER_2 <==> PLATFORM !in rules[i].allowedKinds)
  {
    ExactlyOneRuleMatches(rules, n);
    if n >= 0 {
      var i :| 0 <= i < |rules| && MatchRule(rules, n) == Ok(rules[i]) && Covers(rules[i], n);
      SummaryIs(rules[i]);
    }
  }

  lemma SummaryIs(r: TierRule)
    requires DetailsOk(r)
    ensures SummariseTier(r.allowedKinds) == TIER_1 <==> CROSS_PLATFORM !in r.allowedKinds
    ensures SummariseTier(r.allowedKinds) == TIER_2 <==> PLATFORM !in r.allowedKinds
  {
    match r.allowedKinds[0]
    case PLATFORM => assert PLATFORM in r.allowedKinds;
    case CROSS_PLATFORM => assert CROSS_PLATFORM in r.allowedKinds;
  }

  const DEFAULT_TIER_RULES: seq<TierRule> := [
    TierRule(0, Some(10_000), [PLATFORM], Some("Biometric (under AUD 100)")),
    TierRule(10_000, None, [CROSS_PLATFORM], Some("Card tap (AUD 100 and over)"))
  ]

  /** The default list passes its own validator, and splits the amounts at AUD 100. */
  lemma DefaultsAreAccepted(n: int)
    requires 0 <= n
    ensures Accepts(DEFAULT_TIER_RULES)
    ensures EvaluateTierRules(DEFAULT_TIER_RULES, n).Ok?
            && EvaluateTierRules(DEFAULT_TIER_RULES, n).value.tier == if n < 10_000 then TIER_1 else TIER_2
  {
    NoIssuesIffChained(DEFAULT_TIER_RULES);
    var first, second := DEFAULT_TIER_RULES[0], DEFAULT_TIER_RULES[1];
    assert DEFAULT_TIER_RULES[1..] == [second];
    assert Find([second], n) == if Covers(second, n) then Some(second) else None;
    assert Find(DEFAULT_TIER_RULES, n) == Some(if n < 10_000 then first else second);
  }
}
