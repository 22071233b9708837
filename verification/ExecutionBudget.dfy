/** From a recommended campaign budget to the limits Executive enforces, and the host's floor under them
    (internal/campaign/executable_budget.go, execution_feasibility.go, finance_service.go). */
module ExecutionBudget {
  import opened Prelude
  import opened AgentBudget

  /** What Finance recommends. Dollars become nanos by a conversion this model leaves open. */
  datatype Recommendation = Recommendation(
    usd: real, tokens: int64, modelCalls: int64, wallTimeMS: int64, depth: int64, retries: int64, subagents: int64)

  function ToLimits(nanos: real -> int64, rec: Recommendation): Option<Limits> {
    var limits := Limits(nanos(rec.usd), rec.tokens, rec.modelCalls, rec.wallTimeMS, rec.depth, rec.retries,
                         rec.subagents);
    if limits.Valid() then Some(limits) else None
  }

  datatype Dimension = MaxUSD | MaxTokens | MaxModelCalls | MaxWallTime | MaxDepth | MaxRetries | MaxSubagents

  function Amount(l: Limits, d: Dimension): int64 {
    match d
    case MaxUSD => l.usd
    case MaxTokens => l.tokens
    case MaxModelCalls => l.modelCalls
    case MaxWallTime => l.wallTimeMS
    case MaxDepth => l.depth
    case MaxRetries => l.retries
    case MaxSubagents => l.subagents
  }

  /** Every dimension reaches the floor, and the floor is a real one. */
  predicate Feasible(limits: Limits, floor: Limits) {
    floor.Valid() && forall d: Dimension :: Amount(limits, d) >= Amount(floor, d)
  }

  const DIMENSIONS := [MaxUSD, MaxTokens, MaxModelCalls, MaxWallTime, MaxDepth, MaxRetries, MaxSubagents]

  lemma EveryDimensionListed(d: Dimension)
    ensures exists i | 0 <= i < |DIMENSIONS| :: DIMENSIONS[i] == d
  {
    assert DIMENSIONS[0] == MaxUSD && DIMENSIONS[1] == MaxTokens && DIMENSIONS[2] == MaxModelCalls
           && DIMENSIONS[3] == MaxWallTime
        && DIMENSIONS[4] == MaxDepth && DIMENSIONS[5] == MaxRetries && DIMENSIONS[6] == MaxSubagents;
  }

  /** The check appends one shortfall per dimension below the floor: it reports exactly those, so it reports
      none exactly when the budget is feasible. None is the refusal of a floor that is not positive throughout. */
  method Shortfalls(limits: Limits, floor: Limits) returns (r: Option<seq<Dimension>>)
    ensures r.Some? <==> floor.Valid()
    ensures r.Some? ==> forall d: Dimension :: d in r.value <==> Amount(limits, d) < Amount(floor, d)
    ensures r == Some([]) <==> Feasible(limits, floor)
  {
    if !floor.Valid() {
      return None;
    }
    var short: seq<Dimension> := [];
    var i := 0;
    while i < |DIMENSIONS|
      invariant 0 <= i <= |DIMENSIONS|
      invariant forall d | d in short :: Amount(limits, d) < Amount(floor, d)
      invariant forall k | 0 <= k < i ::
                  DIMENSIONS[k] in short || Amount(limits, DIMENSIONS[k]) >= Amount(floor, DIMENSIONS[k])
    {
      if Amount(limits, DIMENSIONS[i]) < Amount(floor, DIMENSIONS[i]) {
        short := short + [DIMENSIONS[i]];
      }
      i := i + 1;
    }
    forall d: Dimension ensures d in short <==> Amount(limits, d) < Amount(floor, d) {
      EveryDimensionListed(d);
    }
    if short != [] { assert short[0] in short; }
    return Some(short);
  }

  datatype Verdict = Recommended | OtherVerdict | InvalidVerdict

  /** The gate a Finance output passes before its success is recorded. */
  predicate OutputAccepted(nanos: real -> int64, verdict: Verdict, budget: Option<Recommendation>, floor: Limits) {
    match verdict
    case InvalidVerdict => false
    case Recommended =>
      budget.Some? && ToLimits(nanos, budget.value).Some? && Feasible(ToLimits(nanos, budget.value).value, floor)
    case OtherVerdict => budget.None? || ToLimits(nanos, budget.value).Some?
  }

  /** Seven amounts, each at least the other's. */
  predicate Reaches(l: Limits, floor: Limits) {
    && l.usd >= floor.usd && l.tokens >= floor.tokens && l.modelCalls >= floor.modelCalls
    && l.wallTimeMS >= floor.wallTimeMS && l.depth >= floor.depth && l.retries >= floor.retries
    && l.subagents >= floor.subagents
  }

  /** Every amount of the recommendation, dollars converted, is positive. */
  predicate Executable(nanos: real -> int64, rec: Recommendation) {
    && nanos(rec.usd) > 0 && rec.tokens > 0 && rec.modelCalls > 0 && rec.wallTimeMS > 0 && rec.depth > 0
    && rec.retries > 0 && rec.subagents > 0
  }

  lemma FeasibleExact(l: Limits, floor: Limits)
    ensures Feasible(l, floor) <==>
            && floor.usd > 0 && floor.tokens > 0 && floor.modelCalls > 0 && floor.wallTimeMS > 0 && floor.depth > 0
            && floor.retries > 0 && floor.subagents > 0 && Reaches(l, floor)
  {
    if Feasible(l, floor) {
      assert Amount(l, MaxUSD) >= Amount(floor, MaxUSD) && Amount(l, MaxTokens) >= Amount(floor, MaxTokens)
             && Amount(l, MaxModelCalls) >= Amount(floor, MaxModelCalls)
             && Amount(l, MaxWallTime) >= Amount(floor, MaxWallTime) && Amount(l, MaxDepth) >= Amount(floor, MaxDepth)
             && Amount(l, MaxRetries) >= Amount(floor, MaxRetries)
             && Amount(l, MaxSubagents) >= Amount(floor, MaxSubagents);
    }
  }

  /** The recommended amounts, dollars converted and the others as they are. */
  predicate AreAmountsOf(l: Limits, nanos: real -> int64, rec: Recommendation) {
    && l.usd == nanos(rec.usd) && l.tokens == rec.tokens && l.modelCalls == rec.modelCalls
    && l.wallTimeMS == rec.wallTimeMS && l.depth == rec.depth && l.retries == rec.retries
    && l.subagents == rec.subagents
  }

  lemma ToLimitsExact(nanos: real -> int64, rec: Recommendation)
    ensures ToLimits(nanos, rec).Some? <==> Executable(nanos, rec)
    ensures ToLimits(nanos, rec).Some? ==> AreAmountsOf(ToLimits(nanos, rec).value, nanos, rec)
  {
  }

  /** The gate, amount by amount: a recommended output passes if and only if it has a budget, every amount of it is
      positive, every amount of the floor is, and each of the seven reaches the floor's; any other verdict of the
      vocabulary passes if and only if it has no budget or one whose amounts are all positive. */
  predicate PassesGate(nanos: real -> int64, verdict: Verdict, budget: Option<Recommendation>, floor: Limits) {
    && verdict != InvalidVerdict
    && (verdict == Recommended ==> budget.Some?)
    && (budget.Some? ==> Executable(nanos, budget.value))
    && (verdict == Recommended ==> AtFloor(nanos, budget.value, floor))
  }

  /** A positive floor that all seven recommended amounts reach, dollars converted. */
  predicate AtFloor(nanos: real -> int64, rec: Recommendation, floor: Limits) {
    && floor.usd > 0 && floor.tokens > 0 && floor.modelCalls > 0 && floor.wallTimeMS > 0
    && floor.depth > 0 && floor.retries > 0 && floor.subagents > 0
    && nanos(rec.usd) >= floor.usd && rec.tokens >= floor.tokens && rec.modelCalls >= floor.modelCalls
    && rec.wallTimeMS >= floor.wallTimeMS && rec.depth >= floor.depth && rec.retries >= floor.retries
    && rec.subagents >= floor.subagents
  }

  lemma GateExact(nanos: real -> int64, verdict: Verdict, budget: Option<Recommendation>, floor: Limits)
    ensures OutputAccepted(nanos, verdict, budget, floor) <==> PassesGate(nanos, verdict, budget, floor)
  {
    if budget.Some? {
      ToLimitsExact(nanos, budget.value);
      if Executable(nanos, budget.value) { FeasibleExact(ToLimits(nanos, budget.value).value, floor); }
    }
  }

  /** The conversion changes no amount but dollars, so a budget is never raised on its way to execution, and
      what passed Finance's gate passes the same gate at any floor no higher in any dimension. */
  lemma NeverRaised(nanos: real -> int64, rec: Recommendation, floor: Limits, lower: Limits)
    requires OutputAccepted(nanos, Recommended, Some(rec), floor)
    requires lower.Valid() && forall d: Dimension :: Amount(lower, d) <= Amount(floor, d)
    ensures OutputAccepted(nanos, Recommended, Some(rec), lower)
    ensures AtFloor(nanos, rec, floor) && AtFloor(nanos, rec, lower)
    ensures var l := ToLimits(nanos, rec).value;
            l.Valid() && Limits(l.usd, rec.tokens, rec.modelCalls, rec.wallTimeMS, rec.depth, rec.retries,
                                rec.subagents) == l && l.usd == nanos(rec.usd)
  {
    forall d: Dimension ensures Amount(ToLimits(nanos, rec).value, d) >= Amount(lower, d) {
      assert Amount(ToLimits(nanos, rec).value, d) >= Amount(floor, d);
    }
    GateExact(nanos, Recommended, Some(rec), floor);
    GateExact(nanos, Recommended, Some(rec), lower);
  }
}
