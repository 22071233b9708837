/** The seven budget dimensions and the check-and-add every reservation goes through
    (internal/agentbudget/types.go). Every field is a 64-bit integer; additions wrap. */
module AgentBudget {
  import opened Prelude

  datatype Limits = Limits(usd: int64, tokens: int64, modelCalls: int64, wallTimeMS: int64,
                           depth: int64, retries: int64, subagents: int64)
  {
    predicate Valid() {
      usd > 0 && tokens > 0 && modelCalls > 0 && wallTimeMS > 0 && depth > 0 && retries > 0 && subagents > 0
    }
  }

  datatype Usage = Usage(usd: int64, tokens: int64, modelCalls: int64, wallTimeMS: int64,
                         depth: int64, retries: int64, subagents: int64)

  const NO_USAGE := Usage(0, 0, 0, 0, 0, 0, 0)

  /** The cumulative dimensions; depth is the one that is replaced, not added. */
  datatype Dim = USD | Tokens | ModelCalls | WallTime | Retries | Subagents

  function Used(u: Usage, d: Dim): int64 {
    match d
    case USD => u.usd
    case Tokens => u.tokens
    case ModelCalls => u.modelCalls
    case WallTime => u.wallTimeMS
    case Retries => u.retries
    case Subagents => u.subagents
  }

  function Max(l: Limits, d: Dim): int64 {
    match d
    case USD => l.usd
    case Tokens => l.tokens
    case ModelCalls => l.modelCalls
    case WallTime => l.wallTimeMS
    case Retries => l.retries
    case Subagents => l.subagents
  }

  datatype BudgetError = InvalidRequest | BudgetExceeded

  /** One register addition. For a non-negative delta, "smaller than before" is exactly overflow. */
  function Add(current: int64, delta: int64): (next: int64)
    ensures delta >= 0 ==> (next < current <==> current + delta > MAX64)
    ensures delta >= 0 && next >= current ==> next == current + delta
  {
    Wrap(current + delta)
  }

  predicate NonNegative(u: Usage) {
    u.depth >= 0 && forall d: Dim :: Used(u, d) >= 0
  }

  predicate Overflows(current: Usage, delta: Usage) {
    exists d: Dim :: Used(current, d) + Used(delta, d) > MAX64
  }

  predicate Fits(current: Usage, delta: Usage, limits: Limits) {
    delta.depth <= limits.depth && forall d: Dim :: Used(current, d) + Used(delta, d) <= Max(limits, d)
  }

  /** Reserve, with the additions done in 64-bit registers and the tests in the source's order. */
  function Reserve(current: Usage, delta: Usage, limits: Limits): Result<Usage, BudgetError> {
    var next := Usage(Add(current.usd, delta.usd), Add(current.tokens, delta.tokens),
                      Add(current.modelCalls, delta.modelCalls), Add(current.wallTimeMS, delta.wallTimeMS),
                      delta.depth, Add(current.retries, delta.retries), Add(current.subagents, delta.subagents));
    if delta.usd < 0 || delta.tokens < 0 || delta.modelCalls < 0 || delta.wallTimeMS < 0
       || delta.depth < 0 || delta.retries < 0 || delta.subagents < 0 then Err(InvalidRequest)
    else if next.usd < current.usd || next.tokens < current.tokens || next.modelCalls < current.modelCalls
            || next.wallTimeMS < current.wallTimeMS || next.retries < current.retries
            || next.subagents < current.subagents then Err(InvalidRequest)
    else if next.usd > limits.usd then Err(BudgetExceeded)
    else if next.tokens > limits.tokens then Err(BudgetExceeded)
    else if next.modelCalls > limits.modelCalls then Err(BudgetExceeded)
    else if next.wallTimeMS > limits.wallTimeMS then Err(BudgetExceeded)
    else if next.depth > limits.depth then Err(BudgetExceeded)
    else if next.retries > limits.retries then Err(BudgetExceeded)
    else if next.subagents > limits.subagents then Err(BudgetExceeded)
    else Ok(next)
  }

  /** A statement about every cumulative dimension, spelled out. */
  lemma EveryDimension(p: Dim -> bool)
    ensures (forall d: Dim :: p(d)) <==>
            p(USD) && p(Tokens) && p(ModelCalls) && p(WallTime) && p(Retries) && p(Subagents)
  {
    forall d: Dim | p(USD) && p(Tokens) && p(ModelCalls) && p(WallTime) && p(Retries) && p(Subagents)
      ensures p(d)
    {
      match d case USD => case Tokens => case ModelCalls => case WallTime => case Retries => case Subagents =>
    }
  }

  /** Reserve over unbounded integers: it succeeds exactly when nothing is negative and every true sum
      fits, and then returns the true sums; a refusal is InvalidRequest exactly for a negative delta
      or a true sum that leaves 64 bits, and BudgetExceeded otherwise. */
  lemma ReserveExact(current: Usage, delta: Usage, limits: Limits)
    ensures var r := Reserve(current, delta, limits);
            && (r.Ok? <==> NonNegative(delta) && Fits(current, delta, limits))
            && (r.Ok? ==> r.value.depth == delta.depth
                          && forall d: Dim :: Used(r.value, d) == Used(current, d) + Used(delta, d))
            && (r == Err(InvalidRequest) <==> !NonNegative(delta) || Overflows(current, delta))
  {
    EveryDimension(d => Used(delta, d) >= 0);
    EveryDimension(d => Used(current, d) + Used(delta, d) <= MAX64);
    EveryDimension(d => Used(current, d) + Used(delta, d) <= Max(limits, d));
  }

  /** The usage left by reserving the deltas one after another, or the first refusal. */
  function ReserveAll(start: Usage, deltas: seq<Usage>, limits: Limits): Result<Usage, BudgetError> {
    if deltas == [] then Ok(start)
    else
      var before := ReserveAll(start, deltas[..|deltas| - 1], limits);
      if before.Err? then before else Reserve(before.value, deltas[|deltas| - 1], limits)
  }

  function Total(deltas: seq<Usage>, d: Dim): int {
    if deltas == [] then 0 else Total(deltas[..|deltas| - 1], d) + Used(deltas[|deltas| - 1], d)
  }

  /** Along any run of successful reservations the account is the exact sum of what was reserved and
      every point of the run is within every limit. */
  lemma {:induction false} ReservationRun(start: Usage, deltas: seq<Usage>, limits: Limits, k: nat, d: Dim)
    requires k <= |deltas|
    requires ReserveAll(start, deltas, limits).Ok?
    requires Used(start, d) <= Max(limits, d)
    ensures ReserveAll(start, deltas[..k], limits).Ok?
    ensures Used(ReserveAll(start, deltas[..k], limits).value, d) == Used(start, d) + Total(deltas[..k], d)
    ensures Used(start, d) + Total(deltas[..k], d) <= Max(limits, d)
  {
    var n := |deltas|;
    if n > 0 && ReserveAll(start, deltas[..n - 1], limits).Ok? {
      ReserveExact(ReserveAll(start, deltas[..n - 1], limits).value, deltas[n - 1], limits);
    }
    if n == 0 {
      assert deltas[..k] == [];
    } else if k == n {
      assert deltas[..k] == deltas;
      ReservationRun(start, deltas[..n - 1], limits, n - 1, d);
      assert deltas[..n - 1][..n - 1] == deltas[..n - 1];
    } else {
      ReservationRun(start, deltas[..n - 1], limits, k, d);
      assert deltas[..n - 1][..k] == deltas[..k];
    }
  }

  /** Whether a run of reservations succeeds does not depend on its order: from an account within its
      limits it does so exactly when each delta is admissible on its own and the final totals fit. */
  lemma {:induction false} ReservationRunExact(start: Usage, deltas: seq<Usage>, limits: Limits)
    requires forall d: Dim :: Used(start, d) <= Max(limits, d)
    ensures ReserveAll(start, deltas, limits).Ok? <==>
            && (forall i | 0 <= i < |deltas| :: NonNegative(deltas[i]) && deltas[i].depth <= limits.depth)
            && (forall d: Dim :: Used(start, d) + Total(deltas, d) <= Max(limits, d))
  {
    if deltas != [] {
      var n := |deltas| - 1;
      var init := deltas[..n];
      ReservationRunExact(start, init, limits);
      if ReserveAll(start, init, limits).Ok? {
        ReserveExact(ReserveAll(start, init, limits).value, deltas[n], limits);
        forall d: Dim ensures Used(ReserveAll(start, init, limits).value, d) == Used(start, d) + Total(init, d) {
          ReservationRun(start, init, limits, n, d);
          assert init[..n] == init;
        }
      } else if NonNegative(deltas[n]) {
        assert forall i | 0 <= i < n :: init[i] == deltas[i];
      }
    }
  }
}
