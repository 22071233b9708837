/** What each ledger operation does to rows and log, field by field, and what every account then is in terms of the
    amounts callers asked for (internal/agentbudget/postgres/store.go). */
module LedgerAccounts {
  import opened Prelude
  import opened AgentBudget
  import opened Ledger
  import opened LedgerTheorems

  // ---------------------------------------------------------------------------------------------
  // The operations, exactly

  ghost predicate Recorded(s: State, b: nat, k: Kind, ref: int64) {
    exists i | 0 <= i < |s.events| :: s.events[i].budget == b && s.events[i].kind == k && s.events[i].ref == ref
  }

  lemma RecordedIsFound(s: State, b: nat, k: Kind, ref: int64)
    ensures Recorded(s, b, k, ref) <==> Find(s.events, b, k, ref).Some?
  {
    if Recorded(s, b, k, ref) {
      var i :| 0 <= i < |s.events| && s.events[i].budget == b && s.events[i].kind == k && s.events[i].ref == ref;
      assert Keyed(s.events[i], b, k, ref);
    }
  }

  /** Nothing negative, and every sum, with the depth asked for, within the row's limits. */
  predicate Admissible(row: Row, delta: Usage) {
    var u, l := row.usage, row.limits;
    && delta.usd >= 0 && delta.tokens >= 0 && delta.modelCalls >= 0 && delta.wallTimeMS >= 0 && delta.depth >= 0
    && delta.retries >= 0 && delta.subagents >= 0
    && u.usd + delta.usd <= l.usd && u.tokens + delta.tokens <= l.tokens
    && u.modelCalls + delta.modelCalls <= l.modelCalls && u.wallTimeMS + delta.wallTimeMS <= l.wallTimeMS
    && delta.depth <= l.depth && u.retries + delta.retries <= l.retries
    && u.subagents + delta.subagents <= l.subagents
  }

  lemma AdmissibleIsReserved(row: Row, delta: Usage)
    ensures Admissible(row, delta) <==> Reserve(row.usage, delta, row.limits).Ok?
  {
    ReserveExact(row.usage, delta, row.limits);
    EveryDimension(d => Used(delta, d) >= 0);
    EveryDimension(d => Used(row.usage, d) + Used(delta, d) <= Max(row.limits, d));
  }

  /** A new charge is accepted if and only if the amounts are admissible, and then adds exactly them to the row,
      leaving depth and subagents, and logs exactly them. A repeated one is accepted and changes nothing; every
      refusal changes nothing. */
  lemma ConsumeExact(s: State, b: nat, invocation: int64, delta: Usage)
    ensures var (t, r) := Consume(s, b, invocation, delta);
            if b >= |s.rows| then r == Err(NotFound) && t == s
            else if invocation <= 0 then r == Err(Refused) && t == s
            else if Recorded(s, b, Consumed, invocation) then r == Ok(()) && t == s
            else if !Admissible(s.rows[b], delta) then r in {Err(Invalid), Err(Exceeded)} && t == s
            else
              && r == Ok(()) && |t.rows| == |s.rows| && t.attached == s.attached
              && (forall i | 0 <= i < |s.rows| && i != b :: t.rows[i] == s.rows[i])
              && t.rows[b] == s.rows[b].(usage := t.rows[b].usage)
              && var u, v := s.rows[b].usage, t.rows[b].usage;
              && v.usd == u.usd + delta.usd && v.tokens == u.tokens + delta.tokens
              && v.modelCalls == u.modelCalls + delta.modelCalls && v.wallTimeMS == u.wallTimeMS + delta.wallTimeMS
              && v.retries == u.retries + delta.retries && v.depth == u.depth && v.subagents == u.subagents
              && t.events == s.events + [Event(b, Consumed, invocation,
                                               Usage(delta.usd, delta.tokens, delta.modelCalls, delta.wallTimeMS, 0,
                                                     delta.retries, 0))]
  {
    RecordedIsFound(s, b, Consumed, invocation);
    if b < |s.rows| { AdmissibleIsReserved(s.rows[b], delta); }
  }

  /** What a charge is refused as: Invalid for a negative amount or a sum beyond 64 bits, Exceeded otherwise. */
  lemma RefusalOfCharge(s: State, b: nat, invocation: int64, delta: Usage)
    requires b < |s.rows| && invocation > 0 && Find(s.events, b, Consumed, invocation).None?
    ensures Consume(s, b, invocation, delta).1 == Err(Invalid)
            <==> !NonNegative(delta) || Overflows(s.rows[b].usage, delta)
  {
    ReserveExact(s.rows[b].usage, delta, s.rows[b].limits);
  }

  /** The column after a correction: added in 64 bits, and zero if the sum does not fit. */
  function Corrected(used: int, change: int): int {
    if 0 <= used + change <= MAX64 then used + change else 0
  }

  /** A first settlement of an admitted call corrects dollars and tokens by what was spent less what was charged, and
      nothing else; past a ceiling it is refused. Of a call not admitted, or already settled, it changes nothing. */
  lemma SettleExact(s: State, b: nat, invocation: int64, actual: Usage)
    requires Bounded(s)
    ensures var (t, r) := Settle(s, b, invocation, actual);
            if b >= |s.rows| then r == Err(NotFound) && t == s
            else if !Recorded(s, b, Consumed, invocation) || Recorded(s, b, Reconciled, invocation) then
              r == Ok(()) && t == s
            else
              exists i | 0 <= i < |s.events| ::
                && s.events[i].budget == b && s.events[i].kind == Consumed && s.events[i].ref == invocation
                && var charged, u, l := s.events[i].delta, s.rows[b].usage, s.rows[b].limits;
                && var usd, tokens := Wrap(actual.usd - charged.usd), Wrap(actual.tokens - charged.tokens);
                if Corrected(u.usd, usd) > l.usd || Corrected(u.tokens, tokens) > l.tokens then
                  r == Err(Refused) && t == s
                else
                  && r == Ok(()) && |t.rows| == |s.rows| && t.attached == s.attached
                  && (forall j | 0 <= j < |s.rows| && j != b :: t.rows[j] == s.rows[j])
                  && t.rows[b] == s.rows[b].(usage := t.rows[b].usage)
                  && t.rows[b].usage == u.(usd := t.rows[b].usage.usd, tokens := t.rows[b].usage.tokens)
                  && t.rows[b].usage.usd == Corrected(u.usd, usd)
                  && t.rows[b].usage.tokens == Corrected(u.tokens, tokens)
                  && t.events == s.events + [Event(b, Reconciled, invocation, Usage(usd, tokens, 0, 0, 0, 0, 0))]
  {
    RecordedIsFound(s, b, Consumed, invocation);
    RecordedIsFound(s, b, Reconciled, invocation);
    if b < |s.rows| && Find(s.events, b, Consumed, invocation).Some? {
      var i := Find(s.events, b, Consumed, invocation).value;
      assert RowBounded(s.rows[b]) && Used(s.rows[b].usage, USD) >= 0 && Used(s.rows[b].usage, Tokens) >= 0;
      assert s.events[i].budget == b && s.events[i].kind == Consumed && s.events[i].ref == invocation;
    }
  }

  /** A root is created, with the organization, role and limits asked for and nothing spent, if and only if the task
      has no budget yet and the request is well formed. Under an existing budget the same request finds it, and one
      that differs in any field, or a budget that is not a root's, is a conflict. */
  lemma CreateRootExact(s: State, organization: string, task: int64, role: string, limits: Limits)
    ensures var (t, r) := CreateRoot(s, organization, task, role, limits);
            var positive := && limits.usd > 0 && limits.tokens > 0 && limits.modelCalls > 0 && limits.wallTimeMS > 0
                            && limits.depth > 0 && limits.retries > 0 && limits.subagents > 0;
            if !positive then r == Err(Invalid) && t == s
            else if forall i | 0 <= i < |s.rows| :: s.rows[i].task != task then
              if task <= 0 then r == Err(Refused) && t == s
              else
                && r == Ok(|s.rows|)
                && t.rows == s.rows + [Row(organization, task, task, role, None, limits, Usage(0, 0, 0, 0, 1, 0, 0))]
                && t.events == s.events + [Event(|s.rows|, Created, task, Usage(0, 0, 0, 0, 1, 0, 0))]
                && task in t.attached && (task !in s.attached ==> t.attached[task] == |s.rows|)
                && (forall x | x in s.attached :: x in t.attached && t.attached[x] == s.attached[x])
            else
              exists b | 0 <= b < |s.rows| ::
                && s.rows[b].task == task && t == s
                && var row := s.rows[b];
                && r == if && row.organization == organization && row.rootTask == task && row.role == role
                           && row.parent.None? && row.limits == limits
                        then Ok(b) else Err(Conflict)
  {
    var b := RowFor(s.rows, task);
    if b.Some? { assert s.rows[b.value].task == task; }
  }

  /** What both ways of attaching a child to budget b test first. */
  predicate Attachable(s: State, b: nat, child: int64, depth: int64) {
    && b < |s.rows| && depth > 0 && depth <= s.rows[b].limits.depth && child > 0
    && s.rows[b].usage.subagents < s.rows[b].limits.subagents
  }

  /** And what they answer when it fails. */
  function AttachmentRefusal(s: State, b: nat, child: int64, depth: int64): Error {
    if depth <= 0 then Invalid
    else if b >= |s.rows| then NotFound
    else if depth <= s.rows[b].limits.depth && child <= 0 then Refused
    else Exceeded
  }

  /** A new child shares the parent's row if and only if there is room for one more subagent and the depth is within
      the row's: the row gains one subagent and the greater depth, and nothing else changes. */
  lemma ShareExact(s: State, b: nat, child: int64, role: string, depth: int64)
    requires Bounded(s) && !Recorded(s, b, Inherited, child)
    ensures var (t, r) := Inherit(s, b, child, role, depth, None);
            if !Attachable(s, b, child, depth) then r == Err(AttachmentRefusal(s, b, child, depth)) && t == s
            else
              && r == Ok(b) && |t.rows| == |s.rows|
              && (forall i | 0 <= i < |s.rows| && i != b :: t.rows[i] == s.rows[i])
              && var u := s.rows[b].usage;
              && t.rows[b] == s.rows[b].(usage := u.(depth := if depth > u.depth then depth else u.depth,
                                                     subagents := t.rows[b].usage.subagents))
              && t.rows[b].usage.subagents == u.subagents + 1
              && t.events == s.events + [Event(b, Inherited, child, Usage(0, 0, 0, 0, 0, 0, 1))]
              && child in t.attached && (child !in s.attached ==> t.attached[child] == b)
  {
    RecordedIsFound(s, b, Inherited, child);
    if b < |s.rows| { assert RowBounded(s.rows[b]) && Used(s.rows[b].usage, Subagents) >= 0; }
  }

  /** What the parent has left reaches the allocation in every dimension but subagents. */
  predicate CanPay(row: Row, a: Limits) {
    var u, l := row.usage, row.limits;
    && a.usd <= l.usd - u.usd && a.tokens <= l.tokens - u.tokens && a.modelCalls <= l.modelCalls - u.modelCalls
    && a.wallTimeMS <= l.wallTimeMS - u.wallTimeMS && a.retries <= l.retries - u.retries
  }

  lemma CanPayIsAffordable(row: Row, a: Limits)
    ensures CanPay(row, a) <==> Affordable(row, a)
  {
    EveryDimension(d => d != Subagents ==> Max(a, d) <= Max(row.limits, d) - Used(row.usage, d));
  }

  /** A new child gets a row of its own if and only if moreover the allocation is positive, deep enough, affordable,
      and the child unattached and without a budget: the parent pays exactly the allocation and one subagent, and the
      child's row, in the parent's tree, may spend exactly the allocation. */
  lemma AllocateExact(s: State, b: nat, child: int64, role: string, depth: int64, a: Limits)
    requires Bounded(s) && !Recorded(s, b, Inherited, child)
    ensures var (t, r) := Inherit(s, b, child, role, depth, Some(a));
            if !a.Valid() then r == Err(Invalid) && t == s
            else if !Attachable(s, b, child, depth) then r == Err(AttachmentRefusal(s, b, child, depth)) && t == s
            else if !CanPay(s.rows[b], a) then r == Err(ParentExhausted) && t == s
            else if depth > a.depth || child in s.attached || exists i | 0 <= i < |s.rows| :: s.rows[i].task == child
            then r == Err(Refused) && t == s
            else
              && r == Ok(|s.rows|) && |t.rows| == |s.rows| + 1
              && (forall i | 0 <= i < |s.rows| && i != b :: t.rows[i] == s.rows[i])
              && t.rows[b] == s.rows[b].(usage := t.rows[b].usage)
              && var u, v := s.rows[b].usage, t.rows[b].usage;
              && v.usd == u.usd + a.usd && v.tokens == u.tokens + a.tokens
              && v.modelCalls == u.modelCalls + a.modelCalls && v.wallTimeMS == u.wallTimeMS + a.wallTimeMS
              && v.retries == u.retries + a.retries
              && v.subagents == u.subagents + 1 && v.depth == (if depth > u.depth then depth else u.depth)
              && t.rows[|s.rows|] == Row(s.rows[b].organization, s.rows[b].rootTask, child, role, Some(b), a,
                                         Usage(0, 0, 0, 0, depth, 0, 0))
              && t.events == s.events + [Event(b, Inherited, child,
                                               Usage(a.usd, a.tokens, a.modelCalls, a.wallTimeMS, 0, a.retries, 1))]
              && t.attached == s.attached[child := |s.rows|]
  {
    RecordedIsFound(s, b, Inherited, child);
    if b < |s.rows| {
      assert RowBounded(s.rows[b]) && Used(s.rows[b].usage, Subagents) >= 0;
      CanPayIsAffordable(s.rows[b], a);
    }
  }

  /** A child already attached to b is answered with the same budget, and nothing changes. */
  lemma RepeatExact(s: State, b: nat, child: int64, role: string, depth: int64, allocation: Option<Limits>)
    requires Bounded(s) && b < |s.rows| && Recorded(s, b, Inherited, child)
    requires 0 < depth <= s.rows[b].limits.depth && child > 0 && (allocation.Some? ==> allocation.value.Valid())
    ensures var (t, r) := Inherit(s, b, child, role, depth, allocation);
            && t == s
            && (allocation.None? ==> r == Ok(b))
            && (allocation.Some? ==>
                  if exists i | 0 <= i < |s.rows| :: s.rows[i].task == child
                  then r.Ok? && r.value < |s.rows| && s.rows[r.value].task == child
                  else r == Err(NotFound))
  {
    RecordedIsFound(s, b, Inherited, child);
    assert RowBounded(s.rows[b]);
  }

  // ---------------------------------------------------------------------------------------------
  // The amounts asked for

  /** An admitted call: what it was admitted for, and what it was settled at. */
  datatype Cost = Cost(budget: nat, invocation: int64, asked: Usage, settled: Option<Usage>)

  /** What it costs now. A settlement replaces dollars and tokens, in 64-bit arithmetic. */
  function CostIn(c: Cost, d: Dim): int {
    Used(c.asked, d)
    + if c.settled.Some? && (d == USD || d == Tokens) then Wrap(Used(c.settled.value, d) - Used(c.asked, d)) else 0
  }

  function Position(costs: seq<Cost>, b: nat, invocation: int64): (r: Option<nat>)
    ensures r.Some? ==> r.value < |costs| && costs[r.value].budget == b && costs[r.value].invocation == invocation
    ensures r.None? ==> forall k | 0 <= k < |costs| :: !(costs[k].budget == b && costs[k].invocation == invocation)
  {
    if costs == [] then None
    else
      var last := costs[|costs| - 1];
      if last.budget == b && last.invocation == invocation then Some(|costs| - 1)
      else Position(costs[..|costs| - 1], b, invocation)
  }

  /** The calls admitted and settled so far, from requests and replies alone: an accepted charge admits its call the
      first time, an accepted settlement settles an admitted call the first time. */
  ghost function After(s: State, costs: seq<Cost>, op: Op): seq<Cost>
    requires Bounded(s)
  {
    match op
    case OpConsume(b, i, delta) =>
      if Position(costs, b, i).None? && Consume(s, b, i, delta).1.Ok? then costs + [Cost(b, i, delta, None)] else costs
    case OpSettle(b, i, actual) =>
      var k := Position(costs, b, i);
      if k.Some? && costs[k.value].settled.None? && Settle(s, b, i, actual).1.Ok?
      then costs[k.value := costs[k.value].(settled := Some(actual))] else costs
    case _ => costs
  }

  ghost function Costs(ops: seq<Op>): seq<Cost> {
    if ops == [] then []
    else After(Run(ops[..|ops| - 1]), Costs(ops[..|ops| - 1]), ops[|ops| - 1])
  }

  function Total(costs: seq<Cost>, b: nat, d: Dim): int {
    if costs == [] then 0
    else
      var last := costs[|costs| - 1];
      Total(costs[..|costs| - 1], b, d) + if last.budget == b then CostIn(last, d) else 0
  }

  lemma TotalAppend(costs: seq<Cost>, c: Cost, b: nat, d: Dim)
    ensures Total(costs + [c], b, d) == Total(costs, b, d) + if c.budget == b then CostIn(c, d) else 0
  {
    assert (costs + [c])[..|costs|] == costs;
  }

  lemma {:induction false} TotalUpdate(costs: seq<Cost>, k: nat, c: Cost, b: nat, d: Dim)
    requires k < |costs| && c.budget == costs[k].budget
    ensures Total(costs[k := c], b, d)
            == Total(costs, b, d) + if c.budget == b then CostIn(c, d) - CostIn(costs[k], d) else 0
  {
    var n := |costs| - 1;
    if k == n {
      assert costs[k := c][..n] == costs[..n];
    } else {
      assert costs[k := c][..n] == costs[..n][k := c];
      TotalUpdate(costs[..n], k, c, b, d);
    }
  }

  /** The log's entry for a call: charged as asked for, and settled if it was. */
  predicate Entered(s: State, c: Cost) {
    var i := Find(s.events, c.budget, Consumed, c.invocation);
    && i.Some? && s.events[i.value].delta == c.asked.(depth := 0, subagents := 0)
    && (c.settled.Some? <==> Find(s.events, c.budget, Reconciled, c.invocation).Some?)
  }

  ghost predicate Reflects(s: State, costs: seq<Cost>) {
    && (forall k | 0 <= k < |costs| :: Entered(s, costs[k]))
    && (forall b: nat, i: int64 :: Position(costs, b, i).Some? <==> Find(s.events, b, Consumed, i).Some?)
    && (forall b: nat, d: Dim | d != Subagents :: Own(s.events, b, d) == Total(costs, b, d))
    && (forall j, k | 0 <= j < k < |costs| ::
          !(costs[j].budget == costs[k].budget && costs[j].invocation == costs[k].invocation))
  }

  lemma FindAppend(events: seq<Event>, e: Event, b: nat, k: Kind, ref: int64)
    ensures Find(events + [e], b, k, ref) == if Keyed(e, b, k, ref) then Some(|events|) else Find(events, b, k, ref)
  {
    assert (events + [e])[..|events|] == events;
  }

  lemma PositionAppend(costs: seq<Cost>, c: Cost, b: nat, i: int64)
    ensures Position(costs + [c], b, i)
            == if c.budget == b && c.invocation == i then Some(|costs|) else Position(costs, b, i)
  {
    assert (costs + [c])[..|costs|] == costs;
  }

  lemma PositionUpdate(costs: seq<Cost>, k: nat, c: Cost, b: nat, i: int64)
    requires k < |costs| && c.budget == costs[k].budget && c.invocation == costs[k].invocation
    ensures Position(costs[k := c], b, i).Some? <==> Position(costs, b, i).Some?
  {
    var now := costs[k := c];
    forall j | 0 <= j < |costs| ensures now[j].budget == costs[j].budget && now[j].invocation == costs[j].invocation {}
  }

  /** An event that is no charge and no settlement. */
  lemma OtherEvent(s: State, t: State, costs: seq<Cost>, e: Event)
    requires Reflects(s, costs) && t.events == s.events + [e] && e.kind != Consumed && e.kind != Reconciled
    ensures Reflects(t, costs)
  {
    forall k | 0 <= k < |costs| ensures Entered(t, costs[k]) {
      FindAppend(s.events, e, costs[k].budget, Consumed, costs[k].invocation);
      FindAppend(s.events, e, costs[k].budget, Reconciled, costs[k].invocation);
      assert Entered(s, costs[k]);
    }
    forall b: nat, i: int64 ensures Position(costs, b, i).Some? <==> Find(t.events, b, Consumed, i).Some? {
      FindAppend(s.events, e, b, Consumed, i);
    }
    forall b: nat, d: Dim | d != Subagents ensures Own(t.events, b, d) == Total(costs, b, d) {
      Append(s.events, e, b, d);
    }
  }

  lemma ChargeReflected(s: State, t: State, costs: seq<Cost>, b: nat, i: int64, delta: Usage)
    requires Reflects(s, costs) && Find(s.events, b, Consumed, i).None? && Find(s.events, b, Reconciled, i).None?
    requires t.events == s.events + [Event(b, Consumed, i, delta.(depth := 0, subagents := 0))]
    ensures Reflects(t, costs + [Cost(b, i, delta, None)])
  {
    var e, c := Event(b, Consumed, i, delta.(depth := 0, subagents := 0)), Cost(b, i, delta, None);
    var now := costs + [c];
    forall k | 0 <= k < |now| ensures Entered(t, now[k]) {
      FindAppend(s.events, e, now[k].budget, Consumed, now[k].invocation);
      FindAppend(s.events, e, now[k].budget, Reconciled, now[k].invocation);
      if k < |costs| { assert Entered(s, costs[k]) && now[k] == costs[k]; }
    }
    forall x: nat, y: int64 ensures Position(now, x, y).Some? <==> Find(t.events, x, Consumed, y).Some? {
      FindAppend(s.events, e, x, Consumed, y);
      PositionAppend(costs, c, x, y);
    }
    forall x: nat, d: Dim | d != Subagents ensures Own(t.events, x, d) == Total(now, x, d) {
      Append(s.events, e, x, d);
      TotalAppend(costs, c, x, d);
    }
    assert Position(costs, b, i).None?;
  }

  lemma SettlementReflected(s: State, t: State, costs: seq<Cost>, k: nat, actual: Usage)
    requires Reflects(s, costs) && k < |costs| && costs[k].settled.None?
    requires var c := costs[k];
             t.events == s.events + [Event(c.budget, Reconciled, c.invocation,
                                           NO_USAGE.(usd := Wrap(actual.usd - c.asked.usd),
                                                     tokens := Wrap(actual.tokens - c.asked.tokens)))]
    ensures Reflects(t, costs[k := costs[k].(settled := Some(actual))])
  {
    var c := costs[k].(settled := Some(actual));
    var e, now := t.events[|s.events|], costs[k := c];
    forall j | 0 <= j < |now| ensures Entered(t, now[j]) {
      assert Entered(s, costs[j]);
      SettledEntry(s, t, costs[j], e);
      if j == k { SettledEntry(s, t, c, e); }
    }
    forall x: nat, y: int64 ensures Position(now, x, y).Some? <==> Find(t.events, x, Consumed, y).Some? {
      FindAppend(s.events, e, x, Consumed, y);
      PositionUpdate(costs, k, c, x, y);
    }
    forall x: nat, d: Dim | d != Subagents ensures Own(t.events, x, d) == Total(now, x, d) {
      SettledTotal(s, t, costs, k, c, e, x, d);
    }
  }

  lemma SettledEntry(s: State, t: State, c: Cost, e: Event)
    requires t.events == s.events + [e] && e.kind == Reconciled
    ensures Find(t.events, c.budget, Consumed, c.invocation) == Find(s.events, c.budget, Consumed, c.invocation)
    ensures Find(t.events, c.budget, Reconciled, c.invocation).Some?
            <==> Find(s.events, c.budget, Reconciled, c.invocation).Some?
                 || (e.budget == c.budget && e.ref == c.invocation)
  {
    FindAppend(s.events, e, c.budget, Consumed, c.invocation);
    FindAppend(s.events, e, c.budget, Reconciled, c.invocation);
  }

  lemma SettledTotal(s: State, t: State, costs: seq<Cost>, k: nat, c: Cost, e: Event, b: nat, d: Dim)
    requires k < |costs| && c.settled.Some? && costs[k] == c.(settled := None) && t.events == s.events + [e]
    requires e.kind == Reconciled && e.budget == c.budget
    requires e.delta == NO_USAGE.(usd := Wrap(c.settled.value.usd - c.asked.usd),
                                  tokens := Wrap(c.settled.value.tokens - c.asked.tokens))
    requires Own(s.events, b, d) == Total(costs, b, d)
    ensures Own(t.events, b, d) == Total(costs[k := c], b, d)
  {
    Append(s.events, e, b, d);
    TotalUpdate(costs, k, c, b, d);
  }

  /** A call not admitted has no settlement. */
  lemma UnsettledUntilAdmitted(s: State, b: nat, i: int64)
    requires Logged(s) && Find(s.events, b, Consumed, i).None?
    ensures Find(s.events, b, Reconciled, i).None?
  {
    forall j | 0 <= j < |s.events| ensures !Keyed(s.events[j], b, Reconciled, i) {
      if s.events[j].kind == Reconciled {
        var k :| 0 <= k < j && Keyed(s.events[k], s.events[j].budget, Consumed, s.events[j].ref);
      }
    }
  }

  lemma ConsumeReflected(s: State, costs: seq<Cost>, b: nat, i: int64, delta: Usage)
    requires WellFormed(s) && Reflects(s, costs)
    ensures Reflects(Consume(s, b, i, delta).0, After(s, costs, OpConsume(b, i, delta)))
  {
    var t := Consume(s, b, i, delta).0;
    ConsumeExact(s, b, i, delta);
    RecordedIsFound(s, b, Consumed, i);
    if t != s {
      UnsettledUntilAdmitted(s, b, i);
      ChargeReflected(s, t, costs, b, i, delta);
    }
  }

  lemma SettleReflected(s: State, costs: seq<Cost>, b: nat, i: int64, actual: Usage)
    requires WellFormed(s) && Reflects(s, costs)
    ensures Reflects(Settle(s, b, i, actual).0, After(s, costs, OpSettle(b, i, actual)))
  {
    var t, k := Settle(s, b, i, actual).0, Position(costs, b, i);
    if k.Some? { assert Entered(s, costs[k.value]); }
    if t != s { SettlementReflected(s, t, costs, k.value, actual); }
  }

  lemma OpReflected(s: State, costs: seq<Cost>, op: Op)
    requires WellFormed(s) && Reflects(s, costs)
    ensures Reflects(Apply(s, op), After(s, costs, op))
  {
    match op
    case OpConsume(b, i, delta) => ConsumeReflected(s, costs, b, i, delta);
    case OpSettle(b, i, actual) => SettleReflected(s, costs, b, i, actual);
    case OpCreateRoot(o, t, r, l) =>
      var s' := CreateRoot(s, o, t, r, l).0;
      if s' != s { OtherEvent(s, s', costs, s'.events[|s.events|]); }
    case OpInherit(b, c, r, h, a) =>
      var s' := Inherit(s, b, c, r, h, a).0;
      if s' != s { OtherEvent(s, s', costs, s'.events[|s.events|]); }
  }

  lemma {:induction false} RunReflected(ops: seq<Op>)
    ensures Reflects(Run(ops), Costs(ops))
  {
    if ops == [] {
      assert Reflects(EMPTY, []);
    } else {
      RunReflected(ops[..|ops| - 1]);
      OpReflected(Run(ops[..|ops| - 1]), Costs(ops[..|ops| - 1]), ops[|ops| - 1]);
    }
  }

  /** The ledger's promise: after any run whose settlements are exact, each account is what its distinct admitted
      calls cost, each counted once at the amounts its own requests carried, plus its children's allocations, and the
      own charges of a whole tree stay within its root's ceilings. In subagents an account is the number of children
      attached, and a whole tree stays within the ceilings of its rows. */
  lemma LedgerRun(ops: seq<Op>, b: nat, d: Dim)
    requires ExactRun(ops) && b < |Run(ops).rows|
    ensures var s := Run(ops);
            var t := s.rows[b].rootTask;
            if d == Subagents then
              && Used(s.rows[b].usage, d) == Attachments(s.events, b)
              && (s.rows[b].parent.None? ==> TreeAttached(s, t, |s.rows|) <= TreeCeiling(s.rows, t, |s.rows|))
            else
              && Used(s.rows[b].usage, d) == Total(Costs(ops), b, d) + Allocated(s.rows, b, d)
              && Total(Costs(ops), b, d) == Charges(s.events, b, d, |s.events|)
              && (s.rows[b].parent.None? ==> TreeOwn(s, t, d, |s.rows|) <= Max(s.rows[b].limits, d))
  {
    var s := Run(ops);
    RunBalanced(ops);
    RunReflected(ops);
    assert Agrees(s, b);
    AdmittedInLog(s);
    ChargedOnce(s.events, b, d);
    if s.rows[b].parent.None? { TreeWithinRoot(s, b, d); }
  }

  /** A call that reported no negative cost costs what it reported, in dollars and tokens, and otherwise what it was
      admitted for. */
  lemma CostIsReported(c: Cost, d: Dim)
    requires Used(c.asked, d) >= 0 && (c.settled.Some? ==> Used(c.settled.value, d) >= 0)
    ensures CostIn(c, d) == if c.settled.Some? && d in {USD, Tokens} then Used(c.settled.value, d) else Used(c.asked, d)
  {
  }
}
