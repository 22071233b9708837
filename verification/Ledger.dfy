/** The budget ledger: a forest of budget rows, an append-only event log whose unique key
    (budget, kind, reference) is the idempotency key of every operation, and the task attachments
    (internal/agentbudget/ports.go, internal/agentbudget/postgres/store.go and its schema).
    A budget's id is its position in `rows`; every operation is one transaction. */
module Ledger {
  import opened Prelude
  import opened AgentBudget

  datatype Row = Row(organization: string, rootTask: int64, task: int64, role: string,
                     parent: Option<nat>, limits: Limits, usage: Usage)

  datatype Kind = Created | Inherited | Consumed | Reconciled

  datatype Event = Event(budget: nat, kind: Kind, ref: int64, delta: Usage)

  datatype State = State(rows: seq<Row>, events: seq<Event>, attached: map<int64, nat>)

  /** Refused: a constraint of the schema aborted the transaction. */
  datatype Error = Invalid | Exceeded | NotFound | Conflict | ParentExhausted | Refused

  const EMPTY := State([], [], map[])

  // ---------------------------------------------------------------------------------------------
  // Lookups

  function RowFor(rows: seq<Row>, task: int64): (r: Option<nat>)
    ensures r.Some? ==> r.value < |rows| && rows[r.value].task == task
    ensures r.None? ==> forall i | 0 <= i < |rows| :: rows[i].task != task
  {
    if rows == [] then None
    else if rows[|rows| - 1].task == task then Some(|rows| - 1)
    else RowFor(rows[..|rows| - 1], task)
  }

  predicate Keyed(e: Event, b: nat, k: Kind, ref: int64) {
    e.budget == b && e.kind == k && e.ref == ref
  }

  function Find(events: seq<Event>, b: nat, k: Kind, ref: int64): (r: Option<nat>)
    ensures r.Some? ==> r.value < |events| && Keyed(events[r.value], b, k, ref)
    ensures r.None? ==> forall i | 0 <= i < |events| :: !Keyed(events[i], b, k, ref)
  {
    if events == [] then None
    else if Keyed(events[|events| - 1], b, k, ref) then Some(|events| - 1)
    else Find(events[..|events| - 1], b, k, ref)
  }

  function Attach(attached: map<int64, nat>, task: int64, b: nat): map<int64, nat> {
    if task in attached then attached else attached[task := b]
  }

  function Charge(row: Row, usage: Usage): Row {
    row.(usage := usage)
  }

  // ---------------------------------------------------------------------------------------------
  // The four operations

  predicate SameRootBudget(r: Row, organization: string, task: int64, role: string, limits: Limits) {
    r.organization == organization && r.rootTask == task && r.task == task && r.role == role
    && r.parent.None? && r.limits == limits
  }

  function CreateRoot(s: State, organization: string, task: int64, role: string, limits: Limits)
    : (State, Result<nat, Error>)
  {
    if !limits.Valid() then (s, Err(Invalid))
    else match RowFor(s.rows, task)
      case None =>
        if task <= 0 then (s, Err(Refused))
        else
          var row := Row(organization, task, task, role, None, limits, NO_USAGE.(depth := 1));
          (State(s.rows + [row], s.events + [Event(|s.rows|, Created, task, NO_USAGE.(depth := 1))],
                 Attach(s.attached, task, |s.rows|)), Ok(|s.rows|))
      case Some(b) =>
        if SameRootBudget(s.rows[b], organization, task, role, limits) then (s, Ok(b)) else (s, Err(Conflict))
  }

  function Deeper(u: Usage, depth: int64): int64 {
    if depth > u.depth then depth else u.depth
  }

  predicate Affordable(row: Row, a: Limits) {
    forall d: Dim | d != Subagents :: Max(a, d) <= Max(row.limits, d) - Used(row.usage, d)
  }

  /** The parent's account after committing an allocation to a child. */
  function Commit(u: Usage, a: Limits, depth: int64): Usage
    requires u.usd + a.usd <= MAX64 && u.tokens + a.tokens <= MAX64 && u.modelCalls + a.modelCalls <= MAX64
    requires u.wallTimeMS + a.wallTimeMS <= MAX64 && u.retries + a.retries <= MAX64 && u.subagents < MAX64
    requires u.usd >= 0 && u.tokens >= 0 && u.modelCalls >= 0 && u.wallTimeMS >= 0 && u.retries >= 0
    requires u.subagents >= 0 && a.Valid()
  {
    Usage(u.usd + a.usd, u.tokens + a.tokens, u.modelCalls + a.modelCalls, u.wallTimeMS + a.wallTimeMS,
          Deeper(u, depth), u.retries + a.retries, u.subagents + 1)
  }

  function Allocation(a: Limits): Usage {
    Usage(a.usd, a.tokens, a.modelCalls, a.wallTimeMS, 0, a.retries, 1)
  }

  function Inherit(s: State, b: nat, child: int64, role: string, depth: int64, allocation: Option<Limits>)
    : (State, Result<nat, Error>)
    requires Bounded(s)
  {
    if depth <= 0 || (allocation.Some? && !allocation.value.Valid()) then (s, Err(Invalid))
    else if b >= |s.rows| then (s, Err(NotFound))
    else
      var parent := s.rows[b];
      var u := parent.usage;
      assert RowBounded(parent) && Used(u, Subagents) <= Max(parent.limits, Subagents);
      if depth > parent.limits.depth then (s, Err(Exceeded))
      else if child <= 0 then (s, Err(Refused))
      else if Find(s.events, b, Inherited, child).Some? then
        if allocation.None? then (s, Ok(b))
        else match RowFor(s.rows, child) { case Some(c) => (s, Ok(c)) case None => (s, Err(NotFound)) }
      else if u.subagents + 1 > parent.limits.subagents then (s, Err(Exceeded))
      else if allocation.None? then
        assert RowBounded(parent);
        (State(s.rows[b := Charge(parent, u.(depth := Deeper(u, depth), subagents := u.subagents + 1))],
               s.events + [Event(b, Inherited, child, NO_USAGE.(subagents := 1))],
               Attach(s.attached, child, b)), Ok(b))
      else
        var a := allocation.value;
        if !Affordable(parent, a) then (s, Err(ParentExhausted))
        else if RowFor(s.rows, child).Some? || depth > a.depth || child in s.attached then (s, Err(Refused))
        else
          CommitFits(parent, a);
          var row := Row(parent.organization, parent.rootTask, child, role, Some(b), a, NO_USAGE.(depth := depth));
          (State(s.rows[b := Charge(parent, Commit(u, a, depth))] + [row],
                 s.events + [Event(b, Inherited, child, Allocation(a))],
                 s.attached[child := |s.rows|]), Ok(|s.rows|))
  }

  function Consume(s: State, b: nat, invocation: int64, delta: Usage): (State, Result<(), Error>) {
    if b >= |s.rows| then (s, Err(NotFound))
    else if invocation <= 0 then (s, Err(Refused))
    else if Find(s.events, b, Consumed, invocation).Some? then (s, Ok(()))
    else
      var row := s.rows[b];
      match Reserve(row.usage, delta, row.limits)
      case Err(InvalidRequest) => (s, Err(Invalid))
      case Err(BudgetExceeded) => (s, Err(Exceeded))
      case Ok(next) =>
        (State(s.rows[b := Charge(row, next.(depth := row.usage.depth, subagents := row.usage.subagents))],
               s.events + [Event(b, Consumed, invocation, delta.(depth := 0, subagents := 0))], s.attached),
         Ok(()))
  }

  /** The register arithmetic of one settled column: a 64-bit correction, added, clamped at zero. */
  function Settled(used: int64, charged: int64, actual: int64): (r: int64)
    ensures r >= 0
    ensures r == used + Wrap(actual - charged) <==> 0 <= used + Wrap(actual - charged) <= MAX64
    ensures used >= 0 && !(0 <= used + Wrap(actual - charged) <= MAX64) ==> r == 0
  {
    var sum := Wrap(used + Wrap(actual - charged));
    if sum < 0 then 0 else sum
  }

  function Settle(s: State, b: nat, invocation: int64, actual: Usage): (State, Result<(), Error>) {
    if b >= |s.rows| then (s, Err(NotFound))
    else match Find(s.events, b, Consumed, invocation)
      case None => (s, Ok(()))
      case Some(i) =>
        if Find(s.events, b, Reconciled, invocation).Some? then (s, Ok(()))
        else
          var row, charged := s.rows[b], s.events[i].delta;
          var usd := Settled(row.usage.usd, charged.usd, actual.usd);
          var tokens := Settled(row.usage.tokens, charged.tokens, actual.tokens);
          if usd > row.limits.usd || tokens > row.limits.tokens then (s, Err(Refused))
          else
            (State(s.rows[b := Charge(row, row.usage.(usd := usd, tokens := tokens))],
                   s.events + [Event(b, Reconciled, invocation,
                                     NO_USAGE.(usd := Wrap(actual.usd - charged.usd),
                                               tokens := Wrap(actual.tokens - charged.tokens)))],
                   s.attached), Ok(()))
  }

  // ---------------------------------------------------------------------------------------------
  // What every operation keeps

  ghost predicate RowBounded(r: Row) {
    && r.limits.Valid()
    && 1 <= r.usage.depth <= r.limits.depth
    && forall d: Dim :: 0 <= Used(r.usage, d) <= Max(r.limits, d)
  }

  /** No account is ever negative or above a ceiling. */
  ghost predicate Bounded(s: State) {
    forall i | 0 <= i < |s.rows| :: RowBounded(s.rows[i])
  }

  /** Rows form a forest in which a parent is older than its children and shares their root. */
  ghost predicate Forest(rows: seq<Row>) {
    && (forall i, j | 0 <= i < j < |rows| :: rows[i].task != rows[j].task)
    && (forall i | 0 <= i < |rows| && rows[i].parent.None? :: rows[i].rootTask == rows[i].task)
    && (forall i | 0 <= i < |rows| && rows[i].parent.Some? ::
          rows[i].parent.value < i && rows[rows[i].parent.value].rootTask == rows[i].rootTask)
  }

  /** The log holds each key once, names existing budgets, and settles only what was charged. */
  ghost predicate Logged(s: State) {
    && (forall i | 0 <= i < |s.events| :: s.events[i].budget < |s.rows|)
    && (forall i, j | 0 <= i < j < |s.events| ::
          !Keyed(s.events[j], s.events[i].budget, s.events[i].kind, s.events[i].ref))
    && (forall j | 0 <= j < |s.events| && s.events[j].kind == Reconciled ::
          exists i | 0 <= i < j :: Keyed(s.events[i], s.events[j].budget, Consumed, s.events[j].ref))
  }

  ghost predicate WellFormed(s: State) {
    Bounded(s) && Forest(s.rows) && Logged(s)
  }

  /** What the log says budget b was itself charged in dimension d. */
  function Own(events: seq<Event>, b: nat, d: Dim): int {
    if events == [] then 0
    else
      var e := events[|events| - 1];
      Own(events[..|events| - 1], b, d)
      + if e.budget == b && (e.kind == Consumed || e.kind == Reconciled) then Used(e.delta, d) else 0
  }

  /** What budget b has permanently committed to its children in dimension d. */
  function Allocated(rows: seq<Row>, b: nat, d: Dim): int {
    if rows == [] then 0
    else
      var r := rows[|rows| - 1];
      Allocated(rows[..|rows| - 1], b, d) + if r.parent == Some(b) then Max(r.limits, d) else 0
  }

  function Attachments(events: seq<Event>, b: nat): int {
    if events == [] then 0
    else
      var e := events[|events| - 1];
      Attachments(events[..|events| - 1], b) + if e.budget == b && e.kind == Inherited then 1 else 0
  }

  ghost predicate Agrees(s: State, b: nat)
    requires b < |s.rows|
  {
    && s.rows[b].usage.subagents == Attachments(s.events, b)
    && forall d: Dim | d != Subagents :: Used(s.rows[b].usage, d) == Own(s.events, b, d) + Allocated(s.rows, b, d)
  }

  /** Every account is exactly its own charges plus its children's allocations. */
  ghost predicate Balanced(s: State) {
    forall b | 0 <= b < |s.rows| :: Agrees(s, b)
  }

  lemma CommitFits(row: Row, a: Limits)
    requires RowBounded(row) && a.Valid() && Affordable(row, a)
    requires row.usage.subagents + 1 <= row.limits.subagents
    ensures var u := row.usage;
            && 0 <= u.usd <= u.usd + a.usd <= row.limits.usd
            && 0 <= u.tokens <= u.tokens + a.tokens <= row.limits.tokens
            && 0 <= u.modelCalls <= u.modelCalls + a.modelCalls <= row.limits.modelCalls
            && 0 <= u.wallTimeMS <= u.wallTimeMS + a.wallTimeMS <= row.limits.wallTimeMS
            && 0 <= u.retries <= u.retries + a.retries <= row.limits.retries
            && 0 <= u.subagents
  {
    assert Used(row.usage, USD) >= 0 && Used(row.usage, Tokens) >= 0 && Used(row.usage, ModelCalls) >= 0
           && Used(row.usage, WallTime) >= 0 && Used(row.usage, Retries) >= 0 && Used(row.usage, Subagents) >= 0;
    assert Max(a, USD) <= Max(row.limits, USD) - Used(row.usage, USD);
    assert Max(a, Tokens) <= Max(row.limits, Tokens) - Used(row.usage, Tokens);
    assert Max(a, ModelCalls) <= Max(row.limits, ModelCalls) - Used(row.usage, ModelCalls);
    assert Max(a, WallTime) <= Max(row.limits, WallTime) - Used(row.usage, WallTime);
    assert Max(a, Retries) <= Max(row.limits, Retries) - Used(row.usage, Retries);
  }

  // ---------------------------------------------------------------------------------------------
  // The sums, one event or row at a time

  lemma Append(s: seq<Event>, e: Event, b: nat, d: Dim)
    ensures Own(s + [e], b, d) == Own(s, b, d)
            + if e.budget == b && (e.kind == Consumed || e.kind == Reconciled) then Used(e.delta, d) else 0
    ensures Attachments(s + [e], b) == Attachments(s, b) + if e.budget == b && e.kind == Inherited then 1 else 0
  {
    assert (s + [e])[..|s|] == s;
  }

  lemma AppendRow(rows: seq<Row>, r: Row, b: nat, d: Dim)
    ensures Allocated(rows + [r], b, d) == Allocated(rows, b, d) + if r.parent == Some(b) then Max(r.limits, d) else 0
  {
    assert (rows + [r])[..|rows|] == rows;
  }

  /** Charging a row commits nothing to anybody. */
  lemma {:induction false} ChargeKeepsAllocated(rows: seq<Row>, i: nat, u: Usage, b: nat, d: Dim)
    requires i < |rows|
    ensures Allocated(rows[i := Charge(rows[i], u)], b, d) == Allocated(rows, b, d)
  {
    var n := |rows| - 1;
    var after := rows[i := Charge(rows[i], u)];
    if i == n {
      assert after[..n] == rows[..n];
    } else {
      assert after[..n] == rows[..n][i := Charge(rows[i], u)];
      ChargeKeepsAllocated(rows[..n], i, u, b, d);
    }
  }

  // ---------------------------------------------------------------------------------------------
  // Each operation keeps the ledger well formed; all but an inexact settlement keep it balanced

  lemma NewKey(s: State, e: Event, rows: seq<Row>)
    requires Logged(s) && Find(s.events, e.budget, e.kind, e.ref).None?
    requires |rows| >= |s.rows| && e.budget < |rows|
    requires e.kind == Reconciled ==> Find(s.events, e.budget, Consumed, e.ref).Some?
    ensures Logged(State(rows, s.events + [e], s.attached))
  {
    var log := s.events + [e];
    forall j | 0 <= j < |log| && log[j].kind == Reconciled
      ensures exists i | 0 <= i < j :: Keyed(log[i], log[j].budget, Consumed, log[j].ref)
    {
      if j < |s.events| {
        var i :| 0 <= i < j && Keyed(s.events[i], log[j].budget, Consumed, log[j].ref);
        assert Keyed(log[i], log[j].budget, Consumed, log[j].ref);
      } else {
        var i := Find(s.events, e.budget, Consumed, e.ref).value;
        assert Keyed(log[i], log[j].budget, Consumed, log[j].ref);
      }
    }
  }

  /** An id not yet handed out has no charges, no attachments and no children. */
  lemma Unborn(s: State, b: nat, d: Dim)
    requires Logged(s) && Forest(s.rows) && b >= |s.rows|
    ensures Own(s.events, b, d) == 0 && Attachments(s.events, b) == 0 && Allocated(s.rows, b, d) == 0
  {
    NoEvents(s.events, b, d);
    NoChildren(s.rows, b, d);
  }

  lemma {:induction false} NoEvents(events: seq<Event>, b: nat, d: Dim)
    requires forall i | 0 <= i < |events| :: events[i].budget != b
    ensures Own(events, b, d) == 0 && Attachments(events, b) == 0
  {
    if events != [] { NoEvents(events[..|events| - 1], b, d); }
  }

  lemma {:induction false} NoChildren(rows: seq<Row>, b: nat, d: Dim)
    requires forall i | 0 <= i < |rows| :: rows[i].parent != Some(b)
    ensures Allocated(rows, b, d) == 0
  {
    if rows != [] { NoChildren(rows[..|rows| - 1], b, d); }
  }

  /** Charging account b and logging it keeps the ledger well formed ... */
  lemma ChargeKeeps(s: State, b: nat, u: Usage, e: Event, attached: map<int64, nat>)
    requires WellFormed(s) && b < |s.rows| && RowBounded(Charge(s.rows[b], u)) && e.budget == b
    requires Find(s.events, b, e.kind, e.ref).None?
    requires e.kind == Reconciled ==> Find(s.events, b, Consumed, e.ref).Some?
    ensures WellFormed(State(s.rows[b := Charge(s.rows[b], u)], s.events + [e], attached))
  {
    NewKey(s, e, s.rows[b := Charge(s.rows[b], u)]);
  }

  /** ... and balanced exactly when the account moved by what was logged. */
  lemma ChargeBalances(s: State, b: nat, u: Usage, e: Event, attached: map<int64, nat>)
    requires Balanced(s) && b < |s.rows| && e.budget == b
    ensures Balanced(State(s.rows[b := Charge(s.rows[b], u)], s.events + [e], attached)) <==>
            && u.subagents == s.rows[b].usage.subagents + (if e.kind == Inherited then 1 else 0)
            && forall d: Dim | d != Subagents ::
                 Used(u, d) == Used(s.rows[b].usage, d)
                               + if e.kind == Consumed || e.kind == Reconciled then Used(e.delta, d) else 0
  {
    var s' := State(s.rows[b := Charge(s.rows[b], u)], s.events + [e], attached);
    forall i, d: Dim | 0 <= i < |s.rows|
      ensures Allocated(s'.rows, i, d) == Allocated(s.rows, i, d)
      ensures Own(s'.events, i, d) == Own(s.events, i, d)
              + if i == b && (e.kind == Consumed || e.kind == Reconciled) then Used(e.delta, d) else 0
      ensures Attachments(s'.events, i) == Attachments(s.events, i) + if i == b && e.kind == Inherited then 1 else 0
    {
      Append(s.events, e, i, d);
      ChargeKeepsAllocated(s.rows, b, u, i, d);
    }
    forall i | 0 <= i < |s.rows| && i != b ensures Agrees(s', i) {
      assert Agrees(s, i) && Attachments(s'.events, i) == Attachments(s.events, i);
    }
    assert Agrees(s, b);
    forall d: Dim | d != Subagents
      ensures Used(u, d) == Own(s'.events, b, d) + Allocated(s'.rows, b, d) <==>
              Used(u, d) == Used(s.rows[b].usage, d)
                            + if e.kind == Consumed || e.kind == Reconciled then Used(e.delta, d) else 0
    {}
    assert Balanced(s') <==> Agrees(s', b);
  }

  /** A new row at the end: a fresh account, with nothing charged and nothing committed. */
  lemma RowKeeps(s: State, row: Row, e: Event, attached: map<int64, nat>)
    requires WellFormed(s) && RowBounded(row) && RowFor(s.rows, row.task).None?
    requires row.parent.None? ==> row.rootTask == row.task
    requires row.parent.Some? ==> row.parent.value < |s.rows| && s.rows[row.parent.value].rootTask == row.rootTask
    requires e.budget <= |s.rows| && Find(s.events, e.budget, e.kind, e.ref).None? && e.kind != Reconciled
    ensures WellFormed(State(s.rows + [row], s.events + [e], attached))
  {
    NewKey(s, e, s.rows + [row]);
    var rows := s.rows + [row];
    forall i | 0 <= i < |rows| ensures RowBounded(rows[i]) {}
  }

  lemma RootBalances(s: State, row: Row, e: Event, attached: map<int64, nat>)
    requires WellFormed(s) && Balanced(s) && row.parent.None? && e.kind == Created
    requires forall d: Dim :: Used(row.usage, d) == 0
    ensures Balanced(State(s.rows + [row], s.events + [e], attached))
  {
    var s' := State(s.rows + [row], s.events + [e], attached);
    assert Used(row.usage, Subagents) == 0;
    forall i | 0 <= i < |s'.rows| ensures Agrees(s', i) {
      if i < |s.rows| { assert Agrees(s, i); }
      forall d: Dim
        ensures s'.rows[i].usage.subagents == Attachments(s'.events, i)
        ensures d != Subagents ==> Used(s'.rows[i].usage, d) == Own(s'.events, i, d) + Allocated(s'.rows, i, d)
      {
        Append(s.events, e, i, d);
        AppendRow(s.rows, row, i, d);
        if i == |s.rows| { Unborn(s, i, d); }
      }
    }
  }

  lemma CreateRootKeeps(s: State, organization: string, task: int64, role: string, limits: Limits)
    requires WellFormed(s)
    ensures WellFormed(CreateRoot(s, organization, task, role, limits).0)
    ensures Balanced(s) ==> Balanced(CreateRoot(s, organization, task, role, limits).0)
  {
    var s' := CreateRoot(s, organization, task, role, limits).0;
    if s' != s {
      var row, e := s'.rows[|s.rows|], s'.events[|s.events|];
      forall d: Dim ensures Used(row.usage, d) == 0 <= Max(limits, d) {}
      RowKeeps(s, row, e, s'.attached);
      if Balanced(s) { RootBalances(s, row, e, s'.attached); }
    }
  }

  lemma ConsumeKeeps(s: State, b: nat, invocation: int64, delta: Usage)
    requires WellFormed(s)
    ensures WellFormed(Consume(s, b, invocation, delta).0)
    ensures Balanced(s) ==> Balanced(Consume(s, b, invocation, delta).0)
  {
    var s' := Consume(s, b, invocation, delta).0;
    if s' != s {
      var row, e, u := s.rows[b], s'.events[|s.events|], s'.rows[b].usage;
      ReserveExact(row.usage, delta, row.limits);
      var next := Reserve(row.usage, delta, row.limits).value;
      forall d: Dim
        ensures 0 <= Used(u, d) <= Max(row.limits, d)
        ensures d != Subagents ==> Used(u, d) == Used(row.usage, d) + Used(e.delta, d)
      {
        assert Used(next, d) == Used(row.usage, d) + Used(delta, d) && Used(delta, d) >= 0;
        assert RowBounded(row) && 0 <= Used(row.usage, d) <= Max(row.limits, d);
      }
      ChargeKeeps(s, b, u, e, s.attached);
      if Balanced(s) { ChargeBalances(s, b, u, e, s.attached); }
    }
  }

  lemma ShareKeeps(s: State, b: nat, child: int64, role: string, depth: int64)
    requires WellFormed(s)
    ensures WellFormed(Inherit(s, b, child, role, depth, None).0)
    ensures Balanced(s) ==> Balanced(Inherit(s, b, child, role, depth, None).0)
  {
    var s' := Inherit(s, b, child, role, depth, None).0;
    if s' != s {
      var row, e, u := s.rows[b], s'.events[|s.events|], s'.rows[b].usage;
      assert RowBounded(row);
      forall d: Dim
        ensures 0 <= Used(u, d) <= Max(row.limits, d)
        ensures d != Subagents ==> Used(u, d) == Used(row.usage, d)
      {
        assert 0 <= Used(row.usage, d) <= Max(row.limits, d);
      }
      ChargeKeeps(s, b, u, e, s'.attached);
      if Balanced(s) { ChargeBalances(s, b, u, e, s'.attached); }
    }
  }

  /** Committing an allocation: what the parent pays is what the child may spend. */
  lemma AllocationBalances(s: State, b: nat, u: Usage, row: Row, e: Event, attached: map<int64, nat>)
    requires WellFormed(s) && Balanced(s) && b < |s.rows| && row.parent == Some(b)
    requires e.budget == b && e.kind == Inherited
    requires u.subagents == s.rows[b].usage.subagents + 1
    requires forall d: Dim | d != Subagents :: Used(u, d) == Used(s.rows[b].usage, d) + Max(row.limits, d)
    requires forall d: Dim :: Used(row.usage, d) == 0
    ensures Balanced(State(s.rows[b := Charge(s.rows[b], u)] + [row], s.events + [e], attached))
  {
    var charged := s.rows[b := Charge(s.rows[b], u)];
    var s' := State(charged + [row], s.events + [e], attached);
    assert Used(row.usage, Subagents) == 0;
    forall i | 0 <= i < |s'.rows| ensures Agrees(s', i) {
      if i < |s.rows| { assert Agrees(s, i); }
      forall d: Dim
        ensures s'.rows[i].usage.subagents == Attachments(s'.events, i)
        ensures d != Subagents ==> Used(s'.rows[i].usage, d) == Own(s'.events, i, d) + Allocated(s'.rows, i, d)
      {
        Append(s.events, e, i, d);
        ChargeKeepsAllocated(s.rows, b, u, i, d);
        AppendRow(charged, row, i, d);
        if i == |s.rows| { Unborn(s, i, d); }
      }
    }
  }

  lemma ChargedWellFormed(s: State, b: nat, u: Usage, attached: map<int64, nat>)
    requires WellFormed(s) && b < |s.rows| && RowBounded(Charge(s.rows[b], u))
    ensures WellFormed(State(s.rows[b := Charge(s.rows[b], u)], s.events, attached))
  {
  }

  lemma AllocateKeeps(s: State, b: nat, child: int64, role: string, depth: int64, a: Limits)
    requires WellFormed(s)
    ensures WellFormed(Inherit(s, b, child, role, depth, Some(a)).0)
    ensures Balanced(s) ==> Balanced(Inherit(s, b, child, role, depth, Some(a)).0)
    ensures var s' := Inherit(s, b, child, role, depth, Some(a)).0;
            s' != s ==>
              && b < |s.rows| && |s'.rows| == |s.rows| + 1 && s'.rows[|s.rows|].limits == a
              && forall d: Dim ::
                   Used(s'.rows[b].usage, d) == Used(s.rows[b].usage, d) + if d == Subagents then 1 else Max(a, d)
  {
    var s' := Inherit(s, b, child, role, depth, Some(a)).0;
    if s' != s {
      var parent, row := s.rows[b], s'.rows[|s.rows|];
      var e, u := s'.events[|s.events|], s'.rows[b].usage;
      assert RowBounded(parent);
      CommitFits(parent, a);
      forall d: Dim
        ensures 0 <= Used(u, d) <= Max(parent.limits, d)
        ensures d != Subagents ==> Used(u, d) == Used(parent.usage, d) + Max(a, d)
        ensures Used(row.usage, d) == 0 <= Max(a, d)
      {
        assert 0 <= Used(parent.usage, d) <= Max(parent.limits, d);
      }
      var charged := State(s.rows[b := Charge(parent, u)], s.events, s'.attached);
      ChargedWellFormed(s, b, u, s'.attached);
      assert RowFor(charged.rows, child).None?;
      RowKeeps(charged, row, e, s'.attached);
      if Balanced(s) { AllocationBalances(s, b, u, row, e, s'.attached); }
    }
  }

  /** The corrected account, before clamping, is one a 64-bit column can hold. */
  predicate Exact(s: State, b: nat, invocation: int64, actual: Usage) {
    b < |s.rows| && Find(s.events, b, Consumed, invocation).Some? ==>
      var u, charged := s.rows[b].usage, s.events[Find(s.events, b, Consumed, invocation).value].delta;
      && 0 <= u.usd + Wrap(actual.usd - charged.usd) <= MAX64
      && 0 <= u.tokens + Wrap(actual.tokens - charged.tokens) <= MAX64
  }

  /** A settlement always leaves every account within its ceilings. One that is applied to a balanced
      ledger leaves it balanced exactly when the corrected account fits in [0, 2^63 - 1]: a negative
      result is clamped to zero, and so is one that overflows the register. */
  lemma SettleKeeps(s: State, b: nat, invocation: int64, actual: Usage)
    requires WellFormed(s)
    ensures var s' := Settle(s, b, invocation, actual).0;
            && WellFormed(s')
            && (Balanced(s) && s' != s ==> (Balanced(s') <==> Exact(s, b, invocation, actual)))
  {
    var s' := Settle(s, b, invocation, actual).0;
    if s' != s {
      var row, e, u := s.rows[b], s'.events[|s.events|], s'.rows[b].usage;
      assert RowBounded(row);
      forall d: Dim
        ensures 0 <= Used(u, d) <= Max(row.limits, d)
        ensures d != USD && d != Tokens ==> Used(u, d) == Used(row.usage, d) + Used(e.delta, d)
      {
        assert 0 <= Used(row.usage, d) <= Max(row.limits, d);
      }
      ChargeKeeps(s, b, u, e, s.attached);
      if Balanced(s) {
        ChargeBalances(s, b, u, e, s.attached);
        assert Used(u, USD) == Used(row.usage, USD) + Used(e.delta, USD) <==>
               0 <= row.usage.usd + e.delta.usd <= MAX64;
        assert Used(u, Tokens) == Used(row.usage, Tokens) + Used(e.delta, Tokens) <==>
               0 <= row.usage.tokens + e.delta.tokens <= MAX64;
      }
    }
  }
}
