/** What the ledger guarantees over every run of operations, with any repetition of calls. */
module LedgerTheorems {
  import opened Prelude
  import opened AgentBudget
  import opened Ledger

  // ---------------------------------------------------------------------------------------------
  // Each invocation is counted once

  function Correction(events: seq<Event>, b: nat, ref: int64, d: Dim): int {
    match Find(events, b, Reconciled, ref)
    case Some(i) => Used(events[i].delta, d)
    case None => 0
  }

  /** What an admitted invocation costs now: its charge, corrected once it has been settled. */
  function ChargeOf(events: seq<Event>, i: nat, d: Dim): int
    requires i < |events|
  {
    Used(events[i].delta, d) + Correction(events, events[i].budget, events[i].ref, d)
  }

  /** The current charges of the invocations budget b admitted in the first n events. */
  function Charges(events: seq<Event>, b: nat, d: Dim, n: nat): int
    requires n <= |events|
  {
    if n == 0 then 0
    else Charges(events, b, d, n - 1)
         + if events[n - 1].budget == b && events[n - 1].kind == Consumed then ChargeOf(events, n - 1, d) else 0
  }

  ghost predicate Admitted(events: seq<Event>, n: nat, b: nat, ref: int64)
    requires n <= |events|
  {
    exists i | 0 <= i < n :: Keyed(events[i], b, Consumed, ref)
  }

  ghost predicate Distinct(events: seq<Event>) {
    forall i, j | 0 <= i < j < |events| :: !Keyed(events[j], events[i].budget, events[i].kind, events[i].ref)
  }

  /** One more event moves the current charges by its own amount, if it settles an admitted invocation. */
  lemma {:induction false} ChargesExtend(log: seq<Event>, e: Event, b: nat, d: Dim, n: nat)
    requires n <= |log| && Distinct(log + [e])
    ensures Charges(log + [e], b, d, n) == Charges(log, b, d, n)
            + if e.budget == b && e.kind == Reconciled && Admitted(log, n, b, e.ref) then Used(e.delta, d) else 0
  {
    if n > 0 {
      ChargesExtend(log, e, b, d, n - 1);
      assert (log + [e])[n - 1] == log[n - 1];
      if log[n - 1].budget == b && log[n - 1].kind == Consumed { ChargeExtends(log, e, b, d, n - 1); }
      AdmittedOneMore(log, e, b, n - 1);
    }
  }

  predicate Settles(e: Event, x: Event) {
    e.kind == Reconciled && x.kind == Consumed && e.budget == x.budget && e.ref == x.ref
  }

  /** The new event changes the charge of the invocation it settles, and of no other. */
  lemma ChargeExtends(log: seq<Event>, e: Event, b: nat, d: Dim, i: nat)
    requires i < |log| && log[i].budget == b && log[i].kind == Consumed && Distinct(log + [e])
    ensures ChargeOf(log + [e], i, d) == ChargeOf(log, i, d) + if Settles(e, log[i]) then Used(e.delta, d) else 0
  {
    var after := log + [e];
    assert after[..|log|] == log && after[|log|] == e && after[i] == log[i];
    if Settles(e, log[i]) {
      assert Find(log, b, Reconciled, e.ref).None? by {
        forall j | 0 <= j < |log| ensures !Keyed(log[j], b, Reconciled, e.ref) { assert after[j] == log[j]; }
      }
    }
  }

  lemma AdmittedOneMore(log: seq<Event>, e: Event, b: nat, i: nat)
    requires i < |log| && Distinct(log + [e])
    ensures e.kind == Reconciled && e.budget == b ==>
              if log[i].budget == b && Settles(e, log[i]) then
                  Admitted(log, i + 1, b, e.ref) && !Admitted(log, i, b, e.ref)
              else Admitted(log, i + 1, b, e.ref) == Admitted(log, i, b, e.ref)
  {
    var after := log + [e];
    assert forall j | 0 <= j < |log| :: after[j] == log[j];
    if e.kind == Reconciled && e.budget == b {
      if log[i].budget == b && Settles(e, log[i]) {
        assert Keyed(log[i], b, Consumed, e.ref);
        forall j | 0 <= j < i ensures !Keyed(log[j], b, Consumed, e.ref) {
          assert !Keyed(after[i], after[j].budget, after[j].kind, after[j].ref);
        }
      } else if Admitted(log, i + 1, b, e.ref) {
        var j :| 0 <= j < i + 1 && Keyed(log[j], b, Consumed, e.ref);
      }
    }
  }

  ghost predicate SettlesAdmitted(events: seq<Event>) {
    forall j | 0 <= j < |events| && events[j].kind == Reconciled ::
      Admitted(events, j, events[j].budget, events[j].ref)
  }

  lemma AdmittedInLog(s: State)
    requires Logged(s)
    ensures SettlesAdmitted(s.events) && Distinct(s.events)
  {
    forall j | 0 <= j < |s.events| && s.events[j].kind == Reconciled
      ensures Admitted(s.events, j, s.events[j].budget, s.events[j].ref)
    {
      var i :| 0 <= i < j && Keyed(s.events[i], s.events[j].budget, Consumed, s.events[j].ref);
    }
  }

  /** A budget's own charges are the current charges of its distinct invocations, each counted once. */
  lemma {:induction false} ChargedOnce(events: seq<Event>, b: nat, d: Dim)
    requires Distinct(events) && SettlesAdmitted(events)
    ensures Own(events, b, d) == Charges(events, b, d, |events|)
  {
    if events != [] {
      var n := |events| - 1;
      var log, e := events[..n], events[n];
      assert log + [e] == events;
      PrefixOk(events);
      ChargedOnce(log, b, d);
      ChargesExtend(log, e, b, d, n);
      if e.kind == Reconciled { LastSettles(events); }
      if e.kind == Consumed { LastUnsettled(events); }
    }
  }

  lemma PrefixOk(events: seq<Event>)
    requires events != [] && Distinct(events) && SettlesAdmitted(events)
    ensures Distinct(events[..|events| - 1]) && SettlesAdmitted(events[..|events| - 1])
  {
    var log := events[..|events| - 1];
    forall j | 0 <= j < |log| && log[j].kind == Reconciled ensures Admitted(log, j, log[j].budget, log[j].ref) {
      var i :| 0 <= i < j && Keyed(events[i], events[j].budget, Consumed, events[j].ref);
      assert Keyed(log[i], log[j].budget, Consumed, log[j].ref);
    }
  }

  lemma LastSettles(events: seq<Event>)
    requires events != [] && SettlesAdmitted(events) && events[|events| - 1].kind == Reconciled
    ensures var e := events[|events| - 1]; Admitted(events[..|events| - 1], |events| - 1, e.budget, e.ref)
  {
    var e, log := events[|events| - 1], events[..|events| - 1];
    var i :| 0 <= i < |log| && Keyed(events[i], e.budget, Consumed, e.ref);
    assert Keyed(log[i], e.budget, Consumed, e.ref);
  }

  /** A charge just made has no settlement yet. */
  lemma LastUnsettled(events: seq<Event>)
    requires events != [] && Distinct(events) && SettlesAdmitted(events) && events[|events| - 1].kind == Consumed
    ensures var e := events[|events| - 1]; Find(events, e.budget, Reconciled, e.ref).None?
  {
    var e := events[|events| - 1];
    forall j | 0 <= j < |events| ensures !Keyed(events[j], e.budget, Reconciled, e.ref) {
      assert events[j].kind == Reconciled ==> Admitted(events, j, events[j].budget, events[j].ref);
    }
  }

  // ---------------------------------------------------------------------------------------------
  // The whole tree stays within the root's ceilings

  /** Own charges summed over the first n rows of the tree rooted at task t. */
  function TreeOwn(s: State, t: int64, d: Dim, n: nat): int
    requires n <= |s.rows|
  {
    if n == 0 then 0 else TreeOwn(s, t, d, n - 1) + if s.rows[n - 1].rootTask == t then Own(s.events, n - 1, d) else 0
  }

  /** What those rows have committed to the children among the first m rows. */
  function TreeAllocated(rows: seq<Row>, t: int64, d: Dim, m: nat, n: nat): int
    requires m <= |rows| && n <= |rows|
  {
    if n == 0 then 0
    else TreeAllocated(rows, t, d, m, n - 1)
         + if rows[n - 1].rootTask == t then Allocated(rows[..m], n - 1, d) else 0
  }

  /** The ceilings handed to the non-root rows of the tree among the first m. */
  function Handed(rows: seq<Row>, t: int64, d: Dim, m: nat): int
    requires m <= |rows|
  {
    if m == 0 then 0
    else Handed(rows, t, d, m - 1)
         + if rows[m - 1].rootTask == t && rows[m - 1].parent.Some? then Max(rows[m - 1].limits, d) else 0
  }

  lemma {:induction false} OneMoreChild(rows: seq<Row>, t: int64, d: Dim, m: nat, n: nat)
    requires m < |rows| && n <= |rows|
    ensures TreeAllocated(rows, t, d, m + 1, n) == TreeAllocated(rows, t, d, m, n)
            + if rows[m].parent.Some? && rows[m].parent.value < n && rows[rows[m].parent.value].rootTask == t
              then Max(rows[m].limits, d) else 0
  {
    if n > 0 {
      OneMoreChild(rows, t, d, m, n - 1);
      AppendRow(rows[..m], rows[m], n - 1, d);
      assert rows[..m] + [rows[m]] == rows[..m + 1];
    }
  }

  predicate ChildLinked(rows: seq<Row>, i: nat)
    requires i < |rows|
  {
    rows[i].parent.Some? ==> rows[i].parent.value < |rows| && rows[rows[i].parent.value].rootTask == rows[i].rootTask
  }

  /** A child belongs to its parent's tree. */
  ghost predicate Linked(rows: seq<Row>) {
    forall i | 0 <= i < |rows| :: ChildLinked(rows, i)
  }

  /** Double counting: everything committed by the tree is everything handed to its non-root rows. */
  lemma {:induction false} CommittedIsHanded(rows: seq<Row>, t: int64, d: Dim, m: nat)
    requires Linked(rows) && m <= |rows|
    ensures TreeAllocated(rows, t, d, m, |rows|) == Handed(rows, t, d, m)
  {
    if m == 0 {
      NothingCommitted(rows, t, d, |rows|);
    } else {
      CommittedIsHanded(rows, t, d, m - 1);
      OneMoreChild(rows, t, d, m - 1, |rows|);
      assert ChildLinked(rows, m - 1);
    }
  }

  lemma {:induction false} NothingCommitted(rows: seq<Row>, t: int64, d: Dim, n: nat)
    requires n <= |rows|
    ensures TreeAllocated(rows, t, d, 0, n) == 0
  {
    if n > 0 { NothingCommitted(rows, t, d, n - 1); }
  }

  /** What a sound ledger says of row i, seen from root row r. */
  predicate Seen(s: State, r: nat, d: Dim, i: nat)
    requires i < |s.rows| && r < |s.rows|
  {
    var row := s.rows[i];
    && 0 <= Used(row.usage, d) <= Max(row.limits, d)
    && Used(row.usage, d) == Own(s.events, i, d) + Allocated(s.rows, i, d)
    && (row.rootTask == s.rows[r].rootTask && row.parent.None? ==> i == r)
  }

  lemma SeenBy(s: State, r: nat, d: Dim, i: nat)
    requires WellFormed(s) && Balanced(s) && d != Subagents && i < |s.rows|
    requires r < |s.rows| && s.rows[r].parent.None?
    ensures Seen(s, r, d, i)
  {
    assert RowBounded(s.rows[i]) && Agrees(s, i);
  }

  lemma {:induction false} TreeTelescopes(s: State, r: nat, d: Dim, n: nat)
    requires n <= |s.rows| && r < |s.rows| && s.rows[r].parent.None?
    requires forall i | 0 <= i < |s.rows| :: Seen(s, r, d, i)
    ensures var t := s.rows[r].rootTask;
            TreeOwn(s, t, d, n) + TreeAllocated(s.rows, t, d, |s.rows|, n) - Handed(s.rows, t, d, n)
            <= if r < n then Used(s.rows[r].usage, d) else 0
  {
    if n > 0 {
      TreeTelescopes(s, r, d, n - 1);
      assert Seen(s, r, d, n - 1);
      assert s.rows[..|s.rows|] == s.rows;
    }
  }

  /** Subagents attached to the first n rows of the tree rooted at task t. */
  function TreeAttached(s: State, t: int64, n: nat): int
    requires n <= |s.rows|
  {
    if n == 0 then 0
    else TreeAttached(s, t, n - 1) + if s.rows[n - 1].rootTask == t then Attachments(s.events, n - 1) else 0
  }

  /** The subagent ceilings of those rows, added up. */
  function TreeCeiling(rows: seq<Row>, t: int64, n: nat): int
    requires n <= |rows|
  {
    if n == 0 then 0
    else TreeCeiling(rows, t, n - 1) + if rows[n - 1].rootTask == t then rows[n - 1].limits.subagents else 0
  }

  /** The tree rooted at task t is its root row alone. */
  predicate Undivided(rows: seq<Row>, t: int64) {
    forall i | 0 <= i < |rows| && rows[i].rootTask == t :: rows[i].parent.None?
  }

  /** Every row's subagent count is the number of children attached to it, and within its own ceiling. */
  ghost predicate Counted(s: State) {
    forall b | 0 <= b < |s.rows| :: s.rows[b].usage.subagents == Attachments(s.events, b) <= s.rows[b].limits.subagents
  }

  lemma {:induction false} AttachedWithin(s: State, t: int64, r: nat, n: nat)
    requires Counted(s) && n <= |s.rows| && r < |s.rows| && s.rows[r].rootTask == t
    ensures TreeAttached(s, t, n) <= TreeCeiling(s.rows, t, n)
    ensures (forall i | 0 <= i < |s.rows| && s.rows[i].rootTask == t :: i == r) ==>
              TreeAttached(s, t, n) == if r < n then s.rows[r].usage.subagents else 0
  {
    if n > 0 { AttachedWithin(s, t, r, n - 1); }
  }

  lemma OnlyTheRoot(rows: seq<Row>, r: nat)
    requires Forest(rows) && r < |rows| && rows[r].parent.None? && Undivided(rows, rows[r].rootTask)
    ensures forall i | 0 <= i < |rows| && rows[i].rootTask == rows[r].rootTask :: i == r
  {
    forall i | 0 <= i < |rows| && rows[i].rootTask == rows[r].rootTask ensures i == r {
      assert rows[i].task == rows[i].rootTask == rows[r].task;
    }
  }

  /** Conservation: over the whole tree, own charges never exceed what the root was given. Subagents are not
      handed down: the tree's attachments are bounded by its rows' ceilings together, and by the root's only
      while it is undivided. */
  lemma TreeWithinRoot(s: State, r: nat, d: Dim)
    requires WellFormed(s) && Balanced(s)
    requires r < |s.rows| && s.rows[r].parent.None?
    ensures d != Subagents ==>
              TreeOwn(s, s.rows[r].rootTask, d, |s.rows|) <= Used(s.rows[r].usage, d) <= Max(s.rows[r].limits, d)
    ensures d == Subagents ==>
              && TreeAttached(s, s.rows[r].rootTask, |s.rows|) <= TreeCeiling(s.rows, s.rows[r].rootTask, |s.rows|)
              && (Undivided(s.rows, s.rows[r].rootTask) ==>
                    TreeAttached(s, s.rows[r].rootTask, |s.rows|)
                    == Used(s.rows[r].usage, d) <= Max(s.rows[r].limits, d))
  {
    if d == Subagents {
      forall b | 0 <= b < |s.rows|
        ensures s.rows[b].usage.subagents == Attachments(s.events, b) <= s.rows[b].limits.subagents
      {
        assert Agrees(s, b) && RowBounded(s.rows[b]) && Used(s.rows[b].usage, d) <= Max(s.rows[b].limits, d);
      }
      AttachedWithin(s, s.rows[r].rootTask, r, |s.rows|);
      if Undivided(s.rows, s.rows[r].rootTask) { OnlyTheRoot(s.rows, r); }
    } else {
      assert Linked(s.rows);
      CommittedIsHanded(s.rows, s.rows[r].rootTask, d, |s.rows|);
      forall i | 0 <= i < |s.rows| ensures Seen(s, r, d, i) { SeenBy(s, r, d, i); }
      TreeTelescopes(s, r, d, |s.rows|);
      assert RowBounded(s.rows[r]);
    }
  }

  // ---------------------------------------------------------------------------------------------
  // Runs

  datatype Op =
    | OpCreateRoot(organization: string, task: int64, role: string, limits: Limits)
    | OpInherit(parent: nat, child: int64, childRole: string, depth: int64, allocation: Option<Limits>)
    | OpConsume(budget: nat, invocation: int64, delta: Usage)
    | OpSettle(budget: nat, invocation: int64, actual: Usage)

  function Apply(s: State, op: Op): State
    requires Bounded(s)
  {
    match op
    case OpCreateRoot(o, t, r, l) => CreateRoot(s, o, t, r, l).0
    case OpInherit(b, c, r, h, a) => Inherit(s, b, c, r, h, a).0
    case OpConsume(b, i, delta) => Consume(s, b, i, delta).0
    case OpSettle(b, i, actual) => Settle(s, b, i, actual).0
  }

  lemma ApplyKeeps(s: State, op: Op)
    requires WellFormed(s)
    ensures WellFormed(Apply(s, op))
    ensures Balanced(s) && (op.OpSettle? ==> Exact(s, op.budget, op.invocation, op.actual)) ==> Balanced(Apply(s, op))
  {
    match op
    case OpCreateRoot(o, t, r, l) => CreateRootKeeps(s, o, t, r, l);
    case OpInherit(b, c, r, h, None) => ShareKeeps(s, b, c, r, h);
    case OpInherit(b, c, r, h, Some(a)) => AllocateKeeps(s, b, c, r, h, a);
    case OpConsume(b, i, delta) => ConsumeKeeps(s, b, i, delta);
    case OpSettle(b, i, actual) => SettleKeeps(s, b, i, actual);
  }

  /** The ledger after any sequence of operations, repeated calls included: always well formed, so no
      account is ever negative or above a ceiling. */
  function Run(ops: seq<Op>): (s: State)
    ensures WellFormed(s)
  {
    if ops == [] then EMPTY
    else
      var before := Run(ops[..|ops| - 1]);
      ApplyKeeps(before, ops[|ops| - 1]);
      Apply(before, ops[|ops| - 1])
  }

  lemma RunMore(ops: seq<Op>, op: Op)
    ensures Run(ops + [op]) == Apply(Run(ops), op)
  {
    assert (ops + [op])[..|ops|] == ops;
  }

  /** Every settlement of the run is one a 64-bit column can hold. */
  ghost predicate ExactRun(ops: seq<Op>) {
    ops == [] ||
    (var op := ops[|ops| - 1];
     ExactRun(ops[..|ops| - 1])
     && (op.OpSettle? ==> Exact(Run(ops[..|ops| - 1]), op.budget, op.invocation, op.actual)))
  }

  lemma {:induction false} RunBalanced(ops: seq<Op>)
    requires ExactRun(ops)
    ensures Balanced(Run(ops))
  {
    if ops != [] {
      RunBalanced(ops[..|ops| - 1]);
      ApplyKeeps(Run(ops[..|ops| - 1]), ops[|ops| - 1]);
    }
  }

  // ---------------------------------------------------------------------------------------------
  // When settlements are exact

  /** No admitted invocation currently costs less than nothing. */
  ghost predicate ChargesNonNegative(events: seq<Event>) {
    forall i, d: Dim | 0 <= i < |events| && events[i].kind == Consumed ::
      Used(events[i].delta, d) >= 0 && ChargeOf(events, i, d) >= 0
  }

  lemma OtherKey(log: seq<Event>, e: Event, i: nat, d: Dim)
    requires i < |log| && !Keyed(e, log[i].budget, Reconciled, log[i].ref)
    ensures ChargeOf(log + [e], i, d) == ChargeOf(log, i, d)
  {
    assert (log + [e])[..|log|] == log;
  }

  lemma {:induction false} ChargeWithinOwn(events: seq<Event>, i: nat, d: Dim, n: nat)
    requires i < |events| && n <= |events| && events[i].kind == Consumed && ChargesNonNegative(events)
    ensures Charges(events, events[i].budget, d, n) >= if i < n then ChargeOf(events, i, d) else 0
  {
    if n > 0 { ChargeWithinOwn(events, i, d, n - 1); }
  }

  lemma {:induction false} CommitmentsNonNegative(rows: seq<Row>, b: nat, d: Dim)
    requires forall i | 0 <= i < |rows| :: RowBounded(rows[i])
    ensures Allocated(rows, b, d) >= 0
  {
    if rows != [] {
      assert RowBounded(rows[|rows| - 1]) && 0 <= Used(rows[|rows| - 1].usage, d) <= Max(rows[|rows| - 1].limits, d);
      CommitmentsNonNegative(rows[..|rows| - 1], b, d);
    }
  }

  /** A reported cost: neither column is negative and the corrected account does not overflow. */
  predicate Reported(s: State, b: nat, invocation: int64, actual: Usage) {
    && actual.usd >= 0 && actual.tokens >= 0
    && (b < |s.rows| && Find(s.events, b, Consumed, invocation).Some? ==>
          var u, c := s.rows[b].usage, s.events[Find(s.events, b, Consumed, invocation).value].delta;
          u.usd - c.usd + actual.usd <= MAX64 && u.tokens - c.tokens + actual.tokens <= MAX64)
  }

  /** An account always covers the charge a settlement corrects, so a reported cost settles exactly. */
  lemma ReportedIsExact(s: State, b: nat, invocation: int64, actual: Usage)
    requires WellFormed(s) && Balanced(s) && ChargesNonNegative(s.events)
    requires Reported(s, b, invocation, actual) && Find(s.events, b, Reconciled, invocation).None?
    ensures Exact(s, b, invocation, actual)
  {
    if b < |s.rows| && Find(s.events, b, Consumed, invocation).Some? {
      var i := Find(s.events, b, Consumed, invocation).value;
      AdmittedInLog(s);
      assert Agrees(s, b);
      forall d: Dim | d != Subagents ensures Used(s.rows[b].usage, d) >= Used(s.events[i].delta, d) >= 0 {
        ChargedOnce(s.events, b, d);
        ChargeWithinOwn(s.events, i, d, |s.events|);
        CommitmentsNonNegative(s.rows, b, d);
      }
      assert Used(s.rows[b].usage, USD) >= Used(s.events[i].delta, USD) >= 0;
      assert Used(s.rows[b].usage, Tokens) >= Used(s.events[i].delta, Tokens) >= 0;
    }
  }

  /** One event more: the charges stay non-negative when a charge is, or when a settlement reports
      a non-negative cost. */
  lemma EventKeepsNonNegative(log: seq<Event>, e: Event)
    requires ChargesNonNegative(log) && Distinct(log + [e]) && SettlesAdmitted(log + [e])
    requires e.kind == Consumed ==> forall d: Dim :: Used(e.delta, d) >= 0
    requires e.kind == Reconciled ==> forall i, d: Dim | 0 <= i < |log| && Keyed(log[i], e.budget, Consumed, e.ref) ::
                                        Used(log[i].delta, d) + Used(e.delta, d) >= 0
    ensures ChargesNonNegative(log + [e])
  {
    var after := log + [e];
    forall i, d: Dim | 0 <= i < |after| && after[i].kind == Consumed
      ensures Used(after[i].delta, d) >= 0 && ChargeOf(after, i, d) >= 0
    {
      assert after[..|log|] == log;
      if i == |log| {
        assert Find(after, e.budget, Reconciled, e.ref).None? by {
          forall j | 0 <= j < |after| ensures !Keyed(after[j], e.budget, Reconciled, e.ref) {
            assert after[j].kind == Reconciled ==> Admitted(after, j, after[j].budget, after[j].ref);
          }
        }
      } else if Keyed(e, log[i].budget, Reconciled, log[i].ref) {
        assert Keyed(log[i], e.budget, Consumed, e.ref);
        assert Find(after, e.budget, Reconciled, e.ref) == Some(|log|);
      } else {
        OtherKey(log, e, i, d);
      }
    }
  }

  /** A settlement that reports no negative cost never takes back more than was charged. */
  lemma SettlementTakesNoMore(s: State, b: nat, ref: int64, actual: Usage)
    requires WellFormed(s) && ChargesNonNegative(s.events) && actual.usd >= 0 && actual.tokens >= 0
    ensures var t := Settle(s, b, ref, actual).0;
            t.events != s.events ==>
              && t.events == s.events + [t.events[|s.events|]] && t.events[|s.events|].kind == Reconciled
              && var e := t.events[|s.events|];
              && forall i, d: Dim | 0 <= i < |s.events| && Keyed(s.events[i], e.budget, Consumed, e.ref) ::
                   Used(s.events[i].delta, d) + Used(e.delta, d) >= 0
  {
    var t := Settle(s, b, ref, actual).0;
    if t.events != s.events {
      var e := t.events[|s.events|];
      forall i, d: Dim | 0 <= i < |s.events| && Keyed(s.events[i], e.budget, Consumed, e.ref)
        ensures Used(s.events[i].delta, d) + Used(e.delta, d) >= 0
      {
        assert i == Find(s.events, e.budget, Consumed, e.ref).value;
        assert Used(s.events[i].delta, d) >= 0;
        assert Used(s.events[i].delta, USD) >= 0 && Used(s.events[i].delta, Tokens) >= 0;
      }
    }
  }

  lemma ConsumptionChargesNoLess(s: State, b: nat, ref: int64, delta: Usage)
    requires WellFormed(s)
    ensures var t := Consume(s, b, ref, delta).0;
            t.events != s.events ==>
              && t.events == s.events + [t.events[|s.events|]] && t.events[|s.events|].kind == Consumed
              && forall d: Dim :: Used(t.events[|s.events|].delta, d) >= 0
  {
    var t := Consume(s, b, ref, delta).0;
    if t.events != s.events {
      ReserveExact(s.rows[b].usage, delta, s.rows[b].limits);
      forall d: Dim ensures Used(t.events[|s.events|].delta, d) >= 0 { assert Used(delta, d) >= 0; }
    }
  }

  lemma ApplyKeepsNonNegative(s: State, op: Op)
    requires WellFormed(s) && ChargesNonNegative(s.events)
    requires op.OpSettle? ==> op.actual.usd >= 0 && op.actual.tokens >= 0
    ensures ChargesNonNegative(Apply(s, op).events)
  {
    var s' := Apply(s, op);
    ApplyKeeps(s, op);
    if s'.events != s.events {
      if op.OpConsume? { ConsumptionChargesNoLess(s, op.budget, op.invocation, op.delta); }
      if op.OpSettle? { SettlementTakesNoMore(s, op.budget, op.invocation, op.actual); }
      AdmittedInLog(s');
      EventKeepsNonNegative(s.events, s'.events[|s.events|]);
    }
  }

  ghost predicate ReportedRun(ops: seq<Op>) {
    ops == [] ||
    (var op := ops[|ops| - 1];
     ReportedRun(ops[..|ops| - 1])
     && (op.OpSettle? ==> Reported(Run(ops[..|ops| - 1]), op.budget, op.invocation, op.actual)))
  }

  /** Runs whose settlements report costs that are not negative and do not overflow keep every
      account exact; nothing else is asked of the callers. */
  lemma {:induction false} ReportedRunBalanced(ops: seq<Op>)
    requires ReportedRun(ops)
    ensures Balanced(Run(ops)) && ChargesNonNegative(Run(ops).events)
  {
    if ops != [] {
      var before, op := ops[..|ops| - 1], ops[|ops| - 1];
      ReportedRunBalanced(before);
      var s := Run(before);
      ApplyKeepsNonNegative(s, op);
      ApplyKeeps(s, op);
      if op.OpSettle? && Find(s.events, op.budget, Reconciled, op.invocation).None? {
        ReportedIsExact(s, op.budget, op.invocation, op.actual);
      }
    }
  }

  // ---------------------------------------------------------------------------------------------
  // Repetition, and what settlement does at the edges

  /** A repeated charge or settlement succeeds and changes nothing, whatever it carries. */
  lemma RepetitionIsFree(s: State, b: nat, ref: int64, first: Usage, second: Usage)
    requires WellFormed(s)
    ensures var (once, r) := Consume(s, b, ref, first);
            r.Ok? ==> Consume(once, b, ref, second) == (once, Ok(()))
    ensures var (once, r) := Settle(s, b, ref, first);
            r.Ok? && (once != s || Find(s.events, b, Reconciled, ref).Some?) ==>
              Settle(once, b, ref, second) == (once, Ok(()))
  {
    var (once, r) := Consume(s, b, ref, first);
    if once != s {
      assert once.events[|s.events|] == Event(b, Consumed, ref, first.(depth := 0, subagents := 0));
    }
    var (settled, q) := Settle(s, b, ref, first);
    if settled != s {
      assert Keyed(settled.events[|s.events|], b, Reconciled, ref);
      var i := Find(s.events, b, Consumed, ref).value;
      assert Keyed(settled.events[i], b, Consumed, ref);
    }
  }

  /** A repeated attachment returns the same budget and changes nothing. */
  lemma AttachmentIsFree(s: State, b: nat, child: int64, role: string, depth: int64, allocation: Option<Limits>)
    requires WellFormed(s) && Inherit(s, b, child, role, depth, allocation).1.Ok?
    ensures var (once, r) := Inherit(s, b, child, role, depth, allocation);
            Bounded(once) && Inherit(once, b, child, role, depth, allocation) == (once, r)
  {
    var (once, r) := Inherit(s, b, child, role, depth, allocation);
    ApplyKeeps(s, OpInherit(b, child, role, depth, allocation));
    if once != s {
      assert Keyed(once.events[|s.events|], b, Inherited, child);
      assert Find(once.events, b, Inherited, child).Some?;
      if allocation.Some? {
        assert once.rows[|s.rows|].task == child;
        assert RowFor(once.rows, child) == Some(|s.rows|);
      }
    }
  }

  /** The code's own account of settlement is not what the schema does: a settlement whose corrected
      account passes a ceiling, without overflowing, is refused and recorded nowhere. */
  lemma OverspendIsRefused(s: State, b: nat, invocation: int64, actual: Usage)
    requires WellFormed(s) && Exact(s, b, invocation, actual) && b < |s.rows|
    requires Find(s.events, b, Consumed, invocation).Some? && Find(s.events, b, Reconciled, invocation).None?
    ensures var row, c := s.rows[b], s.events[Find(s.events, b, Consumed, invocation).value].delta;
            var over := row.usage.usd + Wrap(actual.usd - c.usd) > row.limits.usd
                        || row.usage.tokens + Wrap(actual.tokens - c.tokens) > row.limits.tokens;
            var (s', r) := Settle(s, b, invocation, actual);
            if over then r == Err(Refused) && s' == s
            else r.Ok? && s'.rows[b].usage.usd == row.usage.usd + Wrap(actual.usd - c.usd)
                 && s'.rows[b].usage.tokens == row.usage.tokens + Wrap(actual.tokens - c.tokens)
  {
  }

  /** And one that overflows the column is applied and erases the account: the sum wraps to a negative
      number and the clamp stores zero, whatever every other call had spent. */
  lemma OverflowErasesTheAccount(s: State, b: nat, invocation: int64, actual: Usage)
    requires WellFormed(s) && b < |s.rows|
    requires Find(s.events, b, Consumed, invocation).Some? && Find(s.events, b, Reconciled, invocation).None?
    requires var u, c := s.rows[b].usage, s.events[Find(s.events, b, Consumed, invocation).value].delta;
             u.usd + Wrap(actual.usd - c.usd) > MAX64 && actual.tokens == c.tokens
    ensures var (s', r) := Settle(s, b, invocation, actual);
            r.Ok? && s'.rows[b].usage.usd == 0 && (Balanced(s) ==> !Balanced(s'))
  {
    assert RowBounded(s.rows[b]) && 0 <= Used(s.rows[b].usage, Tokens) <= Max(s.rows[b].limits, Tokens);
    SettleKeeps(s, b, invocation, actual);
  }

  const TEN := Limits(10, 10, 10, 10, 10, 10, 10)

  /** A root that has spent this much, and the events of its calls. */
  function Spent(usd: int64, calls: seq<Event>): State {
    State([Row("org", 1, 1, "ceo", None, TEN, NO_USAGE.(usd := usd, depth := 1))],
          [Event(0, Created, 1, NO_USAGE.(depth := 1))] + calls, Attach(map[], 1, 0))
  }

  function FirstCall(): seq<Event> { [Event(0, Consumed, 1, NO_USAGE.(usd := 7))] }

  /** One charge of 7 dollars and one of nothing. */
  function TwoCalls(): State { Spent(7, FirstCall() + [Event(0, Consumed, 2, NO_USAGE)]) }

  lemma FirstCallMade()
    ensures Consume(Spent(0, []), 0, 1, NO_USAGE.(usd := 7)).0 == Spent(7, FirstCall())
  {
    var s := Spent(0, []);
    assert Find(s.events, 0, Consumed, 1).None?;
    assert s.events + FirstCall() == Spent(7, FirstCall()).events;
  }

  lemma SecondCallMade()
    ensures Consume(Spent(7, FirstCall()), 0, 2, NO_USAGE).0 == TwoCalls()
  {
    var s := Spent(7, FirstCall());
    assert s.events[1] == FirstCall()[0];
    assert Find(s.events, 0, Consumed, 2).None?;
    assert s.events + [Event(0, Consumed, 2, NO_USAGE)] == TwoCalls().events;
  }

  lemma TwoCallsMade()
    ensures CreateRoot(EMPTY, "org", 1, "ceo", TEN).0 == Spent(0, [])
    ensures Consume(Consume(Spent(0, []), 0, 1, NO_USAGE.(usd := 7)).0, 0, 2, NO_USAGE).0 == TwoCalls()
  {
    assert [Event(0, Created, 1, NO_USAGE.(depth := 1))] + [] == [Event(0, Created, 1, NO_USAGE.(depth := 1))];
    FirstCallMade();
    SecondCallMade();
  }

  lemma RunThree(a: Op, b: Op, c: Op)
    requires !a.OpSettle? && !b.OpSettle? && !c.OpSettle?
    ensures WellFormed(Apply(EMPTY, a)) && WellFormed(Apply(Apply(EMPTY, a), b))
    ensures Run([a, b, c]) == Apply(Apply(Apply(EMPTY, a), b), c) && Balanced(Run([a, b, c]))
  {
    assert [] + [a] == [a] && [a] + [b] == [a, b] && [a, b] + [c] == [a, b, c];
    RunMore([], a);
    RunMore([a], b);
    RunMore([a, b], c);
    ApplyKeeps(EMPTY, a);
    ApplyKeeps(Run([a]), b);
    ApplyKeeps(Run([a, b]), c);
  }

  lemma TwoCallsErased()
    requires WellFormed(TwoCalls()) && Balanced(TwoCalls())
    ensures var t := Settle(TwoCalls(), 0, 2, NO_USAGE.(usd := MAX64)).0;
            |t.rows| == 1 && t.rows[0].usage.usd == 0 && !Balanced(t)
  {
    var s := TwoCalls();
    assert s.events[1].kind == Consumed && s.events[2].kind == Consumed;
    assert Find(s.events, 0, Consumed, 2) == Some(2);
    OverflowErasesTheAccount(s, 0, 2, NO_USAGE.(usd := MAX64));
  }

  /** Such a settlement happens, from an empty ledger: a root spends 7 in one call, a second call, admitted for
      nothing, reports 2^63 - 1, and the account, exact until then, is erased. */
  lemma OverflowHappens() returns (ops: seq<Op>, last: Op)
    ensures last.OpSettle? && last.actual.usd >= 0
    ensures var s, t := Run(ops), Run(ops + [last]);
            && Balanced(s) && |s.rows| == |t.rows| == 1 && s.rows[0].usage.usd == 7
            && t.rows[0].usage.usd == 0 && !Balanced(t)
  {
    var create := OpCreateRoot("org", 1, "ceo", TEN);
    var first, second := OpConsume(0, 1, NO_USAGE.(usd := 7)), OpConsume(0, 2, NO_USAGE);
    ops, last := [create, first, second], OpSettle(0, 2, NO_USAGE.(usd := MAX64));
    RunThree(create, first, second);
    TwoCallsMade();
    RunMore(ops, last);
    TwoCallsErased();
  }
}
