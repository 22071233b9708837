/** Subagents, the one cumulative dimension an allocation does not hand down: a parent pays one subagent for a
    child row, whatever ceiling that row is given (internal/agentbudget/postgres/store.go). */
module LedgerSubagents {
  import opened Prelude
  import opened AgentBudget
  import opened Ledger
  import opened LedgerTheorems

  // ---------------------------------------------------------------------------------------------
  // Every run counts attachments exactly, whatever its settlements do

  lemma EventCounted(s: State, t: State, e: Event, b: nat)
    requires Counted(s) && b < |s.rows| && t.events == s.events + [e] && |t.rows| == |s.rows| && e.budget == b
    requires forall i | 0 <= i < |s.rows| && i != b :: t.rows[i] == s.rows[i]
    requires t.rows[b].limits == s.rows[b].limits && t.rows[b].usage.subagents <= t.rows[b].limits.subagents
    requires t.rows[b].usage.subagents == s.rows[b].usage.subagents + if e.kind == Inherited then 1 else 0
    ensures Counted(t)
  {
    forall i | 0 <= i < |t.rows|
      ensures t.rows[i].usage.subagents == Attachments(t.events, i) <= t.rows[i].limits.subagents
    {
      Append(s.events, e, i, Subagents);
    }
  }

  lemma RowCounted(s: State, row: Row, e: Event, attached: map<int64, nat>)
    requires Counted(s) && Logged(s) && row.usage.subagents == 0 <= row.limits.subagents && e.budget == |s.rows|
             && e.kind == Created
    ensures Counted(State(s.rows + [row], s.events + [e], attached))
  {
    var t := State(s.rows + [row], s.events + [e], attached);
    forall i | 0 <= i < |t.rows|
      ensures t.rows[i].usage.subagents == Attachments(t.events, i) <= t.rows[i].limits.subagents
    {
      Append(s.events, e, i, Subagents);
      if i == |s.rows| { NoEvents(s.events, i, Subagents); }
    }
  }

  lemma CreateCounted(s: State, organization: string, task: int64, role: string, limits: Limits)
    requires WellFormed(s) && Counted(s)
    ensures Counted(CreateRoot(s, organization, task, role, limits).0)
  {
    var t := CreateRoot(s, organization, task, role, limits).0;
    if t != s { RowCounted(s, t.rows[|s.rows|], t.events[|s.events|], t.attached); }
  }

  lemma ShareCounted(s: State, b: nat, child: int64, role: string, depth: int64)
    requires Bounded(s) && Counted(s)
    ensures Counted(Inherit(s, b, child, role, depth, None).0)
  {
    var t := Inherit(s, b, child, role, depth, None).0;
    if t != s { EventCounted(s, t, t.events[|s.events|], b); }
  }

  lemma AllocateCounted(s: State, b: nat, child: int64, role: string, depth: int64, a: Limits)
    requires WellFormed(s) && Counted(s)
    ensures Counted(Inherit(s, b, child, role, depth, Some(a)).0)
  {
    var t := Inherit(s, b, child, role, depth, Some(a)).0;
    AllocateKeeps(s, b, child, role, depth, a);
    if t != s {
      var e := t.events[|s.events|];
      assert t.events == s.events + [e] && Keyed(e, b, Inherited, child);
      assert Used(t.rows[b].usage, Subagents) == Used(s.rows[b].usage, Subagents) + 1;
      assert RowBounded(t.rows[b]) && Used(t.rows[b].usage, Subagents) <= Max(t.rows[b].limits, Subagents);
      forall i | 0 <= i < |t.rows|
        ensures t.rows[i].usage.subagents == Attachments(t.events, i) <= t.rows[i].limits.subagents
      {
        Append(s.events, e, i, Subagents);
        if i == |s.rows| { NoEvents(s.events, i, Subagents); }
      }
    }
  }

  lemma ChargeCounted(s: State, op: Op)
    requires WellFormed(s) && Counted(s) && (op.OpConsume? || op.OpSettle?)
    ensures Counted(Apply(s, op))
  {
    var t := Apply(s, op);
    if t != s { EventCounted(s, t, t.events[|s.events|], op.budget); }
  }

  lemma ApplyCounted(s: State, op: Op)
    requires WellFormed(s) && Counted(s)
    ensures Counted(Apply(s, op))
  {
    match op
    case OpCreateRoot(o, t, r, l) => CreateCounted(s, o, t, r, l);
    case OpInherit(b, c, r, h, None) => ShareCounted(s, b, c, r, h);
    case OpInherit(b, c, r, h, Some(a)) => AllocateCounted(s, b, c, r, h, a);
    case OpConsume(_, _, _) => ChargeCounted(s, op);
    case OpSettle(_, _, _) => ChargeCounted(s, op);
  }

  /** After any run at all, exact or not, a row's subagents are the children attached to it, within its own ceiling. */
  lemma {:induction false} RunCounted(ops: seq<Op>)
    ensures Counted(Run(ops))
  {
    if ops != [] {
      RunCounted(ops[..|ops| - 1]);
      ApplyCounted(Run(ops[..|ops| - 1]), ops[|ops| - 1]);
    }
  }

  ghost function Step(): (State, Op) -> State {
    (s: State, op: Op) => if Bounded(s) then Apply(s, op) else s
  }

  /** The ledger after further operations. */
  ghost function From(s: State, ops: seq<Op>): State {
    Fold(Step(), s, ops)
  }

  lemma FromThrough(s: State, a: seq<Op>, b: seq<Op>)
    ensures From(s, a + b) == From(From(s, a), b)
  {
    FoldSplit(Step(), s, a, b);
  }

  lemma FromNext(s: State, ops: seq<Op>)
    requires ops != []
    ensures From(s, ops) == From(if Bounded(s) then Apply(s, ops[0]) else s, ops[1..])
  {
    assert Step()(s, ops[0]) == if Bounded(s) then Apply(s, ops[0]) else s;
  }

  lemma FromOnce(s: State, op: Op)
    requires Bounded(s)
    ensures From(s, [op]) == Apply(s, op)
  {
    FromNext(s, [op]);
    assert [op][1..] == [];
  }

  lemma OneMoreFrom(before: seq<Op>, last: Op)
    requires Run(before) == From(EMPTY, before)
    ensures Run(before + [last]) == From(EMPTY, before + [last])
  {
    RunMore(before, last);
    FromOnce(Run(before), last);
    FromThrough(EMPTY, before, [last]);
  }

  lemma {:induction false} RunIsFrom(ops: seq<Op>)
    ensures Run(ops) == From(EMPTY, ops)
    decreases |ops|
  {
    if ops != [] {
      var before, last := ops[..|ops| - 1], ops[|ops| - 1];
      RunIsFrom(before);
      OneMoreFrom(before, last);
      assert before + [last] == ops;
    }
  }

  lemma RunFrom(ops: seq<Op>, more: seq<Op>)
    ensures Run(ops + more) == From(Run(ops), more)
  {
    RunIsFrom(ops);
    RunIsFrom(ops + more);
    FromThrough(EMPTY, ops, more);
  }

  // ---------------------------------------------------------------------------------------------
  // While nothing is allocated the root's ceiling holds

  predicate Shares(ops: seq<Op>) {
    forall i | 0 <= i < |ops| :: !(ops[i].OpInherit? && ops[i].allocation.Some?)
  }

  lemma {:induction false} SharesDivideNothing(s: State, more: seq<Op>, t: int64)
    requires Shares(more) && Undivided(s.rows, t)
    ensures Undivided(From(s, more).rows, t)
    decreases |more|
  {
    if more != [] {
      FromNext(s, more);
      assert !(more[0].OpInherit? && more[0].allocation.Some?);
      assert forall i | 0 <= i < |more[1..]| :: more[1..][i] == more[i + 1];
      if Bounded(s) { ShareDividesNothing(s, more[0], t); }
      SharesDivideNothing(if Bounded(s) then Apply(s, more[0]) else s, more[1..], t);
    }
  }

  /** An operation changes no row but its usage, and adds rows of its own only for a root or an allocation. */
  lemma RowsStay(s: State, op: Op)
    requires Bounded(s)
    ensures |s.rows| <= |Apply(s, op).rows|
    ensures forall i | 0 <= i < |s.rows| :: Apply(s, op).rows[i] == s.rows[i].(usage := Apply(s, op).rows[i].usage)
    ensures forall i | |s.rows| <= i < |Apply(s, op).rows| ::
              Apply(s, op).rows[i].parent.Some? ==> op.OpInherit? && op.allocation.Some?
  {
  }

  lemma ShareDividesNothing(s: State, op: Op, t: int64)
    requires Bounded(s) && Undivided(s.rows, t) && !(op.OpInherit? && op.allocation.Some?)
    ensures Undivided(Apply(s, op).rows, t)
  {
    RowsStay(s, op);
  }

  lemma UndividedWithin(ops: seq<Op>, r: nat)
    requires r < |Run(ops).rows| && Run(ops).rows[r].parent.None? && Undivided(Run(ops).rows, Run(ops).rows[r].rootTask)
    ensures var s := Run(ops);
            TreeAttached(s, s.rows[r].rootTask, |s.rows|) == s.rows[r].usage.subagents <= s.rows[r].limits.subagents
  {
    var s := Run(ops);
    RunCounted(ops);
    OnlyTheRoot(s.rows, r);
    AttachedWithin(s, s.rows[r].rootTask, r, |s.rows|);
  }

  /** After any run that gives no child a row of its own, every tree's attachments stay within its root's ceiling. */
  lemma SharedTreeWithinRoot(ops: seq<Op>, r: nat)
    requires Shares(ops) && r < |Run(ops).rows| && Run(ops).rows[r].parent.None?
    ensures var s := Run(ops);
            TreeAttached(s, s.rows[r].rootTask, |s.rows|) <= s.rows[r].limits.subagents
  {
    RunIsFrom(ops);
    SharesDivideNothing(EMPTY, ops, Run(ops).rows[r].rootTask);
    UndividedWithin(ops, r);
  }

  // ---------------------------------------------------------------------------------------------
  // Once anything is allocated it need not

  function Children(events: seq<Event>, b: nat): set<int64> {
    set i | 0 <= i < |events| && events[i].budget == b && events[i].kind == Inherited :: events[i].ref
  }

  lemma {:induction false} ChildrenCount(events: seq<Event>, b: nat)
    ensures |Children(events, b)| <= Attachments(events, b)
  {
    if events != [] {
      var log, e := events[..|events| - 1], events[|events| - 1];
      ChildrenCount(log, b);
      if e.budget == b && e.kind == Inherited {
        assert Children(events, b) == Children(log, b) + {e.ref} by {
          assert forall i | 0 <= i < |log| :: log[i] == events[i];
        }
      } else {
        assert Children(events, b) == Children(log, b) by {
          assert forall i | 0 <= i < |log| :: log[i] == events[i];
        }
      }
    }
  }

  /** Among one more positive number than a set has members, some number is not in the set. */
  lemma {:induction false} Unused(used: set<int64>, k: nat) returns (x: int64)
    requires |used| < k <= MAX64
    ensures 0 < x <= k && x !in used
    decreases k
  {
    if k !in used {
      x := k;
    } else {
      x := Unused(used - {k}, k - 1);
    }
  }

  /** The row with n more subagents. */
  function Crowd(row: Row, n: nat): Row
    requires 0 <= row.usage.subagents && row.usage.subagents + n <= MAX64
  {
    row.(usage := row.usage.(subagents := row.usage.subagents + n))
  }

  lemma CrowdBounded(row: Row, n: nat)
    requires RowBounded(row) && 0 <= row.usage.subagents && row.usage.subagents + n <= row.limits.subagents
    ensures RowBounded(Crowd(row, n))
  {
    forall d: Dim ensures 0 <= Used(Crowd(row, n).usage, d) <= Max(row.limits, d) {
      assert 0 <= Used(row.usage, d) <= Max(row.limits, d);
    }
  }

  /** A row below its ceiling can always take one more child. */
  lemma OneMoreShare(s: State, b: nat) returns (child: int64)
    requires Bounded(s) && Counted(s) && b < |s.rows| && 0 <= s.rows[b].usage.subagents < s.rows[b].limits.subagents
    ensures Inherit(s, b, child, "", 1, None).1.Ok?
    ensures var t := Inherit(s, b, child, "", 1, None).0;
            t.rows == s.rows[b := Crowd(s.rows[b], 1)] && Bounded(t) && Counted(t)
  {
    ChildrenCount(s.events, b);
    child := Unused(Children(s.events, b), |Children(s.events, b)| + 1);
    NotAmongChildren(s.events, b, child);
    assert RowBounded(s.rows[b]);
    CrowdBounded(s.rows[b], 1);
    ShareCounted(s, b, child, "", 1);
  }

  lemma NotAmongChildren(events: seq<Event>, b: nat, child: int64)
    requires child !in Children(events, b)
    ensures Find(events, b, Inherited, child).None?
  {
    forall i | 0 <= i < |events| ensures !Keyed(events[i], b, Inherited, child) {
      assert events[i].budget == b && events[i].kind == Inherited ==> events[i].ref in Children(events, b);
    }
  }

  lemma ShareStep(s: State, b: nat) returns (op: Op, t: State)
    requires Bounded(s) && Counted(s) && b < |s.rows| && 0 <= s.rows[b].usage.subagents < s.rows[b].limits.subagents
    ensures !op.OpInherit? || op.allocation.None?
    ensures t == Apply(s, op) && Bounded(t) && Counted(t) && t.rows == s.rows[b := Crowd(s.rows[b], 1)]
  {
    var child := OneMoreShare(s, b);
    op, t := OpInherit(b, child, "", 1, None), Inherit(s, b, child, "", 1, None).0;
  }

  lemma FromFirst(s: State, op: Op, rest: seq<Op>)
    requires Bounded(s)
    ensures From(s, [op] + rest) == From(Apply(s, op), rest)
    ensures (!op.OpInherit? || op.allocation.None?) && Shares(rest) ==> Shares([op] + rest)
  {
    FromNext(s, [op] + rest);
    assert ([op] + rest)[1..] == rest;
  }

  lemma CrowdMore(rows: seq<Row>, b: nat, n: nat)
    requires b < |rows| && 0 <= rows[b].usage.subagents && rows[b].usage.subagents + 1 + n <= MAX64
    ensures var once := rows[b := Crowd(rows[b], 1)];
            once[b := Crowd(once[b], n)] == rows[b := Crowd(rows[b], n + 1)]
  {
  }

  lemma OneThenRest(s: State, b: nat, n: nat, op: Op, rest: seq<Op>)
    requires Bounded(s) && b < |s.rows| && 0 < n && Shares(rest) && (!op.OpInherit? || op.allocation.None?)
    requires 0 <= s.rows[b].usage.subagents && s.rows[b].usage.subagents + n <= MAX64
    requires Apply(s, op).rows == s.rows[b := Crowd(s.rows[b], 1)]
    requires var u := Apply(s, op).rows; From(Apply(s, op), rest).rows == u[b := Crowd(u[b], n - 1)]
    ensures Shares([op] + rest) && From(s, [op] + rest) == From(Apply(s, op), rest)
    ensures From(s, [op] + rest).rows == s.rows[b := Crowd(s.rows[b], n)]
  {
    FromFirst(s, op, rest);
    CrowdMore(s.rows, b, n - 1);
  }

  /** Filling a row with n more children, every call accepted. */
  lemma {:induction false} FillRow(s: State, b: nat, n: nat) returns (more: seq<Op>)
    requires Bounded(s) && Counted(s) && b < |s.rows|
    requires 0 <= s.rows[b].usage.subagents && s.rows[b].usage.subagents + n <= s.rows[b].limits.subagents
    ensures Shares(more)
    ensures var t := From(s, more);
            Bounded(t) && Counted(t) && t.rows == s.rows[b := Crowd(s.rows[b], n)]
    decreases n
  {
    if n == 0 {
      more := [];
    } else {
      var op, u := ShareStep(s, b);
      var rest := FillRow(u, b, n - 1);
      more := [op] + rest;
      OneThenRest(s, b, n, op, rest);
    }
  }

  lemma {:induction false} TwoRows(s: State, t: int64, r: nat, c: nat, n: nat)
    requires Counted(s) && Bounded(s) && n <= |s.rows| && r < c < |s.rows| && s.rows[r].rootTask == t
             && s.rows[c].rootTask == t
    ensures TreeAttached(s, t, n)
            >= (if r < n then s.rows[r].usage.subagents else 0) + (if c < n then s.rows[c].usage.subagents else 0)
  {
    if n > 0 {
      TwoRows(s, t, r, c, n - 1);
      assert RowBounded(s.rows[n - 1]) && Used(s.rows[n - 1].usage, Subagents) >= 0;
    }
  }

  lemma DividedStateCanExceed(s: State, r: nat, c: nat) returns (more: seq<Op>)
    requires Bounded(s) && Counted(s) && r < c < |s.rows| && s.rows[c].rootTask == s.rows[r].rootTask
    ensures Shares(more)
    ensures var t := From(s, more);
            && r < |t.rows| && t.rows[r].limits == s.rows[r].limits && t.rows[r].rootTask == s.rows[r].rootTask
            && TreeAttached(t, t.rows[r].rootTask, |t.rows|) > t.rows[r].limits.subagents
  {
    assert RowBounded(s.rows[r]) && Used(s.rows[r].usage, Subagents) >= 0;
    assert RowBounded(s.rows[c]) && Used(s.rows[c].usage, Subagents) >= 0;
    var first := FillRow(s, r, s.rows[r].limits.subagents - s.rows[r].usage.subagents);
    var u := From(s, first);
    var rest := FillRow(u, c, s.rows[c].limits.subagents - s.rows[c].usage.subagents);
    more := first + rest;
    FromThrough(s, first, rest);
    var t := From(u, rest);
    TwoRows(t, t.rows[r].rootTask, r, c, |t.rows|);
  }

  /** From any run whose tree has a row of its own below the root, sharing alone, every call accepted, takes the tree's
      attachments past the root's ceiling. */
  lemma DividedCanExceed(ops: seq<Op>, r: nat, c: nat) returns (more: seq<Op>)
    requires r < c < |Run(ops).rows| && Run(ops).rows[c].rootTask == Run(ops).rows[r].rootTask
    ensures Shares(more) && r < |Run(ops + more).rows| && Run(ops + more).rows[r].limits == Run(ops).rows[r].limits
    ensures var s := Run(ops + more);
            s.rows[r].rootTask == Run(ops).rows[r].rootTask
            && TreeAttached(s, s.rows[r].rootTask, |s.rows|) > s.rows[r].limits.subagents
  {
    RunCounted(ops);
    more := DividedStateCanExceed(Run(ops), r, c);
    RunFrom(ops, more);
  }

  /** For every run and every root: attaching children by sharing alone can take the tree past its root's
      subagent ceiling if and only if some child of the tree was given a row of its own. */
  lemma CeilingHoldsIffUndivided(ops: seq<Op>, r: nat)
    requires r < |Run(ops).rows| && Run(ops).rows[r].parent.None?
    ensures Undivided(Run(ops).rows, Run(ops).rows[r].rootTask)
            <==>
            forall more | Shares(more) ::
              var s := Run(ops + more);
              r < |s.rows| ==> TreeAttached(s, Run(ops).rows[r].rootTask, |s.rows|) <= Run(ops).rows[r].limits.subagents
  {
    var t := Run(ops).rows[r].rootTask;
    if Undivided(Run(ops).rows, t) {
      forall more | Shares(more) && r < |Run(ops + more).rows|
        ensures TreeAttached(Run(ops + more), t, |Run(ops + more).rows|) <= Run(ops).rows[r].limits.subagents
      {
        RunFrom(ops, more);
        SharesDivideNothing(Run(ops), more, t);
        RowStays(Run(ops), more, r);
        UndividedWithin(ops + more, r);
      }
    } else {
      var c :| 0 <= c < |Run(ops).rows| && Run(ops).rows[c].rootTask == t && Run(ops).rows[c].parent.Some?;
      RootFirst(Run(ops).rows, r, c);
      var more := DividedCanExceed(ops, r, c);
    }
  }

  /** A row as it was but for its usage. */
  predicate SameRow(a: Row, b: Row) { b == a.(usage := b.usage) }

  lemma {:induction false} RowStays(s: State, ops: seq<Op>, r: nat)
    requires r < |s.rows|
    ensures r < |From(s, ops).rows| && SameRow(s.rows[r], From(s, ops).rows[r])
    decreases |ops|
  {
    if ops != [] {
      FromNext(s, ops);
      if Bounded(s) { RowsStay(s, ops[0]); }
      RowStays(if Bounded(s) then Apply(s, ops[0]) else s, ops[1..], r);
    }
  }

  /** A root is older than every other row of its tree. */
  lemma {:induction false} RootFirst(rows: seq<Row>, r: nat, c: nat)
    requires Forest(rows) && r < |rows| && c < |rows| && rows[r].parent.None? && rows[c].parent.Some?
    requires rows[c].rootTask == rows[r].rootTask
    ensures r < c
    decreases c
  {
    var p := rows[c].parent.value;
    if rows[p].parent.Some? {
      RootFirst(rows, r, p);
    } else {
      assert rows[p].task == rows[p].rootTask == rows[r].task;
      assert p == r;
    }
  }

  lemma RootRow(a: Limits)
    requires a.Valid()
    ensures var s := CreateRoot(EMPTY, "org", 1, "ceo", a).0;
            && |s.rows| == 1 && s.rows[0].limits == a && s.rows[0].parent.None?
            && s.rows[0].usage == NO_USAGE.(depth := 1) && s.rows[0].task == s.rows[0].rootTask == 1
            && |s.events| == 1 && s.events[0].kind == Created && 2 !in s.attached
  {
  }

  lemma UnusedAffords(row: Row, a: Limits)
    requires row.usage == NO_USAGE.(depth := 1) && row.limits == a.(subagents := 1)
    ensures Affordable(row, a)
  {
    forall d: Dim | d != Subagents ensures Max(a, d) <= Max(row.limits, d) - Used(row.usage, d) {}
  }

  /** A root with its one subagent left gives a child a row with any ceilings it can afford. */
  lemma GivesARow(s: State, a: Limits)
    requires Bounded(s) && a.Valid() && a.depth >= 2
    requires |s.rows| == 1 && s.rows[0].limits == a.(subagents := 1) && s.rows[0].usage.subagents == 0
    requires s.rows[0].parent.None? && s.rows[0].task != 2 && Affordable(s.rows[0], a)
    requires |s.events| == 1 && s.events[0].kind == Created && 2 !in s.attached
    ensures var t := Inherit(s, 0, 2, "lead", 2, Some(a)).0;
            && |t.rows| == 2 && t.rows[0].parent.None? && t.rows[1].rootTask == t.rows[0].rootTask
            && t.rows[0].limits.subagents == 1
  {
    assert s.rows[..0] == [] && s.events[..0] == [];
    assert Find(s.events, 0, Inherited, 2).None? && RowFor(s.rows, 2).None?;
  }

  lemma Divided(a: Limits)
    requires a.Valid() && a.depth >= 2
    ensures var s := CreateRoot(EMPTY, "org", 1, "ceo", a.(subagents := 1)).0;
            && Bounded(s)
            && var t := Inherit(s, 0, 2, "lead", 2, Some(a)).0;
            && |t.rows| == 2 && t.rows[0].parent.None? && t.rows[1].rootTask == t.rows[0].rootTask
            && t.rows[0].limits.subagents == 1
  {
    var root := a.(subagents := 1);
    CreateRootKeeps(EMPTY, "org", 1, "ceo", root);
    RootRow(root);
    var s := CreateRoot(EMPTY, "org", 1, "ceo", root).0;
    UnusedAffords(s.rows[0], a);
    GivesARow(s, a);
  }

  /** Such a run, from an empty ledger: a root that may have one subagent gives its one child a row with a
      ceiling of its own, and the tree ends with more attachments than the root's ceiling. */
  lemma SubagentsExceedTheRoot(a: Limits) returns (ops: seq<Op>)
    requires a.Valid() && a.depth >= 2
    ensures var s := Run(ops);
            s.rows != [] && s.rows[0].limits.subagents == 1 && TreeAttached(s, s.rows[0].rootTask, |s.rows|) > 1
  {
    var root := a.(subagents := 1);
    var create, allocate := OpCreateRoot("org", 1, "ceo", root), OpInherit(0, 2, "lead", 2, Some(a));
    assert [] + [create] == [create] && [create] + [allocate] == [create, allocate];
    RunMore([], create);
    RunMore([create], allocate);
    Divided(a);
    var more := DividedCanExceed([create, allocate], 0, 1);
    ops := [create, allocate] + more;
  }
}
