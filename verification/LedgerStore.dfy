/** The ledger as the store runs it: rows, log and attachments updated in place, each call one
    transaction that writes first and rolls back when a later check refuses
    (internal/agentbudget/postgres/store.go). Each method is proved against the operation on values
    in module Ledger. */
module LedgerStore {
  import opened Prelude
  import opened AgentBudget
  import opened Ledger

  class Store {
    var rows: seq<Row>
    var events: seq<Event>
    var attached: map<int64, nat>

    function Abs(): State
      reads this
    {
      State(rows, events, attached)
    }

    ghost predicate Valid()
      reads this
    {
      WellFormed(Abs())
    }

    constructor ()
      ensures Valid() && Abs() == EMPTY
    {
      rows, events, attached := [], [], map[];
    }

    method CreateRootBudget(organization: string, task: int64, role: string, limits: Limits)
      returns (r: Result<nat, Error>)
      requires Valid()
      modifies this
      ensures Valid() && (Abs(), r) == CreateRoot(old(Abs()), organization, task, role, limits)
    {
      CreateRootKeeps(Abs(), organization, task, role, limits);
      if !limits.Valid() { return Err(Invalid); }
      var b := RowFor(rows, task);
      if b.None? {
        if task <= 0 { return Err(Refused); }
        var id := |rows|;
        rows := rows + [Row(organization, task, task, role, None, limits, NO_USAGE.(depth := 1))];
        events := events + [Event(id, Created, task, NO_USAGE.(depth := 1))];
        attached := Attach(attached, task, id);
        b := Some(id);
      }
      if !SameRootBudget(rows[b.value], organization, task, role, limits) { return Err(Conflict); }
      r := Ok(b.value);
    }

    /** With no allocation the child shares the parent's row; with one it gets a row of its own and
        the parent pays for it. */
    method InheritForChild(b: nat, child: int64, role: string, depth: int64, allocation: Option<Limits>)
      returns (r: Result<nat, Error>)
      requires Valid()
      modifies this
      ensures Valid() && (Abs(), r) == Inherit(old(Abs()), b, child, role, depth, allocation)
    {
      if depth <= 0 || (allocation.Some? && !allocation.value.Valid()) { return Err(Invalid); }
      if b >= |rows| { return Err(NotFound); }
      assert RowBounded(rows[b]) && Used(rows[b].usage, Subagents) <= Max(rows[b].limits, Subagents);
      if depth > rows[b].limits.depth { return Err(Exceeded); }
      if child <= 0 { return Err(Refused); }
      if allocation.None? {
        r := Share(b, child, role, depth);
      } else {
        r := Allocate(b, child, role, depth, allocation.value);
      }
    }

    method Share(b: nat, child: int64, role: string, depth: int64) returns (r: Result<nat, Error>)
      requires Valid() && b < |rows| && 0 < depth <= rows[b].limits.depth && child > 0
      modifies this
      ensures Valid() && (Abs(), r) == Inherit(old(Abs()), b, child, role, depth, None)
    {
      ShareKeeps(Abs(), b, child, role, depth);
      var parent := rows[b];
      assert RowBounded(parent) && Used(parent.usage, Subagents) <= Max(parent.limits, Subagents);
      if Find(events, b, Inherited, child).Some? { return Ok(b); }
      var saved := events;
      events := events + [Event(b, Inherited, child, NO_USAGE.(subagents := 1))];
      if parent.usage.subagents + 1 > parent.limits.subagents {
        events := saved;
        return Err(Exceeded);
      }
      var newDepth := Deeper(parent.usage, depth);
      rows := rows[b := Charge(parent, parent.usage.(depth := newDepth, subagents := parent.usage.subagents + 1))];
      attached := Attach(attached, child, b);
      r := Ok(b);
    }

    method Allocate(b: nat, child: int64, role: string, depth: int64, a: Limits) returns (r: Result<nat, Error>)
      requires Valid() && b < |rows| && 0 < depth <= rows[b].limits.depth && child > 0 && a.Valid()
      modifies this
      ensures Valid() && (Abs(), r) == Inherit(old(Abs()), b, child, role, depth, Some(a))
    {
      AllocateKeeps(Abs(), b, child, role, depth, a);
      var parent := rows[b];
      assert RowBounded(parent) && Used(parent.usage, Subagents) <= Max(parent.limits, Subagents);
      if Find(events, b, Inherited, child).Some? {
        var existing := RowFor(rows, child);
        return if existing.Some? then Ok(existing.value) else Err(NotFound);
      }
      var saved := events;
      events := events + [Event(b, Inherited, child, Allocation(a))];
      if parent.usage.subagents + 1 > parent.limits.subagents {
        events := saved;
        return Err(Exceeded);
      }
      if !Affordable(parent, a) {
        events := saved;
        return Err(ParentExhausted);
      }
      if RowFor(rows, child).Some? || depth > a.depth || child in attached {
        events := saved;
        return Err(Refused);
      }
      CommitFits(parent, a);
      var id := |rows|;
      rows := rows[b := Charge(parent, Commit(parent.usage, a, depth))];
      rows := rows + [Row(parent.organization, parent.rootTask, child, role, Some(b), a, NO_USAGE.(depth := depth))];
      attached := attached[child := id];
      r := Ok(id);
    }

    method ConsumeModelCall(b: nat, invocation: int64, delta: Usage) returns (r: Result<(), Error>)
      requires Valid()
      modifies this
      ensures Valid() && (Abs(), r) == Consume(old(Abs()), b, invocation, delta)
    {
      ConsumeKeeps(Abs(), b, invocation, delta);
      if b >= |rows| { return Err(NotFound); }
      var current := rows[b];
      if invocation <= 0 { return Err(Refused); }
      if Find(events, b, Consumed, invocation).Some? { return Ok(()); }
      var saved := events;
      events := events + [Event(b, Consumed, invocation, delta.(depth := 0, subagents := 0))];
      var next := Reserve(current.usage, delta, current.limits);
      if next.Err? {
        events := saved;
        return Err(if next.error == InvalidRequest then Invalid else Exceeded);
      }
      rows := rows[b := Charge(current,
                               next.value.(depth := current.usage.depth, subagents := current.usage.subagents))];
      r := Ok(());
    }

    method SettleModelCall(b: nat, invocation: int64, actual: Usage) returns (r: Result<(), Error>)
      requires Valid()
      modifies this
      ensures Valid() && (Abs(), r) == Settle(old(Abs()), b, invocation, actual)
    {
      SettleKeeps(Abs(), b, invocation, actual);
      if b >= |rows| { return Err(NotFound); }
      var current := rows[b];
      var admitted := Find(events, b, Consumed, invocation);
      if admitted.None? { return Ok(()); }
      var charged := events[admitted.value].delta;
      if Find(events, b, Reconciled, invocation).Some? { return Ok(()); }
      var saved := events;
      events := events + [Event(b, Reconciled, invocation,
                                NO_USAGE.(usd := Wrap(actual.usd - charged.usd),
                                          tokens := Wrap(actual.tokens - charged.tokens)))];
      var usd := Settled(current.usage.usd, charged.usd, actual.usd);
      var tokens := Settled(current.usage.tokens, charged.tokens, actual.tokens);
      if usd > current.limits.usd || tokens > current.limits.tokens {
        events := saved;
        return Err(Refused);
      }
      rows := rows[b := Charge(current, current.usage.(usd := usd, tokens := tokens))];
      r := Ok(());
    }
  }
}
