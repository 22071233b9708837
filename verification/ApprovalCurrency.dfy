/** Whether an allow is still under the current revision and matrix when it is answered: evaluation and
    consumption are two steps, and a request already consumed is answered without looking at the registry again
    (internal/authorization/service.go, internal/authorization/postgres/transitions.go). */
module ApprovalCurrency {
  import opened Prelude
  import opened Policy
  import opened Approvals

  /** The last registry written during these steps, or the one before them. */
  function RegistryAfter(registry: Registry, steps: seq<Step>): Registry
    decreases |steps|
  {
    if steps == [] then registry
    else RegistryAfter(if steps[0].Registered? then steps[0].registry else registry, steps[1..])
  }

  predicate RegistryUntouched(steps: seq<Step>) {
    forall i | 0 <= i < |steps| :: !steps[i].Registered?
  }

  /** The revision and matrix hash the evaluation saw are the ones this registry has. */
  predicate StillSeen(c: Call, registry: Registry) {
    && registry.organization.Some? && registry.revision.Some?
    && registry.organization.value.id == c.question.organization && !registry.organization.value.retired
    && registry.organization.value.currentRevision == c.revisionSeen && registry.revision.value.id == c.revisionSeen
    && registry.revision.value.matrixHash == c.hashSeen
  }

  lemma {:induction false} SweepReadsOnly(a: Authorizer, w: World, ids: seq<nat>, now: int)
    ensures Expire(a, w, ids, now).registry == w.registry
    decreases |ids|
  {
    if ids != [] {
      SweepReadsOnly(a, if Due(a, w, ids[0], now) then Move(w, ids[0], Expired) else w, ids[1..], now);
    }
  }

  lemma OnlyRegistrationWrites(a: Authorizer, w: World, step: Step)
    ensures Apply(a, w, step).registry == if step.Registered? then step.registry else w.registry
  {
    if step.Swept? { SweepReadsOnly(a, w, step.ids, step.now); }
  }

  lemma {:induction false} RegistryFollowed(a: Authorizer, w: World, steps: seq<Step>)
    ensures Run(a, w, steps).registry == RegistryAfter(w.registry, steps)
    ensures RegistryUntouched(steps) ==> RegistryAfter(w.registry, steps) == w.registry
    decreases |steps|
  {
    if steps != [] {
      OnlyRegistrationWrites(a, w, steps[0]);
      RegistryFollowed(a, Apply(a, w, steps[0]), steps[1..]);
      assert RegistryUntouched(steps) ==> !steps[0].Registered? && RegistryUntouched(steps[1..]);
    }
  }

  lemma AskedWhileCurrent(a: Authorizer, registry: Registry, q: Question)
    requires Evaluate(a, registry, q).effect == ApprovalRequired
    ensures CurrentIn(a, registry, q)
  {
  }

  lemma AnswerShape(a: Authorizer, v: World, call: nat, now: int)
    requires Inv(a, v) && IsSha256(a.matrixHash) && call in v.calls
    requires |Answer(a, v, call, now).permits| == |v.permits| + 1
    ensures var p := Answer(a, v, call, now).permits[|v.permits|];
            && p.call == v.calls[call] && p.now == v.registry
            && (p.first <==> |Answer(a, v, call, now).uses| == |v.uses| + 1)
            && (p.first ==> CurrentIn(a, v.registry, v.calls[call].question))
  {
    var c := v.calls[call];
    ConsumeShape(a, v, CommandOf(a, c), now);
    FirstAnswerIsCurrent(a, v, c, now);
  }

  /** For every run, every question evaluated in it, every continuation and every allow answered to that question:
      the answer is under the current revision and matrix if and only if it recorded the use itself or the last
      registry written since the evaluation still has the revision and hash the evaluation saw. */
  lemma AllowIsCurrentIff(a: Authorizer, registry: Registry, before: seq<Step>, between: seq<Step>,
                          call: nat, q: Question, id: nat, now: int)
    requires Built(a)
    requires var w := Run(a, Initial(registry), before);
             && Presentable(q) && Evaluate(a, w.registry, q).effect == ApprovalRequired
             && var asked := Ask(a, w, call, q, id);
             && var v := Run(a, asked, between);
             && call in asked.calls && call in v.calls && v.calls[call] == asked.calls[call]
             && |Answer(a, v, call, now).permits| == |v.permits| + 1
    ensures var w := Run(a, Initial(registry), before);
            var v := Run(a, Ask(a, w, call, q, id), between);
            var p := Answer(a, v, call, now).permits[|v.permits|];
            && p.call.question == q && CurrentIn(a, w.registry, q)
            && p.now == RegistryAfter(w.registry, between)
            && (p.first <==> |Answer(a, v, call, now).uses| == |v.uses| + 1)
            && (CurrentIn(a, p.now, q) <==> p.first || StillSeen(p.call, RegistryAfter(w.registry, between)))
            && (RegistryUntouched(between) ==> CurrentIn(a, p.now, q))
  {
    var w := Run(a, Initial(registry), before);
    RunKeeps(a, Initial(registry), before);
    AskKeeps(a, w, call, q, id);
    var asked := Ask(a, w, call, q, id);
    RunKeeps(a, asked, between);
    RegistryFollowed(a, asked, between);
    AskedWhileCurrent(a, w.registry, q);
    AnswerShape(a, Run(a, asked, between), call, now);
  }

  // ---------------------------------------------------------------------------------------------
  // The window is real

  /** A question the policy wants approved, an owner to approve it, and any other registry to come. */
  datatype Story = Story(a: Authorizer, registry: Registry, q: Question, mode: string, key: string, hash: string,
                         owner: string, expiresAt: int, other: Registry)
  {
    predicate Tellable() {
      && Presentable(q) && mode != "" && IsSha256(a.matrixHash) && 0 < expiresAt
      && Evaluate(a, registry, q) == Evaluation(ApprovalRequired, ApprovalMissing, mode)
      && registry.organization.Some? && registry.revision.Some?
      && q.actor in registry.roles && registry.roles[q.actor].id == q.actor
      && owner in registry.roles && registry.roles[owner].id == registry.organization.value.owner
      && !registry.roles[owner].retired && registry.roles[owner].enabled
      && Drift(a, registry.organization.value, registry.revision.value, Some(registry.roles[q.actor]),
               Asking(Pending)) == None
    }
    function Asking(status: Status): Request { Request(q, a.matrixHash, mode, key, hash, status, expiresAt) }
    function Ruling(): Decision
      requires Tellable()
    {
      Decision(1, true, registry.organization.value.owner, registry.organization.value.owner,
               registry.revision.value.id, registry.revision.value.matrixHash)
    }
    function Evaluated(): Call
      requires Tellable()
    {
      Call(q, 1, mode, registry.revision.value.id, registry.revision.value.matrixHash)
    }
    function Stored(status: Status): World {
      Initial(registry).(requests := map[1 := Asking(status)], keys := map[key := 1], nextId := 2)
    }
    function Ruled(): World
      requires Tellable()
    {
      Stored(Approved).(decisions := [Ruling()])
    }
    function Used(): World
      requires Tellable()
    {
      Stored(Consumed).(decisions := [Ruling()], uses := [Use(1, q.actor, q.digest)],
                        permits := [Permit(Evaluated(), 1, true, registry)])
    }
    function UsedAgain(): World
      requires Tellable()
    {
      Used().(registry := other, permits := Used().permits + [Permit(Evaluated(), 1, false, other)])
    }
  }

  lemma StoryCurrent(t: Story)
    requires t.Tellable()
    ensures CurrentIn(t.a, t.registry, t.q) && t.q.organization == t.a.organization
  {
  }

  lemma CreateAndApprove(t: Story)
    requires t.Tellable()
    ensures Create(Initial(t.registry), t.Asking(Pending)).0 == t.Stored(Pending)
    ensures Decide(t.a, t.Stored(Pending), 1, t.owner, true, 0).0 == t.Ruled()
  {
    StoryCurrent(t);
  }

  lemma AskFirst(t: Story, w: World)
    requires t.Tellable() && w.registry == t.registry && w.calls == map[]
    ensures Ask(t.a, w, 0, t.q, 1) == w.(calls := map[0 := t.Evaluated()])
  {
  }

  lemma AnswerFirst(t: Story)
    requires t.Tellable()
    ensures Answer(t.a, t.Ruled().(calls := map[0 := t.Evaluated()]), 0, 0) == t.Used()
  {
    StoryCurrent(t);
    var w := t.Ruled().(calls := map[0 := t.Evaluated()]);
    var c := CommandOf(t.a, t.Evaluated());
    assert Consume(t.a, w, c, 0) == ConsumeApproved(t.a, w, c, 0);
    assert Objection(t.a, t.registry.organization.value, t.registry.revision.value,
                     Find(t.registry.roles, t.q.actor), t.Asking(Approved), c) == None;
  }

  lemma AnswerAgain(t: Story)
    requires t.Tellable()
    ensures Answer(t.a, t.Used().(calls := map[0 := t.Evaluated()], registry := t.other), 0, 0)
            == t.UsedAgain()
  {
    StoryCurrent(t);
  }

  lemma {:induction false} FollowTrace(a: Authorizer, trace: seq<World>, steps: seq<Step>)
    requires |trace| == |steps| + 1
    requires forall i | 0 <= i < |steps| :: trace[i + 1] == Apply(a, trace[i], steps[i])
    ensures Run(a, trace[0], steps) == trace[|steps|]
    decreases |steps|
  {
    if steps != [] {
      assert trace[1] == Apply(a, trace[0], steps[0]);
      assert forall i | 0 <= i < |steps[1..]| :: trace[1..][i + 1] == trace[i + 2] && steps[1..][i] == steps[i + 1];
      FollowTrace(a, trace[1..], steps[1..]);
    }
  }

  lemma {:induction false} RunSplit(a: Authorizer, w: World, first: seq<Step>, second: seq<Step>)
    ensures Run(a, w, first + second) == Run(a, Run(a, w, first), second)
    decreases |first|
  {
    if first == [] {
      assert first + second == second;
    } else {
      assert (first + second)[1..] == first[1..] + second;
      RunSplit(a, Apply(a, w, first[0]), first[1..], second);
    }
  }

  lemma UsedOnceFromEmpty(t: Story)
    requires t.Tellable()
    ensures Run(t.a, Initial(t.registry), [Requested(t.Asking(Pending)), Decided(1, t.owner, true, 0),
                                           Asked(0, t.q, 1), Answered(0, 0)]) == t.Used()
  {
    CreateAndApprove(t);
    AskFirst(t, t.Ruled());
    AnswerFirst(t);
    FollowTrace(t.a, [Initial(t.registry), t.Stored(Pending), t.Ruled(),
                      t.Ruled().(calls := map[0 := t.Evaluated()]), t.Used()],
                [Requested(t.Asking(Pending)), Decided(1, t.owner, true, 0), Asked(0, t.q, 1), Answered(0, 0)]);
  }

  lemma AllowedAgain(t: Story)
    requires t.Tellable()
    ensures Run(t.a, t.Used(), [Asked(0, t.q, 1), Registered(t.other), Answered(0, 0)]) == t.UsedAgain()
  {
    AskFirst(t, t.Used());
    AnswerAgain(t);
    var asked := t.Used().(calls := map[0 := t.Evaluated()]);
    FollowTrace(t.a, [t.Used(), asked, asked.(registry := t.other), t.UsedAgain()],
                [Asked(0, t.q, 1), Registered(t.other), Answered(0, 0)]);
  }

  /** From an empty store: a request is made, approved by the owner and used; the question is asked again, the
      registry is replaced by any other, and the allow is answered under it. */
  lemma SupersededAllow(t: Story) returns (steps: seq<Step>)
    requires t.Tellable() && !CurrentIn(t.a, t.other, t.q)
    ensures var w := Run(t.a, Initial(t.registry), steps);
            && |w.permits| == 2 && w.permits[1].call.question == t.q && w.permits[1].now == t.other
            && !w.permits[1].first && !CurrentIn(t.a, w.permits[1].now, t.q)
  {
    var first := [Requested(t.Asking(Pending)), Decided(1, t.owner, true, 0), Asked(0, t.q, 1), Answered(0, 0)];
    var second := [Asked(0, t.q, 1), Registered(t.other), Answered(0, 0)];
    UsedOnceFromEmpty(t);
    AllowedAgain(t);
    steps := first + second;
    RunSplit(t.a, Initial(t.registry), first, second);
  }
}
