/** A promotion interrupted anywhere is completed by asking again (internal/campaign/promotion_service.go). */
module CampaignRecovery {
  import opened Prelude
  import opened AgentBudget
  import opened ExecutionBudget
  import opened Campaign
  import opened CampaignTheorems

  /** Nothing stands in the way of promoting: not promoted yet, the approval current and fundable, its key free or
      holding this very request, and the idempotency key unused. */
  predicate Promotable(h: Host, w: World, call: Call, newId: int64) {
    && call.Promoting? && call.approval !in w.db.promotions
    && Ready(h, w.db, call.approval) && Leads(w.db, w.db.approvals[call.approval].tuple.proposal)
    && var limits := ToLimits(h.nanos, w.db.approvals[call.approval].tuple.budget);
    && limits.Some? && w.floor.Some? && Feasible(limits.value, w.floor.value)
    && var key := KeyOf(h, w.db, call.approval);
    && var request := RequestOf(h, w.db, call.approval, ModeOf(call.grant));
    && key.Some? && request.Some?
    && (if key.value in w.db.roots then w.db.roots[key.value].request == request.value else !TaskTaken(w.db, newId))
    && (forall id | id in w.db.promotions :: w.db.promotions[id].key != call.key)
  }

  /** The task the promotion will point to: the root left behind by an interrupted attempt, or a new one. */
  function Target(h: Host, w: World, call: Call, newId: int64): int64
    requires Promotable(h, w, call, newId)
  {
    var key := KeyOf(h, w.db, call.approval).value;
    if key in w.db.roots then w.db.roots[key].task else newId
  }

  /** The promotion of this call's approval onto this task: the derived key, the role and key asked with, and the
      granted mode, or analysis only without a grant. */
  predicate IsRow(h: Host, db: Campaign.Records, p: Promotion, call: Call, task: int64)
    requires call.Promoting?
  {
    && p.approval == call.approval && p.task == task && KeyOf(h, db, call.approval) == Some(p.submitKey)
    && p.role == call.role && p.key == call.key
    && p.mode == match call.grant { case Granted(mode, _, _) => mode case NoGrant => AnalysisOnly }
  }

  function Step1(h: Host, w: World, c: nat, newId: int64): World { Apply(h, w, Advance(c, newId)) }

  lemma Checks(h: Host, w: World, c: nat, newId: int64)
    requires c in w.calls && Promotable(h, w, w.calls[c], newId) && w.calls[c].stage == Asked
    ensures var l := ToLimits(h.nanos, w.db.approvals[w.calls[c].approval].tuple.budget).value;
            Step1(h, Step1(h, Step1(h, w, c, newId), c, newId), c, newId)
            == w.(calls := w.calls[c := w.calls[c].(stage := Funded(l, w.floor.value))])
  {
    var call := w.calls[c];
    var l := ToLimits(h.nanos, w.db.approvals[call.approval].tuple.budget).value;
    var w1 := w.(calls := w.calls[c := call.(stage := Unpromoted)]);
    var w2 := w.(calls := w.calls[c := call.(stage := Current)]);
    var w3 := w.(calls := w.calls[c := call.(stage := Funded(l, w.floor.value))]);
    assert Step1(h, w, c, newId) == w1;
    assert Step1(h, w1, c, newId) == w2;
    assert Step1(h, w2, c, newId) == w3;
  }

  lemma Roots(h: Host, w: World, call: Call, newId: int64)
    requires call.Promoting? && call.stage.Funded? && Promotable(h, w, call, newId)
    ensures var o := Continue(h, w, call, newId);
            var task := Target(h, w, call, newId);
            && o.next == Some(call.(stage := Rooted(call.stage.limits, task)))
            && Perform(w.db, o.write).promotions == w.db.promotions
            && Perform(w.db, o.write).approvals == w.db.approvals
            && HasRoot(h, Perform(w.db, o.write), call.approval, task, ModeOf(call.grant))
  {
  }

  lemma Submits(h: Host, w: World, c: nat, newId: int64)
    requires c in w.calls && w.calls[c].Promoting? && w.calls[c].stage.Funded? && Promotable(h, w, w.calls[c], newId)
    ensures var t := Step1(h, w, c, newId);
            var call := w.calls[c];
            var task := Target(h, w, call, newId);
            && t.calls == w.calls[c := call.(stage := Rooted(call.stage.limits, task))]
            && t.db.promotions == w.db.promotions && t.db.approvals == w.db.approvals
            && HasRoot(h, t.db, call.approval, task, ModeOf(call.grant))
  {
    Roots(h, w, w.calls[c], newId);
  }

  lemma Records(h: Host, w: World, c: nat, newId: int64)
    requires Inv(h, w) && c in w.calls && w.calls[c].Promoting? && w.calls[c].stage.Rooted?
    ensures var t := Step1(h, w, c, newId);
            var call := w.calls[c];
            && t.calls == w.calls[c := call.(stage := Banked(call.stage.task))]
            && t.db.promotions == w.db.promotions && t.db.roots == w.db.roots && t.db.approvals == w.db.approvals
  {
    var call := w.calls[c];
    assert CallOk(h, w.db, call);
    var key := KeyOf(h, w.db, call.approval).value;
    assert RootOk(h, w.db, key, w.db.roots[key]);
  }

  lemma Seals(h: Host, w: World, c: nat, newId: int64)
    requires Inv(h, w) && c in w.calls && w.calls[c].Promoting? && w.calls[c].stage.Banked?
    requires w.calls[c].approval !in w.db.promotions
    requires forall id | id in w.db.promotions :: w.db.promotions[id].key != w.calls[c].key
    ensures var t := Step1(h, w, c, newId);
            var call := w.calls[c];
            && c !in t.calls && call.approval in t.db.promotions
            && IsRow(h, w.db, t.db.promotions[call.approval], call, call.stage.task)
  {
    var call := w.calls[c];
    assert CallOk(h, w.db, call);
    forall id | id in w.db.promotions ensures w.db.promotions[id].task != call.stage.task {
      RootNotShared(h, w.db, call.approval, call.stage.task, ModeOf(call.grant), id);
    }
    Inserts(h, w, c, newId);
  }

  lemma Inserts(h: Host, w: World, c: nat, newId: int64)
    requires c in w.calls && w.calls[c].Promoting? && w.calls[c].stage.Banked?
             && w.calls[c].approval !in w.db.promotions
    requires KeyOf(h, w.db, w.calls[c].approval).Some?
    requires forall id | id in w.db.promotions ::
               w.db.promotions[id].key != w.calls[c].key && w.db.promotions[id].task != w.calls[c].stage.task
    ensures var t := Step1(h, w, c, newId);
            var call := w.calls[c];
            && c !in t.calls && call.approval in t.db.promotions
            && IsRow(h, w.db, t.db.promotions[call.approval], call, call.stage.task)
  {
    var call := w.calls[c];
    var key := KeyOf(h, w.db, call.approval).value;
    var row := Promotion(call.approval, call.stage.task, key, ModeOf(call.grant), call.role, call.key);
    assert Persist(h, w.db, call, call.stage.task) == Outcome(PutPromotion(call.approval, row), None);
  }

  lemma RootNotShared(h: Host, db: Campaign.Records, approval: int64, task: int64, mode: Mode, id: int64)
    requires RecordsOk(h, db) && HasRoot(h, db, approval, task, mode) && id in db.promotions && id != approval
    ensures db.promotions[id].task != task
  {
    assert PromotionOk(h, db, id, db.promotions[id]);
    assert TasksApart(db);
  }

  lemma Closes(h: Host, w: World, c: nat, newId: int64)
    requires Inv(h, w) && c in w.calls && w.calls[c].Promoting? && w.calls[c].stage.Rooted?
    requires w.calls[c].approval !in w.db.promotions
    requires forall id | id in w.db.promotions :: w.db.promotions[id].key != w.calls[c].key
    ensures var t := Step1(h, Step1(h, w, c, newId), c, newId);
            var call := w.calls[c];
            && call.approval in t.db.promotions && c !in t.calls
            && IsRow(h, w.db, t.db.promotions[call.approval], call, call.stage.task)
  {
    Records(h, w, c, newId);
    ApplyKeeps(h, w, Advance(c, newId));
    Seals(h, Step1(h, w, c, newId), c, newId);
  }

  lemma Finishes(h: Host, w: World, c: nat, newId: int64)
    requires Inv(h, w) && c in w.calls && w.calls[c].Promoting? && w.calls[c].stage.Funded?
             && Promotable(h, w, w.calls[c], newId)
    ensures var t := Step1(h, Step1(h, Step1(h, w, c, newId), c, newId), c, newId);
            var call := w.calls[c];
            && call.approval in t.db.promotions && c !in t.calls
            && IsRow(h, w.db, t.db.promotions[call.approval], call, Target(h, w, call, newId))
  {
    Submits(h, w, c, newId);
    ApplyKeeps(h, w, Advance(c, newId));
    Closes(h, Step1(h, w, c, newId), c, newId);
  }

  /** Wherever earlier attempts crashed, six uninterrupted steps promote the approval, onto the root an
      earlier attempt created if there is one, with exactly the row the call asks for. */
  lemma RetryConverges(h: Host, w: World, c: nat, newId: int64)
    requires Inv(h, w) && c in w.calls && Promotable(h, w, w.calls[c], newId) && w.calls[c].stage == Asked
    ensures var go := Advance(c, newId);
            var t := Run(h, w, [go, go, go] + [go, go, go]);
            var call := w.calls[c];
            && call.approval in t.db.promotions && c !in t.calls
            && IsRow(h, w.db, t.db.promotions[call.approval], call, Target(h, w, call, newId))
  {
    var go := Advance(c, newId);
    RunSplit(h, w, [go, go, go], [go, go, go]);
    RunKeeps(h, w, [go, go, go]);
    Thrice(h, w, go);
    Checks(h, w, c, newId);
    var w3 := Run(h, w, [go, go, go]);
    Thrice(h, w3, go);
    Finishes(h, w3, c, newId);
  }

  lemma Thrice(h: Host, w: World, go: Step)
    ensures Run(h, w, [go, go, go]) == Apply(h, Apply(h, Apply(h, w, go), go), go)
  {
    var a, b := Apply(h, w, go), Apply(h, Apply(h, w, go), go);
    assert [go, go, go][1..] == [go, go] && [go, go][1..] == [go] && [go][1..] == [];
    assert Run(h, w, [go, go, go]) == Run(h, a, [go, go]) == Run(h, b, [go]) == Apply(h, b, go);
  }
}
