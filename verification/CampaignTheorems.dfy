/** What every reachable state of the campaign machine guarantees about roots, promotions and modes. */
module CampaignTheorems {
  import opened Prelude
  import opened AgentBudget
  import opened ExecutionBudget
  import SubmitKey
  import opened Campaign

  // ---------------------------------------------------------------------------------------------
  // The invariant

  /** The recorded head of a lineage is its one revision with the highest number. */
  ghost predicate Lineages(db: Records) {
    && (forall l | l in db.heads :: db.heads[l] in db.proposals && db.proposals[db.heads[l]].lineage == l)
    && (forall p | p in db.proposals ::
          && db.proposals[p].lineage in db.heads
          && var head := db.heads[db.proposals[p].lineage];
          && head in db.proposals && (p != head ==> db.proposals[p].revision < db.proposals[head].revision))
  }

  /** An approval binds one proposal and one recommended review, is hashed as it stands, and was not given by
      the reviewer. */
  predicate ApprovalOk(h: Host, db: Records, id: int64) {
    && id in db.approvals && id > 0
    && var a := db.approvals[id];
    && Bound(db, a.tuple) && a.hash == h.approvalHash(a.tuple)
    && db.reviews[a.tuple.review].finding.proposalHash == a.tuple.proposalHash
    && db.reviews[a.tuple.review].finding.reviewer != a.tuple.approver
  }

  predicate Ready(h: Host, db: Records, id: int64) {
    ApprovalOk(h, db, id) && Sealed(h, db, db.approvals[id])
  }

  predicate Converted(h: Host, db: Records, id: int64, limits: Limits) {
    id in db.approvals && ToLimits(h.nanos, db.approvals[id].tuple.budget) == Some(limits)
  }

  predicate RootOk(h: Host, db: Records, key: string, r: Root) {
    && Ready(h, db, r.request.approval)
    && KeyOf(h, db, r.request.approval) == Some(key)
    && RequestOf(h, db, r.request.approval, r.request.mode) == Some(r.request)
    && Converted(h, db, r.request.approval, r.limits)
    && Feasible(r.limits, r.floor)
  }

  /** The root of this approval has this task and this mode. */
  predicate HasRoot(h: Host, db: Records, approval: int64, task: int64, mode: Mode) {
    var key := KeyOf(h, db, approval);
    && key.Some? && key.value in db.roots && db.roots[key.value].task == task
    && db.roots[key.value].request.approval == approval && db.roots[key.value].request.mode == mode
  }

  predicate PromotionOk(h: Host, db: Records, id: int64, p: Promotion) {
    && p.approval == id && KeyOf(h, db, id) == Some(p.submitKey)
    && HasRoot(h, db, id, p.task, p.mode) && p.task in db.budgets
  }

  predicate CallOk(h: Host, db: Records, call: Call) {
    match call
    case Promoting(approval, _, _, grant, stage) =>
      (match stage
       case Asked => true
       case Unpromoted => true
       case Current => Ready(h, db, approval)
       case Funded(limits, floor) =>
         Ready(h, db, approval) && Converted(h, db, approval, limits) && Feasible(limits, floor)
       case Rooted(limits, task) => Converted(h, db, approval, limits) && HasRoot(h, db, approval, task, ModeOf(grant))
       case Banked(task) => HasRoot(h, db, approval, task, ModeOf(grant)) && task in db.budgets)
    case Approving(proposal, review, approver, _, progress) =>
      progress == Cleared ==> Approvable(db, proposal, review) && db.reviews[review].finding.reviewer != approver
  }

  ghost predicate TasksApart(db: Records) {
    forall j, k | j in db.roots && k in db.roots :: db.roots[j].task == db.roots[k].task ==> j == k
  }

  ghost predicate BudgetsMatch(db: Records) {
    forall k | k in db.roots :: db.roots[k].task in db.budgets ==> db.budgets[db.roots[k].task] == db.roots[k].limits
  }

  ghost predicate RootsOk(h: Host, db: Records) {
    (forall k | k in db.roots :: RootOk(h, db, k, db.roots[k])) && TasksApart(db) && BudgetsMatch(db)
  }

  ghost predicate RecordsOk(h: Host, db: Records) {
    && Lineages(db)
    && (forall id | id in db.approvals :: ApprovalOk(h, db, id))
    && RootsOk(h, db)
    && (forall id | id in db.promotions :: PromotionOk(h, db, id, db.promotions[id]))
  }

  ghost predicate Inv(h: Host, w: World) {
    RecordsOk(h, w.db) && forall c | c in w.calls :: CallOk(h, w.db, w.calls[c])
  }

  // ---------------------------------------------------------------------------------------------
  // Growth keeps what was established

  lemma ApprovalStays(h: Host, v: Records, w: Records, id: int64)
    requires Grows(v, w) && ApprovalOk(h, v, id)
    ensures ApprovalOk(h, w, id)
    ensures Ready(h, v, id) ==> Ready(h, w, id)
  {
  }

  lemma HasRootStays(h: Host, v: Records, w: Records, approval: int64, task: int64, mode: Mode)
    requires Grows(v, w) && HasRoot(h, v, approval, task, mode)
    ensures HasRoot(h, w, approval, task, mode)
  {
  }

  lemma RootStays(h: Host, v: Records, w: Records, key: string, r: Root)
    requires Grows(v, w) && RootOk(h, v, key, r)
    ensures RootOk(h, w, key, r)
  {
    ApprovalStays(h, v, w, r.request.approval);
  }

  lemma PromotionStays(h: Host, v: Records, w: Records, id: int64, p: Promotion)
    requires Grows(v, w) && PromotionOk(h, v, id, p)
    ensures PromotionOk(h, w, id, p)
  {
    HasRootStays(h, v, w, id, p.task, p.mode);
  }

  lemma CallStays(h: Host, v: Records, w: Records, call: Call)
    requires Grows(v, w) && CallOk(h, v, call)
    ensures CallOk(h, w, call)
  {
    if call.Promoting? {
      match call.stage
      case Current => ApprovalStays(h, v, w, call.approval);
      case Funded(_, _) => ApprovalStays(h, v, w, call.approval);
      case Rooted(_, task) => HasRootStays(h, v, w, call.approval, task, ModeOf(call.grant));
      case Banked(task) => HasRootStays(h, v, w, call.approval, task, ModeOf(call.grant));
      case _ =>
    }
  }

  // ---------------------------------------------------------------------------------------------
  // Every write keeps the records

  /** What a new record must satisfy in the records that hold it. */
  ghost predicate WriteOk(h: Host, db: Records, write: Write) {
    match write
    case NoWrite => true
    case PutProposal(id, p) =>
      && id !in db.heads
      && (if p.lineage in db.heads then
            db.heads[p.lineage] in db.proposals && p.revision > db.proposals[db.heads[p.lineage]].revision
          else p.lineage == id)
    case PutReview(_, _) => true
    case PutApproval(id, _) => ApprovalOk(h, Perform(db, write), id)
    case PutRoot(key, r) => RootOk(h, db, key, r) && !TaskTaken(db, r.task)
    case PutBudget(task, l) => exists k | k in db.roots :: db.roots[k].task == task && db.roots[k].limits == l
    case PutPromotion(id, p) => PromotionOk(h, db, id, p)
  }

  lemma LineagesKept(h: Host, db: Records, write: Write)
    requires Lineages(db) && Adds(db, write) && WriteOk(h, db, write)
    ensures Lineages(Perform(db, write))
  {
  }

  lemma ApprovalsKept(h: Host, db: Records, write: Write)
    requires RecordsOk(h, db) && Adds(db, write) && WriteOk(h, db, write)
    ensures forall id | id in Perform(db, write).approvals :: ApprovalOk(h, Perform(db, write), id)
  {
    AddsGrows(db, write);
    forall id | id in Perform(db, write).approvals ensures ApprovalOk(h, Perform(db, write), id) {
      if id in db.approvals { ApprovalStays(h, db, Perform(db, write), id); }
    }
  }

  lemma TasksKept(h: Host, db: Records, write: Write)
    requires TasksApart(db) && BudgetsMatch(db) && Adds(db, write) && WriteOk(h, db, write)
    ensures TasksApart(Perform(db, write)) && BudgetsMatch(Perform(db, write))
  {
    match write
    case PutRoot(key, r) =>
      var t := Perform(db, write);
      assert forall k | k in db.roots :: t.roots[k] == db.roots[k] && db.roots[k].task != r.task;
    case PutBudget(task, l) =>
      var k :| k in db.roots && db.roots[k].task == task && db.roots[k].limits == l;
      assert forall j | j in db.roots && db.roots[j].task == task :: j == k;
    case _ =>
  }

  lemma RootsKept(h: Host, db: Records, write: Write)
    requires RootsOk(h, db) && Adds(db, write) && WriteOk(h, db, write)
    ensures RootsOk(h, Perform(db, write))
  {
    var t := Perform(db, write);
    TasksKept(h, db, write);
    AddsGrows(db, write);
    forall k | k in t.roots ensures RootOk(h, t, k, t.roots[k]) {
      assert RootOk(h, db, k, t.roots[k]);
      RootStays(h, db, t, k, t.roots[k]);
    }
  }

  lemma PromotionsKept(h: Host, db: Records, write: Write)
    requires RecordsOk(h, db) && Adds(db, write) && WriteOk(h, db, write)
    ensures forall id | id in Perform(db, write).promotions ::
              PromotionOk(h, Perform(db, write), id, Perform(db, write).promotions[id])
  {
    var t := Perform(db, write);
    AddsGrows(db, write);
    forall id | id in t.promotions ensures PromotionOk(h, t, id, t.promotions[id]) {
      PromotionStays(h, db, t, id, t.promotions[id]);
    }
  }

  lemma PerformKeeps(h: Host, db: Records, write: Write)
    requires RecordsOk(h, db) && Adds(db, write) && WriteOk(h, db, write)
    ensures RecordsOk(h, Perform(db, write))
  {
    LineagesKept(h, db, write);
    ApprovalsKept(h, db, write);
    RootsKept(h, db, write);
    PromotionsKept(h, db, write);
  }

  // ---------------------------------------------------------------------------------------------
  // Every step makes only justified writes

  ghost predicate Justified(h: Host, db: Records, o: Outcome) {
    WriteOk(h, db, o.write) && (o.next.Some? ==> CallOk(h, Perform(db, o.write), o.next.value))
  }

  lemma FoundJustified(h: Host, w: World, call: Call, limits: Limits, checked: Limits, newId: int64, key: string)
    requires call.Promoting? && CallOk(h, w.db, call) && call.stage == Funded(limits, checked)
    requires KeyOf(h, w.db, call.approval) == Some(key) && key in w.db.roots && RootOk(h, w.db, key, w.db.roots[key])
    ensures Justified(h, w.db, SubmitRoot(h, w.db, w.floor, call, limits, checked, newId))
  {
  }

  lemma NewJustified(h: Host, w: World, call: Call, limits: Limits, checked: Limits, newId: int64)
    requires call.Promoting? && CallOk(h, w.db, call) && call.stage == Funded(limits, checked)
    requires var key := KeyOf(h, w.db, call.approval); key.None? || key.value !in w.db.roots
    ensures Justified(h, w.db, SubmitRoot(h, w.db, w.floor, call, limits, checked, newId))
  {
  }

  lemma SubmitJustified(h: Host, w: World, call: Call, limits: Limits, checked: Limits, newId: int64)
    requires Inv(h, w) && call.Promoting? && call.stage == Funded(limits, checked) && CallOk(h, w.db, call)
    ensures Justified(h, w.db, SubmitRoot(h, w.db, w.floor, call, limits, checked, newId))
  {
    var key := KeyOf(h, w.db, call.approval);
    if key.Some? && key.value in w.db.roots {
      FoundJustified(h, w, call, limits, checked, newId, key.value);
    } else {
      NewJustified(h, w, call, limits, checked, newId);
    }
  }

  lemma EarlyJustified(h: Host, w: World, call: Call, newId: int64)
    requires call.Promoting? && CallOk(h, w.db, call)
             && (call.stage.Asked? || call.stage.Unpromoted? || call.stage.Current?)
    requires call.approval in w.db.approvals ==> ApprovalOk(h, w.db, call.approval)
    ensures Justified(h, w.db, Promote(h, w.db, w.floor, call, newId))
  {
  }

  lemma BudgetJustified(h: Host, w: World, call: Call, newId: int64)
    requires call.Promoting? && CallOk(h, w.db, call) && call.stage.Rooted?
    requires forall k | k in w.db.roots :: RootOk(h, w.db, k, w.db.roots[k])
    ensures Justified(h, w.db, Promote(h, w.db, w.floor, call, newId))
  {
    var key := KeyOf(h, w.db, call.approval).value;
    assert RootOk(h, w.db, key, w.db.roots[key]);
    assert w.db.roots[key].limits == call.stage.limits;
  }

  lemma PersistJustified(h: Host, w: World, call: Call, newId: int64)
    requires call.Promoting? && CallOk(h, w.db, call) && call.stage.Banked?
    ensures Justified(h, w.db, Promote(h, w.db, w.floor, call, newId))
  {
  }

  lemma PromoteJustified(h: Host, w: World, call: Call, newId: int64)
    requires Inv(h, w) && call.Promoting? && CallOk(h, w.db, call)
    ensures Justified(h, w.db, Promote(h, w.db, w.floor, call, newId))
  {
    match call.stage
    case Funded(limits, checked) => SubmitJustified(h, w, call, limits, checked, newId);
    case Rooted(_, _) => BudgetJustified(h, w, call, newId);
    case Banked(_) => PersistJustified(h, w, call, newId);
    case _ => EarlyJustified(h, w, call, newId);
  }

  lemma ApproveJustified(h: Host, w: World, call: Call, newId: int64)
    requires Inv(h, w) && call.Approving? && CallOk(h, w.db, call)
    ensures Justified(h, w.db, Approve(h, w.db, w.floor, call, newId))
  {
  }

  lemma OutsideJustified(h: Host, db: Records, step: Step)
    requires RecordsOk(h, db)
    ensures Adds(db, Outside(db, step)) && WriteOk(h, db, Outside(db, step))
  {
  }

  lemma CallsStay(h: Host, v: Records, w: Records, calls: map<nat, Call>)
    requires Grows(v, w) && forall c | c in calls :: CallOk(h, v, calls[c])
    ensures forall c | c in calls :: CallOk(h, w, calls[c])
  {
    forall c | c in calls ensures CallOk(h, w, calls[c]) { CallStays(h, v, w, calls[c]); }
  }

  lemma WriteJustified(h: Host, w: World, call: Call, newId: int64)
    requires Inv(h, w) && CallOk(h, w.db, call)
    ensures var o := Continue(h, w, call, newId);
            Adds(w.db, o.write) && Justified(h, w.db, o)
  {
    ContinueAdds(h, w, call, newId);
    if call.Promoting? { PromoteJustified(h, w, call, newId); } else { ApproveJustified(h, w, call, newId); }
  }

  lemma ContinueJustified(h: Host, w: World, call: Call, newId: int64)
    requires Inv(h, w) && CallOk(h, w.db, call)
    ensures var o := Continue(h, w, call, newId);
            && RecordsOk(h, Perform(w.db, o.write)) && Grows(w.db, Perform(w.db, o.write))
            && (o.next.Some? ==> CallOk(h, Perform(w.db, o.write), o.next.value))
  {
    WriteJustified(h, w, call, newId);
    PerformKeeps(h, w.db, Continue(h, w, call, newId).write);
    AddsGrows(w.db, Continue(h, w, call, newId).write);
  }

  lemma AdvanceKeeps(h: Host, w: World, c: nat, newId: int64)
    requires Inv(h, w) && c in w.calls
    ensures Inv(h, Apply(h, w, Advance(c, newId)))
  {
    ContinueJustified(h, w, w.calls[c], newId);
    CallsStay(h, w.db, Perform(w.db, Continue(h, w, w.calls[c], newId).write), w.calls);
  }

  lemma ApplyKeeps(h: Host, w: World, step: Step)
    requires Inv(h, w)
    ensures Inv(h, Apply(h, w, step))
  {
    if step.Advance? {
      if step.call in w.calls { AdvanceKeeps(h, w, step.call, step.newId); }
    } else if step.Draft? || step.Revise? || step.Reviewed? {
      OutsideJustified(h, w.db, step);
      PerformKeeps(h, w.db, Outside(w.db, step));
      AddsGrows(w.db, Outside(w.db, step));
      CallsStay(h, w.db, Perform(w.db, Outside(w.db, step)), w.calls);
    }
  }

  lemma {:induction false} RunKeeps(h: Host, w: World, steps: seq<Step>)
    requires Inv(h, w)
    ensures Inv(h, Run(h, w, steps))
    decreases |steps|
  {
    if steps != [] {
      ApplyKeeps(h, w, steps[0]);
      RunKeeps(h, Apply(h, w, steps[0]), steps[1..]);
    }
  }

  function Start(floor: Option<Limits>): World { World(EMPTY, floor, map[]) }

  // ---------------------------------------------------------------------------------------------
  // One root per approval

  /** In every interleaving of promotions on either path, retries and crashes: an approval has at most one
      Executive root, two approvals never share one, and a durable promotion points to its approval's root,
      whose budget is already recorded. */
  lemma OneRootPerApproval(h: Host, floor: Option<Limits>, steps: seq<Step>)
    ensures var db := Run(h, Start(floor), steps).db;
            && (forall j, k | j in db.roots && k in db.roots ::
                  (db.roots[j].request.approval == db.roots[k].request.approval
                   || db.roots[j].task == db.roots[k].task) ==> j == k)
            && (forall id | id in db.promotions ::
                  && db.promotions[id].submitKey in db.roots
                  && var root := db.roots[db.promotions[id].submitKey];
                  && root.request.approval == id && root.task == db.promotions[id].task && root.task in db.budgets)
  {
    RunKeeps(h, Start(floor), steps);
    var db := Run(h, Start(floor), steps).db;
    forall j, k | j in db.roots && k in db.roots && db.roots[j].request.approval == db.roots[k].request.approval
      ensures j == k
    {
      assert RootOk(h, db, j, db.roots[j]) && RootOk(h, db, k, db.roots[k]);
    }
    forall id | id in db.promotions ensures PromotionOk(h, db, id, db.promotions[id]) {}
  }

  /** With the host's real keys, the key an approval derives can only hold that approval's root, so its
      promotion is never refused because of another approval's. */
  lemma KeyHoldsOnlyItsOwnRoot(h: Host, floor: Option<Limits>, steps: seq<Step>, approval: int64)
    requires forall a, x :: h.submitKey(a, x) == SubmitKey.Submit(a, x)
    ensures var db := Run(h, Start(floor), steps).db;
            var key := KeyOf(h, db, approval);
            key.Some? && key.value in db.roots ==> db.roots[key.value].request.approval == approval
  {
    RunKeeps(h, Start(floor), steps);
    var db := Run(h, Start(floor), steps).db;
    var key := KeyOf(h, db, approval);
    if key.Some? && key.value in db.roots {
      var other := db.roots[key.value].request.approval;
      assert RootOk(h, db, key.value, db.roots[key.value]);
      SubmitKey.SubmitKeyIdentifiesApproval(approval, db.approvals[approval].hash, other, db.approvals[other].hash);
    }
  }

  // ---------------------------------------------------------------------------------------------
  // What a root traces to

  /** The host's criterion, of the design phase, and then the owner's, in their order, of the implementation phase. */
  ghost predicate HostCriterionThenOwners(criteria: seq<Criterion>, owner: seq<string>) {
    && |criteria| == |owner| + 1
    && criteria[0].design
    && criteria[0].text == "Host governance: CEO executive plan is approved by design reviewer"
    && forall i | 0 <= i < |owner| :: !criteria[i + 1].design && criteria[i + 1].text == owner[i]
  }

  /** The root of key traces to an approval that binds one proposal and one recommended review of it, all three hashed
      as they stand, given by someone other than the reviewer; its limits, and its recorded budget, are exactly the
      amounts that review recommended, and reached a positive floor, the one the launching call read. Its request is
      the approval's own: goal, causation, and the host's criterion before the owner's. */
  ghost predicate Traced(h: Host, db: Records, key: string, root: Root) {
    && root.request.approval in db.approvals
    && var a := db.approvals[root.request.approval];
    && a.tuple.proposal in db.proposals && a.tuple.review in db.reviews
    && var p, r := db.proposals[a.tuple.proposal], db.reviews[a.tuple.review];
    && a.hash == h.approvalHash(a.tuple)
    && p.hash == a.tuple.proposalHash && a.tuple.proposalHash == h.proposalHash(p.content)
    && r.hash == a.tuple.reviewHash && a.tuple.reviewHash == h.reviewHash(r.finding)
    && r.finding.proposal == a.tuple.proposal && r.finding.proposalHash == p.hash
    && r.finding.recommended && r.finding.reviewer != a.tuple.approver
    && r.finding.budget == Some(a.tuple.budget) && AreAmountsOf(root.limits, h.nanos, a.tuple.budget)
    && root.floor.Valid() && Reaches(root.limits, root.floor)
    && HostCriterionThenOwners(root.request.criteria, p.content.criteria)
    && root.request.goal == h.goal(p, a.tuple)
    && h.causationKey(root.request.approval, a.hash) == Some(root.request.causation)
    && h.submitKey(root.request.approval, a.hash) == Some(key)
  }

  lemma RootIsTraced(h: Host, db: Records, key: string, root: Root)
    requires RootOk(h, db, key, root)
    ensures Traced(h, db, key, root)
  {
    FeasibleExact(root.limits, root.floor);
    ToLimitsExact(h.nanos, db.approvals[root.request.approval].tuple.budget);
    CriteriaOrdered(db.proposals[db.approvals[root.request.approval].tuple.proposal].content.criteria);
  }

  lemma CriteriaOrdered(owner: seq<string>)
    ensures HostCriterionThenOwners(Criteria(owner), owner)
  {
  }

  /** In every run, every root is so traced, and its budget, once recorded, is its limits. */
  lemma RootTracesToApproval(h: Host, floor: Option<Limits>, steps: seq<Step>, key: string)
    requires key in Run(h, Start(floor), steps).db.roots
    ensures var db := Run(h, Start(floor), steps).db;
            var root := db.roots[key];
            && Traced(h, db, key, root)
            && (root.task in db.budgets ==> db.budgets[root.task] == root.limits)
  {
    RunKeeps(h, Start(floor), steps);
    var db := Run(h, Start(floor), steps).db;
    RootIsTraced(h, db, key, db.roots[key]);
  }

  // ---------------------------------------------------------------------------------------------
  // Execution mode

  /** The recorded mode is the mode the root was submitted with, and no later step changes either. */
  lemma ModeIsFixed(h: Host, floor: Option<Limits>, steps: seq<Step>, more: seq<Step>, id: int64)
    requires id in Run(h, Start(floor), steps).db.promotions
    ensures var w := Run(h, Start(floor), steps);
            var later := Run(h, w, more).db;
            && var p := w.db.promotions[id];
            && p.submitKey in w.db.roots && p.mode == w.db.roots[p.submitKey].request.mode
            && id in later.promotions && later.promotions[id] == p
            && p.submitKey in later.roots && later.roots[p.submitKey] == w.db.roots[p.submitKey]
  {
    RunKeeps(h, Start(floor), steps);
    var w := Run(h, Start(floor), steps);
    RunGrows(h, w, more);
    assert PromotionOk(h, w.db, id, w.db.promotions[id]);
  }

  predicate Ungranted(step: Step) {
    step.BeginPromote? ==> ModeOf(step.grant) == AnalysisOnly
  }

  ghost predicate Analysis(w: World) {
    && (forall k | k in w.db.roots :: w.db.roots[k].request.mode == AnalysisOnly)
    && (forall id | id in w.db.promotions :: w.db.promotions[id].mode == AnalysisOnly)
    && (forall c | c in w.calls && w.calls[c].Promoting? :: ModeOf(w.calls[c].grant) == AnalysisOnly)
  }

  /** A call writes under its own mode, and keeps its grant. */
  lemma OwnMode(h: Host, w: World, call: Call, newId: int64)
    ensures var o := Continue(h, w, call, newId);
            && (o.write.PutRoot? ==> call.Promoting? && o.write.root.request.mode == ModeOf(call.grant))
            && (o.write.PutPromotion? ==> call.Promoting? && o.write.promotion.mode == ModeOf(call.grant))
            && (o.next.Some? && o.next.value.Promoting? ==> call.Promoting? && o.next.value.grant == call.grant)
  {
  }

  lemma PerformAnalysis(w: World, write: Write)
    requires Analysis(w)
    requires (write.PutRoot? ==> write.root.request.mode == AnalysisOnly)
             && (write.PutPromotion? ==> write.promotion.mode == AnalysisOnly)
    ensures Analysis(w.(db := Perform(w.db, write)))
  {
  }

  lemma AnalysisKept(h: Host, w: World, step: Step)
    requires Analysis(w) && Ungranted(step)
    ensures Analysis(Apply(h, w, step))
  {
    if step.Advance? {
      if step.call in w.calls {
        var o := Continue(h, w, w.calls[step.call], step.newId);
        OwnMode(h, w, w.calls[step.call], step.newId);
        PerformAnalysis(w, o.write);
      }
    } else if step.Draft? || step.Revise? || step.Reviewed? {
      PerformAnalysis(w, Outside(w.db, step));
    }
  }

  /** No run in which the owner grants nothing ever launches or records governed implementation. */
  lemma {:induction false} UngrantedNeverGoverned(h: Host, w: World, steps: seq<Step>)
    requires Analysis(w) && forall i | 0 <= i < |steps| :: Ungranted(steps[i])
    ensures Analysis(Run(h, w, steps))
    decreases |steps|
  {
    if steps != [] {
      AnalysisKept(h, w, steps[0]);
      assert forall i | 0 <= i < |steps[1..]| :: steps[1..][i] == steps[i + 1];
      UngrantedNeverGoverned(h, Apply(h, w, steps[0]), steps[1..]);
    }
  }
}
