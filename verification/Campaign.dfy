/** Owner approval and promotion of campaigns as a machine over durable records: every interleaving of
    approvals, CEO-path and owner-path promotions, retries and crashes, with revisions, reviews and the host
    floor changing underneath (internal/campaign, internal/executive/orchestrator.go). */
module Campaign {
  import opened Prelude
  import opened AgentBudget
  import opened ExecutionBudget

  datatype Content = Content(title: string, goal: string, criteria: seq<string>, rest: string)

  /** lineage is the id of the first revision. */
  datatype Proposal = Proposal(lineage: int64, revision: int, content: Content, hash: string)

  datatype Finding = Finding(
    proposal: int64, proposalHash: string, reviewer: string, recommended: bool, budget: Option<Recommendation>,
    rest: string)

  datatype Review = Review(finding: Finding, hash: string)

  datatype Tuple = Tuple(
    proposal: int64, proposalHash: string, review: int64, reviewHash: string, approver: string, budget: Recommendation)

  datatype Approval = Approval(tuple: Tuple, key: string, hash: string)

  datatype Mode = AnalysisOnly | Governed

  datatype Criterion = Criterion(text: string, design: bool)

  /** What the root task's idempotency hash covers. */
  datatype Request = Request(approval: int64, goal: string, criteria: seq<Criterion>, causation: string, mode: Mode)

  /** An Executive root. floor is the one the submitting call checked; latest and funded say whether, when the
      root was created, its proposal still led its lineage and its limits still reached the floor of the moment. */
  datatype Root = Root(task: int64, request: Request, limits: Limits, floor: Limits, latest: bool, funded: bool)

  datatype Promotion = Promotion(approval: int64, task: int64, submitKey: string, mode: Mode, role: string, key: string)

  datatype Grant = NoGrant | Granted(mode: Mode, approval: int64, role: string)

  /** How far a promotion has come: nothing promoted yet; records valid and proposal latest; budget converted and
      at the floor; root task exists; root budget recorded. */
  datatype Stage =
    | Asked | Unpromoted | Current
    | Funded(limits: Limits, floor: Limits)
    | Rooted(limits: Limits, task: int64)
    | Banked(task: int64)

  /** How far an approval has come: nothing read; current proposal and review; feasible and separate duties. */
  datatype Progress = Started | Checked | Cleared

  datatype Call =
    | Promoting(approval: int64, role: string, key: string, grant: Grant, stage: Stage)
    | Approving(proposal: int64, review: int64, approver: string, key: string, progress: Progress)

  /** The durable records; ids are the rows' primary keys. */
  datatype Records = Records(
    proposals: map<int64, Proposal>, heads: map<int64, int64>,
    reviews: map<int64, Review>, lastReview: map<int64, int64>,
    approvals: map<int64, Approval>, roots: map<string, Root>, budgets: map<int64, Limits>,
    promotions: map<int64, Promotion>)

  /** Records, the host's current floor, and the calls in flight. */
  datatype World = World(db: Records, floor: Option<Limits>, calls: map<nat, Call>)

  /** The host's pure functions: three canonical hashes, the goal text, the dollar conversion and the two keys. */
  datatype Host = Host(
    proposalHash: Content -> string, reviewHash: Finding -> string, approvalHash: Tuple -> string,
    goal: (Proposal, Tuple) -> string, nanos: real -> int64,
    submitKey: (int64, string) -> Option<string>, causationKey: (int64, string) -> Option<string>)

  const EMPTY := Records(map[], map[], map[], map[], map[], map[], map[], map[])

  const DESIGN_CRITERION := "Host governance: CEO executive plan is approved by design reviewer"

  function Criteria(owner: seq<string>): seq<Criterion> {
    [Criterion(DESIGN_CRITERION, true)] + seq(|owner|, i requires 0 <= i < |owner| => Criterion(owner[i], false))
  }

  function ModeOf(g: Grant): Mode { if g.Granted? then g.mode else AnalysisOnly }

  // ---------------------------------------------------------------------------------------------
  // Reads

  predicate Leads(db: Records, proposal: int64) {
    && proposal in db.proposals
    && db.proposals[proposal].lineage in db.heads
    && db.heads[db.proposals[proposal].lineage] == proposal
  }

  /** The approval pins this proposal and this recommended review, by id and by stored hash. */
  predicate Bound(db: Records, t: Tuple) {
    && t.proposal in db.proposals && db.proposals[t.proposal].hash == t.proposalHash
    && t.review in db.reviews && db.reviews[t.review].hash == t.reviewHash
    && var f := db.reviews[t.review].finding;
    && f.proposal == t.proposal && f.recommended && f.budget == Some(t.budget)
  }

  /** Every hash is what its record hashes to. */
  predicate Sealed(h: Host, db: Records, a: Approval)
    requires Bound(db, a.tuple)
  {
    && h.approvalHash(a.tuple) == a.hash
    && h.proposalHash(db.proposals[a.tuple.proposal].content) == a.tuple.proposalHash
    && h.reviewHash(db.reviews[a.tuple.review].finding) == a.tuple.reviewHash
  }

  function KeyOf(h: Host, db: Records, approval: int64): Option<string> {
    if approval in db.approvals then h.submitKey(approval, db.approvals[approval].hash) else None
  }

  function RequestOf(h: Host, db: Records, approval: int64, mode: Mode): Option<Request> {
    if approval !in db.approvals || db.approvals[approval].tuple.proposal !in db.proposals then None
    else
      var a := db.approvals[approval];
      var p := db.proposals[a.tuple.proposal];
      var causation := h.causationKey(approval, a.hash);
      if causation.None? then None
      else Some(Request(approval, h.goal(p, a.tuple), Criteria(p.content.criteria), causation.value, mode))
  }

  // ---------------------------------------------------------------------------------------------
  // Promotion, one durable read or write at a time

  /** A step makes at most one durable write. */
  datatype Write =
    | NoWrite
    | PutProposal(id: int64, proposal: Proposal)
    | PutReview(id: int64, review: Review)
    | PutApproval(id: int64, approval: Approval)
    | PutRoot(key: string, root: Root)
    | PutBudget(task: int64, limits: Limits)
    | PutPromotion(id: int64, promotion: Promotion)

  function Perform(db: Records, write: Write): Records {
    match write
    case NoWrite => db
    case PutProposal(id, p) => db.(proposals := db.proposals[id := p], heads := db.heads[p.lineage := id])
    case PutReview(id, r) => db.(reviews := db.reviews[id := r], lastReview := db.lastReview[r.finding.proposal := id])
    case PutApproval(id, a) => db.(approvals := db.approvals[id := a])
    case PutRoot(key, r) => db.(roots := db.roots[key := r])
    case PutBudget(task, l) => db.(budgets := db.budgets[task := l])
    case PutPromotion(id, p) => db.(promotions := db.promotions[id := p])
  }

  /** What a call does next: its write, and its next state, or None when it returns. */
  datatype Outcome = Outcome(write: Write, next: Option<Call>)

  const STOP := Outcome(NoWrite, None)

  function Reach(write: Write, call: Call, stage: Stage): Outcome
    requires call.Promoting?
  {
    Outcome(write, Some(call.(stage := stage)))
  }

  /** newId is the id the database would give a new row. */
  function Promote(h: Host, db: Records, floor: Option<Limits>, call: Call, newId: int64): Outcome
    requires call.Promoting?
  {
    match call.stage
    case Asked => if call.approval in db.promotions then STOP else Reach(NoWrite, call, Unpromoted)
    case Unpromoted =>
      if call.approval in db.approvals && Bound(db, db.approvals[call.approval].tuple)
         && Sealed(h, db, db.approvals[call.approval])
         && Leads(db, db.approvals[call.approval].tuple.proposal)
      then Reach(NoWrite, call, Current)
      else STOP
    case Current => Fund(h, db, floor, call)
    case Funded(limits, checked) => SubmitRoot(h, db, floor, call, limits, checked, newId)
    case Rooted(limits, task) =>
      if task in db.budgets && db.budgets[task] != limits then STOP
      else Reach(PutBudget(task, limits), call, Banked(task))
    case Banked(task) => Persist(h, db, call, task)
  }

  function Fund(h: Host, db: Records, floor: Option<Limits>, call: Call): Outcome
    requires call.Promoting?
  {
    if call.approval !in db.approvals then STOP
    else
      var limits := ToLimits(h.nanos, db.approvals[call.approval].tuple.budget);
      if limits.None? || floor.None? || !Feasible(limits.value, floor.value) then STOP
      else Reach(NoWrite, call, Funded(limits.value, floor.value))
  }

  /** Executive.Submit's task creation, idempotent by key: the same request finds the root, another is refused. */
  function SubmitRoot(h: Host, db: Records, floor: Option<Limits>, call: Call, limits: Limits, checked: Limits,
                      newId: int64): Outcome
    requires call.Promoting?
  {
    var key := KeyOf(h, db, call.approval);
    var request := RequestOf(h, db, call.approval, ModeOf(call.grant));
    if key.None? || request.None? then STOP
    else if key.value in db.roots then
      if db.roots[key.value].request != request.value then STOP
      else Reach(NoWrite, call, Rooted(limits, db.roots[key.value].task))
    else if TaskTaken(db, newId) then Outcome(NoWrite, Some(call))
    else
      var latest := Leads(db, db.approvals[call.approval].tuple.proposal);
      var funded := floor.Some? && Feasible(limits, floor.value);
      Reach(PutRoot(key.value, Root(newId, request.value, limits, checked, latest, funded)), call,
            Rooted(limits, newId))
  }

  predicate TaskTaken(db: Records, task: int64) {
    task in db.budgets || exists k | k in db.roots :: db.roots[k].task == task
  }

  /** The promotion row is unique by idempotency key, by approval and by root task. */
  function Persist(h: Host, db: Records, call: Call, task: int64): Outcome
    requires call.Promoting?
  {
    var key := KeyOf(h, db, call.approval);
    if key.None? || call.approval in db.promotions
       || (exists a | a in db.promotions :: db.promotions[a].key == call.key || db.promotions[a].task == task)
    then STOP
    else Outcome(PutPromotion(call.approval,
                              Promotion(call.approval, task, key.value, ModeOf(call.grant), call.role, call.key)), None)
  }

  // ---------------------------------------------------------------------------------------------
  // Approval

  predicate Approvable(db: Records, proposal: int64, review: int64) {
    && proposal in db.proposals && review in db.reviews
    && var f := db.reviews[review].finding;
    && f.proposal == proposal && f.proposalHash == db.proposals[proposal].hash && f.recommended && f.budget.Some?
  }

  function Approve(h: Host, db: Records, floor: Option<Limits>, call: Call, newId: int64): Outcome
    requires call.Approving?
  {
    if !Approvable(db, call.proposal, call.review) then STOP
    else
      var f := db.reviews[call.review].finding;
      match call.progress
      case Started =>
        if Leads(db, call.proposal) && call.proposal in db.lastReview && db.lastReview[call.proposal] == call.review
        then Outcome(NoWrite, Some(call.(progress := Checked))) else STOP
      case Checked =>
        var limits := ToLimits(h.nanos, f.budget.value);
        if limits.Some? && floor.Some? && Feasible(limits.value, floor.value) && call.approver != f.reviewer
        then Outcome(NoWrite, Some(call.(progress := Cleared))) else STOP
      case Cleared => Seal(h, db, call, newId)
  }

  /** The approval row is unique by idempotency key and by the pair of hashes it binds. */
  function Seal(h: Host, db: Records, call: Call, newId: int64): Outcome
    requires call.Approving? && Approvable(db, call.proposal, call.review)
  {
    var t := Tuple(call.proposal, db.proposals[call.proposal].hash, call.review, db.reviews[call.review].hash,
                   call.approver,
                   db.reviews[call.review].finding.budget.value);
    if exists a | a in db.approvals :: db.approvals[a].key == call.key
        || (db.approvals[a].tuple.proposalHash == t.proposalHash && db.approvals[a].tuple.reviewHash == t.reviewHash)
    then STOP
    else if newId <= 0 || newId in db.approvals then Outcome(NoWrite, Some(call))
    else Outcome(PutApproval(newId, Approval(t, call.key, h.approvalHash(t))), None)
  }

  // ---------------------------------------------------------------------------------------------
  // Runs

  /** Draft, Revise and Reviewed are other services' writes; nothing is assumed of the hashes they store. */
  datatype Step =
    | Draft(id: int64, content: Content, hash: string)
    | Revise(parent: int64, id: int64, content: Content, hash: string)
    | Reviewed(id: int64, record: Review)
    | SetFloor(floor: Option<Limits>)
    | BeginApprove(call: nat, proposal: int64, review: int64, owner: string, key: string)
    | BeginPromote(call: nat, approval: int64, role: string, key: string, grant: Grant)
    | Advance(call: nat, newId: int64)
    | Crash(call: nat)

  predicate GrantFits(g: Grant, approval: int64, role: string) {
    g.Granted? ==> g.approval == approval && g.role == role
  }

  function Outside(db: Records, step: Step): Write {
    match step
    case Draft(id, content, hash) =>
      if id in db.proposals || id in db.heads then NoWrite else PutProposal(id, Proposal(id, 1, content, hash))
    case Revise(parent, id, content, hash) =>
      if id in db.proposals || id in db.heads || !Leads(db, parent) then NoWrite
      else PutProposal(id, Proposal(db.proposals[parent].lineage, db.proposals[parent].revision + 1, content, hash))
    case Reviewed(id, review) => if id in db.reviews then NoWrite else PutReview(id, review)
    case _ => NoWrite
  }

  function Continue(h: Host, w: World, call: Call, newId: int64): Outcome {
    if call.Promoting? then Promote(h, w.db, w.floor, call, newId) else Approve(h, w.db, w.floor, call, newId)
  }

  function Apply(h: Host, w: World, step: Step): World {
    match step
    case SetFloor(floor) => w.(floor := floor)
    case BeginApprove(c, proposal, review, owner, key) =>
      if c in w.calls then w else w.(calls := w.calls[c := Approving(proposal, review, owner, key, Started)])
    case BeginPromote(c, approval, role, key, grant) =>
      if c in w.calls || approval <= 0 || role == "" || key == "" || !GrantFits(grant, approval, role) then w
      else w.(calls := w.calls[c := Promoting(approval, role, key, grant, Asked)])
    case Advance(c, newId) =>
      if c !in w.calls then w
      else
        var o := Continue(h, w, w.calls[c], newId);
        w.(db := Perform(w.db, o.write), calls := if o.next.Some? then w.calls[c := o.next.value] else w.calls - {c})
    case Crash(c) => w.(calls := w.calls - {c})
    case _ => w.(db := Perform(w.db, Outside(w.db, step)))
  }

  function Run(h: Host, w: World, steps: seq<Step>): World
    decreases |steps|
  {
    if steps == [] then w else Run(h, Apply(h, w, steps[0]), steps[1..])
  }

  // ---------------------------------------------------------------------------------------------
  // Durable records are never changed or lost

  ghost predicate Kept<K, V>(m: map<K, V>, n: map<K, V>) {
    forall k | k in m :: k in n && n[k] == m[k]
  }

  ghost predicate Grows(v: Records, w: Records) {
    && Kept(v.proposals, w.proposals) && Kept(v.reviews, w.reviews) && Kept(v.approvals, w.approvals)
    && Kept(v.roots, w.roots) && Kept(v.budgets, w.budgets) && Kept(v.promotions, w.promotions)
  }

  /** A write that overwrites nothing. */
  predicate Adds(db: Records, write: Write) {
    match write
    case NoWrite => true
    case PutProposal(id, _) => id !in db.proposals
    case PutReview(id, _) => id !in db.reviews
    case PutApproval(id, _) => id !in db.approvals
    case PutRoot(key, _) => key !in db.roots
    case PutBudget(task, l) => task in db.budgets ==> db.budgets[task] == l
    case PutPromotion(id, _) => id !in db.promotions
  }

  lemma SelfGrows(db: Records)
    ensures Grows(db, db)
  {
  }

  lemma GrowsThrough(u: Records, v: Records, w: Records)
    requires Grows(u, v) && Grows(v, w)
    ensures Grows(u, w)
  {
  }

  lemma AddsGrows(db: Records, write: Write)
    requires Adds(db, write)
    ensures Grows(db, Perform(db, write))
  {
  }

  lemma ContinueAdds(h: Host, w: World, call: Call, newId: int64)
    ensures Adds(w.db, Continue(h, w, call, newId).write)
  {
  }

  lemma ApplyGrows(h: Host, w: World, step: Step)
    ensures Grows(w.db, Apply(h, w, step).db)
  {
    if step.Advance? && step.call in w.calls {
      ContinueAdds(h, w, w.calls[step.call], step.newId);
      AddsGrows(w.db, Continue(h, w, w.calls[step.call], step.newId).write);
    } else {
      AddsGrows(w.db, Outside(w.db, step));
    }
  }

  /** Whatever happens next, no proposal, review, approval, root, budget or promotion changes; in particular the
      mode of a durable promotion is for ever. */
  lemma {:induction false} RunGrows(h: Host, w: World, steps: seq<Step>)
    ensures Grows(w.db, Run(h, w, steps).db)
    decreases |steps|
  {
    if steps != [] {
      ApplyGrows(h, w, steps[0]);
      RunGrows(h, Apply(h, w, steps[0]), steps[1..]);
    }
  }

  lemma {:induction false} RunSplit(h: Host, w: World, a: seq<Step>, b: seq<Step>)
    ensures Run(h, w, a + b) == Run(h, Run(h, w, a), b)
    decreases |a|
  {
    if a == [] {
      assert a + b == b;
    } else {
      assert (a + b)[1..] == a[1..] + b;
      RunSplit(h, Apply(h, w, a[0]), a[1..], b);
    }
  }
}
