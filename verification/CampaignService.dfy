/** Promotion as the imperative service it is: ordered reads and durable writes over shared records, other calls
    running between any two of them, and a crash possible at every point (internal/campaign/promotion_service.go). */
module CampaignService {
  import opened Prelude
  import opened AgentBudget
  import opened ExecutionBudget
  import opened Campaign
  import opened CampaignTheorems
  import opened CampaignApproval

  datatype Error =
    | InvalidInput | ModeNotAuthorized | ModeConflict | Refused | Infeasible | IdempotencyConflict
    | AlreadyPromoted | Crashed

  lemma ApprovalWriteOk(h: Host, db: Records, id: int64, a: Approval)
    requires id > 0 && id !in db.approvals && Bound(db, a.tuple) && a.hash == h.approvalHash(a.tuple)
    requires db.reviews[a.tuple.review].finding.proposalHash == a.tuple.proposalHash
    requires db.reviews[a.tuple.review].finding.reviewer != a.tuple.approver
    ensures Adds(db, PutApproval(id, a)) && WriteOk(h, db, PutApproval(id, a))
  {
  }

  /** A promotion request that is complete, with a grant, if any, for this approval and this actor. */
  predicate Admissible(approval: int64, role: string, key: string, grant: Grant) {
    approval > 0 && role != "" && key != "" && GrantFits(grant, approval, role)
  }

  /** The records bind and seal the approval, and its proposal is the latest of its lineage. */
  predicate FoundApproved(h: Host, db: Records, approval: int64) {
    && approval in db.approvals && Bound(db, db.approvals[approval].tuple) && Sealed(h, db, db.approvals[approval])
    && Leads(db, db.approvals[approval].tuple.proposal)
  }

  /** Every approved amount is positive, dollars converted, and reaches the floor's. */
  predicate FoundAffordable(h: Host, rec: Recommendation, floor: Option<Limits>) {
    && Executable(h.nanos, rec) && floor.Some? && floor.value.Valid()
    && Reaches(Limits(h.nanos(rec.usd), rec.tokens, rec.modelCalls, rec.wallTimeMS, rec.depth, rec.retries,
                      rec.subagents), floor.value)
  }

  lemma AffordableExact(h: Host, rec: Recommendation, floor: Option<Limits>)
    ensures FoundAffordable(h, rec, floor) <==>
            var l := ToLimits(h.nanos, rec); l.Some? && floor.Some? && Feasible(l.value, floor.value)
  {
    ToLimitsExact(h.nanos, rec);
    if ToLimits(h.nanos, rec).Some? && floor.Some? { FeasibleExact(ToLimits(h.nanos, rec).value, floor.value); }
  }

  class Service {
    const h: Host
    var db: Records
    var floor: Option<Limits>
    /** Calls of other processes, in flight. */
    var others: map<nat, Campaign.Call>

    constructor (host: Host, minimum: Option<Limits>)
      ensures h == host && db == EMPTY && floor == minimum && Valid()
    {
      h, db, floor, others := host, EMPTY, minimum, map[];
    }

    ghost predicate Valid()
      reads this
    {
      Inv(h, World(db, floor, others))
    }

    /** Any number of steps of anyone else. */
    method Interfere()
      requires Valid()
      modifies this
      ensures Valid() && Grows(old(db), db)
    {
      var steps: seq<Step> := *;
      var w := World(db, floor, others);
      RunKeeps(h, w, steps);
      RunGrows(h, w, steps);
      w := Run(h, w, steps);
      db, floor, others := w.db, w.floor, w.calls;
    }

    /** One durable write of this call. */
    method Store(write: Write)
      requires Valid() && Adds(db, write) && WriteOk(h, db, write)
      modifies this`db
      ensures Valid() && Grows(old(db), db) && db == Perform(old(db), write)
    {
      PerformKeeps(h, db, write);
      AddsGrows(db, write);
      CallsStay(h, db, Perform(db, write), others);
      db := Perform(db, write);
    }

    method BuildCriteria(owner: seq<string>) returns (criteria: seq<Criterion>)
      ensures criteria == Criteria(owner) && HostCriterionThenOwners(criteria, owner)
    {
      criteria := [Criterion(DESIGN_CRITERION, true)];
      var i := 0;
      while i < |owner|
        invariant 0 <= i <= |owner|
        invariant criteria == Criteria(owner[..i])
      {
        assert owner[..i + 1] == owner[..i] + [owner[i]];
        criteria := criteria + [Criterion(owner[i], false)];
        i := i + 1;
      }
      assert owner[..|owner|] == owner;
    }

    /** Steps 3 to 6.5: every record re-read and checked, the budget converted and held to the current floor. It passes
        if and only if the records it read bind, seal and lead, and the amounts reach the floor it read. */
    method Check(approval: int64)
      returns (r: Result<(Limits, Limits), Error>, ghost read: Records, ghost minimum: Option<Limits>)
      requires Valid()
      modifies this
      ensures Valid() && Grows(old(db), read) && Grows(read, db)
      ensures r == Err(Refused) <==> !FoundApproved(h, read, approval)
      ensures FoundApproved(h, read, approval) ==>
                (r.Ok? <==> FoundAffordable(h, read.approvals[approval].tuple.budget, minimum))
                && (r.Err? ==> r.error == Infeasible)
      ensures r.Ok? ==>
                && Ready(h, db, approval) && Converted(h, db, approval, r.value.0) && Feasible(r.value.0, r.value.1)
                && minimum == Some(r.value.1)
    {
      Interfere();
      read, minimum := db, floor;
      SelfGrows(db);
      if approval !in db.approvals { return Err(Refused), read, minimum; }
      var a := db.approvals[approval];
      if !Bound(db, a.tuple) || !Sealed(h, db, a) { return Err(Refused), read, minimum; }
      if !Leads(db, a.tuple.proposal) { return Err(Refused), read, minimum; }
      AffordableExact(h, a.tuple.budget, minimum);
      var limits := ToLimits(h.nanos, a.tuple.budget);
      if limits.None? { return Err(Infeasible), read, minimum; }
      assert Ready(h, db, approval);
      Interfere();
      minimum := floor;
      ApprovalStays(h, read, db, approval);
      AffordableExact(h, a.tuple.budget, minimum);
      if floor.None? || !Feasible(limits.value, floor.value) { return Err(Infeasible), read, minimum; }
      r := Ok((limits.value, floor.value));
    }

    /** The root task under the derived key: the same request finds it, another is a conflict, and otherwise exactly
        this root is created. */
    method CreateTask(key: string, request: Request, limits: Limits, checked: Limits) returns (r: Result<int64, Error>)
      requires Valid() && Ready(h, db, request.approval) && Converted(h, db, request.approval, limits)
               && Feasible(limits, checked)
      requires KeyOf(h, db, request.approval) == Some(key)
               && RequestOf(h, db, request.approval, request.mode) == Some(request)
      modifies this`db
      ensures Valid() && Grows(old(db), db)
      ensures r.Ok? ==> HasRoot(h, db, request.approval, r.value, request.mode) && db.roots[key].limits == limits
      ensures r.Err? || key in old(db).roots ==> db == old(db)
      ensures key in old(db).roots ==>
                r == if old(db).roots[key].request == request then Ok(old(db).roots[key].task)
                     else Err(IdempotencyConflict)
      ensures key !in old(db).roots ==> r.Ok? || r.error == Crashed
      ensures r.Ok? && key !in old(db).roots ==>
                db == old(db).(roots := old(db).roots[key := Root(r.value, request, limits, checked,
                                                                  db.roots[key].latest, db.roots[key].funded)])
    {
      SelfGrows(db);
      if key in db.roots {
        assert RootOk(h, db, key, db.roots[key]);
        if db.roots[key].request != request { return Err(IdempotencyConflict); }
        return Ok(db.roots[key].task);
      }
      var task: int64 := *;
      if TaskTaken(db, task) { return Err(Crashed); }
      var latest := Leads(db, db.approvals[request.approval].tuple.proposal);
      Store(PutRoot(key, Root(task, request, limits, checked, latest, floor.Some? && Feasible(limits, floor.value))));
      r := Ok(task);
    }

    method OpenRoot(approval: int64, mode: Mode, limits: Limits, checked: Limits) returns (r: Result<int64, Error>)
      requires Valid() && Ready(h, db, approval) && Converted(h, db, approval, limits) && Feasible(limits, checked)
      modifies this
      ensures Valid() && Grows(old(db), db)
      ensures r.Ok? ==>
                HasRoot(h, db, approval, r.value, mode) && db.roots[KeyOf(h, db, approval).value].limits == limits
      ensures r == Err(Refused) <==> Keyless(old(db), approval)
      ensures r.Err? ==> r.error in {Refused, IdempotencyConflict, Crashed}
      ensures r == Err(IdempotencyConflict) ==> !Keyless(old(db), approval) && OtherRoot(approval, mode)
    {
      var a := db.approvals[approval];
      var p := db.proposals[a.tuple.proposal];
      var criteria := BuildCriteria(p.content.criteria);
      var key, causation := h.submitKey(approval, a.hash), h.causationKey(approval, a.hash);
      SelfGrows(db);
      if key.None? || causation.None? { return Err(Refused); }
      ghost var before := db;
      Interfere();
      ApprovalStays(h, before, db, approval);
      if key.value in db.roots { assert RootOk(h, db, key.value, db.roots[key.value]); }
      r := CreateTask(key.value, Request(approval, h.goal(p, a.tuple), criteria, causation.value, mode), limits,
                      checked);
    }

    /** No key can be derived from the approval. */
    ghost predicate Keyless(db: Records, approval: int64)
      reads this
    {
      approval in db.approvals
      && (h.submitKey(approval, db.approvals[approval].hash).None?
          || h.causationKey(approval, db.approvals[approval].hash).None?)
    }

    /** The approval's key holds a root, of another approval or another mode. */
    ghost predicate OtherRoot(approval: int64, mode: Mode)
      reads this
    {
      var key := KeyOf(h, db, approval);
      && key.Some? && key.value in db.roots
      && !(db.roots[key.value].request.approval == approval && db.roots[key.value].request.mode == mode)
    }

    /** Executive.Submit: the root task, then its budget. */
    method Submit(approval: int64, mode: Mode, limits: Limits, checked: Limits) returns (r: Result<int64, Error>)
      requires Valid() && Ready(h, db, approval) && Converted(h, db, approval, limits) && Feasible(limits, checked)
      modifies this
      ensures Valid() && Grows(old(db), db)
      ensures r.Ok? ==>
                HasRoot(h, db, approval, r.value, mode) && r.value in db.budgets && db.budgets[r.value] == limits
      ensures r == Err(Refused) <==> Keyless(old(db), approval)
      ensures r.Err? ==> r.error in {Refused, IdempotencyConflict, Crashed}
      ensures r == Err(IdempotencyConflict) ==> OtherRoot(approval, mode) || OtherBudget(approval, limits)
    {
      r := OpenRoot(approval, mode, limits, checked);
      if r.Err? { return; }
      if * { return Err(Crashed); }
      ghost var before := db;
      Interfere();
      HasRootStays(h, before, db, approval, r.value, mode);
      GrowsThrough(old(db), before, db);
      r := RecordBudget(KeyOf(h, db, approval).value, r.value, limits);
    }

    /** The approval's root has a recorded budget, and it is not this one. */
    ghost predicate OtherBudget(approval: int64, limits: Limits)
      reads this
    {
      var key := KeyOf(h, db, approval);
      && key.Some? && key.value in db.roots && db.roots[key.value].task in db.budgets
      && db.budgets[db.roots[key.value].task] != limits
    }

    method RecordBudget(key: string, task: int64, limits: Limits) returns (r: Result<int64, Error>)
      requires Valid() && key in db.roots && db.roots[key].task == task && db.roots[key].limits == limits
      modifies this`db
      ensures Valid() && Grows(old(db), db) && db.roots == old(db).roots && db.approvals == old(db).approvals
      ensures r == if task in old(db).budgets && old(db).budgets[task] != limits then Err(IdempotencyConflict)
                   else Ok(task)
      ensures db == if r.Ok? then old(db).(budgets := old(db).budgets[task := limits]) else old(db)
    {
      SelfGrows(db);
      if task in db.budgets && db.budgets[task] != limits { return Err(IdempotencyConflict); }
      Store(PutBudget(task, limits));
      r := Ok(task);
    }

    /** However other calls interleave and wherever this one stops, the records stay valid and only grow. If it
        returns a promotion, that row is durable, points to the approval's one root with a recorded budget, and
        runs under the granted mode if one was granted. seen, read and minimum are what it looked at: a promotion
        already there is the answer; otherwise a promotion is returned only if the records bound, sealed and led and
        the amounts reached the floor. */
    method PromoteToExecutive(approval: int64, role: string, key: string, grant: Grant)
      returns (r: Result<Promotion, Error>, ghost seen: Records, ghost read: Records, ghost minimum: Option<Limits>)
      requires Valid()
      modifies this
      ensures Valid() && Grows(old(db), seen) && Grows(seen, read) && Grows(read, db)
      ensures r.Ok? ==>
                approval in db.promotions && db.promotions[approval] == r.value && PromotionOk(h, db, approval, r.value)
      ensures r.Ok? && grant.Granted? ==> r.value.mode == grant.mode
      ensures !Admissible(approval, role, key, grant) ==>
                r == Err(if GrantFits(grant, approval, role) then InvalidInput else ModeNotAuthorized)
      ensures Admissible(approval, role, key, grant) && approval in seen.promotions ==>
                r == if grant.Granted? && seen.promotions[approval].mode != grant.mode then Err(ModeConflict)
                     else Ok(seen.promotions[approval])
      ensures Admissible(approval, role, key, grant) && approval !in seen.promotions ==>
                && (!FoundApproved(h, read, approval) ==> r == Err(Refused))
                && (FoundApproved(h, read, approval) ==>
                      if !FoundAffordable(h, read.approvals[approval].tuple.budget, minimum) then r == Err(Infeasible)
                      else
                        && (r == Err(Refused) <==> Keyless(read, approval))
                        && (r.Err? ==> r.error in {Refused, IdempotencyConflict, AlreadyPromoted, Crashed}))
    {
      seen, read, minimum := db, db, floor;
      SelfGrows(db);
      if !GrantFits(grant, approval, role) { return Err(ModeNotAuthorized), seen, read, minimum; }
      if approval <= 0 || role == "" || key == "" { return Err(InvalidInput), seen, read, minimum; }
      var mode := ModeOf(grant);
      Interfere();
      seen, read := db, db;
      SelfGrows(db);
      if approval in db.promotions {
        var existing := db.promotions[approval];
        if grant.Granted? && existing.mode != mode { return Err(ModeConflict), seen, read, minimum; }
        return Ok(existing), seen, read, minimum;
      }
      r, read, minimum := Carry(approval, role, key, grant);
      GrowsThrough(seen, read, db);
    }

    /** Steps 3 on, for an approval not promoted when looked at. */
    method Carry(approval: int64, role: string, key: string, grant: Grant)
      returns (r: Result<Promotion, Error>, ghost read: Records, ghost minimum: Option<Limits>)
      requires Valid()
      modifies this
      ensures Valid() && Grows(old(db), read) && Grows(read, db)
      ensures r.Ok? ==>
                approval in db.promotions && db.promotions[approval] == r.value && PromotionOk(h, db, approval, r.value)
      ensures r.Ok? && grant.Granted? ==> r.value.mode == grant.mode
      ensures !FoundApproved(h, read, approval) ==> r == Err(Refused)
      ensures FoundApproved(h, read, approval) ==>
                if !FoundAffordable(h, read.approvals[approval].tuple.budget, minimum) then r == Err(Infeasible)
                else
                  && (r == Err(Refused) <==> Keyless(read, approval))
                  && (r.Err? ==> r.error in {Refused, IdempotencyConflict, AlreadyPromoted, Crashed})
    {
      var mode := ModeOf(grant);
      var checked;
      checked, read, minimum := Check(approval);
      if checked.Err? { return Err(checked.error), read, minimum; }
      ghost var found := db;
      var submitted := Submit(approval, mode, checked.value.0, checked.value.1);
      GrowsThrough(read, found, db);
      if submitted.Err? { return Err(submitted.error), read, minimum; }
      if * { return Err(Crashed), read, minimum; }
      r := Finish(approval, submitted.value, mode, role, key, grant);
    }

    /** The promotion row, unless another call has promoted the approval meanwhile. */
    method Finish(approval: int64, task: int64, mode: Mode, role: string, key: string, grant: Grant)
      returns (r: Result<Promotion, Error>)
      requires Valid() && HasRoot(h, db, approval, task, mode) && task in db.budgets && mode == ModeOf(grant)
      modifies this
      ensures Valid() && Grows(old(db), db)
      ensures r.Ok? ==>
                && approval in db.promotions && db.promotions[approval] == r.value
                && PromotionOk(h, db, approval, r.value) && r.value.task == task && r.value.mode == mode
      ensures r.Err? ==> r.error in {IdempotencyConflict, AlreadyPromoted}
    {
      ghost var before := db;
      Interfere();
      HasRootStays(h, before, db, approval, task, mode);
      if approval in db.promotions {
        assert PromotionOk(h, db, approval, db.promotions[approval]);
        if * { return Err(AlreadyPromoted); }
        return Ok(db.promotions[approval]);
      }
      r := Persist(approval, task, mode, role, key);
    }

    /** The promotion row, unique by idempotency key and by root task: exactly this one, or a conflict. */
    method Persist(approval: int64, task: int64, mode: Mode, role: string, key: string)
      returns (r: Result<Promotion, Error>)
      requires Valid() && HasRoot(h, db, approval, task, mode) && task in db.budgets && approval !in db.promotions
      modifies this`db
      ensures Valid() && Grows(old(db), db)
      ensures r == if exists a | a in old(db).promotions ::
                        old(db).promotions[a].key == key || old(db).promotions[a].task == task
                   then Err(IdempotencyConflict)
                   else Ok(Promotion(approval, task, KeyOf(h, old(db), approval).value, mode, role, key))
      ensures db == if r.Ok? then old(db).(promotions := old(db).promotions[approval := r.value]) else old(db)
      ensures r.Ok? ==> PromotionOk(h, db, approval, r.value)
    {
      SelfGrows(db);
      if exists a | a in db.promotions :: db.promotions[a].key == key || db.promotions[a].task == task {
        return Err(IdempotencyConflict);
      }
      var row := Promotion(approval, task, KeyOf(h, db, approval).value, mode, role, key);
      ghost var before := db;
      Store(PutPromotion(approval, row));
      PromotionStays(h, before, db, approval, row);
      r := Ok(row);
    }

    /** The rules of owner approval, in order, then the durable row. A returned id names an approval that binds this
        proposal and this recommended review of it by hash, not given by the reviewer, and whose own hash is the
        one this request computes. read and priced are the records it looked at for its two checks, minimum the
        floor: it goes on to the row if and only if at the first the proposal led its lineage and the review was its
        last, and at the second the amounts reached the floor and the approver was not the reviewer. */
    method ApproveForExecution(proposal: int64, review: int64, role: string, key: string)
      returns (r: Result<int64, Error>, ghost read: Records, ghost priced: Records, ghost minimum: Option<Limits>)
      requires Valid()
      modifies this
      ensures Valid() && Grows(old(db), read) && Grows(read, priced) && Grows(priced, db)
      ensures r.Ok? ==>
                && Approvable(db, proposal, review) && ApprovalOk(h, db, r.value)
                && db.approvals[r.value].hash == h.approvalHash(Pin(proposal, review, role))
      ensures !FoundCurrent(read, proposal, review) ==> r == Err(Refused)
      ensures FoundCurrent(read, proposal, review) && !FoundFunded(h, priced, minimum, review, role) ==>
                r in {Err(Infeasible), Err(Refused)}
      ensures FoundCurrent(read, proposal, review) && FoundFunded(h, priced, minimum, review, role) ==>
                r.Ok? || r.error in {IdempotencyConflict, Crashed}
      ensures r.Ok? ==> WasCurrent(read, proposal, review)
    {
      Interfere();
      read, priced, minimum := db, db, floor;
      SelfGrows(db);
      if !Approvable(db, proposal, review) { return Err(Refused), read, priced, minimum; }
      if !Leads(db, proposal) || proposal !in db.lastReview || db.lastReview[proposal] != review {
        return Err(Refused), read, priced, minimum;
      }
      CurrentMeans(h, World(db, floor, others), proposal, review);
      FundedExact(h, db, floor, review, role);
      var limits := ToLimits(h.nanos, db.reviews[review].finding.budget.value);
      if limits.None? { return Err(Infeasible), read, priced, minimum; }
      Interfere();
      priced, minimum := db, floor;
      SelfGrows(db);
      FundedExact(h, db, floor, review, role);
      if floor.None? || !Feasible(limits.value, floor.value) { return Err(Infeasible), read, priced, minimum; }
      if role == db.reviews[review].finding.reviewer { return Err(Refused), read, priced, minimum; }
      if * { return Err(Crashed), read, priced, minimum; }
      Interfere();
      ghost var before := db;
      r := SealApproval(proposal, review, role, key);
      GrowsThrough(priced, before, db);
    }

    ghost function Pin(proposal: int64, review: int64, role: string): Tuple
      reads this
      requires Approvable(db, proposal, review)
    {
      Tuple(proposal, db.proposals[proposal].hash, review, db.reviews[review].hash, role,
            db.reviews[review].finding.budget.value)
    }

    /** The rows in the way of this one: those with its key, or else those with its pair of hashes. */
    function InTheWay(t: Tuple, key: string): set<int64>
      reads this
    {
      var keyed := set a | a in db.approvals && db.approvals[a].key == key;
      if keyed != {} then keyed
      else set a | a in db.approvals && db.approvals[a].tuple.proposalHash == t.proposalHash
                   && db.approvals[a].tuple.reviewHash == t.reviewHash
    }

    /** Insert exactly this row, or find the row in its way: accepted only under the same hash. */
    method SealApproval(proposal: int64, review: int64, role: string, key: string) returns (r: Result<int64, Error>)
      requires Valid() && Approvable(db, proposal, review) && role != db.reviews[review].finding.reviewer
      modifies this`db
      ensures Valid() && Grows(old(db), db)
      ensures r.Ok? ==>
                && Approvable(db, proposal, review) && ApprovalOk(h, db, r.value)
                && db.approvals[r.value].hash == h.approvalHash(Pin(proposal, review, role))
      ensures old(InTheWay(Pin(proposal, review, role), key)) != {} ==>
                && db == old(db)
                && (r.Ok? ==> r.value in old(InTheWay(Pin(proposal, review, role), key)))
                && (r.Err? ==> r.error == IdempotencyConflict)
      ensures r == Err(IdempotencyConflict) ==>
                exists a | a in old(InTheWay(Pin(proposal, review, role), key)) ::
                  old(db).approvals[a].hash != h.approvalHash(old(Pin(proposal, review, role)))
      ensures old(InTheWay(Pin(proposal, review, role), key)) == {} ==>
                if r.Err? then r.error == Crashed && db == old(db)
                else r.value !in old(db).approvals && Inserted(old(db), r.value, old(Pin(proposal, review, role)), key)
    {
      SelfGrows(db);
      var t := Tuple(proposal, db.proposals[proposal].hash, review, db.reviews[review].hash, role,
                     db.reviews[review].finding.budget.value);
      var existing := Existing(t, key);
      if existing.None? {
        r := Insert(t, key);
      } else if db.approvals[existing.value].hash != h.approvalHash(t) {
        r := Err(IdempotencyConflict);
      } else {
        r := Ok(existing.value);
      }
    }

    /** A row in the way: looked for by key first, and by the two hashes if there is none. */
    method Existing(t: Tuple, key: string) returns (found: Option<int64>)
      ensures found.None? <==> InTheWay(t, key) == {}
      ensures found.Some? ==> found.value in InTheWay(t, key) && found.value in db.approvals
    {
      var same := set a | a in db.approvals && db.approvals[a].key == key;
      if same == {} {
        same := set a | a in db.approvals && db.approvals[a].tuple.proposalHash == t.proposalHash
                    && db.approvals[a].tuple.reviewHash == t.reviewHash;
      }
      if same == {} { return None; }
      var a :| a in same;
      found := Some(a);
    }

    /** The records are before's with this approval added under this id. */
    ghost predicate Inserted(before: Records, id: int64, t: Tuple, key: string)
      reads this
    {
      db == before.(approvals := before.approvals[id := Approval(t, key, h.approvalHash(t))])
    }

    method Insert(t: Tuple, key: string) returns (r: Result<int64, Error>)
      requires Valid() && Bound(db, t) && db.reviews[t.review].finding.proposalHash == t.proposalHash
      requires db.reviews[t.review].finding.reviewer != t.approver
      modifies this`db
      ensures Valid() && Grows(old(db), db)
      ensures r.Err? ==> r.error == Crashed && db == old(db)
      ensures r.Ok? ==>
                r.value !in old(db).approvals && Inserted(old(db), r.value, t, key) && ApprovalOk(h, db, r.value)
    {
      var id: int64 := *;
      SelfGrows(db);
      if id <= 0 || id in db.approvals { return Err(Crashed); }
      ApprovalWriteOk(h, db, id, Approval(t, key, h.approvalHash(t)));
      Store(PutApproval(id, Approval(t, key, h.approvalHash(t))));
      r := Ok(id);
    }
  }
}
