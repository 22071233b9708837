/** Governed implementation runs only for an approval the owner granted it for
    (internal/campaign/execution_mode.go, internal/campaign/promotion_service.go). */
module CampaignGrants {
  import opened Prelude
  import opened AgentBudget
  import opened ExecutionBudget
  import opened Campaign
  import opened CampaignTheorems
  import opened CampaignApproval

  /** Some promotion of this approval was asked for with a grant of governed implementation, for this very approval and
      the role that asked. */
  ghost predicate GrantedIn(steps: seq<Step>, approval: int64) {
    exists i | 0 <= i < |steps| ::
      && steps[i].BeginPromote? && steps[i].approval == approval
      && steps[i].grant == Granted(Governed, approval, steps[i].role)
  }

  lemma GrantStays(steps: seq<Step>, step: Step, approval: int64)
    requires GrantedIn(steps, approval)
    ensures GrantedIn(steps + [step], approval)
  {
    var i :| 0 <= i < |steps| && steps[i].BeginPromote? && steps[i].approval == approval
             && steps[i].grant == Granted(Governed, approval, steps[i].role);
    assert (steps + [step])[i] == steps[i];
  }

  /** Every governed root, promotion and promotion call so far goes back to such a grant. */
  ghost predicate Sanctioned(w: World, steps: seq<Step>) {
    && (forall k | k in w.db.roots && w.db.roots[k].request.mode == Governed ::
          GrantedIn(steps, w.db.roots[k].request.approval))
    && (forall id | id in w.db.promotions && w.db.promotions[id].mode == Governed ::
          GrantedIn(steps, w.db.promotions[id].approval))
    && (forall c | c in w.calls && w.calls[c].Promoting? && w.calls[c].grant.Granted?
                   && w.calls[c].grant.mode == Governed :: GrantedIn(steps, w.calls[c].approval))
  }

  /** A call writes only for its own approval and under its own mode, and keeps both. */
  lemma OwnApproval(h: Host, w: World, call: Call, newId: int64)
    ensures var o := Continue(h, w, call, newId);
            && (o.write.PutRoot? ==> call.Promoting? && o.write.root.request.approval == call.approval)
            && (o.write.PutPromotion? ==> call.Promoting? && o.write.promotion.approval == call.approval)
            && (o.next.Some? && o.next.value.Promoting? ==> call.Promoting? && o.next.value.approval == call.approval)
  {
  }

  lemma WriteSanctioned(w: World, steps: seq<Step>, write: Write)
    requires Sanctioned(w, steps)
    requires write.PutRoot? && write.root.request.mode == Governed ==> GrantedIn(steps, write.root.request.approval)
    requires write.PutPromotion? && write.promotion.mode == Governed ==> GrantedIn(steps, write.promotion.approval)
    ensures Sanctioned(w.(db := Perform(w.db, write)), steps)
  {
  }

  lemma AdvanceSanctioned(h: Host, w: World, steps: seq<Step>, c: nat, newId: int64)
    requires Sanctioned(w, steps) && c in w.calls
    ensures Sanctioned(Apply(h, w, Advance(c, newId)), steps)
  {
    var o := Continue(h, w, w.calls[c], newId);
    OwnApproval(h, w, w.calls[c], newId);
    OwnMode(h, w, w.calls[c], newId);
    WriteSanctioned(w, steps, o.write);
  }

  lemma LongerSanctioned(w: World, steps: seq<Step>, step: Step)
    requires Sanctioned(w, steps)
    ensures Sanctioned(w, steps + [step])
  {
    forall a | GrantedIn(steps, a) ensures GrantedIn(steps + [step], a) { GrantStays(steps, step, a); }
  }

  lemma StepSanctioned(h: Host, w: World, steps: seq<Step>, step: Step)
    requires Sanctioned(w, steps)
    ensures Sanctioned(Apply(h, w, step), steps + [step])
  {
    LongerSanctioned(w, steps, step);
    if step.Advance? {
      if step.call in w.calls { AdvanceSanctioned(h, w, steps + [step], step.call, step.newId); }
    } else if step.BeginPromote? {
      assert (steps + [step])[|steps|] == step;
    } else if step.Draft? || step.Revise? || step.Reviewed? {
      WriteSanctioned(w, steps + [step], Outside(w.db, step));
    }
  }

  lemma {:induction false} RunSanctioned(h: Host, floor: Option<Limits>, steps: seq<Step>)
    ensures Sanctioned(Run(h, Start(floor), steps), steps)
    decreases |steps|
  {
    if steps != [] {
      var n := |steps| - 1;
      RunSanctioned(h, floor, steps[..n]);
      RunLast(h, Start(floor), steps);
      StepSanctioned(h, Run(h, Start(floor), steps[..n]), steps[..n], steps[n]);
      assert steps[..n] + [steps[n]] == steps;
    }
  }

  /** In every run, every root launched under governed implementation, and every promotion recorded so, is of an
      approval for which a promotion was asked with the owner's grant of it, to the role that asked. */
  lemma GovernedWasGranted(h: Host, floor: Option<Limits>, steps: seq<Step>)
    ensures var db := Run(h, Start(floor), steps).db;
            && (forall k | k in db.roots && db.roots[k].request.mode == Governed ::
                  GrantedIn(steps, db.roots[k].request.approval))
            && (forall id | id in db.promotions && db.promotions[id].mode == Governed :: GrantedIn(steps, id))
  {
    RunSanctioned(h, floor, steps);
    RunKeeps(h, Start(floor), steps);
    var db := Run(h, Start(floor), steps).db;
    forall id | id in db.promotions && db.promotions[id].mode == Governed ensures GrantedIn(steps, id) {
      assert PromotionOk(h, db, id, db.promotions[id]);
    }
  }

  /** A promotion is taken up if and only if it names an approval, a role and a key, and its grant, if any, is for that
      approval and that role. */
  lemma TakenUpIff(h: Host, w: World, c: nat, approval: int64, role: string, key: string, grant: Grant)
    requires c !in w.calls
    ensures Apply(h, w, BeginPromote(c, approval, role, key, grant))
            == if && approval > 0 && role != "" && key != ""
                  && (match grant { case Granted(_, a, r) => a == approval && r == role case NoGrant => true })
               then w.(calls := w.calls[c := Promoting(approval, role, key, grant, Asked)]) else w
  {
  }

  /** What a promotion's second look asks: the approval's hashes are those of its stored proposal and recommended
      review, every hash is its record's own, and the proposal leads its lineage. */
  predicate Promotable(h: Host, db: Records, approval: int64) {
    && approval in db.approvals
    && var Approval(t, _, hash) := db.approvals[approval];
    && t.proposal in db.proposals && t.review in db.reviews
    && var pr, rev := db.proposals[t.proposal], db.reviews[t.review];
    && pr.hash == t.proposalHash == h.proposalHash(pr.content) && rev.hash == t.reviewHash == h.reviewHash(rev.finding)
    && h.approvalHash(t) == hash
    && rev.finding.proposal == t.proposal && rev.finding.recommended && rev.finding.budget == Some(t.budget)
    && pr.lineage in db.heads && db.heads[pr.lineage] == t.proposal
  }

  function AsLimits(h: Host, b: Recommendation): Limits {
    Limits(h.nanos(b.usd), b.tokens, b.modelCalls, b.wallTimeMS, b.depth, b.retries, b.subagents)
  }

  /** And its third: every approved amount is positive and reaches the floor. */
  predicate Affordable(h: Host, db: Records, floor: Option<Limits>, approval: int64) {
    && approval in db.approvals && floor.Some? && floor.value.Valid()
    && Executable(h.nanos, db.approvals[approval].tuple.budget)
    && Reaches(AsLimits(h, db.approvals[approval].tuple.budget), floor.value)
  }

  /** A promotion goes on from its three looks, exactly: only if there is none yet, only if the approval is bound,
      sealed and of the latest revision, and only if it is affordable; it writes nothing, and carries on with the
      limits approved and the floor read. */
  lemma PromoteAdvancesIff(h: Host, w: World, call: Call, newId: int64)
    requires call.Promoting?
    ensures var o := Continue(h, w, call, newId);
            if call.stage.Asked? then
              o == Outcome(NoWrite,
                           if call.approval !in w.db.promotions then Some(call.(stage := Unpromoted)) else None)
            else if call.stage.Unpromoted? then
              o == Outcome(NoWrite, if Promotable(h, w.db, call.approval) then Some(call.(stage := Current)) else None)
            else call.stage.Current? ==>
              o == Outcome(NoWrite,
                           if !Affordable(h, w.db, w.floor, call.approval) then None
                           else Some(call.(stage := Funded(AsLimits(h, w.db.approvals[call.approval].tuple.budget),
                                                           w.floor.value))))
  {
    if call.stage.Current? && call.approval in w.db.approvals {
      var b := w.db.approvals[call.approval].tuple.budget;
      ToLimitsExact(h.nanos, b);
      if ToLimits(h.nanos, b).Some? && w.floor.Some? { FeasibleExact(ToLimits(h.nanos, b).value, w.floor.value); }
    }
  }
}
