/** What a durable approval was checked against, and what still held of it when its row was written
    (internal/campaign/approval_service.go). */
module CampaignApproval {
  import opened Prelude
  import opened AgentBudget
  import opened ExecutionBudget
  import opened Campaign
  import opened CampaignTheorems
  import opened CampaignFreshness

  predicate IsLastReview(db: Records, proposal: int64, review: int64) {
    proposal in db.lastReview && db.lastReview[proposal] == review
  }

  /** later has a review of this proposal that db has not. */
  ghost predicate Rereviewed(db: Records, later: Records, proposal: int64) {
    exists r | r in later.reviews :: later.reviews[r].finding.proposal == proposal && r !in db.reviews
  }

  // ---------------------------------------------------------------------------------------------
  // The last review stays last until there is another

  /** Since db the last review of this proposal is still the one, or one db has not. */
  ghost predicate Tracks(db: Records, later: Records, proposal: int64, review: int64) {
    && proposal in later.lastReview
    && if Rereviewed(db, later, proposal) then later.lastReview[proposal] !in db.reviews
       else later.lastReview[proposal] == review
  }

  lemma WriteTracks(db: Records, v: Records, write: Write, proposal: int64, review: int64)
    requires Grows(db, v) && Adds(v, write) && Tracks(db, v, proposal, review)
    ensures Tracks(db, Perform(v, write), proposal, review)
  {
    var t := Perform(v, write);
    if write.PutReview? && write.review.finding.proposal == proposal {
      assert write.id in t.reviews && t.reviews[write.id] == write.review;
    } else {
      assert Rereviewed(db, t, proposal) <==> Rereviewed(db, v, proposal) by {
        if Rereviewed(db, v, proposal) {
          var r :| r in v.reviews && v.reviews[r].finding.proposal == proposal && r !in db.reviews;
          assert r in t.reviews && t.reviews[r] == v.reviews[r];
        }
      }
    }
  }

  lemma StepTracks(h: Host, db: Records, w: World, step: Step, proposal: int64, review: int64)
    requires Grows(db, w.db) && Tracks(db, w.db, proposal, review)
    ensures Tracks(db, Apply(h, w, step).db, proposal, review)
  {
    if step.Advance? {
      if step.call in w.calls {
        ContinueAdds(h, w, w.calls[step.call], step.newId);
        WriteTracks(db, w.db, Continue(h, w, w.calls[step.call], step.newId).write, proposal, review);
      }
    } else if step.Draft? || step.Revise? || step.Reviewed? {
      WriteTracks(db, w.db, Outside(w.db, step), proposal, review);
    }
  }

  lemma {:induction false} RunTracks(h: Host, db: Records, w: World, steps: seq<Step>, proposal: int64, review: int64)
    requires Grows(db, w.db) && Tracks(db, w.db, proposal, review)
    ensures Tracks(db, Run(h, w, steps).db, proposal, review)
    decreases |steps|
  {
    if steps != [] {
      StepTracks(h, db, w, steps[0], proposal, review);
      ApplyGrows(h, w, steps[0]);
      GrowsThrough(db, w.db, Apply(h, w, steps[0]).db);
      RunTracks(h, db, Apply(h, w, steps[0]), steps[1..], proposal, review);
    }
  }

  /** A proposal's last review stays last exactly until the proposal is reviewed again. */
  lemma LastUntilRereviewed(h: Host, w: World, steps: seq<Step>, proposal: int64, review: int64)
    requires IsLastReview(w.db, proposal, review) && review in w.db.reviews
    ensures IsLastReview(Run(h, w, steps).db, proposal, review) <==> !Rereviewed(w.db, Run(h, w, steps).db, proposal)
  {
    SelfGrows(w.db);
    RunTracks(h, w.db, w, steps, proposal, review);
  }

  // ---------------------------------------------------------------------------------------------
  // Where an approving call stands, and how it got there

  /** What its first check finds: the review is a recommended one of this very proposal, by id and hash, the proposal
      is the latest of its lineage, and the review the latest of the proposal. */
  ghost predicate FoundCurrent(db: Records, proposal: int64, review: int64) {
    && Approvable(db, proposal, review) && IsLastReview(db, proposal, review) && Leads(db, proposal)
  }

  /** And its second: the recommended amounts are positive and reach the floor, and the approver is not the reviewer. */
  predicate FoundFunded(h: Host, db: Records, floor: Option<Limits>, review: int64, approver: string) {
    && review in db.reviews && db.reviews[review].finding.budget.Some?
    && approver != db.reviews[review].finding.reviewer
    && var rec := db.reviews[review].finding.budget.value;
    && Executable(h.nanos, rec) && floor.Some? && floor.value.Valid()
    && Reaches(Limits(h.nanos(rec.usd), rec.tokens, rec.modelCalls, rec.wallTimeMS, rec.depth, rec.retries,
                      rec.subagents), floor.value)
  }

  lemma FundedExact(h: Host, db: Records, floor: Option<Limits>, review: int64, approver: string)
    requires review in db.reviews && db.reviews[review].finding.budget.Some?
    ensures FoundFunded(h, db, floor, review, approver) <==>
            && approver != db.reviews[review].finding.reviewer
            && var l := ToLimits(h.nanos, db.reviews[review].finding.budget.value);
            l.Some? && floor.Some? && Feasible(l.value, floor.value)
  {
    var rec := db.reviews[review].finding.budget.value;
    ToLimitsExact(h.nanos, rec);
    if ToLimits(h.nanos, rec).Some? && floor.Some? { FeasibleExact(ToLimits(h.nanos, rec).value, floor.value); }
  }

  /** One step of an approving call, exactly: it goes on from its first check if and only if it finds proposal and
      review current, and from its second if and only if it finds the budget funded. */
  lemma ApproveAdvancesIff(h: Host, w: World, call: Call, newId: int64)
    requires call.Approving? && call.progress != Cleared && Approvable(w.db, call.proposal, call.review)
    ensures var o := Continue(h, w, call, newId);
            && o.write == NoWrite
            && o.next == if && (call.progress == Started ==> FoundCurrent(w.db, call.proposal, call.review))
                            && (call.progress == Checked ==>
                                  FoundFunded(h, w.db, w.floor, call.review, call.approver))
                         then Some(call.(progress := if call.progress == Started then Checked else Cleared)) else None
  {
    FundedExact(h, w.db, w.floor, call.review, call.approver);
  }

  lemma NotApprovable(h: Host, w: World, call: Call, newId: int64)
    requires call.Approving? && !Approvable(w.db, call.proposal, call.review)
    ensures Continue(h, w, call, newId) == STOP
  {
  }

  lemma SealMoves(h: Host, w: World, call: Call, newId: int64)
    requires call.Approving? && call.progress == Cleared
    ensures Continue(h, w, call, newId).next in {None, Some(call)}
  {
  }

  lemma PromoteStays(h: Host, w: World, call: Call, newId: int64)
    requires call.Promoting?
    ensures var o := Continue(h, w, call, newId);
            o.next.Some? ==> o.next.value.Promoting?
  {
  }

  /** A call is at a progress because it was already, has just begun, or has just passed the check before. */
  lemma CallCame(h: Host, w: World, step: Step, c: nat)
    requires c in Apply(h, w, step).calls && Apply(h, w, step).calls[c].Approving?
    ensures var call := Apply(h, w, step).calls[c];
            || (c in w.calls && w.calls[c] == call)
            || call.progress == Started
            || (&& step.Advance? && step.call == c && c in w.calls
                && w.calls[c] == call.(progress := if call.progress == Checked then Started else Checked)
                && (call.progress == Checked ==> FoundCurrent(w.db, call.proposal, call.review))
                && (call.progress == Cleared ==> FoundFunded(h, w.db, w.floor, call.review, call.approver)))
  {
    if step.Advance? && step.call == c && c in w.calls {
      var before := w.calls[c];
      if before.Promoting? {
        PromoteStays(h, w, before, step.newId);
      } else if !Approvable(w.db, before.proposal, before.review) {
        NotApprovable(h, w, before, step.newId);
      } else if before.progress == Cleared {
        SealMoves(h, w, before, step.newId);
      } else {
        ApproveAdvancesIff(h, w, before, step.newId);
      }
    }
  }

  lemma RunLast(h: Host, w: World, steps: seq<Step>)
    requires steps != []
    ensures Run(h, w, steps) == Apply(h, Run(h, w, steps[..|steps| - 1]), steps[|steps| - 1])
  {
    var before, last := steps[..|steps| - 1], [steps[|steps| - 1]];
    assert before + last == steps && last[1..] == [];
    RunSplit(h, w, before, last);
  }

  /** The step at which a call, standing at this progress after w, passed the check before it. */
  lemma {:induction false} CameAt(h: Host, floor: Option<Limits>, steps: seq<Step>, c: nat, call: Call) returns (k: nat)
    requires c in Run(h, Start(floor), steps).calls && Run(h, Start(floor), steps).calls[c] == call
    requires call.Approving? && call.progress != Started
    ensures k < |steps| && steps[k].Advance? && steps[k].call == c
    ensures var x := Run(h, Start(floor), steps[..k]);
            && c in x.calls && x.calls[c] == call.(progress := if call.progress == Checked then Started else Checked)
            && (call.progress == Checked ==> FoundCurrent(x.db, call.proposal, call.review))
            && (call.progress == Cleared ==> FoundFunded(h, x.db, x.floor, call.review, call.approver))
    decreases |steps|
  {
    var n := |steps| - 1;
    RunLast(h, Start(floor), steps);
    var w := Run(h, Start(floor), steps[..n]);
    CallCame(h, w, steps[n], c);
    if c in w.calls && w.calls[c] == call {
      k := CameAt(h, floor, steps[..n], c, call);
      assert steps[..n][..k] == steps[..k];
    } else {
      k := n;
    }
  }

  /** What a call asked for, wherever it has got to. */
  function RequestOfCall(call: Call): Call {
    if call.Promoting? then call.(stage := Asked) else call.(progress := Started)
  }

  lemma AsksTheSame(h: Host, w: World, call: Call, newId: int64)
    ensures var next := Continue(h, w, call, newId).next;
            next.Some? ==> RequestOfCall(next.value) == RequestOfCall(call)
  {
  }

  /** Only its own steps and its own crash change a call, and none changes what it asked for. */
  lemma CallsAreIsolated(h: Host, w: World, step: Step, c: nat)
    requires c in w.calls
    ensures var t := Apply(h, w, step);
            && (c in t.calls ==> RequestOfCall(t.calls[c]) == RequestOfCall(w.calls[c]))
            && (!(step.Advance? && step.call == c) && step != Crash(c) ==>
                  c in t.calls && t.calls[c] == w.calls[c])
  {
    if step.Advance? && step.call == c { AsksTheSame(h, w, w.calls[c], step.newId); }
  }

  // ---------------------------------------------------------------------------------------------
  // The row

  /** The row a call writes: what it asked for, with the hashes and the budget of the records it names. */
  function RowOf(h: Host, db: Records, call: Call): Approval
    requires call.Approving? && Approvable(db, call.proposal, call.review)
  {
    var t := Tuple(call.proposal, db.proposals[call.proposal].hash, call.review, db.reviews[call.review].hash,
                   call.approver, db.reviews[call.review].finding.budget.value);
    Approval(t, call.key, h.approvalHash(t))
  }

  lemma RowWritten(h: Host, w: World, c: nat, newId: int64, id: int64)
    requires id !in w.db.approvals && id in Apply(h, w, Advance(c, newId)).db.approvals
    ensures c in w.calls && w.calls[c].Approving? && w.calls[c].progress == Cleared
    ensures Approvable(w.db, w.calls[c].proposal, w.calls[c].review) && id == newId
    ensures Apply(h, w, Advance(c, newId)).db.approvals[id] == RowOf(h, w.db, w.calls[c])
  {
    var o := Continue(h, w, w.calls[c], newId);
    ApprovalFromWrite(w.db, o.write, id);
    if w.calls[c].Promoting? { PromoteWritesNoApproval(h, w, w.calls[c], newId); }
    ApproveWritesRow(h, w, w.calls[c], newId);
  }

  lemma ApprovalFromWrite(db: Records, write: Write, id: int64)
    requires id !in db.approvals && id in Perform(db, write).approvals
    ensures write.PutApproval? && write.id == id && Perform(db, write).approvals[id] == write.approval
  {
  }

  lemma PromoteWritesNoApproval(h: Host, w: World, call: Call, newId: int64)
    requires call.Promoting?
    ensures !Promote(h, w.db, w.floor, call, newId).write.PutApproval?
  {
  }

  lemma ApproveWritesRow(h: Host, w: World, call: Call, newId: int64)
    requires call.Approving? && Approve(h, w.db, w.floor, call, newId).write.PutApproval?
    ensures call.progress == Cleared && Approvable(w.db, call.proposal, call.review)
    ensures Approve(h, w.db, w.floor, call, newId).write == PutApproval(newId, RowOf(h, w.db, call))
  {
  }

  /** For every run and every approval that becomes durable at its next step: the row is what its call asked for, and
      there are earlier steps j and k of that call such that at j the proposal was the one revision of its lineage
      with the highest number and the review the last of the proposal, and at k every recommended amount was positive
      and reached the floor read. When the row is written the proposal still leads if and only if the lineage was not
      revised since j, the review is still the last if and only if the proposal was not reviewed since j, and the
      budget still reaches the floor if and only if the last floor set since k admits it. */
  lemma ApprovalWasCurrent(h: Host, floor: Option<Limits>, steps: seq<Step>, c: nat, newId: int64, id: int64)
    returns (j: nat, k: nat)
    requires id !in Run(h, Start(floor), steps).db.approvals
    requires id in Apply(h, Run(h, Start(floor), steps), Advance(c, newId)).db.approvals
    ensures j < k < |steps| && steps[j].Advance? && steps[j].call == c && steps[k].Advance? && steps[k].call == c
    ensures var v := Run(h, Start(floor), steps);
            && c in v.calls && v.calls[c].Approving? && Approvable(v.db, v.calls[c].proposal, v.calls[c].review)
            && Apply(h, v, Advance(c, newId)).db.approvals[id] == RowOf(h, v.db, v.calls[c])
    ensures var u, x, v := Run(h, Start(floor), steps[..j]), Run(h, Start(floor), steps[..k]),
                           Run(h, Start(floor), steps);
            var p, r := v.calls[c].proposal, v.calls[c].review;
            && WasCurrent(u.db, p, r) && FoundFunded(h, x.db, x.floor, r, v.calls[c].approver)
            && (Leads(v.db, p) <==> !Revised(u.db, v.db, u.db.proposals[p].lineage))
            && (IsLastReview(v.db, p, r) <==> !Rereviewed(u.db, v.db, p))
            && (FoundFunded(h, v.db, v.floor, r, v.calls[c].approver) <==>
                  FloorUntouched(steps[k..])
                  || FoundFunded(h, x.db, FloorAfter(x.floor, steps[k..]), r, v.calls[c].approver))
  {
    var v := Run(h, Start(floor), steps);
    RowWritten(h, v, c, newId, id);
    var call := v.calls[c];
    k := CameAt(h, floor, steps, c, call);
    j := CameAt(h, floor, steps[..k], c, call.(progress := Checked));
    assert steps[..k][..j] == steps[..j];
    RunKeeps(h, Start(floor), steps[..j]);
    CurrentMeans(h, Run(h, Start(floor), steps[..j]), call.proposal, call.review);
    FromCheck(h, floor, steps, j, call.proposal, call.review);
    FromFloor(h, floor, steps, k, call.review, call.approver);
  }

  /** The proposal's revision is the highest of its lineage, and the review the last of the proposal: it recommends
      this very proposal, by id and hash, with a budget. */
  ghost predicate WasCurrent(db: Records, p: int64, r: int64) {
    && p in db.proposals && r in db.reviews && IsLastReview(db, p, r)
    && (forall q | q in db.proposals && q != p && db.proposals[q].lineage == db.proposals[p].lineage ::
          db.proposals[q].revision < db.proposals[p].revision)
    && var f := db.reviews[r].finding;
    && f.proposal == p && f.proposalHash == db.proposals[p].hash && f.recommended && f.budget.Some?
  }

  lemma CurrentMeans(h: Host, u: World, p: int64, r: int64)
    requires Inv(h, u) && FoundCurrent(u.db, p, r)
    ensures WasCurrent(u.db, p, r)
  {
  }

  lemma FromCheck(h: Host, floor: Option<Limits>, steps: seq<Step>, j: nat, p: int64, r: int64)
    requires j <= |steps| && FoundCurrent(Run(h, Start(floor), steps[..j]).db, p, r)
    ensures var u, v := Run(h, Start(floor), steps[..j]), Run(h, Start(floor), steps);
            && (Leads(v.db, p) <==> !Revised(u.db, v.db, u.db.proposals[p].lineage))
            && (IsLastReview(v.db, p, r) <==> !Rereviewed(u.db, v.db, p))
  {
    var u := Run(h, Start(floor), steps[..j]);
    RunKeeps(h, Start(floor), steps[..j]);
    RunSplit(h, Start(floor), steps[..j], steps[j..]);
    assert steps[..j] + steps[j..] == steps;
    LeadsUntilRevised(h, u, steps[j..], p);
    LastUntilRereviewed(h, u, steps[j..], p, r);
  }

  lemma FromFloor(h: Host, floor: Option<Limits>, steps: seq<Step>, k: nat, r: int64, approver: string)
    requires k <= |steps|
    requires var x := Run(h, Start(floor), steps[..k]); FoundFunded(h, x.db, x.floor, r, approver)
    ensures var x, v := Run(h, Start(floor), steps[..k]), Run(h, Start(floor), steps);
            FoundFunded(h, v.db, v.floor, r, approver) <==>
            FloorUntouched(steps[k..]) || FoundFunded(h, x.db, FloorAfter(x.floor, steps[k..]), r, approver)
  {
    var x := Run(h, Start(floor), steps[..k]);
    RunSplit(h, Start(floor), steps[..k], steps[k..]);
    assert steps[..k] + steps[k..] == steps;
    FloorFollowed(h, x, steps[k..]);
    RunGrows(h, x, steps[k..]);
  }

  // ---------------------------------------------------------------------------------------------
  // Nothing else is asked, and the window is real

  /** No row in the way: the key is unused, the pair of hashes too, and the id is free. */
  ghost predicate Unsealed(db: Records, call: Call, newId: int64)
    requires call.Approving? && Approvable(db, call.proposal, call.review)
  {
    && newId > 0 && newId !in db.approvals
    && forall a | a in db.approvals ::
         && db.approvals[a].key != call.key
         && !(&& db.approvals[a].tuple.proposalHash == db.proposals[call.proposal].hash
              && db.approvals[a].tuple.reviewHash == db.reviews[call.review].hash)
  }

  lemma Seals(h: Host, w: World, c: nat, newId: int64)
    requires c in w.calls && w.calls[c].Approving? && w.calls[c].progress == Cleared
    requires Approvable(w.db, w.calls[c].proposal, w.calls[c].review) && Unsealed(w.db, w.calls[c], newId)
    ensures var t := Apply(h, w, Advance(c, newId));
            && t.db == w.db.(approvals := w.db.approvals[newId := RowOf(h, w.db, w.calls[c])])
            && t.calls == w.calls - {c} && t.floor == w.floor
  {
    var call := w.calls[c];
    assert Seal(h, w.db, call, newId) == Outcome(PutApproval(newId, RowOf(h, w.db, call)), None);
  }

  /** With proposal and review current, the budget funded and no row in the way, three steps of the call write its
      row. */
  lemma ApprovalSucceeds(h: Host, w: World, c: nat, newId: int64)
    requires c in w.calls && w.calls[c].Approving? && w.calls[c].progress == Started
    requires FoundCurrent(w.db, w.calls[c].proposal, w.calls[c].review)
    requires FoundFunded(h, w.db, w.floor, w.calls[c].review, w.calls[c].approver)
    requires Unsealed(w.db, w.calls[c], newId)
    ensures var go := Advance(c, newId);
            var t := Run(h, w, [go, go, go]);
            && t.db == w.db.(approvals := w.db.approvals[newId := RowOf(h, w.db, w.calls[c])])
            && c !in t.calls
  {
    var go, call := Advance(c, newId), w.calls[c];
    var w1 := w.(calls := w.calls[c := call.(progress := Checked)]);
    var w2 := w.(calls := w.calls[c := call.(progress := Cleared)]);
    ApproveAdvancesIff(h, w, call, newId);
    ApproveAdvancesIff(h, w1, call.(progress := Checked), newId);
    Seals(h, w2, c, newId);
    assert w1.calls[c := call.(progress := Cleared)] == w2.calls;
    FollowTrace(h, [w, w1, w2, Apply(h, w2, go)], [go, go, go]);
  }

  /** From an empty store: after both checks the proposal is reviewed again, not recommended, and revised, and the
      approval of the superseded review and revision is recorded all the same. */
  lemma StaleApprovalIsRecorded(t: Story) returns (steps: seq<Step>)
    requires t.Tellable()
    ensures var db := Run(t.h, Start(Some(t.Amounts())), steps).db;
            && 1 in db.approvals && db.approvals[1].tuple.proposal == 1 && db.approvals[1].tuple.review == 1
            && !Leads(db, 1) && !IsLastReview(db, 1, 1)
  {
    var floor := Some(t.Amounts());
    var first := ClearedFirst(t);
    var bad := Review(t.Found().(recommended := false), "");
    var rest := [Reviewed(2, bad), Revise(1, 2, t.content, t.Drafted().hash), Advance(0, 1)];
    var w := World(t.Reviewed(), floor, map[0 := t.Approver(Cleared)]);
    var w1 := w.(db := t.Reviewed().(reviews := t.Reviewed().reviews[2 := bad], lastReview := map[1 := 2]));
    var two := Proposal(1, 2, t.content, t.Drafted().hash);
    var w2 := w1.(db := w1.db.(proposals := w1.db.proposals[2 := two], heads := map[1 := 2]));
    assert t.Reviewed().lastReview[1 := 2] == map[1 := 2];
    assert Apply(t.h, w, rest[0]) == w1;
    assert Apply(t.h, w1, rest[1]) == w2;
    Seals(t.h, w2, 0, 1);
    FollowTrace(t.h, [w, w1, w2, Apply(t.h, w2, rest[2])], rest);
    RunSplit(t.h, Start(floor), first, rest);
    steps := first + rest;
  }

  // ---------------------------------------------------------------------------------------------
  // Rows are unique

  /** No two approvals share an idempotency key or a pair of hashes, and no two promotions a key. */
  ghost predicate RowsApart(db: Records) {
    && (forall a, b | a in db.approvals && b in db.approvals && a != b ::
          && db.approvals[a].key != db.approvals[b].key
          && !(&& db.approvals[a].tuple.proposalHash == db.approvals[b].tuple.proposalHash
               && db.approvals[a].tuple.reviewHash == db.approvals[b].tuple.reviewHash))
    && (forall a, b | a in db.promotions && b in db.promotions && a != b ::
          db.promotions[a].key != db.promotions[b].key)
  }

  /** A write of a row that no row is in the way of. */
  ghost predicate Apart(db: Records, write: Write) {
    && (write.PutApproval? ==>
          forall a | a in db.approvals ::
            && db.approvals[a].key != write.approval.key
            && !(&& db.approvals[a].tuple.proposalHash == write.approval.tuple.proposalHash
                 && db.approvals[a].tuple.reviewHash == write.approval.tuple.reviewHash))
    && (write.PutPromotion? ==> forall a | a in db.promotions :: db.promotions[a].key != write.promotion.key)
  }

  lemma ApproveWritesApart(h: Host, w: World, call: Call, newId: int64)
    requires call.Approving?
    ensures Apart(w.db, Approve(h, w.db, w.floor, call, newId).write)
  {
    if Approve(h, w.db, w.floor, call, newId).write.PutApproval? {
      ApproveWritesRow(h, w, call, newId);
      assert Seal(h, w.db, call, newId).write.PutApproval?;
    }
  }

  lemma PromoteWritesApart(h: Host, w: World, call: Call, newId: int64)
    requires call.Promoting?
    ensures Apart(w.db, Promote(h, w.db, w.floor, call, newId).write)
  {
  }

  lemma PerformKeepsApart(db: Records, write: Write)
    requires RowsApart(db) && Apart(db, write)
    ensures RowsApart(Perform(db, write))
  {
  }

  lemma WriteKeepsApart(h: Host, w: World, call: Call, newId: int64)
    requires RowsApart(w.db)
    ensures RowsApart(Perform(w.db, Continue(h, w, call, newId).write))
  {
    if call.Promoting? { PromoteWritesApart(h, w, call, newId); } else { ApproveWritesApart(h, w, call, newId); }
    PerformKeepsApart(w.db, Continue(h, w, call, newId).write);
  }

  lemma StepKeepsApart(h: Host, w: World, step: Step)
    requires RowsApart(w.db)
    ensures RowsApart(Apply(h, w, step).db)
  {
    if step.Advance? && step.call in w.calls { WriteKeepsApart(h, w, w.calls[step.call], step.newId); }
  }

  /** In every run, approvals are unique by idempotency key and by the hashes they bind, and promotions by key. */
  lemma {:induction false} RowsAreUnique(h: Host, w: World, steps: seq<Step>)
    requires RowsApart(w.db)
    ensures RowsApart(Run(h, w, steps).db)
    decreases |steps|
  {
    if steps != [] {
      StepKeepsApart(h, w, steps[0]);
      RowsAreUnique(h, Apply(h, w, steps[0]), steps[1..]);
    }
  }
}
