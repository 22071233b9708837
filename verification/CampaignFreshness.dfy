/** When a root is created its proposal led its lineage at an earlier check of the same call; whether it still
    leads depends on what happened in between (internal/campaign/promotion_service.go). */
module CampaignFreshness {
  import opened Prelude
  import opened AgentBudget
  import opened ExecutionBudget
  import opened Campaign
  import opened CampaignTheorems

  function HeadRevision(db: Records, l: int64): int
    requires l in db.heads && db.heads[l] in db.proposals
  {
    db.proposals[db.heads[l]].revision
  }

  /** later has a revision in lineage l that db has not. */
  ghost predicate Revised(db: Records, later: Records, l: int64) {
    exists q | q in later.proposals :: later.proposals[q].lineage == l && q !in db.proposals
  }

  /** A lineage gains a revision exactly when its highest revision number rises. */
  ghost predicate HeadRises(v: Records, w: Records, l: int64) {
    l in v.heads && v.heads[l] in v.proposals ==>
      && l in w.heads && w.heads[l] in w.proposals
      && HeadRevision(v, l) <= HeadRevision(w, l)
      && (Revised(v, w, l) <==> HeadRevision(v, l) < HeadRevision(w, l))
  }

  lemma WriteRises(h: Host, db: Records, write: Write, l: int64)
    requires Lineages(db) && Adds(db, write) && WriteOk(h, db, write)
    ensures HeadRises(db, Perform(db, write), l)
  {
    var t := Perform(db, write);
    if write.PutProposal? && write.proposal.lineage == l {
      assert t.proposals[write.id].lineage == l && write.id !in db.proposals;
    }
  }

  lemma RisesTogether(u: Records, v: Records, w: Records, l: int64)
    requires HeadRises(u, v, l) && HeadRises(v, w, l) && Grows(u, v) && Grows(v, w) && l in u.heads
             && u.heads[l] in u.proposals
    ensures HeadRises(u, w, l)
  {
    if Revised(u, w, l) {
      var q :| q in w.proposals && w.proposals[q].lineage == l && q !in u.proposals;
      if q in v.proposals { assert Revised(u, v, l); } else { assert Revised(v, w, l); }
    }
    if HeadRevision(u, l) < HeadRevision(w, l) && !Revised(u, v, l) {
      assert Revised(v, w, l);
      var q :| q in w.proposals && w.proposals[q].lineage == l && q !in v.proposals;
      assert q !in u.proposals;
    } else if Revised(u, v, l) {
      var q :| q in v.proposals && v.proposals[q].lineage == l && q !in u.proposals;
      assert q in w.proposals && w.proposals[q] == v.proposals[q];
    }
  }

  lemma StepRises(h: Host, w: World, step: Step, l: int64)
    requires Inv(h, w)
    ensures HeadRises(w.db, Apply(h, w, step).db, l)
  {
    if step.Advance? && step.call in w.calls {
      WriteJustified(h, w, w.calls[step.call], step.newId);
      WriteRises(h, w.db, Continue(h, w, w.calls[step.call], step.newId).write, l);
    } else if step.Draft? || step.Revise? || step.Reviewed? {
      OutsideJustified(h, w.db, step);
      WriteRises(h, w.db, Outside(w.db, step), l);
    }
  }

  lemma {:induction false} RunRises(h: Host, w: World, steps: seq<Step>, l: int64)
    requires Inv(h, w) && l in w.db.heads && w.db.heads[l] in w.db.proposals
    ensures HeadRises(w.db, Run(h, w, steps).db, l)
    decreases |steps|
  {
    if steps != [] {
      var t := Apply(h, w, steps[0]);
      StepRises(h, w, steps[0], l);
      ApplyKeeps(h, w, steps[0]);
      ApplyGrows(h, w, steps[0]);
      RunRises(h, t, steps[1..], l);
      RunGrows(h, t, steps[1..]);
      RisesTogether(w.db, t.db, Run(h, t, steps[1..]).db, l);
    }
  }

  /** A proposal that leads its lineage goes on leading it exactly until the lineage is revised. */
  lemma LeadsUntilRevised(h: Host, w: World, steps: seq<Step>, p: int64)
    requires Inv(h, w) && Leads(w.db, p)
    ensures Leads(Run(h, w, steps).db, p) <==> !Revised(w.db, Run(h, w, steps).db, w.db.proposals[p].lineage)
  {
    var l := w.db.proposals[p].lineage;
    RunRises(h, w, steps, l);
    RunGrows(h, w, steps);
    RunKeeps(h, w, steps);
  }

  lemma LaunchShape(h: Host, v: World, c: nat, newId: int64, key: string)
    requires c in v.calls && key !in v.db.roots && key in Apply(h, v, Advance(c, newId)).db.roots
    ensures v.calls[c].Promoting? && v.calls[c].approval in v.db.approvals
    ensures var root := Apply(h, v, Advance(c, newId)).db.roots[key];
            && root.latest == Leads(v.db, v.db.approvals[v.calls[c].approval].tuple.proposal)
            && root.funded == (v.floor.Some? && Feasible(root.limits, v.floor.value))
  {
    var o := Continue(h, v, v.calls[c], newId);
    RootFromWrite(v.db, o.write, key);
    if v.calls[c].Approving? { ApproveWritesNoRoot(h, v, v.calls[c], newId); }
    PutRootShape(h, v, v.calls[c], newId);
  }

  lemma RootFromWrite(db: Records, write: Write, key: string)
    requires key !in db.roots && key in Perform(db, write).roots
    ensures write.PutRoot? && write.key == key && Perform(db, write).roots[key] == write.root
  {
  }

  lemma ApproveWritesNoRoot(h: Host, v: World, call: Call, newId: int64)
    requires call.Approving?
    ensures !Approve(h, v.db, v.floor, call, newId).write.PutRoot?
  {
  }

  lemma PutRootShape(h: Host, v: World, call: Call, newId: int64)
    requires call.Promoting? && Promote(h, v.db, v.floor, call, newId).write.PutRoot?
    ensures call.approval in v.db.approvals
    ensures var root := Promote(h, v.db, v.floor, call, newId).write.root;
            && root.latest == Leads(v.db, v.db.approvals[call.approval].tuple.proposal)
            && root.funded == (v.floor.Some? && Feasible(root.limits, v.floor.value))
  {
  }

  /** The last floor the host set during these steps, or the one before them. */
  function FloorAfter(floor: Option<Limits>, steps: seq<Step>): Option<Limits>
    decreases |steps|
  {
    if steps == [] then floor
    else FloorAfter(if steps[0].SetFloor? then steps[0].floor else floor, steps[1..])
  }

  predicate FloorUntouched(steps: seq<Step>) {
    forall i | 0 <= i < |steps| :: !steps[i].SetFloor?
  }

  predicate Admits(floor: Option<Limits>, limits: Limits) {
    floor.Some? && Feasible(limits, floor.value)
  }

  lemma {:induction false} FloorFollowed(h: Host, w: World, steps: seq<Step>)
    ensures Run(h, w, steps).floor == FloorAfter(w.floor, steps)
    ensures FloorUntouched(steps) ==> FloorAfter(w.floor, steps) == w.floor
    decreases |steps|
  {
    if steps != [] {
      FloorFollowed(h, Apply(h, w, steps[0]), steps[1..]);
      assert FloorUntouched(steps) ==> !steps[0].SetFloor? && FloorUntouched(steps[1..]);
    }
  }

  /** For every call, from its latest-revision check at w to the creation of its root at v: the root is launched
      on the latest revision if and only if the lineage was not revised in between, and at or above the floor if and
      only if the last floor set up to then admits its limits. */
  lemma LaunchIsFreshIff(h: Host, w: World, steps: seq<Step>, c: nat, newId: int64, key: string)
    requires Inv(h, w) && c in w.calls && w.calls[c].Promoting? && w.calls[c].stage == Unpromoted
    requires Promote(h, w.db, w.floor, w.calls[c], newId).next == Some(w.calls[c].(stage := Current))
    requires var v := Run(h, w, steps);
             && c in v.calls && v.calls[c].Promoting? && v.calls[c].approval == w.calls[c].approval
             && key !in v.db.roots && key in Apply(h, v, Advance(c, newId)).db.roots
    ensures var v := Run(h, w, steps);
            var root := Apply(h, v, Advance(c, newId)).db.roots[key];
            var p := w.db.approvals[w.calls[c].approval].tuple.proposal;
            && (root.latest <==> !Revised(w.db, v.db, w.db.proposals[p].lineage))
            && (root.funded <==> Admits(FloorAfter(w.floor, steps), root.limits))
  {
    var v := Run(h, w, steps);
    LaunchShape(h, v, c, newId, key);
    FloorFollowed(h, w, steps);
    assert Leads(w.db, w.db.approvals[w.calls[c].approval].tuple.proposal);
    LeadsUntilRevised(h, w, steps, w.db.approvals[w.calls[c].approval].tuple.proposal);
    RunGrows(h, w, steps);
    assert v.db.approvals[w.calls[c].approval] == w.db.approvals[w.calls[c].approval];
  }

  lemma LimitsAreTheApprovals(h: Host, v: World, c: nat, newId: int64, key: string)
    requires Inv(h, v) && c in v.calls && key !in v.db.roots && key in Apply(h, v, Advance(c, newId)).db.roots
    ensures v.calls[c].Promoting?
            && Converted(h, v.db, v.calls[c].approval, Apply(h, v, Advance(c, newId)).db.roots[key].limits)
  {
    var o := Continue(h, v, v.calls[c], newId);
    RootFromWrite(v.db, o.write, key);
    if v.calls[c].Approving? { ApproveWritesNoRoot(h, v, v.calls[c], newId); }
    assert CallOk(h, v.db, v.calls[c]);
    RootCarriesLimits(h, v, v.calls[c], newId);
  }

  lemma RootCarriesLimits(h: Host, v: World, call: Call, newId: int64)
    requires call.Promoting? && Promote(h, v.db, v.floor, call, newId).write.PutRoot?
    ensures call.stage.Funded? && Promote(h, v.db, v.floor, call, newId).write.root.limits == call.stage.limits
  {
  }

  /** For every call, from its floor check at w to the creation of its root at v: with no floor set in between the root
      is launched at or above the floor; otherwise it is if and only if the last floor set in between still admits the
      limits that passed the check. */
  lemma LaunchIsFundedIff(h: Host, w: World, steps: seq<Step>, c: nat, newId: int64, key: string)
    requires Inv(h, w) && c in w.calls && w.calls[c].Promoting? && w.calls[c].stage == Current
    requires Promote(h, w.db, w.floor, w.calls[c], newId).next.Some?
    requires var v := Run(h, w, steps);
             && c in v.calls && v.calls[c].Promoting? && v.calls[c].approval == w.calls[c].approval
             && key !in v.db.roots && key in Apply(h, v, Advance(c, newId)).db.roots
    ensures var v := Run(h, w, steps);
            var root := Apply(h, v, Advance(c, newId)).db.roots[key];
            && Converted(h, w.db, w.calls[c].approval, root.limits) && Admits(w.floor, root.limits)
            && (root.funded <==> FloorUntouched(steps) || Admits(FloorAfter(w.floor, steps), root.limits))
  {
    var v := Run(h, w, steps);
    LaunchShape(h, v, c, newId, key);
    FloorFollowed(h, w, steps);
    RunKeeps(h, w, steps);
    RunGrows(h, w, steps);
    LimitsAreTheApprovals(h, v, c, newId, key);
    assert v.db.approvals[w.calls[c].approval] == w.db.approvals[w.calls[c].approval];
  }

  // ---------------------------------------------------------------------------------------------
  // The window is real

  lemma {:induction false} FollowTrace(h: Host, trace: seq<World>, steps: seq<Step>)
    requires |trace| == |steps| + 1
    requires forall i | 0 <= i < |steps| :: trace[i + 1] == Apply(h, trace[i], steps[i])
    ensures Run(h, trace[0], steps) == trace[|steps|]
    decreases |steps|
  {
    if steps != [] {
      assert trace[1] == Apply(h, trace[0], steps[0]);
      assert forall i | 0 <= i < |steps[1..]| :: trace[1..][i + 1] == trace[i + 2] && steps[1..][i] == steps[i + 1];
      FollowTrace(h, trace[1..], steps[1..]);
    }
  }

  /** The story told below, for any host, content and recommended budget the host can convert. */
  datatype Story = Story(h: Host, content: Content, rec: Recommendation, reviewer: string, owner: string) {
    predicate Tellable() {
      && reviewer != owner && owner != "" && ToLimits(h.nanos, rec).Some?
      && h.submitKey(1, Given().hash).Some? && h.causationKey(1, Given().hash).Some?
    }
    function Amounts(): Limits
      requires Tellable()
    {
      ToLimits(h.nanos, rec).value
    }
    function Drafted(): Proposal { Proposal(1, 1, content, h.proposalHash(content)) }
    function Found(): Finding { Finding(1, Drafted().hash, reviewer, true, Some(rec), "") }
    function Judged(): Review { Review(Found(), h.reviewHash(Found())) }
    function Pinned(): Tuple { Tuple(1, Drafted().hash, 1, Judged().hash, owner, rec) }
    function Given(): Approval { Approval(Pinned(), "k", h.approvalHash(Pinned())) }
    function Promoter(stage: Stage): Call { Promoting(1, owner, "k", NoGrant, stage) }
    function Approver(progress: Progress): Call { Approving(1, 1, owner, "k", progress) }
    function Reviewed(): Records {
      EMPTY.(proposals := map[1 := Drafted()], heads := map[1 := 1], reviews := map[1 := Judged()],
             lastReview := map[1 := 1])
    }
    /** The records once the approval is durable. */
    function Approved(): Records {
      Reviewed().(approvals := map[1 := Given()])
    }
    /** The same, with the proposal revised. */
    function Superseded(): Records {
      Approved().(proposals := map[1 := Drafted(), 2 := Drafted().(revision := 2)], heads := map[1 := 2])
    }
  }

  /** The approval has passed both its checks. */
  lemma ClearedFirst(t: Story) returns (steps: seq<Step>)
    requires t.Tellable()
    ensures Run(t.h, Start(Some(t.Amounts())), steps)
            == World(t.Reviewed(), Some(t.Amounts()), map[0 := t.Approver(Cleared)])
  {
    var floor := Some(t.Amounts());
    steps := [Draft(1, t.content, t.Drafted().hash), Reviewed(1, t.Judged()), BeginApprove(0, 1, 1, t.owner, "k"),
              Advance(0, 1), Advance(0, 1)];
    var one := EMPTY.(proposals := map[1 := t.Drafted()], heads := map[1 := 1]);
    var two := t.Reviewed();
    var trace := [
      Start(floor), World(one, floor, map[]), World(two, floor, map[]),
      World(two, floor, map[0 := t.Approver(Started)]), World(two, floor, map[0 := t.Approver(Checked)]),
      World(two, floor, map[0 := t.Approver(Cleared)])];
    assert Apply(t.h, trace[0], steps[0]) == trace[1];
    assert Apply(t.h, trace[1], steps[1]) == trace[2];
    assert Apply(t.h, trace[2], steps[2]) == trace[3];
    assert Apply(t.h, trace[3], steps[3]) == trace[4];
    assert Apply(t.h, trace[4], steps[4]) == trace[5];
    FollowTrace(t.h, trace, steps);
  }

  lemma ApprovedFirst(t: Story) returns (steps: seq<Step>)
    requires t.Tellable()
    ensures Run(t.h, Start(Some(t.Amounts())), steps) == World(t.Approved(), Some(t.Amounts()), map[])
  {
    var floor := Some(t.Amounts());
    var first := ClearedFirst(t);
    var w := World(t.Reviewed(), floor, map[0 := t.Approver(Cleared)]);
    assert Apply(t.h, w, Advance(0, 1)) == World(t.Approved(), floor, map[]);
    FollowTrace(t.h, [w, World(t.Approved(), floor, map[])], [Advance(0, 1)]);
    RunSplit(t.h, Start(floor), first, [Advance(0, 1)]);
    steps := first + [Advance(0, 1)];
  }

  /** The promotion has passed both its checks. */
  lemma ThenChecked(t: Story) returns (steps: seq<Step>)
    requires t.Tellable()
    ensures Run(t.h, World(t.Approved(), Some(t.Amounts()), map[]), steps)
            == World(t.Approved(), Some(t.Amounts()), map[0 := t.Promoter(Funded(t.Amounts(), t.Amounts()))])
  {
    var floor, l := Some(t.Amounts()), t.Amounts();
    steps := [BeginPromote(0, 1, t.owner, "k", NoGrant), Advance(0, 1), Advance(0, 1), Advance(0, 1)];
    var trace := [
      World(t.Approved(), floor, map[]), World(t.Approved(), floor, map[0 := t.Promoter(Asked)]),
      World(t.Approved(), floor, map[0 := t.Promoter(Unpromoted)]),
      World(t.Approved(), floor, map[0 := t.Promoter(Current)]),
      World(t.Approved(), floor, map[0 := t.Promoter(Funded(l, l))])];
    assert Apply(t.h, trace[0], steps[0]) == trace[1];
    assert Apply(t.h, trace[1], steps[1]) == trace[2];
    assert Apply(t.h, trace[2], steps[2]) == trace[3];
    assert Apply(t.h, trace[3], steps[3]) == trace[4];
    FollowTrace(t.h, trace, steps);
  }

  lemma CheckedFromStart(t: Story) returns (steps: seq<Step>)
    requires t.Tellable()
    ensures Run(t.h, Start(Some(t.Amounts())), steps)
            == World(t.Approved(), Some(t.Amounts()), map[0 := t.Promoter(Funded(t.Amounts(), t.Amounts()))])
  {
    var first := ApprovedFirst(t);
    var rest := ThenChecked(t);
    RunSplit(t.h, Start(Some(t.Amounts())), first, rest);
    steps := first + rest;
  }

  lemma Launches(t: Story, db: Records, floor: Option<Limits>)
    requires t.Tellable() && db.roots == map[] && db.budgets == map[]
    requires 1 in db.approvals && db.approvals[1] == t.Given() && 1 in db.proposals && db.proposals[1] == t.Drafted()
    ensures var key := t.h.submitKey(1, t.Given().hash).value;
            var l := t.Amounts();
            var w := Apply(t.h, World(db, floor, map[0 := t.Promoter(Funded(l, l))]), Advance(0, 1));
            && key in w.db.roots
            && w.db.roots[key].latest == Leads(db, 1) && w.db.roots[key].funded == Admits(floor, l)
  {
  }

  /** From an empty store: a proposal is drafted, reviewed and approved, its promotion passes the latest-revision
      check, the proposal is revised, and the superseded revision is launched all the same. */
  lemma StaleRevisionCanLaunch(t: Story) returns (steps: seq<Step>, key: string)
    requires t.Tellable()
    ensures var db := Run(t.h, Start(Some(t.Amounts())), steps).db;
            key in db.roots && !db.roots[key].latest
  {
    var floor, l := Some(t.Amounts()), t.Amounts();
    var first := CheckedFromStart(t);
    var rest := [Revise(1, 2, t.content, t.Drafted().hash), Advance(0, 1)];
    key := t.h.submitKey(1, t.Given().hash).value;
    var w := World(t.Approved(), floor, map[0 := t.Promoter(Funded(l, l))]);
    var revised := World(t.Superseded(), floor, map[0 := t.Promoter(Funded(l, l))]);
    assert Apply(t.h, w, rest[0]) == revised;
    Launches(t, t.Superseded(), floor);
    FollowTrace(t.h, [w, revised, Apply(t.h, revised, rest[1])], rest);
    RunSplit(t.h, Start(floor), first, rest);
    steps := first + rest;
  }

  /** From an empty store, for any floor the approved budget does not reach: the host raises its floor to it after the
      promotion's check, and the budget is launched below it all the same. */
  lemma UnderfundedCanLaunch(t: Story, raised: Limits) returns (steps: seq<Step>, key: string)
    requires t.Tellable() && raised.Valid() && !Feasible(t.Amounts(), raised)
    ensures var w := Run(t.h, Start(Some(t.Amounts())), steps);
            && w.floor == Some(raised) && key in w.db.roots && w.db.roots[key].latest && !w.db.roots[key].funded
            && Feasible(w.db.roots[key].limits, w.db.roots[key].floor) && !Feasible(w.db.roots[key].limits, raised)
  {
    var floor, l := Some(t.Amounts()), t.Amounts();
    var first := CheckedFromStart(t);
    var rest := [SetFloor(Some(raised)), Advance(0, 1)];
    key := t.h.submitKey(1, t.Given().hash).value;
    var w := World(t.Approved(), floor, map[0 := t.Promoter(Funded(l, l))]);
    var later := w.(floor := Some(raised));
    Launches(t, t.Approved(), Some(raised));
    FollowTrace(t.h, [w, later, Apply(t.h, later, rest[1])], rest);
    RunSplit(t.h, Start(floor), first, rest);
    steps := first + rest;
  }
}
