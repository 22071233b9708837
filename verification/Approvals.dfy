/** Approval requests as durable state, and every run of request, decide, consume, cancel, expire and
    evaluate over them (internal/authorization/service.go, its Store and the store's transactions). */
module Approvals {
  import opened Prelude
  import opened Policy

  /** owner, revision and matrixHash are what the deciding transaction read from the registry; a rejection reads
      no revision. */
  datatype Decision = Decision(id: nat, approve: bool, role: string, owner: string, revision: int, matrixHash: string)

  datatype Use = Use(id: nat, role: string, digest: string)

  /** Service.Evaluate between its policy evaluation and its consumption of the approval. */
  datatype Call = Call(question: Question, id: nat, mode: string, revisionSeen: int, hashSeen: string)

  /** An answer "allowed by approval": the number of decisions already recorded, whether it recorded the use itself, and
      the registry at that moment. */
  datatype Permit = Permit(call: Call, decisionsBefore: nat, first: bool, now: Registry)

  datatype World = World(
    registry: Registry, requests: map<nat, Request>, keys: map<string, nat>, nextId: nat,
    decisions: seq<Decision>, uses: seq<Use>, calls: map<nat, Call>, permits: seq<Permit>)

  datatype Error =
    | NotFound | WrongOrganization | InvalidTransition | RevisionChanged | RoleMissing | RoleUnfit
    | NotOwner | NotAllowed | NotRequired | IdempotencyConflict | RegistryUnavailable

  datatype Reply = Settled(id: nat, reused: bool) | Objected(reason: Reason) | Failed(error: Error)

  // ---------------------------------------------------------------------------------------------
  // The transition relation

  predicate CanTransition(from: Status, to: Status) {
    match from
    case Pending => to == Approved || to == Rejected || to == Cancelled || to == Expired
    case Approved => to == Consumed || to == Cancelled || to == Expired
    case _ => false
  }

  predicate Terminal(s: Status) { s == Rejected || s == Cancelled || s == Expired || s == Consumed }

  // ---------------------------------------------------------------------------------------------
  // The transactions

  function Create(w: World, r: Request): (World, Reply) {
    if w.registry.organization.None? || w.registry.revision.None? then (w, Failed(RegistryUnavailable))
    else
      var org, rev := w.registry.organization.value, w.registry.revision.value;
      var role := Find(w.registry.roles, r.question.actor);
      if org.retired || org.currentRevision != r.question.revision then (w, Failed(RevisionChanged))
      else if rev.id != r.question.revision || rev.matrixHash != r.matrixHash then (w, Failed(RevisionChanged))
      else if role.None? then (w, Failed(RoleMissing))
      else if role.value.retired || !role.value.enabled || (!role.value.executable && role.value.id != org.owner) then
        (w, Failed(RoleUnfit))
      else if r.key !in w.keys then
        (w.(requests := w.requests[w.nextId := r.(status := Pending)], keys := w.keys[r.key := w.nextId],
            nextId := w.nextId + 1),
         Settled(w.nextId, false))
      else if w.keys[r.key] in w.requests && w.requests[w.keys[r.key]].hash == r.hash then
        (w, Settled(w.keys[r.key], true))
      else (w, Failed(IdempotencyConflict))
  }

  function Move(w: World, id: nat, to: Status): World
    requires id in w.requests
  {
    w.(requests := w.requests[id := w.requests[id].(status := to)])
  }

  function Ruled(w: World, id: nat, to: Status, d: Decision): World
    requires id in w.requests
  {
    Move(w, id, to).(decisions := w.decisions + [d])
  }

  function Decide(a: Authorizer, w: World, id: nat, actor: string, approve: bool, now: int): (World, Reply) {
    if id !in w.requests then (w, Failed(NotFound))
    else
      var r := w.requests[id];
      if r.question.organization != a.organization then (w, Failed(WrongOrganization))
      else if r.status != Pending then (w, Failed(InvalidTransition))
      else if now >= r.expiresAt then (Move(w, id, Expired), Objected(ApprovalExpired))
      else if w.registry.organization.None? then (w, Failed(RegistryUnavailable))
      else
        var org, role := w.registry.organization.value, Find(w.registry.roles, actor);
        if role.None? then (w, Failed(RoleMissing))
        else if role.value.id != org.owner || role.value.retired || !role.value.enabled then (w, Failed(NotOwner))
        else if !approve then
          (Ruled(w, id, Rejected, Decision(id, false, role.value.id, org.owner, 0, "")), Settled(id, false))
        else if w.registry.revision.None? then (w, Failed(RegistryUnavailable))
        else
          var rev := w.registry.revision.value;
          var objection := Drift(a, org, rev, Find(w.registry.roles, r.question.actor), r);
          if objection.Some? then (w, Objected(objection.value))
          else (Ruled(w, id, Approved, Decision(id, true, role.value.id, org.owner, rev.id, rev.matrixHash)),
                Settled(id, false))
  }

  function Consume(a: Authorizer, w: World, c: Command, now: int): (World, Reply) {
    if c.id !in w.requests then (w, Failed(NotFound))
    else
      var r := w.requests[c.id];
      if r.question.organization != a.organization then (w, Failed(WrongOrganization))
      else
        match r.status
        case Consumed =>
          if Use(c.id, c.question.actor, c.question.digest) in w.uses && Scope(r, c) then (w, Settled(c.id, true))
          else (w, Objected(ApprovalConsumed))
        case Pending => (w, Objected(ApprovalPending))
        case Rejected => (w, Objected(ApprovalRejected))
        case Cancelled => (w, Objected(ApprovalCancelled))
        case Expired => (w, Objected(ApprovalExpired))
        case Approved => ConsumeApproved(a, w, c, now)
  }

  function ConsumeApproved(a: Authorizer, w: World, c: Command, now: int): (World, Reply)
    requires c.id in w.requests
  {
    var r := w.requests[c.id];
    if now >= r.expiresAt then (Move(w, c.id, Expired), Objected(ApprovalExpired))
    else if w.registry.organization.None? || w.registry.revision.None? then (w, Failed(RegistryUnavailable))
    else
      var objection := Objection(a, w.registry.organization.value, w.registry.revision.value,
                                 Find(w.registry.roles, r.question.actor), r, c);
      if objection.Some? then (w, Objected(objection.value))
      else (Move(w, c.id, Consumed).(uses := w.uses + [Use(c.id, c.question.actor, c.question.digest)]),
            Settled(c.id, false))
  }

  function Cancel(a: Authorizer, w: World, id: nat, actor: string): (World, Reply) {
    if id !in w.requests then (w, Failed(NotFound))
    else
      var r := w.requests[id];
      if r.question.organization != a.organization then (w, Failed(WrongOrganization))
      else if r.status == Cancelled then (w, Settled(id, true))
      else if !CanTransition(r.status, Cancelled) then (w, Failed(InvalidTransition))
      else if w.registry.organization.None? then (w, Failed(RegistryUnavailable))
      else
        var role := Find(w.registry.roles, actor);
        if role.None? then (w, Failed(RoleMissing))
        else if role.value.retired || !role.value.enabled
                || (role.value.id != r.question.actor && role.value.id != w.registry.organization.value.owner) then
          (w, Failed(NotAllowed))
        else (Move(w, id, Cancelled), Settled(id, false))
  }

  predicate Due(a: Authorizer, w: World, id: nat, now: int) {
    id in w.requests && w.requests[id].question.organization == a.organization && w.requests[id].expiresAt <= now
    && (w.requests[id].status == Pending || w.requests[id].status == Approved)
  }

  /** The batch sweep over the due requests it could lock. */
  function Expire(a: Authorizer, w: World, ids: seq<nat>, now: int): World
    decreases |ids|
  {
    if ids == [] then w
    else Expire(a, if Due(a, w, ids[0], now) then Move(w, ids[0], Expired) else w, ids[1..], now)
  }

  // ---------------------------------------------------------------------------------------------
  // Runs

  datatype Step =
    | Registered(registry: Registry)
    | Requested(request: Request)
    | Decided(id: nat, actor: string, approve: bool, now: int)
    | Used(command: Command, now: int)
    | Withdrawn(id: nat, actor: string)
    | Swept(ids: seq<nat>, now: int)
    | Asked(call: nat, question: Question, id: nat)
    | Answered(call: nat, now: int)
    | Abandoned(call: nat)

  /** What input validation leaves no doubt about: nothing is blank. */
  predicate Presentable(q: Question) {
    q.revision > 0 && q.organization != "" && q.actor != "" && q.capability != "" && q.resourceType != ""
    && q.resource != "" && q.digest != ""
  }

  function Ask(a: Authorizer, w: World, call: nat, q: Question, id: nat): World {
    var base := Evaluate(a, w.registry, q);
    if !Presentable(q) || base.effect != ApprovalRequired || w.registry.revision.None? then w
    else w.(calls := w.calls[call := Call(q, id, base.mode, w.registry.revision.value.id,
                                          w.registry.revision.value.matrixHash)])
  }

  function CommandOf(a: Authorizer, c: Call): Command { Command(c.id, c.question, a.matrixHash, c.mode) }

  function PermitOf(w: World, c: Call, reply: Reply): Permit {
    Permit(c, |w.decisions|, reply.Settled? && !reply.reused, w.registry)
  }

  function Answer(a: Authorizer, w: World, call: nat, now: int): World {
    if call !in w.calls then w
    else
      var (next, reply) := Consume(a, w, CommandOf(a, w.calls[call]), now);
      next.(calls := w.calls - {call},
            permits := if reply.Settled? then w.permits + [PermitOf(w, w.calls[call], reply)] else w.permits)
  }

  function Apply(a: Authorizer, w: World, step: Step): World {
    match step
    case Registered(registry) => w.(registry := registry)
    case Requested(r) => Create(w, r).0
    case Decided(id, actor, approve, now) => Decide(a, w, id, actor, approve, now).0
    case Used(c, now) => Consume(a, w, c, now).0
    case Withdrawn(id, actor) => Cancel(a, w, id, actor).0
    case Swept(ids, now) => Expire(a, w, ids, now)
    case Asked(call, q, id) => Ask(a, w, call, q, id)
    case Answered(call, now) => Answer(a, w, call, now)
    case Abandoned(call) => w.(calls := w.calls - {call})
  }

  function Run(a: Authorizer, w: World, steps: seq<Step>): World
    decreases |steps|
  {
    if steps == [] then w else Run(a, Apply(a, w, steps[0]), steps[1..])
  }

  function Initial(registry: Registry): World { World(registry, map[], map[], 1, [], [], map[], []) }

  // ---------------------------------------------------------------------------------------------
  // Statuses follow the relation

  /** w2 follows w1: nothing is lost, and requests differ only by an allowed change of status. */
  ghost predicate Follows(w1: World, w2: World, id: nat) {
    id in w1.requests ==>
      && id in w2.requests
      && w2.requests[id] == w1.requests[id].(status := w2.requests[id].status)
      && (w2.requests[id].status == w1.requests[id].status
          || CanTransition(w1.requests[id].status, w2.requests[id].status))
  }

  lemma {:induction false} ExpireFollows(a: Authorizer, w: World, ids: seq<nat>, now: int, id: nat)
    ensures Follows(w, Expire(a, w, ids, now), id)
    decreases |ids|
  {
    if ids != [] {
      ExpireFollows(a, if Due(a, w, ids[0], now) then Move(w, ids[0], Expired) else w, ids[1..], now, id);
    }
  }

  lemma ConsumeFollows(a: Authorizer, w: World, c: Command, now: int, id: nat)
    ensures Follows(w, Consume(a, w, c, now).0, id)
  {
  }

  lemma DecideFollows(a: Authorizer, w: World, d: nat, actor: string, approve: bool, now: int, id: nat)
    ensures Follows(w, Decide(a, w, d, actor, approve, now).0, id)
  {
  }

  /** Every step moves every request along the transition relation or leaves its status alone, and never
      touches what was asked for. */
  lemma StepFollows(a: Authorizer, w: World, step: Step, id: nat)
    requires Numbered(w)
    ensures Follows(w, Apply(a, w, step), id)
  {
    match step
    case Swept(ids, now) => ExpireFollows(a, w, ids, now, id);
    case Answered(call, now) => if call in w.calls { ConsumeFollows(a, w, CommandOf(a, w.calls[call]), now, id); }
    case Used(c, now) => ConsumeFollows(a, w, c, now, id);
    case Decided(d, actor, approve, now) => DecideFollows(a, w, d, actor, approve, now, id);
    case _ =>
  }

  /** A terminal status is final over every continuation of every run. */
  lemma {:induction false} TerminalIsFinal(a: Authorizer, w: World, steps: seq<Step>, id: nat)
    requires Inv(a, w) && IsSha256(a.matrixHash)
    requires id in w.requests && Terminal(w.requests[id].status)
    ensures id in Run(a, w, steps).requests && Run(a, w, steps).requests[id] == w.requests[id]
    decreases |steps|
  {
    if steps != [] {
      StepFollows(a, w, steps[0], id);
      ApplyKeeps(a, w, steps[0]);
      TerminalIsFinal(a, Apply(a, w, steps[0]), steps[1..], id);
    }
  }

  // ---------------------------------------------------------------------------------------------
  // The invariant

  ghost predicate Numbered(w: World) {
    && (forall id | id in w.requests :: id < w.nextId)
    && (forall k | k in w.keys :: w.keys[k] in w.requests && w.requests[w.keys[k]].key == k)
    && (forall id | id in w.requests :: w.requests[id].key in w.keys && w.keys[w.requests[id].key] == id)
  }

  /** An approval by the owner of the day, of this request, under the revision and matrix it was made for. */
  predicate Approves(d: Decision, id: nat, r: Request) {
    d.id == id && d.approve && d.role == d.owner && d.revision == r.question.revision && d.matrixHash == r.matrixHash
  }

  ghost predicate ApprovedWithin(decisions: seq<Decision>, bound: nat, id: nat, r: Request) {
    exists i | 0 <= i < |decisions| && i < bound :: Approves(decisions[i], id, r)
  }

  ghost predicate DecisionsOk(w: World) {
    && (forall i | 0 <= i < |w.decisions| ::
          w.decisions[i].id in w.requests && w.requests[w.decisions[i].id].status != Pending)
    && (forall i, j | 0 <= i < j < |w.decisions| :: w.decisions[i].id != w.decisions[j].id)
    && (forall id | id in w.requests && w.requests[id].status in {Approved, Consumed} ::
          ApprovedWithin(w.decisions, |w.decisions|, id, w.requests[id]))
  }

  ghost predicate UsesOk(w: World) {
    && (forall i | 0 <= i < |w.uses| ::
          && w.uses[i].id in w.requests
          && w.requests[w.uses[i].id].status == Consumed
          && w.uses[i].role == w.requests[w.uses[i].id].question.actor
          && w.uses[i].digest == w.requests[w.uses[i].id].question.digest)
    && (forall i, j | 0 <= i < j < |w.uses| :: w.uses[i].id != w.uses[j].id)
    && (forall id | id in w.requests && w.requests[id].status == Consumed ::
          Use(id, w.requests[id].question.actor, w.requests[id].question.digest) in w.uses)
  }

  predicate CallOk(a: Authorizer, c: Call) {
    && Presentable(c.question) && c.mode != ""
    && c.question.organization == a.organization
    && c.revisionSeen == c.question.revision && c.hashSeen == a.matrixHash
  }

  /** The question's revision and matrix are the registry's current ones. */
  predicate CurrentIn(a: Authorizer, registry: Registry, q: Question) {
    && registry.organization.Some? && registry.revision.Some?
    && registry.organization.value.id == q.organization && !registry.organization.value.retired
    && registry.organization.value.currentRevision == q.revision && registry.revision.value.id == q.revision
    && registry.revision.value.matrixHash == a.matrixHash
  }

  ghost predicate PermitOk(a: Authorizer, w: World, p: Permit) {
    && CallOk(a, p.call) && p.decisionsBefore <= |w.decisions|
    && p.call.id in w.requests
    && var r := w.requests[p.call.id];
    && r.status == Consumed && r.question == p.call.question && r.matrixHash == a.matrixHash && r.mode == p.call.mode
    && ApprovedWithin(w.decisions, p.decisionsBefore, p.call.id, r)
    && (p.first ==> CurrentIn(a, p.now, p.call.question))
  }

  ghost predicate Inv(a: Authorizer, w: World) {
    && Numbered(w) && DecisionsOk(w) && UsesOk(w)
    && (forall k | k in w.calls :: CallOk(a, w.calls[k]))
    && (forall i | 0 <= i < |w.permits| :: PermitOk(a, w, w.permits[i]))
  }

  // ---------------------------------------------------------------------------------------------
  // Every step keeps it

  lemma PermitKept(a: Authorizer, w1: World, w2: World, p: Permit)
    requires PermitOk(a, w1, p) && Follows(w1, w2, p.call.id) && w1.decisions <= w2.decisions
    ensures PermitOk(a, w2, p)
  {
    var r := w1.requests[p.call.id];
    var i :| 0 <= i < |w1.decisions| && i < p.decisionsBefore && Approves(w1.decisions[i], p.call.id, r);
    assert w2.decisions[i] == w1.decisions[i];
  }

  lemma PermitsKept(a: Authorizer, w1: World, w2: World)
    requires forall i | 0 <= i < |w1.permits| :: PermitOk(a, w1, w1.permits[i])
    requires forall id :: Follows(w1, w2, id)
    requires w1.decisions <= w2.decisions && w2.permits == w1.permits
    ensures forall i | 0 <= i < |w2.permits| :: PermitOk(a, w2, w2.permits[i])
  {
    forall i | 0 <= i < |w2.permits| ensures PermitOk(a, w2, w2.permits[i]) {
      PermitKept(a, w1, w2, w1.permits[i]);
    }
  }

  lemma MoveNumbered(w: World, id: nat, to: Status)
    requires Numbered(w) && id in w.requests
    ensures Numbered(Move(w, id, to))
  {
  }

  /** Ending a request that is pending or approved. */
  lemma EndKeeps(a: Authorizer, w: World, id: nat, to: Status)
    requires Inv(a, w) && id in w.requests && CanTransition(w.requests[id].status, to)
             && (to == Expired || to == Cancelled)
    ensures Inv(a, Move(w, id, to))
  {
    var t := Move(w, id, to);
    MoveNumbered(w, id, to);
    PermitsKept(a, w, t);
    assert forall x | x in w.requests && x != id :: t.requests[x] == w.requests[x];
    assert DecisionsOk(t);
  }

  lemma {:induction false} ExpireKeeps(a: Authorizer, w: World, ids: seq<nat>, now: int)
    requires Inv(a, w)
    ensures Inv(a, Expire(a, w, ids, now))
    decreases |ids|
  {
    if ids != [] {
      if Due(a, w, ids[0], now) {
        EndKeeps(a, w, ids[0], Expired);
        ExpireKeeps(a, Move(w, ids[0], Expired), ids[1..], now);
      } else {
        ExpireKeeps(a, w, ids[1..], now);
      }
    }
  }

  lemma CreateKeeps(a: Authorizer, w: World, r: Request)
    requires Inv(a, w)
    ensures Inv(a, Create(w, r).0)
  {
    var t := Create(w, r).0;
    if t != w {
      assert w.nextId !in w.requests;
      assert forall x | x in w.requests :: t.requests[x] == w.requests[x];
      PermitsKept(a, w, t);
      assert DecisionsOk(t);
      assert UsesOk(t);
    }
  }

  lemma RuledDecisions(w: World, id: nat, to: Status, d: Decision)
    requires DecisionsOk(w) && id in w.requests && w.requests[id].status == Pending
    requires d.id == id && (to == Approved ==> Approves(d, id, w.requests[id])) && (to == Approved || to == Rejected)
    ensures DecisionsOk(Move(w, id, to).(decisions := w.decisions + [d]))
  {
    var t := Move(w, id, to).(decisions := w.decisions + [d]);
    assert t.decisions[|w.decisions|] == d;
    assert forall i | 0 <= i < |w.decisions| :: t.decisions[i] == w.decisions[i] && w.decisions[i].id != id;
    forall x | x in t.requests && t.requests[x].status in {Approved, Consumed}
      ensures ApprovedWithin(t.decisions, |t.decisions|, x, t.requests[x])
    {
      if x == id {
        assert Approves(t.decisions[|w.decisions|], id, t.requests[id]);
      } else {
        var i :| 0 <= i < |w.decisions| && Approves(w.decisions[i], x, w.requests[x]);
        assert Approves(t.decisions[i], x, t.requests[x]);
      }
    }
  }

  lemma RuledKeeps(a: Authorizer, w: World, id: nat, to: Status, d: Decision)
    requires Inv(a, w) && id in w.requests && w.requests[id].status == Pending
    requires d.id == id && (to == Approved ==> Approves(d, id, w.requests[id])) && (to == Approved || to == Rejected)
    ensures Inv(a, Ruled(w, id, to, d))
  {
    var t := Ruled(w, id, to, d);
    RuledDecisions(w, id, to, d);
    MoveNumbered(w, id, to);
    PermitsKept(a, w, t);
    assert UsesOk(t);
  }

  /** The only three things a decision transaction can do. */
  lemma DecideShape(a: Authorizer, w: World, id: nat, actor: string, approve: bool, now: int) returns (d: Decision)
    ensures var t := Decide(a, w, id, actor, approve, now).0;
            || t == w
            || (&& id in w.requests && w.requests[id].status == Pending
                && (|| t == Move(w, id, Expired)
                    || (&& d.id == id && (approve ==> Approves(d, id, w.requests[id]))
                        && t == Ruled(w, id, if approve then Approved else Rejected, d))))
  {
    var t := Decide(a, w, id, actor, approve, now).0;
    d := if |t.decisions| > |w.decisions| then t.decisions[|w.decisions|] else Decision(id, false, "", "", 0, "");
  }

  lemma DecideKeeps(a: Authorizer, w: World, id: nat, actor: string, approve: bool, now: int)
    requires Inv(a, w)
    ensures Inv(a, Decide(a, w, id, actor, approve, now).0)
  {
    var d := DecideShape(a, w, id, actor, approve, now);
    if id in w.requests && w.requests[id].status == Pending {
      EndKeeps(a, w, id, Expired);
      if d.id == id && (approve ==> Approves(d, id, w.requests[id])) {
        RuledKeeps(a, w, id, if approve then Approved else Rejected, d);
      }
    }
  }

  lemma UsedOnce(w: World, id: nat, u: Use)
    requires UsesOk(w) && id in w.requests && w.requests[id].status == Approved
    requires u == Use(id, w.requests[id].question.actor, w.requests[id].question.digest)
    ensures UsesOk(Move(w, id, Consumed).(uses := w.uses + [u]))
  {
    var t := Move(w, id, Consumed).(uses := w.uses + [u]);
    assert t.uses[|w.uses|] == u;
    assert forall i | 0 <= i < |w.uses| :: t.uses[i] == w.uses[i] && w.uses[i].id != id;
    assert forall x | x in w.uses :: x in t.uses;
  }

  function Spent(w: World, id: nat): World
    requires id in w.requests
  {
    Move(w, id, Consumed).(uses := w.uses + [Use(id, w.requests[id].question.actor, w.requests[id].question.digest)])
  }

  lemma SpentKeeps(a: Authorizer, w: World, id: nat)
    requires Inv(a, w) && id in w.requests && w.requests[id].status == Approved
    ensures Inv(a, Spent(w, id))
  {
    var t := Spent(w, id);
    UsedOnce(w, id, Use(id, w.requests[id].question.actor, w.requests[id].question.digest));
    MoveNumbered(w, id, Consumed);
    PermitsKept(a, w, t);
    SpentDecisions(w, id);
  }

  lemma SpentDecisions(w: World, id: nat)
    requires DecisionsOk(w) && id in w.requests && w.requests[id].status == Approved
    ensures DecisionsOk(Spent(w, id))
  {
    var t := Spent(w, id);
    forall x | x in t.requests && t.requests[x].status in {Approved, Consumed}
      ensures ApprovedWithin(t.decisions, |t.decisions|, x, t.requests[x])
    {
      var i :| 0 <= i < |w.decisions| && Approves(w.decisions[i], x, w.requests[x]);
      assert Approves(t.decisions[i], x, t.requests[x]);
    }
  }

  /** The only three things a consumption can do; it settles on a new use, or on one already there. */
  lemma ConsumeShape(a: Authorizer, w: World, c: Command, now: int)
    ensures var (t, reply) := Consume(a, w, c, now);
            && (t != w ==>
                  && c.id in w.requests && w.requests[c.id].status == Approved
                  && (t == Move(w, c.id, Expired) || t == Spent(w, c.id)))
            && (reply.Settled? ==>
                  && c.id in w.requests && Scope(w.requests[c.id], c)
                  && (|| (t == w && w.requests[c.id].status == Consumed
                          && Use(c.id, c.question.actor, c.question.digest) in w.uses)
                      || (&& t == Spent(w, c.id) && w.requests[c.id].status == Approved
                          && c.question.actor == w.requests[c.id].question.actor
                          && c.question.digest == w.requests[c.id].question.digest)))
  {
  }

  lemma ConsumeKeeps(a: Authorizer, w: World, c: Command, now: int)
    requires Inv(a, w)
    ensures Inv(a, Consume(a, w, c, now).0)
  {
    ConsumeShape(a, w, c, now);
    if c.id in w.requests && w.requests[c.id].status == Approved {
      EndKeeps(a, w, c.id, Expired);
      SpentKeeps(a, w, c.id);
    }
  }

  /** A settled consumption for a fully specified question is for exactly the request's own question. */
  lemma SettledMatches(a: Authorizer, w: World, call: Call, now: int)
    requires Inv(a, w) && CallOk(a, call) && IsSha256(a.matrixHash)
    requires Consume(a, w, CommandOf(a, call), now).1.Settled?
    ensures var t := Consume(a, w, CommandOf(a, call), now).0;
            && call.id in t.requests && t.requests[call.id].status == Consumed
            && t.requests[call.id].question == call.question
            && t.requests[call.id].matrixHash == a.matrixHash && t.requests[call.id].mode == call.mode
  {
    var c := CommandOf(a, call);
    ConsumeShape(a, w, c, now);
    var r := w.requests[c.id];
    assert a.matrixHash != "";
    if r.status == Consumed {
      var u := Use(c.id, c.question.actor, c.question.digest);
      var i :| 0 <= i < |w.uses| && w.uses[i] == u;
      assert u.role == r.question.actor && u.digest == r.question.digest;
    }
    assert r.question == call.question;
  }

  lemma Permitted(a: Authorizer, w: World, p: Permit)
    requires Inv(a, w) && CallOk(a, p.call) && p.call.id in w.requests && p.decisionsBefore == |w.decisions|
    requires w.requests[p.call.id].status == Consumed && w.requests[p.call.id].question == p.call.question
    requires w.requests[p.call.id].matrixHash == a.matrixHash && w.requests[p.call.id].mode == p.call.mode
    requires p.first ==> CurrentIn(a, p.now, p.call.question)
    ensures Inv(a, w.(permits := w.permits + [p]))
  {
    var t := w.(permits := w.permits + [p]);
    assert ApprovedWithin(w.decisions, |w.decisions|, p.call.id, w.requests[p.call.id]);
    forall i | 0 <= i < |t.permits| ensures PermitOk(a, t, t.permits[i]) {
      PermitKept(a, w, t, t.permits[i]);
    }
  }

  /** A consumption that records the use finds the request's revision and matrix current. */
  lemma FirstUseFindsCurrent(a: Authorizer, w: World, c: Command, now: int)
    requires Consume(a, w, c, now).1 == Settled(c.id, false)
    ensures c.id in w.requests && CurrentIn(a, w.registry, w.requests[c.id].question)
  {
  }

  lemma FirstAnswerIsCurrent(a: Authorizer, w: World, c: Call, now: int)
    requires Inv(a, w) && CallOk(a, c) && IsSha256(a.matrixHash)
    requires Consume(a, w, CommandOf(a, c), now).1.Settled?
    ensures PermitOf(w, c, Consume(a, w, CommandOf(a, c), now).1).first ==> CurrentIn(a, w.registry, c.question)
  {
    var (t, reply) := Consume(a, w, CommandOf(a, c), now);
    SettledMatches(a, w, c, now);
    ConsumeFollows(a, w, CommandOf(a, c), now, c.id);
    if !reply.reused { FirstUseFindsCurrent(a, w, CommandOf(a, c), now); }
  }

  lemma FewerCalls(a: Authorizer, w: World, call: nat)
    requires Inv(a, w)
    ensures Inv(a, w.(calls := w.calls - {call}))
  {
    PermitsKept(a, w, w.(calls := w.calls - {call}));
  }

  lemma AnswerKeeps(a: Authorizer, w: World, call: nat, now: int)
    requires Inv(a, w) && IsSha256(a.matrixHash)
    ensures Inv(a, Answer(a, w, call, now))
  {
    if call in w.calls {
      var c := w.calls[call];
      var (t, reply) := Consume(a, w, CommandOf(a, c), now);
      ConsumeKeeps(a, w, CommandOf(a, c), now);
      ConsumeShape(a, w, CommandOf(a, c), now);
      FewerCalls(a, t, call);
      if reply.Settled? {
        SettledMatches(a, w, c, now);
        FirstAnswerIsCurrent(a, w, c, now);
        Permitted(a, t.(calls := t.calls - {call}), PermitOf(w, c, reply));
      }
    }
  }

  lemma AskKeeps(a: Authorizer, w: World, call: nat, q: Question, id: nat)
    requires Inv(a, w)
    ensures Inv(a, Ask(a, w, call, q, id))
  {
    var t := Ask(a, w, call, q, id);
    PermitsKept(a, w, t);
    if t != w { assert CallOk(a, t.calls[call]); }
  }

  lemma RegisteredKeeps(a: Authorizer, w: World, registry: Registry)
    requires Inv(a, w)
    ensures Inv(a, w.(registry := registry))
  {
    PermitsKept(a, w, w.(registry := registry));
  }

  lemma CancelKeeps(a: Authorizer, w: World, id: nat, actor: string)
    requires Inv(a, w)
    ensures Inv(a, Cancel(a, w, id, actor).0)
  {
    if Cancel(a, w, id, actor).0 != w { EndKeeps(a, w, id, Cancelled); }
  }

  lemma ApplyKeeps(a: Authorizer, w: World, step: Step)
    requires Inv(a, w) && IsSha256(a.matrixHash)
    ensures Inv(a, Apply(a, w, step))
  {
    match step
    case Registered(registry) => RegisteredKeeps(a, w, registry);
    case Requested(r) => CreateKeeps(a, w, r);
    case Decided(id, actor, approve, now) => DecideKeeps(a, w, id, actor, approve, now);
    case Used(c, now) => ConsumeKeeps(a, w, c, now);
    case Withdrawn(id, actor) => CancelKeeps(a, w, id, actor);
    case Swept(ids, now) => ExpireKeeps(a, w, ids, now);
    case Asked(call, q, id) => AskKeeps(a, w, call, q, id);
    case Answered(call, now) => AnswerKeeps(a, w, call, now);
    case Abandoned(call) => FewerCalls(a, w, call);
  }

  lemma {:induction false} RunKeeps(a: Authorizer, w: World, steps: seq<Step>)
    requires Inv(a, w) && IsSha256(a.matrixHash)
    ensures Inv(a, Run(a, w, steps))
    decreases |steps|
  {
    if steps != [] {
      ApplyKeeps(a, w, steps[0]);
      RunKeeps(a, Apply(a, w, steps[0]), steps[1..]);
    }
  }

  // ---------------------------------------------------------------------------------------------
  // What every run guarantees

  /** In every run, every "allowed by approval" names a request for exactly the question asked, under the
      revision and matrix hash the evaluation found current, approved before the answer by a decision of the
      role that owned the organization at that time. If the answer recorded the use, they were still current. */
  lemma AllowHasOwnerApproval(a: Authorizer, registry: Registry, steps: seq<Step>, i: nat)
    requires Built(a) && i < |Run(a, Initial(registry), steps).permits|
    ensures var w := Run(a, Initial(registry), steps);
            var p := w.permits[i];
            && p.call.id in w.requests
            && w.requests[p.call.id].question == p.call.question
            && p.call.revisionSeen == p.call.question.revision && p.call.hashSeen == a.matrixHash
            && (p.first ==> CurrentIn(a, p.now, p.call.question))
            && exists d | 0 <= d < p.decisionsBefore <= |w.decisions| ::
                 && w.decisions[d].id == p.call.id && w.decisions[d].approve
                 && w.decisions[d].role == w.decisions[d].owner
                 && w.decisions[d].revision == p.call.question.revision
                 && w.decisions[d].matrixHash == a.matrixHash
  {
    RunKeeps(a, Initial(registry), steps);
    var w := Run(a, Initial(registry), steps);
    var p := w.permits[i];
    assert PermitOk(a, w, p);
    var d :| 0 <= d < |w.decisions| && d < p.decisionsBefore
        && Approves(w.decisions[d], p.call.id, w.requests[p.call.id]);
  }

  /** In every run, a request has at most one decision and at most one use, and has a use exactly when it is
      consumed; the use is by its requester and for its action. */
  lemma AtMostOneUse(a: Authorizer, registry: Registry, steps: seq<Step>)
    requires Built(a)
    ensures var w := Run(a, Initial(registry), steps);
            && (forall i, j | 0 <= i < j < |w.uses| :: w.uses[i].id != w.uses[j].id)
            && (forall i, j | 0 <= i < j < |w.decisions| :: w.decisions[i].id != w.decisions[j].id)
            && (forall id | id in w.requests ::
                  w.requests[id].status == Consumed
                  <==> Use(id, w.requests[id].question.actor, w.requests[id].question.digest) in w.uses)
  {
    RunKeeps(a, Initial(registry), steps);
  }

  /** A first use is only ever recorded while the request is unexpired and a fresh evaluation of its question
      still demands this approval. */
  lemma FirstUseIsCurrent(a: Authorizer, w: World, c: Command, now: int)
    requires Inv(a, w) && Built(a)
    requires forall role | role in w.registry.roles :: w.registry.roles[role].organization in {"", a.organization}
    requires Consume(a, w, c, now).0.uses != w.uses
    ensures c.id in w.requests && now < w.requests[c.id].expiresAt
    ensures Evaluate(a, w.registry, w.requests[c.id].question)
            == Evaluation(ApprovalRequired, ApprovalMissing, w.requests[c.id].mode)
  {
    ConsumptionImpliesApprovalRequired(a, w.registry, w.requests[c.id], c);
  }

  /** One use can back any number of answers: once a command has settled, the same command settles again at any
      later time and under any registry, writing nothing. */
  lemma SettledCommandSettlesAgain(a: Authorizer, w: World, c: Command, now: int, later: int, registry: Registry)
    requires Inv(a, w) && Consume(a, w, c, now).1.Settled?
    ensures var t := Consume(a, w, c, now).0.(registry := registry);
            Consume(a, t, c, later) == (t, Settled(c.id, true))
  {
    var r := w.requests[c.id];
    var t := Consume(a, w, c, now).0;
    if r.status == Approved {
      var u := Use(c.id, c.question.actor, c.question.digest);
      assert t.uses[|w.uses|] == u;
    }
  }
}
