/** When each transaction on approval requests succeeds and what exactly it then records, in terms of the request, the
    registry and the caller (internal/authorization/service.go, internal/authorization/postgres). */
module ApprovalLaws {
  import opened Prelude
  import opened Text
  import opened Policy
  import opened Approvals
  import opened ApprovalStore

  /** The transition relation, pair by pair. */
  lemma TransitionsExact(from: Status, to: Status)
    ensures CanTransition(from, to) <==>
            || (from == Pending && (to == Approved || to == Rejected || to == Cancelled || to == Expired))
            || (from == Approved && (to == Consumed || to == Cancelled || to == Expired))
    ensures Terminal(from) <==> forall s: Status :: !CanTransition(from, s)
  {
    assert CanTransition(Pending, Expired) && CanTransition(Approved, Expired);
  }

  // ---------------------------------------------------------------------------------------------
  // Creation

  /** The registry has an organization and a revision, and they are the ones the request was evaluated under. */
  predicate UnderCurrent(registry: Registry, r: Request) {
    && registry.organization.Some? && registry.revision.Some?
    && !registry.organization.value.retired && registry.organization.value.currentRevision == r.question.revision
    && registry.revision.value.id == r.question.revision && registry.revision.value.matrixHash == r.matrixHash
  }

  predicate KnownActor(registry: Registry, actor: string) {
    && registry.organization.Some? && actor in registry.roles
    && var role := registry.roles[actor];
    && !role.retired && role.enabled && (role.executable || role.id == registry.organization.value.owner)
  }

  /** A request is stored, pending, under the next id and its key, if and only if revision and matrix are current, the
      requester may act and the key is new; under a used key the same hash finds the request and another conflicts. */
  lemma CreateExact(w: World, r: Request)
    requires Numbered(w)
    ensures var (t, reply) := Create(w, r);
            if !(UnderCurrent(w.registry, r) && KnownActor(w.registry, r.question.actor)) then reply.Failed? && t == w
            else if r.key !in w.keys then
              && reply == Settled(w.nextId, false)
              && t.requests == w.requests[w.nextId := r.(status := Pending)]
              && t.keys == w.keys[r.key := w.nextId] && t.nextId == w.nextId + 1
              && t == w.(requests := t.requests, keys := t.keys, nextId := t.nextId)
            else
              && t == w
              && reply == if w.requests[w.keys[r.key]].hash == r.hash then Settled(w.keys[r.key], true)
                          else Failed(IdempotencyConflict)
  {
  }

  lemma CreateErrors(w: World, r: Request)
    requires !(UnderCurrent(w.registry, r) && KnownActor(w.registry, r.question.actor))
    ensures Create(w, r).1
            == Failed(if w.registry.organization.None? || w.registry.revision.None? then RegistryUnavailable
                      else if !UnderCurrent(w.registry, r) then RevisionChanged
                      else if r.question.actor !in w.registry.roles then RoleMissing
                      else RoleUnfit)
  {
  }

  /** Service.RequestApproval stores, for the organization and its current revision, exactly what was asked, trimmed,
      if and only if a fresh evaluation of it demands approval; a denial is passed on, and an allow needs none. */
  lemma RequestExact(a: Authorizer, w: World, q: Question, key: string, hash: string, expiresAt: int)
    requires w.registry.organization.Some? && w.registry.organization.value.currentRevision > 0
    ensures var asked := q.(organization := a.organization, revision := w.registry.organization.value.currentRevision);
            var e := Evaluate(a, w.registry, asked);
            var stored := Question(a.organization, asked.revision, Trim(q.actor), q.capability, Trim(q.resourceType),
                                   Trim(q.resource), q.digest);
            Requesting(a, w, q, key, hash, expiresAt)
            == if e.effect == ApprovalRequired && e.mode != ""
               then Create(w, Request(stored, a.matrixHash, e.mode, Trim(key), hash, Pending, expiresAt))
               else (w, if e.effect == Deny then Objected(e.reason) else Failed(NotRequired))
  {
  }

  // ---------------------------------------------------------------------------------------------
  // Decision

  /** The actor is the organization's owner, enabled and not retired. */
  predicate IsOwner(registry: Registry, actor: string) {
    && registry.organization.Some? && actor in registry.roles
    && registry.roles[actor].id == registry.organization.value.owner
    && registry.roles[actor].enabled && !registry.roles[actor].retired
  }

  /** This organization's request, pending and not expired. */
  predicate Decidable(a: Authorizer, w: World, id: nat, now: int) {
    && id in w.requests && w.requests[id].question.organization == a.organization
    && w.requests[id].status == Pending && now < w.requests[id].expiresAt
  }

  /** A request is decided if and only if it is this organization's, pending and unexpired, and the actor owns the
      organization; an approval needs moreover that nothing it was evaluated under has drifted. The one decision
      recorded names the owner and, for an approval, the registry's revision and matrix. A pending request found
      expired is expired; otherwise nothing changes. */
  lemma DecideExact(a: Authorizer, w: World, id: nat, actor: string, approve: bool, now: int)
    ensures var (t, reply) := Decide(a, w, id, actor, approve, now);
            var current := approve ==>
                             && w.registry.organization.Some? && w.registry.revision.Some? && id in w.requests
                             && Drift(a, w.registry.organization.value, w.registry.revision.value,
                                      Find(w.registry.roles, w.requests[id].question.actor), w.requests[id]) == None;
            if Decidable(a, w, id, now) && IsOwner(w.registry, actor) && current then
              var owner, rev := w.registry.organization.value.owner, w.registry.revision;
              && reply == Settled(id, false)
              && t.requests == w.requests[id := w.requests[id].(status := if approve then Approved else Rejected)]
              && t.decisions == w.decisions + [if approve then Decision(id, true, owner, owner, rev.value.id,
                                                                        rev.value.matrixHash)
                                               else Decision(id, false, owner, owner, 0, "")]
              && t == w.(requests := t.requests, decisions := t.decisions)
            else
              && !reply.Settled?
              && t == if && id in w.requests && w.requests[id].question.organization == a.organization
                         && w.requests[id].status == Pending && now >= w.requests[id].expiresAt
                      then w.(requests := w.requests[id := w.requests[id].(status := Expired)]) else w
  {
  }

  lemma DecideErrors(a: Authorizer, w: World, id: nat, actor: string, approve: bool, now: int)
    requires !(Decidable(a, w, id, now) && IsOwner(w.registry, actor))
    ensures var reply := Decide(a, w, id, actor, approve, now).1;
            if id !in w.requests then reply == Failed(NotFound)
            else if w.requests[id].question.organization != a.organization then reply == Failed(WrongOrganization)
            else if w.requests[id].status != Pending then reply == Failed(InvalidTransition)
            else if now >= w.requests[id].expiresAt then reply == Objected(ApprovalExpired)
            else reply == Failed(if w.registry.organization.None? then RegistryUnavailable
                                 else if actor !in w.registry.roles then RoleMissing else NotOwner)
  {
  }

  // ---------------------------------------------------------------------------------------------
  // Consumption

  /** A use is recorded if and only if the request is this organization's, approved and unexpired, and nothing in
      policy or command objects; the request is then consumed. One already consumed settles again, changing nothing,
      if and only if that very use is recorded and the command's filled-in fields match. An approved request found
      expired is expired; otherwise nothing changes. */
  lemma ConsumeExact(a: Authorizer, w: World, c: Command, now: int)
    ensures var (t, reply) := Consume(a, w, c, now);
            var own := c.id in w.requests && w.requests[c.id].question.organization == a.organization;
            var passes := && own && w.requests[c.id].status == Approved && now < w.requests[c.id].expiresAt
                          && w.registry.organization.Some? && w.registry.revision.Some?
                          && Objection(a, w.registry.organization.value, w.registry.revision.value,
                                       Find(w.registry.roles, w.requests[c.id].question.actor), w.requests[c.id], c)
                             == None;
            if passes then
              && reply == Settled(c.id, false)
              && t.requests == w.requests[c.id := w.requests[c.id].(status := Consumed)]
              && t.uses == w.uses + [Use(c.id, c.question.actor, c.question.digest)]
              && t == w.(requests := t.requests, uses := t.uses)
            else if own && w.requests[c.id].status == Approved && now >= w.requests[c.id].expiresAt then
              && reply == Objected(ApprovalExpired)
              && t == w.(requests := w.requests[c.id := w.requests[c.id].(status := Expired)])
            else
              && t == w
              && (reply.Settled? <==>
                    && own && w.requests[c.id].status == Consumed
                    && Use(c.id, c.question.actor, c.question.digest) in w.uses && Matches(w.requests[c.id], c))
              && (reply.Settled? ==> reply == Settled(c.id, true))
  {
  }

  /** Every field the command fills in is the request's. */
  predicate Matches(r: Request, c: Command) {
    && Asks(c.question.organization, r.question.organization)
    && (c.question.revision == 0 || c.question.revision == r.question.revision)
    && Asks(c.matrixHash, r.matrixHash) && Asks(c.question.capability, r.question.capability)
    && Asks(c.question.resourceType, r.question.resourceType)
    && Asks(c.question.resource, r.question.resource) && Asks(c.mode, r.mode)
  }

  lemma ConsumeErrors(a: Authorizer, w: World, c: Command, now: int)
    ensures var reply := Consume(a, w, c, now).1;
            if c.id !in w.requests then reply == Failed(NotFound)
            else if w.requests[c.id].question.organization != a.organization then reply == Failed(WrongOrganization)
            else
              && (w.requests[c.id].status == Pending ==> reply == Objected(ApprovalPending))
              && (w.requests[c.id].status == Rejected ==> reply == Objected(ApprovalRejected))
              && (w.requests[c.id].status == Cancelled ==> reply == Objected(ApprovalCancelled))
              && (w.requests[c.id].status == Expired ==> reply == Objected(ApprovalExpired))
              && (w.requests[c.id].status == Consumed && !reply.Settled? ==> reply == Objected(ApprovalConsumed))
  {
  }

  // ---------------------------------------------------------------------------------------------
  // Cancellation and expiry

  /** A request newly ends cancelled if and only if it is this organization's, pending or approved, and the actor is an
      enabled, unretired role that is its requester or the owner; one already cancelled is answered so; otherwise
      nothing changes. */
  lemma CancelExact(a: Authorizer, w: World, id: nat, actor: string)
    ensures var (t, reply) := Cancel(a, w, id, actor);
            var own := id in w.requests && w.requests[id].question.organization == a.organization;
            if && own && (w.requests[id].status == Pending || w.requests[id].status == Approved)
               && MayCancel(w.registry, w.requests[id], actor)
            then
              && reply == Settled(id, false)
              && t == w.(requests := w.requests[id := w.requests[id].(status := Cancelled)])
            else
              && t == w
              && (reply.Settled? <==> own && w.requests[id].status == Cancelled)
              && (reply.Settled? ==> reply == Settled(id, true))
  {
  }

  lemma CancelErrors(a: Authorizer, w: World, id: nat, actor: string)
    requires !Cancel(a, w, id, actor).1.Settled?
    ensures Cancel(a, w, id, actor).1
            == Failed(if id !in w.requests then NotFound
                      else if w.requests[id].question.organization != a.organization then WrongOrganization
                      else if w.requests[id].status in {Rejected, Expired, Consumed} then InvalidTransition
                      else if w.registry.organization.None? then RegistryUnavailable
                      else if actor !in w.registry.roles then RoleMissing
                      else NotAllowed)
  {
  }

  // ---------------------------------------------------------------------------------------------
  // Evaluation in two steps

  /** A question is taken up if and only if nothing in it is blank and the policy wants it approved; what is kept is
      the question, the request named, the mode demanded, and the revision and hash it was judged under. */
  lemma AskExact(a: Authorizer, w: World, call: nat, q: Question, id: nat)
    ensures var t := Ask(a, w, call, q, id);
            if && q.revision > 0 && q.organization != "" && q.actor != "" && q.capability != ""
               && q.resourceType != "" && q.resource != "" && q.digest != ""
               && Evaluate(a, w.registry, q).effect == ApprovalRequired
            then
              && w.registry.revision.Some?
              && t == w.(calls := w.calls[call := Call(q, id, Evaluate(a, w.registry, q).mode,
                                                       w.registry.revision.value.id,
                                                       w.registry.revision.value.matrixHash)])
            else t == w
  {
  }

  /** And answered by consuming: allowed if and only if the consumption settles, whatever was decided before. */
  lemma AnswerExact(a: Authorizer, w: World, call: nat, now: int)
    requires call in w.calls
    ensures var c := w.calls[call];
            var (next, reply) := Consume(a, w, Command(c.id, c.question, a.matrixHash, c.mode), now);
            var t := Answer(a, w, call, now);
            && t == next.(calls := w.calls - {call}, permits := t.permits)
            && t.permits == w.permits + if !reply.Settled? then []
                                        else [Permit(c, |w.decisions|, reply == Settled(c.id, false), w.registry)]
  {
    ConsumeExact(a, w, Command(w.calls[call].id, w.calls[call].question, a.matrixHash, w.calls[call].mode), now);
  }
}
