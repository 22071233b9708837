/** The approval store as an object: each transaction, and the service call in front of it, is proved equal to
    its step of the protocol (internal/authorization/service.go, internal/authorization/postgres). */
module ApprovalStore {
  import opened Prelude
  import opened Text
  import opened Policy
  import opened Approvals

  /** Service.RequestApproval: evaluate under the current revision, then store what was evaluated. */
  function Requesting(a: Authorizer, w: World, q: Question, key: string, hash: string, expiresAt: int): (World, Reply) {
    if w.registry.organization.None? then (w, Failed(RegistryUnavailable))
    else if w.registry.organization.value.currentRevision <= 0 then (w, Failed(RevisionChanged))
    else
      var asked := q.(organization := a.organization, revision := w.registry.organization.value.currentRevision);
      var e := Evaluate(a, w.registry, asked);
      if e.effect == Deny then (w, Objected(e.reason))
      else if e.effect != ApprovalRequired || e.mode == "" then (w, Failed(NotRequired))
      else
        var stored := asked.(actor := Trim(asked.actor), resourceType := Trim(asked.resourceType),
                             resource := Trim(asked.resource));
        Create(w, Request(stored, a.matrixHash, e.mode, Trim(key), hash, Pending, expiresAt))
  }

  /** A request just stored is pending and could be approved at once, unless its role's class is padded. */
  lemma NewRequestIsApprovable(a: Authorizer, w: World, q: Question, key: string, hash: string, expiresAt: int)
    requires Built(a) && Trim(q.actor) == q.actor
    requires Requesting(a, w, q, key, hash, expiresAt).1 == Settled(w.nextId, false)
    requires q.actor in w.registry.roles ==> w.registry.roles[q.actor].organization in {"", a.organization}
    ensures var t := Requesting(a, w, q, key, hash, expiresAt).0;
            var r := t.requests[w.nextId];
            && r.status == Pending && r.question.organization == a.organization && q.actor in w.registry.roles
            && (Drift(a, w.registry.organization.value, w.registry.revision.value,
                      Find(w.registry.roles, r.question.actor), r) == None
                <==> Trim(w.registry.roles[q.actor].authorityClass) == w.registry.roles[q.actor].authorityClass)
  {
    var r := StoredShape(a, w, q, key, hash, expiresAt);
    TwoPoliciesAgree(a, w.registry, r);
  }

  lemma StoredShape(a: Authorizer, w: World, q: Question, key: string, hash: string, expiresAt: int)
    returns (r: Request)
    requires Trim(q.actor) == q.actor
    requires Requesting(a, w, q, key, hash, expiresAt).1 == Settled(w.nextId, false)
    ensures w.registry.organization.Some? && w.registry.revision.Some?
    ensures var t := Requesting(a, w, q, key, hash, expiresAt).0; w.nextId in t.requests && t.requests[w.nextId] == r
    ensures r.status == Pending && r.question.organization == a.organization && r.question.actor == q.actor
    ensures r.matrixHash == a.matrixHash && q.actor in w.registry.roles
    ensures Evaluate(a, w.registry, r.question) == Evaluation(ApprovalRequired, ApprovalMissing, r.mode)
  {
    r := Requesting(a, w, q, key, hash, expiresAt).0.requests[w.nextId];
    var asked := q.(organization := a.organization, revision := w.registry.organization.value.currentRevision);
    SameAnswer(a, w.registry, asked, r.question);
    RequiredShape(a, w.registry, asked);
  }

  lemma RequiredShape(a: Authorizer, registry: Registry, q: Question)
    requires Evaluate(a, registry, q).effect == ApprovalRequired
    ensures Evaluate(a, registry, q) == Evaluation(ApprovalRequired, ApprovalMissing, Evaluate(a, registry, q).mode)
    ensures q.actor in registry.roles
  {
  }

  /** Evaluation does not look at the resource or the digest. */
  lemma SameAnswer(a: Authorizer, registry: Registry, p: Question, q: Question)
    requires p == q.(resourceType := p.resourceType, resource := p.resource, digest := p.digest)
    ensures Evaluate(a, registry, p) == Evaluate(a, registry, q)
  {
  }

  /** From w1 to w2 one transaction on this request: it may move along the transition relation, no other request
      changes, and decisions and uses only grow, by at most one, which is then about this request. */
  ghost predicate Touches(w1: World, w2: World, id: nat) {
    && w2.registry == w1.registry && w2.keys == w1.keys && w2.nextId == w1.nextId
    && w2.requests.Keys == w1.requests.Keys && Follows(w1, w2, id)
    && (forall x | x in w1.requests && x != id :: w2.requests[x] == w1.requests[x])
    && w1.decisions <= w2.decisions && |w2.decisions| <= |w1.decisions| + 1
    && w1.uses <= w2.uses && |w2.uses| <= |w1.uses| + 1
    && (|w2.decisions| > |w1.decisions| ==> w2.decisions[|w1.decisions|].id == id)
    && (|w2.uses| > |w1.uses| ==> w2.uses[|w1.uses|].id == id)
  }

  /** From w1 to w2 a request was made: answered w2.nextId - 1 if stored now, pending; otherwise nothing changed. */
  ghost predicate Adds(w1: World, w2: World, r: Request, reply: Reply) {
    && (reply != Settled(w1.nextId, false) ==> w2 == w1)
    && (reply == Settled(w1.nextId, false) ==>
          && r.key !in w1.keys && w1.nextId !in w1.requests
          && w2 == w1.(requests := w1.requests[w1.nextId := r.(status := Pending)],
                       keys := w1.keys[r.key := w1.nextId], nextId := w1.nextId + 1))
    && (reply.Settled? && reply.reused ==>
          && r.key in w1.keys && reply.id == w1.keys[r.key] && reply.id in w1.requests
          && w1.requests[reply.id].hash == r.hash)
  }

  lemma DecideTouches(a: Authorizer, w: World, id: nat, actor: string, approve: bool, now: int)
    ensures var (t, reply) := Decide(a, w, id, actor, approve, now);
            && Touches(w, t, id) && t.uses == w.uses
            && (reply.Settled? <==> |t.decisions| == |w.decisions| + 1)
            && (reply.Settled? ==>
                  && id in w.requests && w.requests[id].status == Pending && now < w.requests[id].expiresAt
                  && t.requests[id].status == (if approve then Approved else Rejected))
  {
    var d := DecideShape(a, w, id, actor, approve, now);
  }

  lemma ConsumeTouches(a: Authorizer, w: World, c: Command, now: int)
    ensures var (t, reply) := Consume(a, w, c, now);
            && Touches(w, t, c.id) && t.decisions == w.decisions
            && (reply == Settled(c.id, false) <==> |t.uses| == |w.uses| + 1)
            && (reply.Settled? ==> c.id in t.requests && t.requests[c.id].status == Consumed)
            && (reply.Settled? && reply.reused ==> t == w)
  {
    ConsumeShape(a, w, c, now);
  }

  lemma CancelTouches(a: Authorizer, w: World, id: nat, actor: string)
    ensures var (t, reply) := Cancel(a, w, id, actor);
            && Touches(w, t, id) && t.decisions == w.decisions && t.uses == w.uses
            && (reply.Settled? <==> id in t.requests && t.requests[id].status == Cancelled && Owned(a, w, id))
            && (reply == Settled(id, false) <==> t != w)
            && (t != w ==> id in w.requests && MayCancel(w.registry, w.requests[id], actor))
  {
    if Cancel(a, w, id, actor).0 != w { assert Cancel(a, w, id, actor).0.requests[id] != w.requests[id]; }
    if Cancel(a, w, id, actor).1 == Settled(id, false) {
      assert Cancel(a, w, id, actor).0.requests[id].status != w.requests[id].status;
    }
  }

  /** The actor is an enabled, unretired role, and the requester or the owner. */
  predicate MayCancel(registry: Registry, r: Request, actor: string) {
    && registry.organization.Some? && actor in registry.roles
    && registry.roles[actor].enabled && !registry.roles[actor].retired
    && (registry.roles[actor].id == r.question.actor
        || registry.roles[actor].id == registry.organization.value.owner)
  }

  predicate Owned(a: Authorizer, w: World, id: nat) {
    id in w.requests && w.requests[id].question.organization == a.organization
  }

  /** The sweep expires exactly the due requests it was given and changes no other. */
  lemma {:induction false} SweepExact(a: Authorizer, w: World, ids: seq<nat>, now: int, id: nat)
    requires id in w.requests
    ensures var t := Expire(a, w, ids, now);
            && t == w.(requests := t.requests) && t.requests.Keys == w.requests.Keys
            && var r := w.requests[id];
            && t.requests[id]
               == r.(status := if && id in ids && r.question.organization == a.organization && r.expiresAt <= now
                                  && (r.status == Pending || r.status == Approved)
                               then Expired else r.status)
    decreases |ids|
  {
    if ids != [] {
      SweepExact(a, if Due(a, w, ids[0], now) then Move(w, ids[0], Expired) else w, ids[1..], now, id);
    }
  }

  lemma SweepExpires(a: Authorizer, w: World, rows: seq<nat>, now: int)
    requires forall i | 0 <= i < |rows| :: Due(a, w, rows[i], now)
    ensures var t := Expire(a, w, rows, now).requests;
            && t.Keys == w.requests.Keys
            && forall id | id in t ::
                 t[id] == w.requests[id].(status := if id in rows then Expired else w.requests[id].status)
  {
    var t := Expire(a, w, rows, now).requests;
    forall id | id in w.requests
      ensures t.Keys == w.requests.Keys
      ensures t[id] == w.requests[id].(status := if id in rows then Expired else w.requests[id].status)
    {
      SweepExact(a, w, rows, now, id);
    }
    SweepKeepsKeys(a, w, rows, now);
  }

  lemma {:induction false} SweepKeepsKeys(a: Authorizer, w: World, ids: seq<nat>, now: int)
    ensures Expire(a, w, ids, now).requests.Keys == w.requests.Keys
    decreases |ids|
  {
    if ids != [] { SweepKeepsKeys(a, if Due(a, w, ids[0], now) then Move(w, ids[0], Expired) else w, ids[1..], now); }
  }

  class Store {
    const policy: Authorizer
    var registry: Registry
    var requests: map<nat, Request>
    var keys: map<string, nat>
    var nextId: nat
    var decisions: seq<Decision>
    var uses: seq<Use>

    constructor (a: Authorizer, r: Registry)
      requires IsSha256(a.matrixHash)
      ensures policy == a && Abs() == Initial(r) && Valid()
    {
      policy, registry, requests, keys, nextId, decisions, uses := a, r, map[], map[], 1, [], [];
    }

    ghost function Abs(): World
      reads this
    {
      World(registry, requests, keys, nextId, decisions, uses, map[], [])
    }

    ghost predicate Valid()
      reads this
    {
      IsSha256(policy.matrixHash) && Inv(policy, Abs())
    }

    method CreateRequest(r: Request) returns (reply: Reply)
      requires Valid()
      modifies this
      ensures Valid() && (Abs(), reply) == Create(old(Abs()), r)
      ensures Adds(old(Abs()), Abs(), r, reply)
    {
      CreateKeeps(policy, Abs(), r);
      if registry.organization.None? || registry.revision.None? { return Failed(RegistryUnavailable); }
      var org, rev := registry.organization.value, registry.revision.value;
      if org.retired || org.currentRevision != r.question.revision { return Failed(RevisionChanged); }
      if rev.id != r.question.revision || rev.matrixHash != r.matrixHash { return Failed(RevisionChanged); }
      var role := Find(registry.roles, r.question.actor);
      if role.None? { return Failed(RoleMissing); }
      if role.value.retired || !role.value.enabled || (!role.value.executable && role.value.id != org.owner) {
        return Failed(RoleUnfit);
      }
      if r.key !in keys {
        var id := nextId;
        requests := requests[id := r.(status := Pending)];
        keys := keys[r.key := id];
        nextId := id + 1;
        return Settled(id, false);
      }
      var existing := keys[r.key];
      if requests[existing].hash != r.hash { return Failed(IdempotencyConflict); }
      return Settled(existing, true);
    }

    method SetStatus(id: nat, to: Status)
      requires id in requests
      modifies this`requests
      ensures Abs() == Move(old(Abs()), id, to)
    {
      requests := requests[id := requests[id].(status := to)];
    }

    method RequestApproval(q: Question, key: string, hash: string, expiresAt: int) returns (reply: Reply)
      requires Valid()
      modifies this
      ensures Valid() && (Abs(), reply) == Requesting(policy, old(Abs()), q, key, hash, expiresAt)
    {
      if registry.organization.None? { return Failed(RegistryUnavailable); }
      var revision := registry.organization.value.currentRevision;
      if revision <= 0 { return Failed(RevisionChanged); }
      var asked := q.(organization := policy.organization, revision := revision);
      var e := Evaluate(policy, registry, asked);
      if e.effect == Deny { return Objected(e.reason); }
      if e.effect != ApprovalRequired || e.mode == "" { return Failed(NotRequired); }
      var stored := asked.(actor := Trim(asked.actor), resourceType := Trim(asked.resourceType),
                           resource := Trim(asked.resource));
      reply := CreateRequest(Request(stored, policy.matrixHash, e.mode, Trim(key), hash, Pending, expiresAt));
    }

    method DecideRequest(id: nat, actor: string, approve: bool, now: int) returns (reply: Reply)
      requires Valid()
      modifies this
      ensures Valid() && (Abs(), reply) == Decide(policy, old(Abs()), id, actor, approve, now)
      ensures Touches(old(Abs()), Abs(), id) && uses == old(uses)
      ensures reply.Settled? <==> |decisions| == |old(decisions)| + 1
      ensures reply.Settled? ==>
                && id in old(requests) && old(requests)[id].status == Pending && now < old(requests)[id].expiresAt
                && requests[id].status == (if approve then Approved else Rejected)
    {
      DecideTouches(policy, Abs(), id, actor, approve, now);
      DecideKeeps(policy, Abs(), id, actor, approve, now);
      if id !in requests { return Failed(NotFound); }
      var r := requests[id];
      if r.question.organization != policy.organization { return Failed(WrongOrganization); }
      if r.status != Pending { return Failed(InvalidTransition); }
      if now >= r.expiresAt {
        SetStatus(id, Expired);
        return Objected(ApprovalExpired);
      }
      if registry.organization.None? { return Failed(RegistryUnavailable); }
      var org, role := registry.organization.value, Find(registry.roles, actor);
      if role.None? { return Failed(RoleMissing); }
      if role.value.id != org.owner || role.value.retired || !role.value.enabled { return Failed(NotOwner); }
      var revision, hash := 0, "";
      if approve {
        if registry.revision.None? { return Failed(RegistryUnavailable); }
        revision, hash := registry.revision.value.id, registry.revision.value.matrixHash;
        var objection := Drift(policy, org, registry.revision.value, Find(registry.roles, r.question.actor), r);
        if objection.Some? { return Objected(objection.value); }
      }
      decisions := decisions + [Decision(id, approve, role.value.id, org.owner, revision, hash)];
      SetStatus(id, if approve then Approved else Rejected);
      return Settled(id, false);
    }

    method ConsumeApproval(c: Command, now: int) returns (reply: Reply)
      requires Valid()
      modifies this
      ensures Valid() && (Abs(), reply) == Consume(policy, old(Abs()), c, now)
      ensures Touches(old(Abs()), Abs(), c.id) && decisions == old(decisions)
      ensures reply == Settled(c.id, false) <==> |uses| == |old(uses)| + 1
      ensures reply.Settled? ==> c.id in requests && requests[c.id].status == Consumed
      ensures reply.Settled? && reply.reused ==> Abs() == old(Abs())
    {
      ConsumeTouches(policy, Abs(), c, now);
      ConsumeKeeps(policy, Abs(), c, now);
      reply := LockAndConsume(c, now);
    }

    method LockAndConsume(c: Command, now: int) returns (reply: Reply)
      modifies this
      ensures (Abs(), reply) == Consume(policy, old(Abs()), c, now)
    {
      if c.id !in requests { return Failed(NotFound); }
      var r := requests[c.id];
      if r.question.organization != policy.organization { return Failed(WrongOrganization); }
      if r.status == Consumed {
        if Use(c.id, c.question.actor, c.question.digest) in uses && Scope(r, c) { return Settled(c.id, true); }
        return Objected(ApprovalConsumed);
      }
      match r.status {
        case Pending => return Objected(ApprovalPending);
        case Rejected => return Objected(ApprovalRejected);
        case Cancelled => return Objected(ApprovalCancelled);
        case Expired => return Objected(ApprovalExpired);
        case Approved => reply := UseApproval(c, now);
      }
    }

    method UseApproval(c: Command, now: int) returns (reply: Reply)
      requires c.id in requests
      modifies this
      ensures (Abs(), reply) == ConsumeApproved(policy, old(Abs()), c, now)
    {
      var r := requests[c.id];
      if now >= r.expiresAt {
        SetStatus(c.id, Expired);
        return Objected(ApprovalExpired);
      }
      if registry.organization.None? || registry.revision.None? { return Failed(RegistryUnavailable); }
      var objection := Objection(policy, registry.organization.value, registry.revision.value,
                                 Find(registry.roles, r.question.actor), r, c);
      if objection.Some? { return Objected(objection.value); }
      uses := uses + [Use(c.id, c.question.actor, c.question.digest)];
      SetStatus(c.id, Consumed);
      return Settled(c.id, false);
    }

    method CancelRequest(id: nat, actor: string) returns (reply: Reply)
      requires Valid()
      modifies this
      ensures Valid() && (Abs(), reply) == Cancel(policy, old(Abs()), id, actor)
      ensures Touches(old(Abs()), Abs(), id) && decisions == old(decisions) && uses == old(uses)
      ensures reply.Settled? <==> id in requests && requests[id].status == Cancelled && Owned(policy, old(Abs()), id)
      ensures reply == Settled(id, false) <==> Abs() != old(Abs())
      ensures Abs() != old(Abs()) ==> id in old(requests) && MayCancel(registry, old(requests)[id], actor)
    {
      CancelTouches(policy, Abs(), id, actor);
      CancelKeeps(policy, Abs(), id, actor);
      if id !in requests { return Failed(NotFound); }
      var r := requests[id];
      if r.question.organization != policy.organization { return Failed(WrongOrganization); }
      if r.status == Cancelled { return Settled(id, true); }
      if !CanTransition(r.status, Cancelled) { return Failed(InvalidTransition); }
      if registry.organization.None? { return Failed(RegistryUnavailable); }
      var role := Find(registry.roles, actor);
      if role.None? { return Failed(RoleMissing); }
      if role.value.retired || !role.value.enabled
         || (role.value.id != r.question.actor && role.value.id != registry.organization.value.owner) {
        return Failed(NotAllowed);
      }
      SetStatus(id, Cancelled);
      return Settled(id, false);
    }

    /** The sweep: rows are the due requests the query could lock, each once. */
    method ExpireRequests(rows: seq<nat>, now: int) returns (expired: nat)
      requires Valid()
      requires forall i | 0 <= i < |rows| :: Due(policy, Abs(), rows[i], now)
      requires forall i, j | 0 <= i < j < |rows| :: rows[i] != rows[j]
      modifies this`requests
      ensures Valid() && Abs() == Expire(policy, old(Abs()), rows, now) && expired == |rows|
      ensures requests.Keys == old(requests).Keys
      ensures forall id | id in requests ::
                requests[id] == old(requests)[id].(status := if id in rows then Expired else old(requests)[id].status)
    {
      ghost var before := Abs();
      ExpireKeeps(policy, before, rows, now);
      expired := 0;
      assert rows[0..] == rows;
      while expired < |rows|
        invariant 0 <= expired <= |rows|
        invariant Expire(policy, before, rows, now) == Expire(policy, Abs(), rows[expired..], now)
        invariant forall i | expired <= i < |rows| :: Due(policy, Abs(), rows[i], now)
      {
        assert rows[expired..][0] == rows[expired] && rows[expired..][1..] == rows[expired + 1..];
        SetStatus(rows[expired], Expired);
        expired := expired + 1;
      }
      assert rows[|rows|..] == [];
      SweepExpires(policy, before, rows, now);
    }
  }
}
