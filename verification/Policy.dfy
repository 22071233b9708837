/** The capability policy: building an authorizer from a matrix, evaluating a request, and the separately
    written checks run when an approval is decided or consumed (internal/authorization). */
module Policy {
  import opened Prelude
  import opened Text

  datatype Capability = Capability(id: string, risk: string, approval: string)

  datatype Matrix = Matrix(
    defaultPolicy: string,
    capabilities: seq<Capability>,
    grants: map<string, seq<string>>,
    hardDenies: map<string, seq<string>>)

  datatype Authorizer = Authorizer(
    organization: string, matrix: Matrix, matrixHash: string,
    capabilities: map<string, Capability>, authorities: set<string>)

  /** The registry as one transaction reads it. matrixHash is the revision's recorded hash of the matrix document. */
  datatype Organization = Organization(id: string, owner: string, currentRevision: int, retired: bool)
  datatype Revision = Revision(id: int, matrixHash: string)
  datatype Role = Role(id: string, organization: string, authorityClass: string, enabled: bool, executable: bool,
                       retired: bool)
  datatype Registry = Registry(organization: Option<Organization>, revision: Option<Revision>, roles: map<string, Role>)

  function Find<V>(m: map<string, V>, k: string): Option<V> {
    if k in m then Some(m[k]) else None
  }

  function Entries(m: map<string, seq<string>>, k: string): seq<string> {
    if k in m then m[k] else []
  }

  // ---------------------------------------------------------------------------------------------
  // Building the authorizer

  predicate IsSha256(s: string) {
    |s| == 64 && forall i | 0 <= i < |s| :: LowerHex(s[i])
  }

  lemma Sha256Exact(s: string)
    ensures IsSha256(s) <==> |s| == 64 && forall c | c in s :: c in "0123456789abcdef"
  {
    forall i | 0 <= i < |s| ensures s[i] in s && (LowerHex(s[i]) <==> s[i] in "0123456789abcdef") {
      HexDigits(s[i]);
    }
  }

  function Clean(c: Capability): Capability {
    Capability(Trim(c.id), Trim(c.risk), Trim(c.approval))
  }

  predicate Mode(m: string) { m == "" || m == "owner" || m == "policy_or_human" || m == "owner_or_cell_policy" }

  predicate Complete(c: Capability) { c.id != "" && c.risk != "" && Mode(c.approval) }

  lemma CompleteExact(c: Capability)
    ensures Complete(Clean(c)) <==>
            && Trim(c.id) != "" && Trim(c.risk) != ""
            && Trim(c.approval) in ["", "owner", "policy_or_human", "owner_or_cell_policy"]
  {
  }

  function Cleaned(cs: seq<Capability>): seq<Capability> {
    seq(|cs|, i requires 0 <= i < |cs| => Clean(cs[i]))
  }

  predicate AllComplete(cs: seq<Capability>) {
    forall i | 0 <= i < |cs| :: Complete(cs[i])
  }

  /** table holds exactly these capabilities, whose ids do not repeat. */
  ghost predicate Tabulates(table: map<string, Capability>, cs: seq<Capability>) {
    && (forall i | 0 <= i < |cs| :: cs[i].id in table && table[cs[i].id] == cs[i])
    && (forall i, j | 0 <= i < j < |cs| :: cs[i].id != cs[j].id)
    && (forall id | id in table :: exists i | 0 <= i < |cs| :: cs[i].id == id)
  }

  predicate Known(table: map<string, Capability>, names: seq<string>, star: bool) {
    forall i | 0 <= i < |names| :: (star && names[i] == "*") || names[i] in table
  }

  ghost predicate Authorities(authorities: set<string>, grants: map<string, seq<string>>) {
    && (forall k | k in grants :: Trim(k) in authorities)
    && (forall a | a in authorities :: exists k | k in grants :: Trim(k) == a)
  }

  ghost predicate GrantsKnown(table: map<string, Capability>, grants: map<string, seq<string>>) {
    forall k | k in grants :: Trim(k) != "" && Known(table, grants[k], true)
  }

  ghost predicate DeniesKnown(table: map<string, Capability>, authorities: set<string>,
                              denies: map<string, seq<string>>)
  {
    forall k | k in denies :: (k == "*" || k in authorities) && Known(table, denies[k], false)
  }

  /** What the loader accepts as a matrix. */
  ghost predicate Built(a: Authorizer) {
    && a.matrix.defaultPolicy == "deny" && IsSha256(a.matrixHash)
    && AllComplete(Cleaned(a.matrix.capabilities)) && Tabulates(a.capabilities, Cleaned(a.matrix.capabilities))
    && Authorities(a.authorities, a.matrix.grants)
    && GrantsKnown(a.capabilities, a.matrix.grants)
    && DeniesKnown(a.capabilities, a.authorities, a.matrix.hardDenies)
  }

  method ReadCapabilities(cs: seq<Capability>) returns (r: Option<map<string, Capability>>)
    ensures r.Some? <==> AllComplete(Cleaned(cs)) && exists table :: Tabulates(table, Cleaned(cs))
    ensures r.Some? ==> Tabulates(r.value, Cleaned(cs))
  {
    var table: map<string, Capability> := map[];
    ghost var all := Cleaned(cs);
    var i := 0;
    while i < |cs|
      invariant 0 <= i <= |cs|
      invariant AllComplete(all[..i]) && Tabulates(table, all[..i])
    {
      var c := Clean(cs[i]);
      assert all[i] == c;
      if c.id == "" || c.risk == "" || !Mode(c.approval) {
        assert !Complete(all[i]);
        return None;
      }
      assert Complete(c);
      if c.id in table {
        Repeats(table, all, i);
        return None;
      }
      Extended(table, all[..i], c);
      assert all[..i] + [c] == all[..i + 1];
      table := table[c.id := c];
      i := i + 1;
    }
    assert all[..|cs|] == all;
    return Some(table);
  }

  lemma Repeats(table: map<string, Capability>, cs: seq<Capability>, i: nat)
    requires i < |cs| && Tabulates(table, cs[..i]) && cs[i].id in table
    ensures forall t :: !Tabulates(t, cs)
  {
    var j :| 0 <= j < |cs[..i]| && cs[..i][j].id == cs[i].id;
    assert cs[j].id == cs[i].id;
  }

  lemma Extended(table: map<string, Capability>, cs: seq<Capability>, c: Capability)
    requires Tabulates(table, cs) && c.id !in table
    ensures Tabulates(table[c.id := c], cs + [c])
  {
    var t, longer := table[c.id := c], cs + [c];
    assert longer[|cs|] == c && forall j | 0 <= j < |cs| :: longer[j] == cs[j] && cs[j].id in table;
    forall id | id in t ensures exists k | 0 <= k < |longer| :: longer[k].id == id {
      if id != c.id {
        var k :| 0 <= k < |cs| && cs[k].id == id;
        assert longer[k].id == id;
      }
    }
  }

  method AllKnown(table: map<string, Capability>, names: seq<string>, star: bool) returns (ok: bool)
    ensures ok == Known(table, names, star)
  {
    var i := 0;
    while i < |names|
      invariant 0 <= i <= |names|
      invariant Known(table, names[..i], star)
    {
      if !(star && names[i] == "*") && names[i] !in table {
        return false;
      }
      i := i + 1;
    }
    return true;
  }

  method ReadGrants(table: map<string, Capability>, grants: map<string, seq<string>>) returns (r: Option<set<string>>)
    ensures r.Some? <==> GrantsKnown(table, grants)
    ensures r.Some? ==> Authorities(r.value, grants)
  {
    var authorities: set<string> := {};
    var left := grants.Keys;
    while left != {}
      invariant left <= grants.Keys
      invariant forall k | k in grants.Keys - left ::
                  Trim(k) != "" && Known(table, grants[k], true) && Trim(k) in authorities
      invariant forall a | a in authorities :: exists k | k in grants :: Trim(k) == a
      decreases |left|
    {
      var k :| k in left;
      if Trim(k) == "" {
        return None;
      }
      authorities := authorities + {Trim(k)};
      var ok := AllKnown(table, grants[k], true);
      if !ok {
        return None;
      }
      left := left - {k};
    }
    return Some(authorities);
  }

  method CheckDenies(table: map<string, Capability>, authorities: set<string>, denies: map<string, seq<string>>)
    returns (ok: bool)
    ensures ok == DeniesKnown(table, authorities, denies)
  {
    var left := denies.Keys;
    while left != {}
      invariant left <= denies.Keys
      invariant forall k | k in denies.Keys - left :: (k == "*" || k in authorities) && Known(table, denies[k], false)
      decreases |left|
    {
      var k :| k in left;
      if k != "*" && k !in authorities {
        return false;
      }
      ok := AllKnown(table, denies[k], false);
      if !ok {
        return false;
      }
      left := left - {k};
    }
    return true;
  }

  /** newAuthorizer accepts exactly the matrices that some well-built authorizer has, whatever order the
      two maps are visited in, and builds that authorizer. */
  method NewAuthorizer(organization: string, matrix: Matrix, hash: string) returns (r: Option<Authorizer>)
    ensures r.Some?
            <==> exists a :: Built(a) && a.organization == organization && a.matrix == matrix && a.matrixHash == hash
    ensures r.Some? ==>
              && Built(r.value) && r.value.organization == organization && r.value.matrix == matrix
              && r.value.matrixHash == hash
  {
    forall a, b | Built(a) && Built(b) && a.matrix == b.matrix
      ensures a.capabilities == b.capabilities && a.authorities == b.authorities
    {
      OneAuthorizer(a, b);
    }
    if matrix.defaultPolicy != "deny" || !IsSha256(hash) {
      return None;
    }
    var table := ReadCapabilities(matrix.capabilities);
    if table.None? {
      return None;
    }
    forall t | Tabulates(t, Cleaned(matrix.capabilities)) ensures t == table.value {
      OneTable(t, table.value, Cleaned(matrix.capabilities));
    }
    var authorities := ReadGrants(table.value, matrix.grants);
    if authorities.None? {
      return None;
    }
    forall s | Authorities(s, matrix.grants) ensures s == authorities.value {
      assert forall x :: x in s <==> x in authorities.value;
    }
    var ok := CheckDenies(table.value, authorities.value, matrix.hardDenies);
    if !ok {
      return None;
    }
    var a := Authorizer(organization, matrix, hash, table.value, authorities.value);
    assert Built(a);
    return Some(a);
  }

  lemma OneTable(s: map<string, Capability>, t: map<string, Capability>, cs: seq<Capability>)
    requires Tabulates(s, cs) && Tabulates(t, cs)
    ensures s == t
  {
    forall id ensures (id in s <==> id in t) && (id in s ==> s[id] == t[id]) {
      if id in s {
        var i :| 0 <= i < |cs| && cs[i].id == id;
      }
      if id in t {
        var i :| 0 <= i < |cs| && cs[i].id == id;
      }
    }
  }

  lemma OneAuthorizer(a: Authorizer, b: Authorizer)
    requires Built(a) && Built(b) && a.matrix == b.matrix
    ensures a.capabilities == b.capabilities && a.authorities == b.authorities
  {
    OneTable(a.capabilities, b.capabilities, Cleaned(a.matrix.capabilities));
    assert forall x :: x in a.authorities <==> x in b.authorities;
  }

  // ---------------------------------------------------------------------------------------------
  // Evaluation

  datatype Reason =
    | AllowedByGrant | AllowedByApproval | HardDeny | GrantMissing | ApprovalMissing | ApprovalPending
    | ApprovalRejected | ApprovalExpired | ApprovalConsumed | ScopeMismatch | PolicyDrift | UnknownCapability
    | UnknownAuthority | RoleNotFound | RoleDisabled | RoleRetired | RoleNotExecutable | OrganizationMismatch
    | RevisionMismatch | MatrixHashMismatch | ApprovalCancelled

  datatype Effect = Allow | Deny | ApprovalRequired

  datatype Evaluation = Evaluation(effect: Effect, reason: Reason, mode: string)

  /** Who wants to do what to which resource, under which revision. */
  datatype Question = Question(
    organization: string, revision: int, actor: string, capability: string,
    resourceType: string, resource: string, digest: string)

  predicate HardDenied(a: Authorizer, authority: string, capability: string) {
    capability in Entries(a.matrix.hardDenies, "*") || capability in Entries(a.matrix.hardDenies, authority)
  }

  predicate Granted(a: Authorizer, authority: string, capability: string) {
    "*" in Entries(a.matrix.grants, authority) || capability in Entries(a.matrix.grants, authority)
  }

  function Evaluate(a: Authorizer, reg: Registry, q: Question): Evaluation {
    if q.organization != a.organization then Evaluation(Deny, OrganizationMismatch, "")
    else if reg.organization.None? then Evaluation(Deny, OrganizationMismatch, "")
    else
      var org := reg.organization.value;
      if org.id != q.organization || org.retired then Evaluation(Deny, OrganizationMismatch, "")
      else if reg.revision.None? || org.currentRevision != q.revision || reg.revision.value.id != q.revision then
        Evaluation(Deny, RevisionMismatch, "")
      else if reg.revision.value.matrixHash != a.matrixHash then Evaluation(Deny, MatrixHashMismatch, "")
      else if q.capability !in a.capabilities then Evaluation(Deny, UnknownCapability, "")
      else EvaluateRole(a, org, Find(reg.roles, q.actor), a.capabilities[q.capability], q)
  }

  function EvaluateRole(a: Authorizer, org: Organization, found: Option<Role>, c: Capability, q: Question): Evaluation {
    if found.None? then Evaluation(Deny, RoleNotFound, c.approval)
    else
      var role := found.value;
      var authority := Trim(role.authorityClass);
      if role.organization != "" && role.organization != q.organization then
        Evaluation(Deny, OrganizationMismatch, c.approval)
      else if role.retired then Evaluation(Deny, RoleRetired, c.approval)
      else if !role.enabled then Evaluation(Deny, RoleDisabled, c.approval)
      else if !role.executable && role.id != org.owner then Evaluation(Deny, RoleNotExecutable, c.approval)
      else if authority !in a.authorities then Evaluation(Deny, UnknownAuthority, c.approval)
      else if HardDenied(a, authority, q.capability) then Evaluation(Deny, HardDeny, c.approval)
      else if c.approval != "" then Evaluation(ApprovalRequired, ApprovalMissing, c.approval)
      else if Granted(a, authority, q.capability) then Evaluation(Allow, AllowedByGrant, c.approval)
      else Evaluation(Deny, GrantMissing, c.approval)
  }

  // ---------------------------------------------------------------------------------------------
  // The second implementation: validating a stored request

  datatype Status = Pending | Approved | Rejected | Cancelled | Expired | Consumed

  datatype Request = Request(
    question: Question, matrixHash: string, mode: string, key: string, hash: string, status: Status, expiresAt: int)

  /** A consume command; an empty string or zero leaves that field unconstrained. */
  datatype Command = Command(id: nat, question: Question, matrixHash: string, mode: string)

  /** validateDecision, also the first half of validateConsumption. None means no objection. */
  function Drift(a: Authorizer, org: Organization, rev: Revision, found: Option<Role>, r: Request): Option<Reason> {
    if org.id != r.question.organization || org.currentRevision != r.question.revision
       || rev.id != r.question.revision then Some(PolicyDrift)
    else if org.retired then Some(OrganizationMismatch)
    else if rev.matrixHash != r.matrixHash || r.matrixHash != a.matrixHash then Some(PolicyDrift)
    else if found.None? then Some(RoleNotFound)
    else if found.value.retired then Some(RoleRetired)
    else if !found.value.enabled then Some(RoleDisabled)
    else if !found.value.executable && found.value.id != org.owner then Some(RoleNotExecutable)
    else if found.value.authorityClass !in a.authorities then Some(UnknownAuthority)
    else if r.question.capability !in a.capabilities then Some(PolicyDrift)
    else if HardDenied(a, found.value.authorityClass, r.question.capability) then Some(HardDeny)
    else if a.capabilities[r.question.capability].approval == ""
            || a.capabilities[r.question.capability].approval != r.mode then Some(PolicyDrift)
    else None
  }

  predicate Scope(r: Request, c: Command) {
    && (c.question.organization == "" || c.question.organization == r.question.organization)
    && (c.question.revision == 0 || c.question.revision == r.question.revision)
    && (c.matrixHash == "" || c.matrixHash == r.matrixHash)
    && (c.question.capability == "" || c.question.capability == r.question.capability)
    && (c.question.resourceType == "" || c.question.resourceType == r.question.resourceType)
    && (c.question.resource == "" || c.question.resource == r.question.resource)
    && (c.mode == "" || c.mode == r.mode)
  }

  function Objection(a: Authorizer, org: Organization, rev: Revision, found: Option<Role>, r: Request,
                     c: Command): Option<Reason> {
    var drift := Drift(a, org, rev, found, r);
    if drift.Some? then drift
    else if found.None? then Some(RoleNotFound)
    else if c.question.actor != r.question.actor || found.value.id != r.question.actor
            || c.question.digest != r.question.digest then Some(ScopeMismatch)
    else if !Scope(r, c) then Some(ScopeMismatch)
    else None
  }

  // ---------------------------------------------------------------------------------------------
  // What the two decide, in terms of the matrix and the registry

  predicate Lists(entries: map<string, seq<string>>, key: string, name: string) {
    key in entries && name in entries[key]
  }

  /** The question is about this organization, current, at its current revision, under this matrix. */
  predicate Current(a: Authorizer, org: Organization, rev: Revision, q: Question) {
    && org.id == q.organization && !org.retired
    && org.currentRevision == q.revision && rev.id == q.revision && rev.matrixHash == a.matrixHash
  }

  /** A role that may act at all: enabled, not retired, and executable unless it owns the organization. */
  predicate MayAct(org: Organization, role: Role) {
    role.enabled && !role.retired && (role.executable || role.id == org.owner)
  }

  /** Everything evaluation tests before it looks at denies, approval modes and grants. */
  predicate Standing(a: Authorizer, reg: Registry, q: Question) {
    && q.organization == a.organization && reg.organization.Some? && reg.revision.Some?
    && Current(a, reg.organization.value, reg.revision.value, q)
    && q.capability in a.capabilities && q.actor in reg.roles
    && var role := reg.roles[q.actor];
    && (role.organization == "" || role.organization == q.organization)
    && MayAct(reg.organization.value, role) && Trim(role.authorityClass) in a.authorities
  }

  /** Evaluation, exactly. A capability a standing role's class, or everyone, is hard-denied is denied as such;
      otherwise one with an approval mode demands approval in that mode, and one without is allowed if and only if
      the class's own entry grants it or everything. Whoever does not stand is denied. */
  lemma EvaluateExact(a: Authorizer, reg: Registry, q: Question)
    ensures var e := Evaluate(a, reg, q);
            if !Standing(a, reg, q) then e.effect == Deny && e.reason != HardDeny && e.reason != GrantMissing
            else
              var authority, mode := Trim(reg.roles[q.actor].authorityClass), a.capabilities[q.capability].approval;
              var denied := Lists(a.matrix.hardDenies, "*", q.capability)
                            || Lists(a.matrix.hardDenies, authority, q.capability);
              var granted := Lists(a.matrix.grants, authority, "*") || Lists(a.matrix.grants, authority, q.capability);
              && (denied <==> e == Evaluation(Deny, HardDeny, mode))
              && (!denied && mode != "" <==> e == Evaluation(ApprovalRequired, ApprovalMissing, mode))
              && (!denied && mode == "" && granted <==> e == Evaluation(Allow, AllowedByGrant, ""))
              && (!denied && mode == "" && !granted <==> e == Evaluation(Deny, GrantMissing, ""))
  {
  }

  /** Why somebody who does not stand is denied: the first test that fails, in this order. */
  lemma DenyReasons(a: Authorizer, reg: Registry, q: Question)
    requires !Standing(a, reg, q)
    ensures var reason := Evaluate(a, reg, q).reason;
            var mine := q.organization == a.organization && reg.organization.Some?
                        && reg.organization.value.id == q.organization && !reg.organization.value.retired;
            var revised := mine && reg.revision.Some? && reg.organization.value.currentRevision == q.revision
                           && reg.revision.value.id == q.revision;
            var hashed := revised && reg.revision.value.matrixHash == a.matrixHash;
            var known := hashed && q.capability in a.capabilities;
            var found := known && q.actor in reg.roles;
            if !mine then reason == OrganizationMismatch
            else if !revised then reason == RevisionMismatch
            else if !hashed then reason == MatrixHashMismatch
            else if !known then reason == UnknownCapability
            else if !found then reason == RoleNotFound
            else
              var role := reg.roles[q.actor];
              && (reason == OrganizationMismatch <==> role.organization !in {"", q.organization})
              && (reason == RoleRetired <==> role.organization in {"", q.organization} && role.retired)
              && (reason == RoleDisabled <==>
                    role.organization in {"", q.organization} && !role.retired && !role.enabled)
              && (reason == UnknownAuthority <==>
                    role.organization in {"", q.organization} && MayAct(reg.organization.value, role))
              && reason in {OrganizationMismatch, RoleRetired, RoleDisabled, RoleNotExecutable, UnknownAuthority}
  {
  }

  /** The check of a stored request, exactly: it passes if and only if the request is current, its role may act and
      is of a known class as written, the capability is still one that needs approval in the request's mode, and
      neither everyone nor that class as written is hard-denied it. If only the denies stand in the way, it says so. */
  lemma DriftExact(a: Authorizer, org: Organization, rev: Revision, found: Option<Role>, r: Request)
    ensures var d := Drift(a, org, rev, found, r);
            var q := r.question;
            var rest := && Current(a, org, rev, q) && r.matrixHash == a.matrixHash && q.capability in a.capabilities
                        && found.Some? && MayAct(org, found.value) && found.value.authorityClass in a.authorities;
            var denied := Lists(a.matrix.hardDenies, "*", q.capability)
                          || (found.Some? && Lists(a.matrix.hardDenies, found.value.authorityClass, q.capability));
            && (d == None <==> rest && !denied && r.mode != "" && a.capabilities[q.capability].approval == r.mode)
            && (d == Some(HardDeny) <==> rest && denied)
  {
  }

  /** An empty or zero field of a command asks nothing of the request; any other must equal it. */
  predicate Asks(field: string, value: string) { field == "" || field == value }

  /** A consumption passes if and only if that check does and the command is the requester's own, for the same
      action, and every field it fills in is the request's. */
  lemma ObjectionExact(a: Authorizer, org: Organization, rev: Revision, found: Option<Role>, r: Request, c: Command)
    ensures Objection(a, org, rev, found, r, c) == None <==>
            && Drift(a, org, rev, found, r) == None
            && found.Some? && found.value.id == r.question.actor == c.question.actor
            && c.question.digest == r.question.digest
            && Asks(c.question.organization, r.question.organization)
            && (c.question.revision == 0 || c.question.revision == r.question.revision)
            && Asks(c.matrixHash, r.matrixHash) && Asks(c.question.capability, r.question.capability)
            && Asks(c.question.resourceType, r.question.resourceType)
            && Asks(c.question.resource, r.question.resource) && Asks(c.mode, r.mode)
  {
  }

  // ---------------------------------------------------------------------------------------------
  // The two agree

  lemma AuthoritiesTrimmed(a: Authorizer, authority: string)
    requires Built(a) && authority in a.authorities
    ensures Trim(authority) == authority && authority != ""
  {
    var k :| k in a.matrix.grants && Trim(k) == authority;
    TrimTwice(k);
  }

  /** For every matrix, registry and request: the check run on a stored request passes exactly when a fresh
      evaluation of the same question demands approval in the same mode, the request's matrix hash is the
      authorizer's, and the role's class carries no surrounding space, which evaluation alone trims away. */
  lemma TwoPoliciesAgree(a: Authorizer, reg: Registry, r: Request)
    requires Built(a) && reg.organization.Some? && reg.revision.Some?
    requires r.question.organization == a.organization
    requires r.question.actor in reg.roles ==> reg.roles[r.question.actor].organization in {"", a.organization}
    ensures Drift(a, reg.organization.value, reg.revision.value, Find(reg.roles, r.question.actor), r) == None
            <==>
            && Evaluate(a, reg, r.question) == Evaluation(ApprovalRequired, ApprovalMissing, r.mode)
            && r.matrixHash == a.matrixHash
            && (r.question.actor in reg.roles ==>
                  Trim(reg.roles[r.question.actor].authorityClass) == reg.roles[r.question.actor].authorityClass)
  {
    var role := Find(reg.roles, r.question.actor);
    if role.Some? && role.value.authorityClass in a.authorities {
      AuthoritiesTrimmed(a, role.value.authorityClass);
    }
    AgreeOnTrimmed(a, reg, r);
  }

  lemma AgreeOnTrimmed(a: Authorizer, reg: Registry, r: Request)
    requires reg.organization.Some? && reg.revision.Some? && r.question.organization == a.organization
    requires r.question.actor in reg.roles ==>
               var role := reg.roles[r.question.actor];
               && role.organization in {"", a.organization}
               && (role.authorityClass in a.authorities ==> Trim(role.authorityClass) == role.authorityClass)
    ensures Drift(a, reg.organization.value, reg.revision.value, Find(reg.roles, r.question.actor), r) == None
            <==>
            && Evaluate(a, reg, r.question) == Evaluation(ApprovalRequired, ApprovalMissing, r.mode)
            && r.matrixHash == a.matrixHash
            && (r.question.actor in reg.roles ==>
                  Trim(reg.roles[r.question.actor].authorityClass) == reg.roles[r.question.actor].authorityClass)
  {
  }

  /** Hence a consumption that passes is never one a fresh evaluation would deny or allow outright. */
  lemma ConsumptionImpliesApprovalRequired(a: Authorizer, reg: Registry, r: Request, c: Command)
    requires Built(a) && reg.organization.Some? && reg.revision.Some?
    requires r.question.organization == a.organization
    requires r.question.actor in reg.roles ==> reg.roles[r.question.actor].organization in {"", a.organization}
    requires Objection(a, reg.organization.value, reg.revision.value, Find(reg.roles, r.question.actor), r, c) == None
    ensures Evaluate(a, reg, r.question) == Evaluation(ApprovalRequired, ApprovalMissing, r.mode)
    ensures var authority := Trim(reg.roles[r.question.actor].authorityClass);
            && !Lists(a.matrix.hardDenies, "*", r.question.capability)
            && !Lists(a.matrix.hardDenies, authority, r.question.capability)
  {
    TwoPoliciesAgree(a, reg, r);
    EvaluateExact(a, reg, r.question);
  }

  /** A class with surrounding space splits them: evaluation demands an approval that can never be used. */
  lemma PaddedClassCannotConsume(a: Authorizer, reg: Registry, r: Request)
    requires Built(a) && reg.organization.Some? && reg.revision.Some?
    requires Evaluate(a, reg, r.question).effect == ApprovalRequired
    requires Trim(reg.roles[r.question.actor].authorityClass) != reg.roles[r.question.actor].authorityClass
    requires reg.roles[r.question.actor].organization in {"", a.organization}
    ensures Drift(a, reg.organization.value, reg.revision.value, Find(reg.roles, r.question.actor), r) != None
  {
    TwoPoliciesAgree(a, reg, r);
  }

  /** A grants key written with surrounding space makes its trimmed name a known authority whose grants are
      never found: unless the trimmed key is also present, every capability needing no approval is denied. */
  lemma PaddedGrantsAreLost(a: Authorizer, reg: Registry, q: Question, key: string)
    requires Built(a) && key in a.matrix.grants && Trim(key) !in a.matrix.grants
    requires q.actor in reg.roles && Trim(reg.roles[q.actor].authorityClass) == Trim(key)
    ensures Trim(key) in a.authorities
    ensures Evaluate(a, reg, q).effect != Allow
  {
    assert Entries(a.matrix.grants, Trim(key)) == [];
    NeverGranted(a, reg, q);
  }

  lemma NeverGranted(a: Authorizer, reg: Registry, q: Question)
    requires q.actor in reg.roles && !Granted(a, Trim(reg.roles[q.actor].authorityClass), q.capability)
    ensures Evaluate(a, reg, q).effect != Allow
  {
  }

  /** Some key that trims to this authority lists the capability, or everything. */
  ghost predicate ListedFor(grants: map<string, seq<string>>, authority: string, capability: string) {
    exists key | key in grants :: Trim(key) == authority && (capability in grants[key] || "*" in grants[key])
  }

  /** Every class, as evaluation trims it, is granted what its entry lists. */
  ghost predicate Honoured(a: Authorizer) {
    forall name: string, c: string ::
      Granted(a, Trim(name), c) <==> ListedFor(a.matrix.grants, Trim(name), c)
  }

  /** What any key lists is also listed under the key's trimmed spelling. */
  ghost predicate Repeated(grants: map<string, seq<string>>) {
    forall k, g | k in grants && g in grants[k] ::
      g in Entries(grants, Trim(k)) || "*" in Entries(grants, Trim(k))
  }

  lemma RepeatedIsHonoured(a: Authorizer, name: string, c: string)
    requires Repeated(a.matrix.grants)
    ensures Granted(a, Trim(name), c) <==> ListedFor(a.matrix.grants, Trim(name), c)
  {
    var grants, authority := a.matrix.grants, Trim(name);
    TrimTwice(name);
    if Granted(a, authority, c) {
      assert authority in grants && Trim(authority) == authority;
    }
    if ListedFor(grants, authority, c) {
      var key :| key in grants && Trim(key) == authority && (c in grants[key] || "*" in grants[key]);
      assert c in grants[key] ==> c in Entries(grants, Trim(key)) || "*" in Entries(grants, Trim(key));
      assert "*" in grants[key] ==> "*" in Entries(grants, Trim(key));
    }
  }

  /** For every matrix: each class is granted exactly what the keys of its authority list, if and only if whatever
      a key with surrounding space lists is also listed under the key without it. */
  lemma GrantsHonouredIff(a: Authorizer)
    ensures Honoured(a) <==>
            forall k, g | k in a.matrix.grants && Trim(k) != k && g in a.matrix.grants[k] ::
              g in Entries(a.matrix.grants, Trim(k)) || "*" in Entries(a.matrix.grants, Trim(k))
  {
    var grants := a.matrix.grants;
    if Repeated(grants) {
      forall name: string, c: string ensures Granted(a, Trim(name), c) <==> ListedFor(grants, Trim(name), c) {
        RepeatedIsHonoured(a, name, c);
      }
    } else {
      var k, g :| k in grants && g in grants[k]
                  && !(g in Entries(grants, Trim(k)) || "*" in Entries(grants, Trim(k)));
      assert Trim(k) != k;
      assert ListedFor(grants, Trim(k), g);
      assert !Granted(a, Trim(k), g);
    }
  }
}
