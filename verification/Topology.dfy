/** Which role may message which (internal/agentmessaging/topology.go). */
module Topology {
  import opened Prelude
  import opened Text

  const CEO := "empresa/ceo"

  datatype Role = Role(organization: string, enabled: bool, canonicalLeader: bool, unit: string)

  /** What the registry answers: roles by id, the units, each unit's leader and workers. A missing
      entry is a lookup that fails. */
  datatype Registry = Registry(organization: string, roles: map<string, Role>, units: seq<string>,
                               leaders: map<string, string>, workers: map<string, seq<string>>)

  datatype Verdict = Accepted | Refused

  /** A role of this organization, known and enabled. */
  predicate Participant(reg: Registry, id: string) {
    && id in reg.roles
    && (reg.roles[id].organization == "" || reg.roles[id].organization == reg.organization)
    && reg.roles[id].enabled
  }

  predicate LeadsSomeUnit(reg: Registry, id: string) {
    exists i | 0 <= i < |reg.units| :: reg.units[i] in reg.leaders && reg.leaders[reg.units[i]] == id
  }

  predicate UnitHasWorker(reg: Registry, unit: string, id: string) {
    unit != "" && id != "" && unit in reg.workers && id in reg.workers[unit]
  }

  function ValidateEdge(reg: Registry, senderRole: string, recipientRole: string): Verdict {
    var sender, recipient := Trim(senderRole), Trim(recipientRole);
    if sender == "" || recipient == "" then Refused
    else if !Participant(reg, sender) || !Participant(reg, recipient) then Refused
    else if sender == recipient then Refused
    else if sender == CEO then
      if LeadsSomeUnit(reg, recipient) then Accepted else Refused
    else
      var from := reg.roles[sender];
      if from.canonicalLeader then
        if from.unit == "" then Refused
        else if UnitHasWorker(reg, from.unit, recipient) then Accepted
        else if recipient == CEO then Accepted
        else Refused
      else if from.unit == "" then Refused
      else if from.unit !in reg.leaders then Refused
      else if reg.leaders[from.unit] == recipient then Accepted
      else Refused
  }

  /** A unit's leader and workers belong to that unit. */
  ghost predicate Coherent(reg: Registry) {
    && (forall u | u in reg.leaders :: reg.leaders[u] in reg.roles && reg.roles[reg.leaders[u]].unit == u)
    && (forall u, i | u in reg.workers && 0 <= i < |reg.workers[u]| ::
          reg.workers[u][i] in reg.roles && reg.roles[reg.workers[u][i]].unit == u)
  }

  /** A chain of messages, each accepted, from the first role to the last. */
  ghost predicate Chain(reg: Registry, path: seq<string>) {
    forall i | 0 <= i < |path| - 1 :: ValidateEdge(reg, path[i], path[i + 1]) == Accepted
  }

  ghost predicate AvoidsCEO(path: seq<string>) {
    forall i | 0 <= i < |path| :: Trim(path[i]) != CEO
  }

  function UnitOf(reg: Registry, id: string): Option<string> {
    if Trim(id) in reg.roles then Some(reg.roles[Trim(id)].unit) else None
  }

  lemma EdgeStaysInUnit(reg: Registry, sender: string, recipient: string)
    requires Coherent(reg) && ValidateEdge(reg, sender, recipient) == Accepted
    requires Trim(sender) != CEO && Trim(recipient) != CEO
    ensures UnitOf(reg, sender).Some? && UnitOf(reg, sender) == UnitOf(reg, recipient)
  {
    var unit, id := reg.roles[Trim(sender)].unit, Trim(recipient);
    if reg.roles[Trim(sender)].canonicalLeader {
      var i :| 0 <= i < |reg.workers[unit]| && reg.workers[unit][i] == id;
    }
  }

  /** A chain of accepted messages that never touches the CEO stays inside one unit. */
  lemma {:induction false} ChainStaysInUnit(reg: Registry, path: seq<string>)
    requires Coherent(reg) && Chain(reg, path) && AvoidsCEO(path) && |path| >= 2
    ensures UnitOf(reg, path[0]).Some? && UnitOf(reg, path[0]) == UnitOf(reg, path[|path| - 1])
  {
    EdgeStaysInUnit(reg, path[0], path[1]);
    if |path| > 2 {
      var rest := path[1..];
      forall i | 0 <= i < |rest| - 1 ensures ValidateEdge(reg, rest[i], rest[i + 1]) == Accepted {
        assert rest[i] == path[i + 1] && rest[i + 1] == path[i + 2];
      }
      ChainStaysInUnit(reg, rest);
    }
  }

  /** So a chain between roles of different units passes through the CEO. */
  lemma CrossUnitChainPassesCEO(reg: Registry, path: seq<string>)
    requires Coherent(reg) && Chain(reg, path) && |path| >= 2
    requires UnitOf(reg, path[0]) != UnitOf(reg, path[|path| - 1])
    ensures exists i | 0 <= i < |path| :: Trim(path[i]) == CEO
  {
    if AvoidsCEO(path) { ChainStaysInUnit(reg, path); }
  }

  /** And the CEO is enough: a worker of one unit reaches a worker of another through the two leaders
      and the CEO, with every message accepted. */
  lemma CEOConnectsUnits(reg: Registry, a: string, b: string)
    requires Coherent(reg) && Participant(reg, a) && Participant(reg, b) && Participant(reg, CEO)
    requires Trim(a) == a != "" && Trim(b) == b != "" && CEO != a && CEO != b
    requires var u, v := reg.roles[a].unit, reg.roles[b].unit;
             && u != "" && v != "" && u in reg.leaders && v in reg.leaders && v in reg.units
             && UnitHasWorker(reg, v, b) && !reg.roles[a].canonicalLeader
             && Participant(reg, reg.leaders[u]) && reg.roles[reg.leaders[u]].canonicalLeader
             && Participant(reg, reg.leaders[v]) && reg.roles[reg.leaders[v]].canonicalLeader
             && Trim(reg.leaders[u]) == reg.leaders[u] != "" && Trim(reg.leaders[v]) == reg.leaders[v] != ""
             && reg.leaders[u] != CEO && reg.leaders[v] != CEO && reg.leaders[u] != a && reg.leaders[v] != b
    ensures Chain(reg, [a, reg.leaders[reg.roles[a].unit], CEO, reg.leaders[reg.roles[b].unit], b])
  {
    TrimTwice(CEO);
    assert CEO[0] == 'e' && CEO[|CEO| - 1] == 'o';
    var v := reg.roles[b].unit;
    var i :| 0 <= i < |reg.units| && reg.units[i] == v;
    assert LeadsSomeUnit(reg, reg.leaders[v]);
  }

  /** Which messages are accepted, exactly: between two different enabled roles of the organization, from the CEO to
      the leader of a unit, from a canonical leader to the CEO or a worker of its own unit, and from anyone else to the
      leader of its own unit. */
  lemma EdgeExact(reg: Registry, senderRole: string, recipientRole: string)
    ensures var sender, recipient := Trim(senderRole), Trim(recipientRole);
            ValidateEdge(reg, senderRole, recipientRole) == Accepted <==>
            && sender != "" && recipient != "" && sender != recipient
            && sender in reg.roles && recipient in reg.roles
            && reg.roles[sender].enabled && reg.roles[recipient].enabled
            && reg.roles[sender].organization in {"", reg.organization}
            && reg.roles[recipient].organization in {"", reg.organization}
            && var from := reg.roles[sender];
            if sender == "empresa/ceo" then
              exists i | 0 <= i < |reg.units| :: reg.units[i] in reg.leaders && reg.leaders[reg.units[i]] == recipient
            else
              && from.unit != ""
              && if from.canonicalLeader
                 then recipient == "empresa/ceo" || (from.unit in reg.workers && recipient in reg.workers[from.unit])
                 else from.unit in reg.leaders && reg.leaders[from.unit] == recipient
  {
  }
}
