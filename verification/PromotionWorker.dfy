/** The promotion worker as the imperative loop it is: every durable action a statement, other actors between any two of
    them, and a stop possible anywhere (cmd/orgctl/program_budget.go, internal/staging/gitexec/backend.go). */
module PromotionWorker {
  import opened Prelude
  import opened ProgramPromotion

  lemma NoteKeeps(s: State, p: nat, o: Outcome)
    requires Inv(s) && s.at.Idle?
    requires Terminal(o) ==> !Has(s, p, SmokePassed) && !Has(s, p, RolledBack)
    ensures Inv(Note(s, p, o)) && Extends(s, Note(s, p, o)) && Has(Note(s, p, o), p, o)
  {
    var t := Note(s, p, o);
    LogsStay(s, t);
    assert t.receipts[|s.receipts|] == Receipt(p, o);
    if Terminal(o) {
      forall i | 0 <= i < |s.receipts| ensures !(s.receipts[i].promotion == p && Terminal(s.receipts[i].outcome)) {
        assert s.receipts[i] in s.receipts;
      }
    }
  }

  lemma WriteKeeps(s: State, p: nat, back: bool)
    requires Inv(s) && s.at.Idle? && p in s.promotions && Has(s, p, Pending)
    ensures Inv(Write(s, p, s.promotions[p], back)) && Extends(s, Write(s, p, s.promotions[p], back))
  {
    var t := Write(s, p, s.promotions[p], back);
    LogsStay(s, t);
    var i :| 0 <= i < |s.receipts| && s.receipts[i] == Receipt(p, Pending);
    assert NotedBefore(s.receipts, |s.receipts|, p, Pending);
    NewStays(s, t);
  }

  lemma ExtendsThrough(s: State, t: State, u: State)
    requires Extends(s, t) && Extends(t, u)
    ensures Extends(s, u)
  {
  }

  /** Applied under a pending receipt and not judged yet. */
  predicate Awaits(s: State, p: nat) {
    Has(s, p, Pending) && !Verdict(s, p)
  }

  lemma HasStays(s: State, t: State, p: nat, o: Outcome)
    requires Extends(s, t) && Has(s, p, o)
    ensures Has(t, p, o)
  {
    var i :| 0 <= i < |s.receipts| && s.receipts[i] == Receipt(p, o);
    assert t.receipts[i] == Receipt(p, o);
  }

  predicate Verdict(s: State, p: nat) {
    Has(s, p, SmokePassed) || Has(s, p, RolledBack)
  }

  lemma VerdictStays(s: State, t: State, p: nat)
    requires Extends(s, t) && Verdict(s, p)
    ensures Verdict(t, p)
  {
    if Has(s, p, SmokePassed) { HasStays(s, t, p, SmokePassed); } else { HasStays(s, t, p, RolledBack); }
  }

  /** The promotion's ref is where its swap, forward or back, means to put it. */
  predicate AtGoal(s: State, p: nat, back: bool) {
    p in s.promotions
    && At(s.refs, s.promotions[p].ref) == Some(if back then s.promotions[p].base else s.promotions[p].candidate)
  }

  /** Moves logged between the two are all of promotion p. */
  ghost predicate MovesOf(a: seq<RefMove>, b: seq<RefMove>, p: nat) {
    a <= b && forall i | |a| <= i < |b| :: b[i].promotion == p
  }

  /** Receipts are the worker's alone: other actors create and shift promotions and move refs. */
  ghost predicate Others(s: State, t: State) {
    Extends(s, t) && t.receipts == s.receipts && t.moves == s.moves && t.smokes == s.smokes && t.at == s.at
  }

  lemma MovesAreNoted(s: State, p: nat, from: nat)
    requires Inv(s) && from <= |s.moves| && forall i | from <= i < |s.moves| :: s.moves[i].promotion == p
    ensures forall i | from <= i < |s.moves| :: NotedBefore(s.receipts, s.moves[i].before, p, Pending)
  {
    assert forall i | from <= i < |s.moves| :: MoveOk(s, s.moves[i]);
  }

  /** Other actors having written these refs, the promotion's own is at its base or its candidate. */
  ghost predicate Swappable(s: State, during: map<string, string>, p: nat)
    requires p in s.promotions
  {
    var pr := s.promotions[p];
    At(s.refs + during, pr.ref) == Some(pr.base) || At(s.refs + during, pr.ref) == Some(pr.candidate)
  }

  /** A move forward follows s if and only if the ref was then at the base and that is not the candidate. */
  ghost predicate MovedForwardIff(s: State, during: map<string, string>, p: nat, moves: seq<RefMove>)
    requires p in s.promotions
  {
    var pr := s.promotions[p];
    (|moves| > |s.moves| && !moves[|s.moves|].back) <==>
    (pr.base != pr.candidate && At(s.refs + during, pr.ref) == Some(pr.base))
  }

  /** Whichever of these was found applied is in the set. */
  ghost predicate Included(came: seq<State>, ps: seq<nat>, carried: set<nat>) {
    forall k | 0 <= k < |came| && k < |ps| && ps[k] in came[k].promotions ::
      came[k].promotions[ps[k]].status == Applied ==> ps[k] in carried
  }

  class Worker {
    var promotions: map<nat, Promotion>
    var refs: map<string, string>
    var receipts: seq<Receipt>
    var moves: seq<RefMove>
    var smokes: seq<Smoke>

    constructor ()
      ensures Abs() == EMPTY && Valid()
    {
      promotions, refs, receipts, moves, smokes := map[], map[], [], [], [];
    }

    function Abs(): State
      reads this
    {
      State(promotions, refs, receipts, moves, smokes, Idle)
    }

    ghost predicate Valid()
      reads this
    {
      Inv(Abs())
    }

    /** Any number of outside steps; since is the last value they gave each ref they wrote. */
    method Interfere() returns (ghost since: map<string, string>)
      requires Valid()
      modifies this`promotions, this`refs
      ensures Valid() && Others(old(Abs()), Abs()) && refs == old(refs) + since
    {
      since := map[];
      var steps: seq<Step> := *;
      var i := 0;
      while i < |steps|
        invariant 0 <= i <= |steps|
        invariant Valid() && Others(old(Abs()), Abs()) && refs == old(refs) + since
      {
        if steps[i].Create? || steps[i].Shift? || steps[i].SetRef? {
          ghost var before := Abs();
          ApplyKeeps(Abs(), steps[i]);
          ApplyExtends(Abs(), steps[i]);
          if steps[i].SetRef? { since := since[steps[i].ref := steps[i].commit]; }
          var next := Apply(Abs(), steps[i]);
          promotions, refs := next.promotions, next.refs;
          ExtendsThrough(old(Abs()), before, Abs());
        }
        i := i + 1;
      }
    }

    /** recordProgramPromotionEvidence: insert unless already there; the write may fail. */
    method Record(p: nat, o: Outcome) returns (ok: bool)
      requires Valid() && (Terminal(o) ==> !Has(Abs(), p, SmokePassed) && !Has(Abs(), p, RolledBack))
      modifies this`receipts
      ensures Valid() && Extends(old(Abs()), Abs())
      ensures ok <==> Has(Abs(), p, o)
      ensures Abs() == old(Abs()) || Abs() == Note(old(Abs()), p, o)
      ensures Has(old(Abs()), p, o) ==> Abs() == old(Abs())
    {
      var i := 0;
      while i < |receipts|
        invariant 0 <= i <= |receipts| && Receipt(p, o) !in receipts[..i]
      {
        if receipts[i] == Receipt(p, o) { return true; }
        i := i + 1;
      }
      ok := *;
      if ok {
        NoteKeeps(Abs(), p, o);
        receipts := receipts + [Receipt(p, o)];
      }
    }

    /** PromoteRef, forward or back: a compare-and-swap that moves the ref only from the value it expects. during is
        what other actors wrote to the refs before it last read its own: applied if and only if that was the expected
        value or the target, and moved if and only if it was the expected one. Applied means the ref is at the target as
        it returns. */
    method PromoteRef(p: nat, back: bool) returns (applied: bool, ghost during: map<string, string>)
      requires Valid() && p in promotions && Has(Abs(), p, Pending)
      modifies this`promotions, this`refs, this`moves
      ensures Valid() && Extends(old(Abs()), Abs()) && receipts == old(receipts)
      ensures applied ==> p in promotions && AtGoal(Abs(), p, back)
      ensures MovesOf(old(moves), moves, p) && |moves| <= |old(moves)| + 1
      ensures forall i | |old(moves)| <= i < |moves| :: moves[i].back == back
      ensures var pr := old(promotions)[p];
              var from, to := if back then pr.candidate else pr.base, if back then pr.base else pr.candidate;
              var seen := At(old(refs) + during, pr.ref);
              && (applied <==> seen == Some(from) || seen == Some(to))
              && (|moves| > |old(moves)| <==> from != to && seen == Some(from))
              && refs == if applied then (old(refs) + during)[pr.ref := to] else old(refs) + during
    {
      var pr := promotions[p];
      var from, to := if back then pr.candidate else pr.base, if back then pr.base else pr.candidate;
      var current := At(refs, pr.ref);
      during := map[];
      assert old(refs) + during == refs;
      if current == Some(to) {
        assert refs == refs[pr.ref := to];
        return true, during;
      }
      if current != Some(from) { return false, during; }
      during := Interfere();
      if At(refs, pr.ref) == Some(from) {
        WriteKeeps(Abs(), p, back);
        ExtendsThrough(old(Abs()), Abs(), Write(Abs(), p, promotions[p], back));
        moves := moves + [RefMove(p, pr.ref, from, to, back, |receipts|)];
        refs := refs[pr.ref := to];
        return true, during;
      }
      applied := At(refs, pr.ref) == Some(to);
      if applied { assert refs == refs[pr.ref := to]; }
    }

    /** reconcileAppliedProgramPromotion: nothing without a pending receipt or with a verdict; otherwise smoke, and
        record the pass, or roll back and record that. held is the moment after the rollback's swap, since what other
        actors then did to the refs before the receipt: the ref was at its base at that moment, and is there when the
        receipt is written exactly if they left it alone or put it back. passed is what the smoke said: smoke-passed is
        written only then, and rolled-back or rollback-failed only otherwise. */
    method Reconcile(p: nat)
      returns (ok: bool, passed: bool, ghost held: State, ghost since: map<string, string>)
      requires Valid() && p in promotions
      modifies this
      ensures Valid() && Extends(old(Abs()), Abs()) && MovesOf(old(moves), moves, p)
      ensures |moves| > |old(moves)| ==> moves[|old(moves)|].back
      ensures !Awaits(old(Abs()), p) ==> ok && Abs() == old(Abs())
      ensures ok && Awaits(old(Abs()), p) ==> Has(Abs(), p, if passed then SmokePassed else RolledBack)
      ensures Awaits(old(Abs()), p) ==> smokes == old(smokes) + [Smoke(p, |old(receipts)|)]
      ensures receipts == old(receipts)
              || (exists o | o in (if passed then {SmokePassed} else {RolledBack, RollbackFailed}) ::
                    receipts == old(receipts) + [Receipt(p, o)])
      ensures Awaits(old(Abs()), p) && Has(Abs(), p, RolledBack) ==>
                Witnessed(held, since, p, true) && moves == held.moves
    {
      held, since, passed := Abs(), map[], false;
      if Receipt(p, Pending) !in receipts { return true, passed, held, since; }
      if Receipt(p, SmokePassed) in receipts || Receipt(p, RolledBack) in receipts {
        return true, passed, held, since;
      }
      passed := RunSmoke(p);
      var _ := Interfere();
      if passed {
        ok := Record(p, SmokePassed);
        return;
      }
      ok, held, since := RollBack(p);
    }

    method RollBack(p: nat) returns (ok: bool, ghost held: State, ghost since: map<string, string>)
      requires Valid() && p in promotions && Awaits(Abs(), p)
      modifies this`promotions, this`refs, this`moves, this`receipts
      ensures Valid() && Extends(old(Abs()), Abs()) && MovesOf(old(moves), moves, p)
      ensures |moves| > |old(moves)| ==> moves[|old(moves)|].back
      ensures ok ==> Has(Abs(), p, RolledBack)
      ensures receipts == old(receipts)
              || receipts == old(receipts) + [Receipt(p, RolledBack)]
              || receipts == old(receipts) + [Receipt(p, RollbackFailed)]
      ensures Has(Abs(), p, RolledBack) ==> Witnessed(held, since, p, true) && moves == held.moves
    {
      var restored, _ := PromoteRef(p, true);
      held := Abs();
      if * { return false, held, map[]; }
      since := Interfere();
      ExtendsThrough(old(Abs()), held, Abs());
      if !restored {
        var noted := Record(p, RollbackFailed);
        return false, held, since;
      }
      ghost var before := Abs();
      ok := Record(p, RolledBack);
      ExtendsThrough(held, before, Abs());
    }

    /** held is a moment of this call with the ref at its goal; since then other actors wrote exactly since, so the ref
        is at its goal now if and only if they did not write it or left it there. */
    ghost predicate Witnessed(held: State, since: map<string, string>, p: nat, back: bool)
      reads this
    {
      && p in promotions && p in held.promotions && Extends(held, Abs()) && AtGoal(held, p, back)
      && refs == held.refs + since
      && var pr := promotions[p];
      && (AtGoal(Abs(), p, back) <==> pr.ref !in since || since[pr.ref] == if back then pr.base else pr.candidate)
    }

    /** The smoke run is logged, and its result is whatever it is. */
    method RunSmoke(p: nat) returns (passed: bool)
      requires Valid() && Has(Abs(), p, Pending)
      modifies this`smokes
      ensures Valid() && Extends(old(Abs()), Abs()) && smokes == old(smokes) + [Smoke(p, |receipts|)]
    {
      ghost var s := Abs();
      smokes := smokes + [Smoke(p, |receipts|)];
      LogsStay(s, Abs());
      ghost var i :| 0 <= i < |s.receipts| && s.receipts[i] == Receipt(p, Pending);
      assert NotedBefore(s.receipts, |s.receipts|, p, Pending);
      NewStays(s, Abs());
      passed := *;
    }

    /** One approved promotion: the pending receipt first, then the swap, then the mark, then the reconciliation; an
        apply that fails leaves its receipt and the round goes on. Every move made has the pending receipt before it,
        and a promotion that was applied comes out with a verdict unless the worker stops. came is when the apply looks
        at the promotion, during what other actors then did to the refs. */
    method ApplyOne(p: nat) returns (ok: bool, applied: bool, ghost came: State, ghost during: map<string, string>)
      requires Valid() && p in promotions
      modifies this
      ensures Valid() && Extends(old(Abs()), Abs()) && MovesOf(old(moves), moves, p)
      ensures forall i | |old(moves)| <= i < |moves| :: NotedBefore(receipts, moves[i].before, p, Pending)
      ensures ok || applied ==> Has(Abs(), p, Pending)
      ensures ok && applied ==> Verdict(Abs(), p)
      ensures !applied ==> smokes == old(smokes) && |receipts| <= |old(receipts)| + 2
      ensures p in came.promotions && came.moves == old(moves)
      ensures Has(Abs(), p, Pending) && came.promotions[p].status == Approved ==>
                MovedForwardIff(came, during, p, moves)
      ensures ok && came.promotions[p].status == Applied ==> applied
    {
      applied, came, during := false, Abs(), map[];
      ok := Record(p, Pending);
      if !ok { return; }
      ghost var noted := Abs();
      var _ := Interfere();
      ExtendsThrough(old(Abs()), noted, Abs());
      came := Abs();
      ok, applied, during := ApplyThenJudge(p);
      ExtendsThrough(old(Abs()), came, Abs());
      HasStays(noted, Abs(), p, Pending);
      MovesAreNoted(Abs(), p, |old(moves)|);
    }

    method ApplyThenJudge(p: nat) returns (ok: bool, applied: bool, ghost during: map<string, string>)
      requires Valid() && p in promotions && Has(Abs(), p, Pending)
      modifies this
      ensures Valid() && Extends(old(Abs()), Abs()) && MovesOf(old(moves), moves, p)
      ensures ok && applied ==> Verdict(Abs(), p)
      ensures !applied ==> smokes == old(smokes) && |receipts| <= |old(receipts)| + 1
      ensures old(promotions)[p].status == Approved ==> MovedForwardIff(old(Abs()), during, p, moves)
      ensures ok && old(promotions)[p].status == Applied ==> applied
    {
      var noted;
      ok, applied, noted, during := ApplyPromotion(p);
      if !ok || !applied { return; }
      ghost var swapped := Abs();
      HasStays(old(Abs()), swapped, p, Pending);
      ok := ReconcileNext(p);
      ExtendsThrough(old(Abs()), swapped, Abs());
    }

    /** ApplyPromotion: a promotion already applied is returned as it is; one that is not approved, whose ref has moved
        or that cannot be marked fails with an apply-failed receipt. noted says whether that receipt could be
        written. */
    method ApplyPromotion(p: nat) returns (ok: bool, applied: bool, noted: bool, ghost during: map<string, string>)
      requires Valid() && p in promotions && Has(Abs(), p, Pending)
      modifies this
      ensures Valid() && Extends(old(Abs()), Abs()) && MovesOf(old(moves), moves, p)
      ensures applied ==> promotions[p].status == Applied && receipts == old(receipts)
      ensures smokes == old(smokes)
      ensures var status := old(promotions)[p].status;
              && (status == Applied ==> ok && applied && Abs() == old(Abs()))
              && (status !in {Approved, Applied} ==> ok && !applied && moves == old(moves))
              && (status == Approved ==>
                    && MovedForwardIff(old(Abs()), during, p, moves)
                    && (applied ==> Swappable(old(Abs()), during, p)))
      ensures receipts == old(receipts) || receipts == old(receipts) + [Receipt(p, ApplyFailed)]
      ensures ok && !applied ==> (noted <==> Has(Abs(), p, ApplyFailed))
    {
      ok, applied, noted, during := true, promotions[p].status == Applied, false, map[];
      if promotions[p].status == Approved {
        var swapped, marked, between, _, _ := Swap(p);
        applied, during := swapped, between;
        if * { return false, false, false, during; }
      }
      if !applied {
        ghost var failed := Abs();
        var _ := Interfere();
        ExtendsThrough(old(Abs()), failed, Abs());
        ghost var before := Abs();
        noted := Record(p, ApplyFailed);
        ExtendsThrough(old(Abs()), before, Abs());
      }
    }

    /** The apply itself: swap the ref, then mark the promotion applied, or conflicted if the ref had moved; it is
        applied if and only if the swap found the ref at base or candidate and the mark was made. held is the moment
        after the swap and before the mark, with every move of the call made. */
    method Swap(p: nat)
      returns (applied: bool, marked: bool, ghost during: map<string, string>, ghost held: State,
               ghost since: map<string, string>)
      requires Valid() && p in promotions && Has(Abs(), p, Pending)
      modifies this`promotions, this`refs, this`moves
      ensures Valid() && Extends(old(Abs()), Abs()) && receipts == old(receipts)
      ensures MovesOf(old(moves), moves, p) && moves == held.moves
              && forall i | |old(moves)| <= i < |moves| :: !moves[i].back
      ensures applied ==> p in promotions && promotions[p].status == Applied && Witnessed(held, since, p, false)
      ensures MovedForwardIff(old(Abs()), during, p, moves)
      ensures applied <==> marked && Swappable(old(Abs()), during, p)
      ensures marked && !applied ==> p in promotions && promotions[p].status == Conflicted
    {
      applied, during := PromoteRef(p, false);
      held, since, marked := Abs(), map[], false;
      if * { return false, false, during, held, since; }
      since := Interfere();
      ExtendsThrough(old(Abs()), held, Abs());
      ghost var before := Abs();
      marked := Mark(p, if applied then Applied else Conflicted);
      ExtendsThrough(old(Abs()), before, Abs());
      ExtendsThrough(held, before, Abs());
      applied := applied && marked;
    }

    /** A status moves to the target, or is there already, or the mark is refused and nothing changes. */
    method Mark(p: nat, to: Status) returns (ok: bool)
      requires Valid() && p in promotions
      modifies this`promotions
      ensures Valid() && Extends(old(Abs()), Abs())
      ensures ok <==> old(promotions)[p].status == to || CanTransition(old(promotions)[p].status, to)
      ensures promotions == if ok then old(promotions)[p := old(promotions)[p].(status := to)] else old(promotions)
    {
      var s := Abs();
      ApplyKeeps(s, Shift(p, to));
      ApplyExtends(s, Shift(p, to));
      ok := promotions[p].status == to || CanTransition(promotions[p].status, to);
      promotions := Apply(s, Shift(p, to)).promotions;
    }

    /** One round of the worker: first the applied promotions left without a verdict, then the approved ones; carried
        are those it applied. A round that runs through leaves every approved promotion with its pending receipt, and
        neither those it applied nor any listed applied promotion with that receipt unjudged. came is when each approved
        promotion was looked at: one that was applied by then is among those carried. */
    method Round(applied: seq<nat>, approved: seq<nat>)
      returns (ok: bool, carried: set<nat>, ghost came: seq<State>)
      requires Valid() && (forall p | p in applied + approved :: p in promotions)
      modifies this
      ensures Valid() && Extends(old(Abs()), Abs())
      ensures ok ==> forall p | p in applied && Has(old(Abs()), p, Pending) :: Verdict(Abs(), p)
      ensures ok ==> forall p | p in approved :: Has(Abs(), p, Pending)
      ensures ok ==> forall p | p in carried :: p in approved && Verdict(Abs(), p)
      ensures ok ==> |came| == |approved| && Included(came, approved, carried)
    {
      carried, came := {}, [];
      assert forall p | p in applied || p in approved :: p in applied + approved;
      ok := Recovery(applied);
      if !ok { return; }
      ghost var recovered := Abs();
      ok, carried, came := ApplyAll(approved);
      ExtendsThrough(old(Abs()), recovered, Abs());
      forall p | p in applied && Has(old(Abs()), p, Pending) ensures Verdict(Abs(), p) {
        VerdictStays(recovered, Abs(), p);
      }
    }

    /** The second loop. */
    method ApplyAll(approved: seq<nat>) returns (ok: bool, carried: set<nat>, ghost came: seq<State>)
      requires Valid() && (forall p | p in approved :: p in promotions)
      modifies this
      ensures Valid() && Extends(old(Abs()), Abs())
      ensures ok ==> forall p | p in approved :: Has(Abs(), p, Pending)
      ensures ok ==> forall p | p in carried :: p in approved && Verdict(Abs(), p)
      ensures ok ==> |came| == |approved| && Included(came, approved, carried)
    {
      ok, carried, came := true, {}, [];
      var i := 0;
      while i < |approved|
        invariant 0 <= i <= |approved| && ok
        invariant Valid() && Extends(old(Abs()), Abs())
        invariant forall k | 0 <= k < i :: Has(Abs(), approved[k], Pending)
        invariant forall p | p in carried :: p in approved && Verdict(Abs(), p)
        invariant |came| == i && Included(came, approved, carried)
      {
        ghost var before := Abs();
        assert approved[i] in approved;
        var done;
        ghost var looked;
        ok, done, looked := ApplyNext(approved[i]);
        ExtendsThrough(old(Abs()), before, Abs());
        if !ok { return; }
        forall k | 0 <= k < i ensures Has(Abs(), approved[k], Pending) {
          HasStays(before, Abs(), approved[k], Pending);
        }
        forall p | p in carried ensures Verdict(Abs(), p) { VerdictStays(before, Abs(), p); }
        if done { carried := carried + {approved[i]}; }
        came := came + [looked];
        i := i + 1;
      }
    }

    /** One turn of each loop, other actors first. */
    method ApplyNext(p: nat) returns (ok: bool, applied: bool, ghost came: State)
      requires Valid() && p in promotions
      modifies this
      ensures Valid() && Extends(old(Abs()), Abs())
      ensures ok ==> Has(Abs(), p, Pending)
      ensures ok && applied ==> Verdict(Abs(), p)
      ensures p in came.promotions && (ok && came.promotions[p].status == Applied ==> applied)
    {
      var _ := Interfere();
      ghost var before := Abs();
      ghost var during;
      ok, applied, came, during := ApplyOne(p);
      ExtendsThrough(old(Abs()), before, Abs());
    }

    method ReconcileNext(p: nat) returns (ok: bool)
      requires Valid() && p in promotions
      modifies this
      ensures Valid() && Extends(old(Abs()), Abs()) && MovesOf(old(moves), moves, p)
      ensures |moves| > |old(moves)| ==> moves[|old(moves)|].back
      ensures ok && Has(old(Abs()), p, Pending) ==> Verdict(Abs(), p)
    {
      var _ := Interfere();
      ghost var before := Abs();
      var judged, _, _, _ := Reconcile(p);
      ok := judged;
      ExtendsThrough(old(Abs()), before, Abs());
    }

    /** The first loop: every applied promotion with a pending receipt is judged, unless the worker stops. */
    method Recovery(applied: seq<nat>) returns (ok: bool)
      requires Valid() && (forall p | p in applied :: p in promotions)
      modifies this
      ensures Valid() && Extends(old(Abs()), Abs())
      ensures ok ==> forall p | p in applied && Has(old(Abs()), p, Pending) :: Verdict(Abs(), p)
    {
      var i := 0;
      while i < |applied|
        invariant 0 <= i <= |applied|
        invariant Valid() && Extends(old(Abs()), Abs())
        invariant forall k | 0 <= k < i && Has(old(Abs()), applied[k], Pending) :: Verdict(Abs(), applied[k])
      {
        ghost var before := Abs();
        assert applied[i] in applied;
        ok := ReconcileNext(applied[i]);
        ExtendsThrough(old(Abs()), before, Abs());
        if !ok { return; }
        forall k | 0 <= k < i && Has(old(Abs()), applied[k], Pending) ensures Verdict(Abs(), applied[k]) {
          VerdictStays(before, Abs(), applied[k]);
        }
        if Has(old(Abs()), applied[i], Pending) { HasStays(old(Abs()), before, applied[i], Pending); }
        i := i + 1;
      }
      ok := true;
    }
  }
}
