/** What the promotion worker does with one promotion, start to finish, for every state it may find: applied and
    passed, applied and rolled back, in conflict, stuck, or refused (cmd/orgctl/program_budget.go,
    internal/staging/service.go). */
module PromotionLaws {
  import opened Prelude
  import opened ProgramPromotion

  lemma TransitionsExact(from: Status, to: Status)
    ensures CanTransition(from, to) <==>
            || (from == Requested && to in {AwaitingGates, Cancelled, Failed})
            || (from == AwaitingGates && to in {Approved, Rejected, Cancelled, Failed})
            || (from == Approved && to in {Applied, Conflicted, Failed, Cancelled})
  {
  }

  /** An approved promotion the idle worker has never touched, with its ref at its base. */
  ghost predicate Fresh(s: State, p: nat) {
    && s.at == Idle && p in s.promotions && s.promotions[p].status == Approved
    && (forall o: Outcome :: Receipt(p, o) !in s.receipts)
    && s.promotions[p].base != s.promotions[p].candidate
  }

  function RefOf(s: State, p: nat): Option<string>
    requires p in s.promotions
  {
    At(s.refs, s.promotions[p].ref)
  }

  /** The pending receipt is durable and the apply has begun. */
  function Begun(s: State, p: nat): State {
    s.(receipts := s.receipts + [Receipt(p, Pending)], at := Applying(p))
  }

  lemma Begins(s: State, p: nat)
    requires Fresh(s, p)
    ensures Run(s, [Take(p), Act(true), Act(true)]) == Begun(s, p)
  {
    FollowTrace([s, s.(at := Checking(p)), s.(at := Recording(p)), Begun(s, p)], [Take(p), Act(true), Act(true)]);
  }

  /** Swapped and marked: the ref at the candidate, the move logged behind the receipt, the status applied. */
  function Done(s: State, p: nat, at: Place): State
    requires p in s.promotions
  {
    var pr := s.promotions[p];
    s.(promotions := s.promotions[p := pr.(status := Applied)], refs := s.refs[pr.ref := pr.candidate],
       moves := s.moves + [RefMove(p, pr.ref, pr.base, pr.candidate, false, |s.receipts|)], at := at)
  }

  lemma Applies(s: State, p: nat)
    requires s.at == Applying(p) && p in s.promotions && s.promotions[p].status == Approved
    requires RefOf(s, p) == Some(s.promotions[p].base) && s.promotions[p].base != s.promotions[p].candidate
    ensures Run(s, [Act(true), Act(true), Act(true)]) == Done(s, p, Reconciling(p))
  {
    var pr := s.promotions[p];
    var swapped := Done(s, p, Marking(p)).(promotions := s.promotions);
    FollowTrace([s, s.(at := Swapping(p)), swapped, Done(s, p, Reconciling(p))], [Act(true), Act(true), Act(true)]);
  }

  lemma BegunThenApplied(s: State, p: nat)
    requires Fresh(s, p) && RefOf(s, p) == Some(s.promotions[p].base)
    ensures Run(s, [Take(p), Act(true), Act(true)] + [Act(true), Act(true), Act(true)])
            == Done(Begun(s, p), p, Reconciling(p))
  {
    Begins(s, p);
    Applies(Begun(s, p), p);
    RunSplit(s, [Take(p), Act(true), Act(true)], [Act(true), Act(true), Act(true)]);
  }

  /** A promotion whose smoke passes: pending, moved to the candidate, applied, smoke-passed, in that order, and
      nothing else. */
  lemma PassesThrough(s: State, p: nat) returns (steps: seq<Step>)
    requires Fresh(s, p) && RefOf(s, p) == Some(s.promotions[p].base)
    ensures var t := Run(s, steps);
            var pr := s.promotions[p];
            && t.receipts == s.receipts + [Receipt(p, Pending), Receipt(p, SmokePassed)]
            && t.moves == s.moves + [RefMove(p, pr.ref, pr.base, pr.candidate, false, |s.receipts| + 1)]
            && t.smokes == s.smokes + [Smoke(p, |s.receipts| + 1)]
            && t.refs == s.refs[pr.ref := pr.candidate]
            && t.promotions == s.promotions[p := pr.(status := Applied)] && t.at == Idle
  {
    var first := [Take(p), Act(true), Act(true)] + [Act(true), Act(true), Act(true)];
    BegunThenApplied(s, p);
    var u := Done(Begun(s, p), p, Reconciling(p));
    Judged(s, p);
    var smoked := u.(smokes := u.smokes + [Smoke(p, |u.receipts|)], at := Passing(p));
    var last := Note(smoked, p, SmokePassed).(at := Idle);
    FollowTrace([u, u.(at := Smoking(p)), smoked, last], [Act(true), Act(true), Act(true)]);
    RunSplit(s, first, [Act(true), Act(true), Act(true)]);
    steps := first + [Act(true), Act(true), Act(true)];
    assert s.receipts + [Receipt(p, Pending)] + [Receipt(p, SmokePassed)]
           == s.receipts + [Receipt(p, Pending), Receipt(p, SmokePassed)];
  }

  /** What the reconciliation asks of the receipts. */
  lemma Judged(s: State, p: nat)
    requires Fresh(s, p)
    ensures var u := Done(Begun(s, p), p, Reconciling(p));
            Has(u, p, Pending) && !Has(u, p, SmokePassed) && !Has(u, p, RolledBack)
  {
    var u := Done(Begun(s, p), p, Reconciling(p));
    assert u.receipts[|s.receipts|] == Receipt(p, Pending);
  }

  /** One whose smoke fails, its ref still at the candidate: moved back, rolled-back, and nothing else. */
  lemma RollsBack(s: State, p: nat) returns (steps: seq<Step>)
    requires Fresh(s, p) && RefOf(s, p) == Some(s.promotions[p].base)
    ensures var t := Run(s, steps);
            var pr := s.promotions[p];
            && t.receipts == s.receipts + [Receipt(p, Pending), Receipt(p, RolledBack)]
            && t.moves == s.moves + [RefMove(p, pr.ref, pr.base, pr.candidate, false, |s.receipts| + 1),
                                     RefMove(p, pr.ref, pr.candidate, pr.base, true, |s.receipts| + 1)]
            && At(t.refs, pr.ref) == Some(pr.base)
            && t.promotions == s.promotions[p := pr.(status := Applied)] && t.at == Idle
  {
    var first := [Take(p), Act(true), Act(true)] + [Act(true), Act(true), Act(true)];
    BegunThenApplied(s, p);
    Judged(s, p);
    var u := Done(Begun(s, p), p, Reconciling(p));
    var rest := [Act(true), Act(false), Act(true), Act(true), Act(true)];
    Restores(u, p);
    RunSplit(s, first, rest);
    steps := first + rest;
    var pr := s.promotions[p];
    assert s.receipts + [Receipt(p, Pending)] + [Receipt(p, RolledBack)]
           == s.receipts + [Receipt(p, Pending), Receipt(p, RolledBack)];
    assert Run(s, steps).moves == s.moves + [RefMove(p, pr.ref, pr.base, pr.candidate, false, |s.receipts| + 1),
                                             RefMove(p, pr.ref, pr.candidate, pr.base, true, |s.receipts| + 1)];
  }

  lemma MovesBack(s: State, p: nat)
    requires s.at == Returning(p) && p in s.promotions && s.promotions[p].base != s.promotions[p].candidate
    requires RefOf(s, p) == Some(s.promotions[p].candidate)
    ensures var t := Run(s, [Act(true), Act(true), Act(true)]);
            var pr := s.promotions[p];
            && t.receipts == s.receipts + [Receipt(p, RolledBack)] && t.promotions == s.promotions && t.at == Idle
            && t.moves == s.moves + [RefMove(p, pr.ref, pr.candidate, pr.base, true, |s.receipts|)]
            && t.refs == s.refs[pr.ref := pr.base] && t.smokes == s.smokes
  {
    var pr := s.promotions[p];
    var moved := s.(refs := s.refs[pr.ref := pr.base],
                    moves := s.moves + [RefMove(p, pr.ref, pr.candidate, pr.base, true, |s.receipts|)]);
    assert Apply(s.(at := Unswapping(p)), Act(true)) == moved.(at := Restored(p));
    FollowTrace([s, s.(at := Unswapping(p)), moved.(at := Restored(p)), Note(moved, p, RolledBack).(at := Idle)],
                [Act(true), Act(true), Act(true)]);
  }

  lemma Restores(s: State, p: nat)
    requires s.at == Reconciling(p) && p in s.promotions && s.promotions[p].base != s.promotions[p].candidate
    requires Has(s, p, Pending) && !Has(s, p, SmokePassed) && !Has(s, p, RolledBack)
    requires RefOf(s, p) == Some(s.promotions[p].candidate)
    ensures var t := Run(s, [Act(true), Act(false), Act(true), Act(true), Act(true)]);
            var pr := s.promotions[p];
            && t.receipts == s.receipts + [Receipt(p, RolledBack)] && t.promotions == s.promotions && t.at == Idle
            && t.moves == s.moves + [RefMove(p, pr.ref, pr.candidate, pr.base, true, |s.receipts|)]
            && t.refs == s.refs[pr.ref := pr.base]
  {
    var smoked := s.(smokes := s.smokes + [Smoke(p, |s.receipts|)], at := Returning(p));
    FollowTrace([s, s.(at := Smoking(p)), smoked], [Act(true), Act(false)]);
    MovesBack(smoked, p);
    RunSplit(s, [Act(true), Act(false)], [Act(true), Act(true), Act(true)]);
    assert [Act(true), Act(false)] + [Act(true), Act(true), Act(true)]
           == [Act(true), Act(false), Act(true), Act(true), Act(true)];
  }

  /** One whose ref is neither at base nor candidate: marked conflicted, apply-failed, its ref untouched. */
  lemma Conflicts(s: State, p: nat) returns (steps: seq<Step>)
    requires Fresh(s, p) && RefOf(s, p) != Some(s.promotions[p].base) && RefOf(s, p) != Some(s.promotions[p].candidate)
    ensures Run(s, steps) == s.(promotions := s.promotions[p := s.promotions[p].(status := Conflicted)],
                                receipts := s.receipts + [Receipt(p, Pending), Receipt(p, ApplyFailed)])
  {
    var first, rest := [Take(p), Act(true), Act(true)], [Act(true), Act(true), Act(true)];
    Begins(s, p);
    var u := Begun(s, p);
    var marked := u.(promotions := s.promotions[p := s.promotions[p].(status := Conflicted)], at := Failing(p));
    assert !Has(marked, p, ApplyFailed);
    FollowTrace([u, u.(at := Conflicting(p)), marked, Note(marked, p, ApplyFailed).(at := Idle)], rest);
    RunSplit(s, first, rest);
    steps := first + rest;
    assert s.receipts + [Receipt(p, Pending)] + [Receipt(p, ApplyFailed)]
           == s.receipts + [Receipt(p, Pending), Receipt(p, ApplyFailed)];
  }

  /** One whose ref already holds the candidate is marked applied with no move. */
  lemma AlreadyThere(s: State, p: nat) returns (steps: seq<Step>)
    requires Fresh(s, p) && RefOf(s, p) == Some(s.promotions[p].candidate)
    ensures Run(s, steps) == Begun(s, p).(promotions := s.promotions[p := s.promotions[p].(status := Applied)],
                                          at := Reconciling(p))
  {
    var first, rest := [Take(p), Act(true), Act(true)], [Act(true), Act(true)];
    Begins(s, p);
    var u := Begun(s, p);
    FollowTrace([u, u.(at := Marking(p)),
                 u.(promotions := s.promotions[p := s.promotions[p].(status := Applied)], at := Reconciling(p))], rest);
    RunSplit(s, first, rest);
    steps := first + rest;
  }

  /** One that is no longer approved, or whose gate or swap fails, gets an apply-failed receipt and no move. */
  lemma RefusedApply(s: State, p: nat, ok: bool)
    requires s.at == Applying(p) && p in s.promotions && !Has(s, p, ApplyFailed)
    requires s.promotions[p].status != Applied && (s.promotions[p].status != Approved || !ok)
    ensures Run(s, [Act(ok), Act(true)]) == s.(receipts := s.receipts + [Receipt(p, ApplyFailed)], at := Idle)
  {
    FollowTrace([s, s.(at := Failing(p)), Note(s, p, ApplyFailed).(at := Idle)], [Act(ok), Act(true)]);
  }

  /** One found already applied goes straight to its reconciliation. */
  lemma FoundApplied(s: State, p: nat, ok: bool)
    requires s.at == Applying(p) && p in s.promotions && s.promotions[p].status == Applied
    ensures Run(s, [Act(ok)]) == s.(at := Reconciling(p))
  {
    FollowTrace([s, s.(at := Reconciling(p))], [Act(ok)]);
  }

  /** A ref that reaches the candidate between the look and the swap needs no move. */
  lemma SwapNotNeeded(s: State, p: nat, ok: bool)
    requires s.at == Swapping(p) && p in s.promotions && s.promotions[p].status == Approved
    requires RefOf(s, p) == Some(s.promotions[p].candidate) && s.promotions[p].base != s.promotions[p].candidate
    ensures Run(s, [Act(ok), Act(true)])
            == s.(promotions := s.promotions[p := s.promotions[p].(status := Applied)], at := Reconciling(p))
  {
    FollowTrace([s, s.(at := Marking(p)),
                 s.(promotions := s.promotions[p := s.promotions[p].(status := Applied)], at := Reconciling(p))],
                [Act(ok), Act(true)]);
  }

  /** A ref that others move between the look and the swap is a conflict too, and stays where they put it. */
  lemma LostSwap(s: State, p: nat)
    requires s.at == Swapping(p) && p in s.promotions && s.promotions[p].status == Approved && !Has(s, p, ApplyFailed)
    requires RefOf(s, p) != Some(s.promotions[p].base) && RefOf(s, p) != Some(s.promotions[p].candidate)
    ensures Run(s, [Act(true), Act(true), Act(true)])
            == s.(promotions := s.promotions[p := s.promotions[p].(status := Conflicted)],
                  receipts := s.receipts + [Receipt(p, ApplyFailed)], at := Idle)
  {
    var marked := s.(promotions := s.promotions[p := s.promotions[p].(status := Conflicted)], at := Failing(p));
    FollowTrace([s, s.(at := Conflicting(p)), marked, Note(marked, p, ApplyFailed).(at := Idle)],
                [Act(true), Act(true), Act(true)]);
  }

  /** A swap that fails, or a mark that cannot be written, is an apply-failed too, the ref left where it is. */
  lemma FailedWrite(s: State, p: nat)
    requires (s.at == Swapping(p) || s.at == Marking(p) || s.at == Conflicting(p)) && p in s.promotions
    requires !Has(s, p, ApplyFailed) && (s.at == Swapping(p) ==> RefOf(s, p) == Some(s.promotions[p].base))
    requires s.promotions[p].base != s.promotions[p].candidate
    ensures Run(s, [Act(false), Act(true)]) == s.(receipts := s.receipts + [Receipt(p, ApplyFailed)], at := Idle)
  {
    FollowTrace([s, s.(at := Failing(p)), Note(s, p, ApplyFailed).(at := Idle)], [Act(false), Act(true)]);
  }

  /** A failed smoke whose ref is neither at candidate nor base cannot be undone: rollback-failed, nothing moved. */
  lemma CannotRestore(s: State, p: nat)
    requires s.at == Returning(p) && p in s.promotions && !Has(s, p, RollbackFailed)
    requires RefOf(s, p) != Some(s.promotions[p].base) && RefOf(s, p) != Some(s.promotions[p].candidate)
    ensures Run(s, [Act(true), Act(true)]) == s.(receipts := s.receipts + [Receipt(p, RollbackFailed)], at := Idle)
  {
    FollowTrace([s, s.(at := Stuck(p)), Note(s, p, RollbackFailed).(at := Idle)], [Act(true), Act(true)]);
  }

  /** A rollback that finds the ref back at its base, before or at its swap, moves nothing and is rolled-back; a swap
      back that fails, or finds the ref elsewhere, is rollback-failed. */
  lemma RestoredOrNot(s: State, p: nat, ok: bool)
    requires p in s.promotions && !Has(s, p, RollbackFailed) && s.promotions[p].base != s.promotions[p].candidate
    requires if s.at == Returning(p) then RefOf(s, p) == Some(s.promotions[p].base)
             else s.at == Unswapping(p) && !(ok && RefOf(s, p) == Some(s.promotions[p].candidate))
    ensures var o := if RefOf(s, p) == Some(s.promotions[p].base) then RolledBack else RollbackFailed;
            Run(s, [Act(ok), Act(true)]) == s.(receipts := s.receipts + [Receipt(p, o)], at := Idle)
  {
    var back := RefOf(s, p) == Some(s.promotions[p].base);
    FollowTrace([s, s.(at := if back then Restored(p) else Stuck(p)),
                 Note(s, p, if back then RolledBack else RollbackFailed).(at := Idle)], [Act(ok), Act(true)]);
  }

  /** A receipt whose write fails is not there, and the worker goes on to something else. */
  lemma UnwrittenReceipt(s: State)
    requires s.at.Recording? || s.at.Failing? || s.at.Passing? || s.at.Restored? || s.at.Stuck?
    ensures Apply(s, Act(false)) == s.(at := Idle)
  {
  }

  ghost predicate Distinct(receipts: seq<Receipt>) {
    forall i, j | 0 <= i < j < |receipts| :: receipts[i] != receipts[j]
  }

  lemma DistinctOneMore(receipts: seq<Receipt>, r: Receipt)
    requires Distinct(receipts) && r !in receipts
    ensures Distinct(receipts + [r])
  {
  }

  ghost predicate Unrepeated(s: State) {
    && Inv(s) && Distinct(s.receipts)
    && (s.at.Recording? ==> !Has(s, s.at.p, Pending))
  }

  /** A step adds at most one receipt, of a kind the promotion does not have. */
  lemma NotesNew(s: State, ok: bool)
    requires Unrepeated(s) && !s.at.Idle?
    ensures var t := Work(s, ok);
            || t.receipts == s.receipts
            || exists o :: t.receipts == s.receipts + [Receipt(s.at.p, o)] && !Has(s, s.at.p, o)
  {
    var t := Work(s, ok);
    if t.receipts != s.receipts {
      var o := match s.at case Recording(_) => Pending case Failing(_) => ApplyFailed case Passing(_) => SmokePassed
                          case Restored(_) => RolledBack case _ => RollbackFailed;
      assert t.receipts == s.receipts + [Receipt(s.at.p, o)] && !Has(s, s.at.p, o);
    }
  }

  lemma UnrepeatedKept(s: State, step: Step)
    requires Unrepeated(s)
    ensures Unrepeated(Apply(s, step))
  {
    ApplyKeeps(s, step);
    var t := Apply(s, step);
    if t.receipts != s.receipts {
      NotesNew(s, step.ok);
      var o :| t.receipts == s.receipts + [Receipt(s.at.p, o)] && !Has(s, s.at.p, o);
      DistinctOneMore(s.receipts, Receipt(s.at.p, o));
    }
  }

  lemma {:induction false} UnrepeatedRun(s: State, steps: seq<Step>)
    requires Unrepeated(s)
    ensures Unrepeated(Run(s, steps))
    decreases |steps|
  {
    if steps != [] {
      UnrepeatedKept(s, steps[0]);
      UnrepeatedRun(Apply(s, steps[0]), steps[1..]);
    }
  }

  /** In every run a promotion has each kind of receipt at most once. */
  lemma ReceiptsAreUnique(steps: seq<Step>)
    ensures Distinct(Run(EMPTY, steps).receipts)
  {
    UnrepeatedRun(EMPTY, steps);
  }

  /** The worker takes up an approved promotion, or an applied one for reconciliation, when it is idle, and no other;
      a promotion that has its verdict, or never had its pending receipt, is left alone. */
  lemma TakesUpIff(s: State, p: nat)
    ensures Apply(s, Take(p))
            == if s.at == Idle && p in s.promotions && s.promotions[p].status == Approved then s.(at := Checking(p))
               else s
    ensures Apply(s, Recover(p))
            == if s.at == Idle && p in s.promotions && s.promotions[p].status == Applied then s.(at := Reconciling(p))
               else s
    ensures s.at == Reconciling(p) && p in s.promotions ==>
              Apply(s, Act(true))
              == s.(at := if && Receipt(p, Pending) in s.receipts && Receipt(p, SmokePassed) !in s.receipts
                             && Receipt(p, RolledBack) !in s.receipts
                          then Smoking(p) else Idle)
  {
  }
}
