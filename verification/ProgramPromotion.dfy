/** The program promotion worker as a machine: write-ahead receipt, compare-and-swap apply, smoke,
    compare-and-swap rollback and terminal receipt, one durable action at a time, with a crash possible before
    each and other actors moving refs and promotions (cmd/orgctl/program_budget.go over internal/staging). */
module ProgramPromotion {
  import opened Prelude

  datatype Status = Requested | AwaitingGates | Approved | Applied | Rejected | Conflicted | Failed | Cancelled

  predicate CanTransition(from: Status, to: Status) {
    match from
    case Requested => to in {AwaitingGates, Cancelled, Failed}
    case AwaitingGates => to in {Approved, Rejected, Cancelled, Failed}
    case Approved => to in {Applied, Conflicted, Failed, Cancelled}
    case _ => false
  }

  datatype Promotion = Promotion(ref: string, base: string, candidate: string, status: Status)

  datatype Outcome = Pending | SmokePassed | RolledBack | RollbackFailed | ApplyFailed

  datatype Receipt = Receipt(promotion: nat, outcome: Outcome)

  /** A ref update by the worker, forward or back; before counts the receipts then durable. */
  datatype RefMove = RefMove(promotion: nat, ref: string, from: string, to: string, back: bool, before: nat)

  datatype Smoke = Smoke(promotion: nat, before: nat)

  /** What the worker does next with the promotion it has in hand. */
  datatype Place =
    | Idle
    | Checking(p: nat) | Recording(p: nat) | Applying(p: nat) | Swapping(p: nat) | Marking(p: nat) | Conflicting(p: nat)
    | Failing(p: nat) | Reconciling(p: nat) | Smoking(p: nat) | Passing(p: nat)
    | Returning(p: nat) | Unswapping(p: nat) | Restored(p: nat) | Stuck(p: nat)

  datatype State = State(
    promotions: map<nat, Promotion>, refs: map<string, string>,
    receipts: seq<Receipt>, moves: seq<RefMove>, smokes: seq<Smoke>, at: Place)

  function At(refs: map<string, string>, ref: string): Option<string> {
    if ref in refs then Some(refs[ref]) else None
  }

  predicate Has(s: State, p: nat, o: Outcome) { Receipt(p, o) in s.receipts }

  predicate Terminal(o: Outcome) { o == SmokePassed || o == RolledBack }

  function Note(s: State, p: nat, o: Outcome): State { s.(receipts := s.receipts + [Receipt(p, o)]) }

  function Write(s: State, p: nat, pr: Promotion, back: bool): State {
    var from, to := if back then pr.candidate else pr.base, if back then pr.base else pr.candidate;
    s.(refs := s.refs[pr.ref := to], moves := s.moves + [RefMove(p, pr.ref, from, to, back, |s.receipts|)])
  }

  /** The worker's next action; ok says whether a write it attempts, a gate or the smoke run succeeds. */
  function Work(s: State, ok: bool): State
    requires !s.at.Idle?
  {
    var p := s.at.p;
    if p !in s.promotions then s.(at := Idle)
    else
      var pr := s.promotions[p];
      var current := At(s.refs, pr.ref);
      match s.at
      case Checking(_) => s.(at := if Has(s, p, Pending) then Applying(p) else Recording(p))
      case Recording(_) => if ok then Note(s, p, Pending).(at := Applying(p)) else s.(at := Idle)
      case Applying(_) =>
        if pr.status == Applied then s.(at := Reconciling(p))
        else if pr.status != Approved || !ok then s.(at := Failing(p))
        else if current == Some(pr.candidate) then s.(at := Marking(p))
        else if current == Some(pr.base) then s.(at := Swapping(p))
        else s.(at := Conflicting(p))
      case Swapping(_) =>
        if current == Some(pr.base) && ok then Write(s, p, pr, false).(at := Marking(p))
        else if current == Some(pr.candidate) then s.(at := Marking(p))
        else if current != Some(pr.base) then s.(at := Conflicting(p))
        else s.(at := Failing(p))
      case Marking(_) =>
        if !ok || pr.status !in {Approved, Applied} then s.(at := Failing(p))
        else s.(promotions := s.promotions[p := pr.(status := Applied)], at := Reconciling(p))
      case Conflicting(_) =>
        if !ok || pr.status != Approved then s.(at := Failing(p))
        else s.(promotions := s.promotions[p := pr.(status := Conflicted)], at := Failing(p))
      case Failing(_) => if ok && !Has(s, p, ApplyFailed) then Note(s, p, ApplyFailed).(at := Idle) else s.(at := Idle)
      case Reconciling(_) =>
        s.(at := if !Has(s, p, Pending) || Has(s, p, SmokePassed) || Has(s, p, RolledBack) then Idle else Smoking(p))
      case Smoking(_) =>
        s.(smokes := s.smokes + [Smoke(p, |s.receipts|)], at := if ok then Passing(p) else Returning(p))
      case Passing(_) => if ok then Note(s, p, SmokePassed).(at := Idle) else s.(at := Idle)
      case Returning(_) =>
        s.(at := if current == Some(pr.base) then Restored(p)
                 else if current == Some(pr.candidate) then Unswapping(p)
                 else Stuck(p))
      case Unswapping(_) =>
        if current == Some(pr.candidate) && ok then Write(s, p, pr, true).(at := Restored(p))
        else s.(at := if current == Some(pr.base) then Restored(p) else Stuck(p))
      case Restored(_) => if ok then Note(s, p, RolledBack).(at := Idle) else s.(at := Idle)
      case Stuck(_) =>
        if ok && !Has(s, p, RollbackFailed) then Note(s, p, RollbackFailed).(at := Idle) else s.(at := Idle)
  }

  datatype Step =
    | Create(p: nat, promotion: Promotion)
    | Shift(p: nat, to: Status)
    | SetRef(ref: string, commit: string)
    | Take(p: nat)
    | Recover(p: nat)
    | Act(ok: bool)
    | Crash

  /** Take and Recover are the two loops picking a promotion; Shift and SetRef are other actors. */
  function Apply(s: State, step: Step): State {
    match step
    case Create(p, promotion) => if p in s.promotions then s else s.(promotions := s.promotions[p := promotion])
    case Shift(p, to) =>
      if p in s.promotions && CanTransition(s.promotions[p].status, to)
      then s.(promotions := s.promotions[p := s.promotions[p].(status := to)]) else s
    case SetRef(ref, commit) => s.(refs := s.refs[ref := commit])
    case Take(p) =>
      if s.at.Idle? && p in s.promotions && s.promotions[p].status == Approved then s.(at := Checking(p)) else s
    case Recover(p) =>
      if s.at.Idle? && p in s.promotions && s.promotions[p].status == Applied then s.(at := Reconciling(p)) else s
    case Act(ok) => if s.at.Idle? then s else Work(s, ok)
    case Crash => s.(at := Idle)
  }

  function Run(s: State, steps: seq<Step>): State
    decreases |steps|
  {
    if steps == [] then s else Run(Apply(s, steps[0]), steps[1..])
  }

  const EMPTY := State(map[], map[], [], [], [], Idle)

  // ---------------------------------------------------------------------------------------------
  // The invariant

  ghost predicate NotedBefore(receipts: seq<Receipt>, bound: nat, p: nat, o: Outcome) {
    exists i | 0 <= i < |receipts| && i < bound :: receipts[i] == Receipt(p, o)
  }

  /** The move is one of the two its promotion allows, on its ref, with the pending receipt already durable. */
  ghost predicate MoveOk(s: State, m: RefMove) {
    && m.promotion in s.promotions
    && var pr := s.promotions[m.promotion];
    && m.ref == pr.ref
    && (if m.back then m.from == pr.candidate && m.to == pr.base else m.from == pr.base && m.to == pr.candidate)
    && m.before <= |s.receipts| && NotedBefore(s.receipts, m.before, m.promotion, Pending)
  }

  ghost predicate SmokeOk(s: State, k: Smoke) {
    k.before <= |s.receipts| && NotedBefore(s.receipts, k.before, k.promotion, Pending)
  }

  ghost predicate OneTerminal(receipts: seq<Receipt>) {
    forall i, j | 0 <= i < j < |receipts| ::
      !(receipts[i].promotion == receipts[j].promotion && Terminal(receipts[i].outcome)
        && Terminal(receipts[j].outcome))
  }

  predicate Owned(at: Place) { at.Applying? || at.Swapping? || at.Marking? || at.Conflicting? }

  predicate Judging(at: Place) {
    at.Smoking? || at.Passing? || at.Returning? || at.Unswapping? || at.Restored? || at.Stuck?
  }

  ghost predicate PlaceOk(s: State) {
    && (!s.at.Idle? ==> s.at.p in s.promotions)
    && (Owned(s.at) || Judging(s.at) ==> Has(s, s.at.p, Pending))
    && (Judging(s.at) ==> !Has(s, s.at.p, SmokePassed) && !Has(s, s.at.p, RolledBack))
  }

  ghost predicate Inv(s: State) {
    && (forall i | 0 <= i < |s.moves| :: MoveOk(s, s.moves[i]))
    && (forall i | 0 <= i < |s.smokes| :: SmokeOk(s, s.smokes[i]))
    && OneTerminal(s.receipts)
    && PlaceOk(s)
  }

  // ---------------------------------------------------------------------------------------------
  // Every step keeps it

  ghost predicate Extends(s: State, t: State) {
    && s.receipts <= t.receipts && s.moves <= t.moves && s.smokes <= t.smokes
    && forall p | p in s.promotions ::
         p in t.promotions && t.promotions[p] == s.promotions[p].(status := t.promotions[p].status)
  }

  lemma WorkExtends(s: State, ok: bool)
    requires !s.at.Idle?
    ensures Extends(s, Work(s, ok))
  {
  }

  lemma ApplyExtends(s: State, step: Step)
    ensures Extends(s, Apply(s, step))
  {
    if step.Act? && !s.at.Idle? { WorkExtends(s, step.ok); }
  }

  lemma NotedStays(a: seq<Receipt>, b: seq<Receipt>, bound: nat, p: nat, o: Outcome)
    requires a <= b && NotedBefore(a, bound, p, o)
    ensures NotedBefore(b, bound, p, o)
  {
    var i :| 0 <= i < |a| && i < bound && a[i] == Receipt(p, o);
    assert b[i] == a[i];
  }

  lemma LogsStay(s: State, t: State)
    requires Extends(s, t)
    requires forall i | 0 <= i < |s.moves| :: MoveOk(s, s.moves[i])
    requires forall i | 0 <= i < |s.smokes| :: SmokeOk(s, s.smokes[i])
    ensures forall i | 0 <= i < |s.moves| :: MoveOk(t, s.moves[i])
    ensures forall i | 0 <= i < |s.smokes| :: SmokeOk(t, s.smokes[i])
  {
    forall i | 0 <= i < |s.moves| ensures MoveOk(t, s.moves[i]) {
      NotedStays(s.receipts, t.receipts, s.moves[i].before, s.moves[i].promotion, Pending);
    }
    forall i | 0 <= i < |s.smokes| ensures SmokeOk(t, s.smokes[i]) {
      NotedStays(s.receipts, t.receipts, s.smokes[i].before, s.smokes[i].promotion, Pending);
    }
  }

  lemma NewEntries(s: State, ok: bool)
    requires PlaceOk(s) && !s.at.Idle?
    ensures var t := Work(s, ok);
            && (t.moves == s.moves || (|t.moves| == |s.moves| + 1 && MoveOk(s, t.moves[|s.moves|])))
            && (t.smokes == s.smokes || (|t.smokes| == |s.smokes| + 1 && SmokeOk(s, t.smokes[|s.smokes|])))
  {
    if s.at.Swapping? || s.at.Unswapping? || s.at.Smoking? {
      var i :| 0 <= i < |s.receipts| && s.receipts[i] == Receipt(s.at.p, Pending);
      assert NotedBefore(s.receipts, |s.receipts|, s.at.p, Pending);
    }
  }

  lemma ReceiptsKept(s: State, ok: bool)
    requires PlaceOk(s) && OneTerminal(s.receipts) && !s.at.Idle?
    ensures OneTerminal(Work(s, ok).receipts)
  {
    var t := Work(s, ok);
    if t.receipts != s.receipts {
      assert t.receipts == s.receipts + [t.receipts[|s.receipts|]] && t.receipts[|s.receipts|].promotion == s.at.p;
      if Terminal(t.receipts[|s.receipts|].outcome) {
        forall i | 0 <= i < |s.receipts|
          ensures !(s.receipts[i].promotion == s.at.p && Terminal(s.receipts[i].outcome))
        {
          assert s.receipts[i] in s.receipts;
        }
      }
    }
  }

  lemma PlaceKept(s: State, ok: bool)
    requires PlaceOk(s) && !s.at.Idle?
    ensures PlaceOk(Work(s, ok))
  {
  }

  lemma ApplyKeeps(s: State, step: Step)
    requires Inv(s)
    ensures Inv(Apply(s, step))
  {
    var t := Apply(s, step);
    ApplyExtends(s, step);
    LogsStay(s, t);
    if step.Act? && !s.at.Idle? {
      NewEntries(s, step.ok);
      ReceiptsKept(s, step.ok);
      PlaceKept(s, step.ok);
      NewStays(s, t);
    }
  }

  lemma NewStays(s: State, t: State)
    requires Extends(s, t)
    requires forall i | 0 <= i < |s.moves| :: MoveOk(t, s.moves[i])
    requires forall i | 0 <= i < |s.smokes| :: SmokeOk(t, s.smokes[i])
    requires t.moves == s.moves || (|t.moves| == |s.moves| + 1 && MoveOk(s, t.moves[|s.moves|]))
    requires t.smokes == s.smokes || (|t.smokes| == |s.smokes| + 1 && SmokeOk(s, t.smokes[|s.smokes|]))
    ensures forall i | 0 <= i < |t.moves| :: MoveOk(t, t.moves[i])
    ensures forall i | 0 <= i < |t.smokes| :: SmokeOk(t, t.smokes[i])
  {
    forall i | 0 <= i < |t.moves| ensures MoveOk(t, t.moves[i]) {
      if i < |s.moves| { assert t.moves[i] == s.moves[i]; } else {
        NotedStays(s.receipts, t.receipts, t.moves[i].before, t.moves[i].promotion, Pending);
      }
    }
    forall i | 0 <= i < |t.smokes| ensures SmokeOk(t, t.smokes[i]) {
      if i < |s.smokes| { assert t.smokes[i] == s.smokes[i]; } else {
        NotedStays(s.receipts, t.receipts, t.smokes[i].before, t.smokes[i].promotion, Pending);
      }
    }
  }

  lemma {:induction false} RunKeeps(s: State, steps: seq<Step>)
    requires Inv(s)
    ensures Inv(Run(s, steps))
    decreases |steps|
  {
    if steps != [] {
      ApplyKeeps(s, steps[0]);
      RunKeeps(Apply(s, steps[0]), steps[1..]);
    }
  }

  // ---------------------------------------------------------------------------------------------
  // What every run guarantees

  /** In every run, with crashes and outside writers anywhere: the worker moves a ref only from its promotion's
      base to its candidate or back, each time after the pending receipt was durable, and smokes only promotions
      with that receipt. */
  lemma WorkerMovesOnlyItsOwn(steps: seq<Step>)
    ensures var s := Run(EMPTY, steps);
            && (forall i | 0 <= i < |s.moves| :: MoveOk(s, s.moves[i]))
            && (forall i | 0 <= i < |s.smokes| :: SmokeOk(s, s.smokes[i]))
  {
    RunKeeps(EMPTY, steps);
  }

  /** A step of the worker changes a ref only by replacing the value its move names, so it never overwrites
      anything else; and each logged move is exactly such a change. */
  lemma WorkerReplacesOnlyWhatItExpects(s: State, ok: bool, ref: string)
    requires !s.at.Idle?
    ensures var t := Work(s, ok);
            && (At(t.refs, ref) != At(s.refs, ref) ==>
                  |t.moves| == |s.moves| + 1 && t.moves[|s.moves|].ref == ref)
            && (t.moves != s.moves ==>
                  var m := t.moves[|s.moves|];
                  At(s.refs, m.ref) == Some(m.from) && At(t.refs, m.ref) == Some(m.to))
  {
  }

  /** In every run a promotion gets at most one of smoke-passed and rolled-back, and that one once. */
  lemma OneVerdictPerPromotion(steps: seq<Step>)
    ensures OneTerminal(Run(EMPTY, steps).receipts)
  {
    RunKeeps(EMPTY, steps);
  }

  // ---------------------------------------------------------------------------------------------
  // An interrupted rollback

  lemma NotBoth(s: State, p: nat)
    requires OneTerminal(s.receipts) && Has(s, p, SmokePassed)
    ensures !Has(s, p, RolledBack)
  {
    var i :| 0 <= i < |s.receipts| && s.receipts[i] == Receipt(p, SmokePassed);
    forall k | 0 <= k < |s.receipts| ensures s.receipts[k] != Receipt(p, RolledBack) {
      assert k < i || k == i || i < k;
    }
  }

  ghost predicate BackMoved(s: State, p: nat) {
    exists i | 0 <= i < |s.moves| :: s.moves[i].promotion == p && s.moves[i].back
  }

  /** Some step of the run stops the worker after it restored this promotion's ref and before it said so. */
  ghost predicate CutShort(s: State, steps: seq<Step>, p: nat)
    decreases |steps|
  {
    steps != [] &&
    (|| (s.at == Restored(p) && BackMoved(s, p) && (steps[0] == Crash || steps[0] == Act(false)))
     || CutShort(Apply(s, steps[0]), steps[1..], p))
  }

  /** A promotion rolled back is recorded so, or the worker is about to. */
  ghost predicate Told(s: State, p: nat) {
    BackMoved(s, p) ==> Has(s, p, RolledBack) || s.at == Restored(p)
  }

  lemma RestoredTells(s: State, step: Step, p: nat)
    requires PlaceOk(s) && s.at == Restored(p) && step != Crash && step != Act(false)
    ensures var t := Apply(s, step);
            t.at == Restored(p) || Has(t, p, RolledBack)
  {
    if step == Act(true) {
      assert Apply(s, step).receipts[|s.receipts|] == Receipt(p, RolledBack);
    }
  }

  lemma MovedBackStays(s: State, step: Step)
    ensures var t := Apply(s, step);
            |t.moves| <= |s.moves| + 1
            && (|t.moves| > |s.moves| && t.moves[|s.moves|].back ==> t.at == Restored(t.moves[|s.moves|].promotion))
  {
  }

  lemma ToldAfter(s: State, t: State, p: nat)
    requires Told(s, p) && Extends(s, t) && |t.moves| <= |s.moves| + 1
    requires |t.moves| > |s.moves| && t.moves[|s.moves|].back ==> t.at == Restored(t.moves[|s.moves|].promotion)
    requires s.at == Restored(p) && BackMoved(s, p) ==> t.at == Restored(p) || Has(t, p, RolledBack)
    ensures Told(t, p)
  {
    if BackMoved(t, p) {
      var i :| 0 <= i < |t.moves| && t.moves[i].promotion == p && t.moves[i].back;
      if i < |s.moves| {
        assert s.moves[i] == t.moves[i];
        if Has(s, p, RolledBack) {
          var k :| 0 <= k < |s.receipts| && s.receipts[k] == Receipt(p, RolledBack);
          assert t.receipts[k] == s.receipts[k];
        }
      }
    }
  }

  lemma ToldKept(s: State, step: Step, p: nat)
    requires Inv(s) && Told(s, p)
    requires !(s.at == Restored(p) && BackMoved(s, p) && (step == Crash || step == Act(false)))
    ensures Told(Apply(s, step), p)
  {
    ApplyExtends(s, step);
    MovedBackStays(s, step);
    if s.at == Restored(p) && BackMoved(s, p) { RestoredTells(s, step, p); }
    ToldAfter(s, Apply(s, step), p);
  }

  lemma {:induction false} ToldRun(s: State, steps: seq<Step>, p: nat)
    requires Inv(s) && Told(s, p) && !CutShort(s, steps, p)
    ensures Told(Run(s, steps), p)
    decreases |steps|
  {
    if steps != [] {
      ToldKept(s, steps[0], p);
      ApplyKeeps(s, steps[0]);
      ToldRun(Apply(s, steps[0]), steps[1..], p);
    }
  }

  lemma {:induction false} CutShortMoved(s: State, steps: seq<Step>, p: nat)
    requires BackMoved(s, p) || CutShort(s, steps, p)
    ensures BackMoved(Run(s, steps), p)
    decreases |steps|
  {
    if steps != [] {
      ApplyExtends(s, steps[0]);
      if BackMoved(s, p) {
        var i :| 0 <= i < |s.moves| && s.moves[i].promotion == p && s.moves[i].back;
        assert Apply(s, steps[0]).moves[i] == s.moves[i];
      }
      CutShortMoved(Apply(s, steps[0]), steps[1..], p);
    }
  }

  /** In every run, a promotion recorded as smoke-passed was rolled back if and only if the worker was stopped
      between restoring that promotion's ref and recording it. */
  lemma PassedWasRolledBackIff(steps: seq<Step>, p: nat)
    requires Has(Run(EMPTY, steps), p, SmokePassed)
    ensures BackMoved(Run(EMPTY, steps), p) <==> CutShort(EMPTY, steps, p)
  {
    RunKeeps(EMPTY, steps);
    NotBoth(Run(EMPTY, steps), p);
    if CutShort(EMPTY, steps, p) {
      CutShortMoved(EMPTY, steps, p);
    } else {
      ToldRun(EMPTY, steps, p);
    }
  }

  /** Interrupted there, the worker comes back, finds no verdict, smokes again, and a passing run is recorded as
      smoke-passed while the ref is back at its base. */
  lemma InterruptedRollbackCanPass(s: State, p: nat)
    requires PlaceOk(s) && s.at == Restored(p) && s.promotions[p].status == Applied
    ensures var t := Run(s, [Crash, Recover(p), Act(true), Act(true), Act(true)]);
            Has(t, p, SmokePassed) && t.refs == s.refs && t.moves == s.moves
  {
    var s2 := s.(at := Reconciling(p));
    SmokePasses(s2, p);
    FollowTrace([s, s.(at := Idle), s2], [Crash, Recover(p)]);
    RunSplit(s, [Crash, Recover(p)], [Act(true), Act(true), Act(true)]);
    assert [Crash, Recover(p)] + [Act(true), Act(true), Act(true)]
           == [Crash, Recover(p), Act(true), Act(true), Act(true)];
  }

  lemma SmokePasses(s: State, p: nat)
    requires s.at == Reconciling(p) && p in s.promotions && Has(s, p, Pending) && !Has(s, p, SmokePassed)
             && !Has(s, p, RolledBack)
    ensures var t := Run(s, [Act(true), Act(true), Act(true)]);
            Has(t, p, SmokePassed) && t.refs == s.refs && t.moves == s.moves
  {
    var s1 := Apply(s, Act(true));
    var s2 := Apply(s1, Act(true));
    var s3 := Apply(s2, Act(true));
    assert s1.at == Smoking(p) && s2.at == Passing(p);
    assert s3.receipts[|s.receipts|] == Receipt(p, SmokePassed);
    FollowTrace([s, s1, s2, s3], [Act(true), Act(true), Act(true)]);
  }

  lemma {:induction false} FollowTrace(trace: seq<State>, steps: seq<Step>)
    requires |trace| == |steps| + 1
    requires forall i | 0 <= i < |steps| :: trace[i + 1] == Apply(trace[i], steps[i])
    ensures Run(trace[0], steps) == trace[|steps|]
    decreases |steps|
  {
    if steps != [] {
      assert trace[1] == Apply(trace[0], steps[0]);
      assert forall i | 0 <= i < |steps[1..]| :: trace[1..][i + 1] == trace[i + 2] && steps[1..][i] == steps[i + 1];
      FollowTrace(trace[1..], steps[1..]);
    }
  }

  lemma {:induction false} RunSplit(s: State, a: seq<Step>, b: seq<Step>)
    ensures Run(s, a + b) == Run(Run(s, a), b)
    decreases |a|
  {
    if a == [] {
      assert a + b == b;
    } else {
      assert (a + b)[1..] == a[1..] + b;
      RunSplit(Apply(s, a[0]), a[1..], b);
    }
  }

  function Swapped(base: string, candidate: string): State {
    State(map[1 := Promotion("r", base, candidate, Approved)], map["r" := candidate], [Receipt(1, Pending)],
          [RefMove(1, "r", base, candidate, false, 1)], [], Marking(1))
  }

  lemma SwapReached(base: string, candidate: string) returns (steps: seq<Step>)
    requires base != candidate
    ensures Run(EMPTY, steps) == Swapped(base, candidate) && Crash !in steps
  {
    var a := Promotion("r", base, candidate, Approved);
    var note := [Receipt(1, Pending)];
    steps := [Create(1, a), SetRef("r", base), Take(1), Act(true), Act(true), Act(true), Act(true)];
    var trace := [
      EMPTY,
      State(map[1 := a], map[], [], [], [], Idle),
      State(map[1 := a], map["r" := base], [], [], [], Idle),
      State(map[1 := a], map["r" := base], [], [], [], Checking(1)),
      State(map[1 := a], map["r" := base], [], [], [], Recording(1)),
      State(map[1 := a], map["r" := base], note, [], [], Applying(1)),
      State(map[1 := a], map["r" := base], note, [], [], Swapping(1)),
      Swapped(base, candidate)];
    FollowTrace(trace, steps);
  }

  /** An applied promotion whose ref holds its candidate and whose smoke fails gets its ref restored. */
  lemma SmokeFails(s: State, p: nat)
    requires s.at == Smoking(p) && p in s.promotions && s.promotions[p].base != s.promotions[p].candidate
    requires At(s.refs, s.promotions[p].ref) == Some(s.promotions[p].candidate)
    ensures var t := Run(s, [Act(false), Act(true), Act(true)]);
            && t.at == Restored(p) && t.promotions == s.promotions && t.receipts == s.receipts
            && t.refs == s.refs[s.promotions[p].ref := s.promotions[p].base]
            && |t.moves| == |s.moves| + 1 && t.moves[|s.moves|].back
  {
    var s1 := Apply(s, Act(false));
    var s2 := Apply(s1, Act(true));
    var s3 := Apply(s2, Act(true));
    assert s1.at == Returning(p) && s2.at == Unswapping(p) && s3.at == Restored(p);
    FollowTrace([s, s1, s2, s3], [Act(false), Act(true), Act(true)]);
  }

  lemma ThenSmoked(base: string, candidate: string)
    ensures Run(Swapped(base, candidate), [Act(true), Act(true)])
            == Swapped(base, candidate).(promotions := map[1 := Promotion("r", base, candidate, Applied)],
                                         at := Smoking(1))
  {
    var s := Swapped(base, candidate);
    var s1 := s.(promotions := map[1 := Promotion("r", base, candidate, Applied)], at := Reconciling(1));
    assert Apply(s, Act(true)) == s1;
    FollowTrace([s, s1, s1.(at := Smoking(1))], [Act(true), Act(true)]);
  }

  lemma ThenRestored(base: string, candidate: string) returns (steps: seq<Step>)
    requires base != candidate
    ensures var s := Run(Swapped(base, candidate), steps);
            && s.at == Restored(1) && s.promotions == map[1 := Promotion("r", base, candidate, Applied)]
            && s.refs == map["r" := base]
            && |s.moves| == 2 && s.moves[1].back
  {
    ThenSmoked(base, candidate);
    SmokeFails(Run(Swapped(base, candidate), [Act(true), Act(true)]), 1);
    RunSplit(Swapped(base, candidate), [Act(true), Act(true)], [Act(false), Act(true), Act(true)]);
    steps := [Act(true), Act(true)] + [Act(false), Act(true), Act(true)];
  }

  /** From an empty store: a promotion is applied, its smoke fails, its ref is restored, the worker is stopped
      before it can say so, and on its return it records smoke-passed with the ref at its base. */
  lemma PassedThoughRolledBack(base: string, candidate: string) returns (steps: seq<Step>)
    requires base != candidate
    ensures var s := Run(EMPTY, steps);
            Has(s, 1, SmokePassed) && At(s.refs, "r") == Some(base) && |s.moves| == 2 && s.moves[1].back
  {
    var first := SwapReached(base, candidate);
    var rest := ThenRestored(base, candidate);
    var last := [Crash, Recover(1), Act(true), Act(true), Act(true)];
    RunSplit(EMPTY, first, rest);
    RunKeeps(EMPTY, first + rest);
    InterruptedRollbackCanPass(Run(EMPTY, first + rest), 1);
    RunSplit(EMPTY, first + rest, last);
    steps := first + rest + last;
  }

  // ---------------------------------------------------------------------------------------------
  // Between moving a ref and recording it

  /** The worker has just seen or put the ref where it wants it, and is about to record so. */
  predicate Holding(at: Place) { at.Marking? || at.Restored? }

  function Goal(pr: Promotion, at: Place): string { if at.Marking? then pr.candidate else pr.base }

  /** The last value other actors gave the ref, if they wrote it at all. */
  function LastSet(steps: seq<Step>, ref: string): Option<string>
    decreases |steps|
  {
    if steps == [] then None
    else
      var last := steps[|steps| - 1];
      if last.SetRef? && last.ref == ref then Some(last.commit) else LastSet(steps[..|steps| - 1], ref)
  }

  predicate ByOthers(steps: seq<Step>) {
    forall i | 0 <= i < |steps| :: !steps[i].Act? && !steps[i].Crash?
  }

  lemma EntersAtGoal(s: State, step: Step)
    requires PlaceOk(s) && Holding(Apply(s, step).at) && Apply(s, step).at != s.at
    ensures var t := Apply(s, step);
            t.at.p in t.promotions && At(t.refs, t.promotions[t.at.p].ref) == Some(Goal(t.promotions[t.at.p], t.at))
  {
  }

  lemma StaysHolding(s: State, step: Step)
    requires PlaceOk(s) && Holding(s.at) && Apply(s, step).at == s.at
    ensures var t := Apply(s, step);
            var ref := s.promotions[s.at.p].ref;
            && !step.Act? && !step.Crash? && s.at.p in t.promotions
            && t.promotions[s.at.p] == s.promotions[s.at.p].(status := t.promotions[s.at.p].status)
            && At(t.refs, ref) == if step.SetRef? && step.ref == ref then Some(step.commit) else At(s.refs, ref)
  {
  }

  /** u is where the worker came to hold this promotion's ref, only other actors stepped from there to s, and the
      ref is where the last of their writes to it put it, if there was one. */
  ghost predicate Held(u: State, s: State, between: seq<Step>, p: nat) {
    && Holding(s.at) && s.at.p == p && u.at == s.at && ByOthers(between)
    && p in u.promotions && p in s.promotions
    && var pr := s.promotions[p];
    && At(u.refs, pr.ref) == Some(Goal(pr, s.at))
    && At(s.refs, pr.ref)
       == Some(if LastSet(between, pr.ref).Some? then LastSet(between, pr.ref).value else Goal(pr, s.at))
  }

  lemma HeldOneMore(u: State, s: State, between: seq<Step>, last: Step, p: nat)
    requires PlaceOk(s) && Held(u, s, between, p) && Apply(s, last).at == s.at
    ensures Held(u, Apply(s, last), between + [last], p)
  {
    StaysHolding(s, last);
    assert (between + [last])[..|between|] == between;
  }

  lemma HeldAtFirst(s: State, last: Step)
    requires PlaceOk(s) && Holding(Apply(s, last).at) && Apply(s, last).at != s.at
    ensures Held(Apply(s, last), Apply(s, last), [], Apply(s, last).at.p)
  {
    EntersAtGoal(s, last);
  }

  lemma RunLast(s: State, steps: seq<Step>)
    requires steps != []
    ensures Run(s, steps) == Apply(Run(s, steps[..|steps| - 1]), steps[|steps| - 1])
  {
    var before, last := steps[..|steps| - 1], [steps[|steps| - 1]];
    assert before + last == steps && last[1..] == [];
    RunSplit(s, before, last);
  }

  lemma {:induction false} HeldFrom(steps: seq<Step>, p: nat) returns (k: nat)
    requires Holding(Run(EMPTY, steps).at) && Run(EMPTY, steps).at.p == p
    ensures 0 < k <= |steps| && Run(EMPTY, steps[..k - 1]).at != Run(EMPTY, steps).at
    ensures Held(Run(EMPTY, steps[..k]), Run(EMPTY, steps), steps[k..], p)
    decreases |steps|
  {
    var n := |steps| - 1;
    var before, last := steps[..n], steps[n];
    RunLast(EMPTY, steps);
    RunKeeps(EMPTY, before);
    if Run(EMPTY, before).at == Run(EMPTY, steps).at {
      k := HeldFrom(before, p);
      HeldOneMore(Run(EMPTY, before[..k]), Run(EMPTY, before), before[k..], last, p);
      assert before[..k] == steps[..k] && before[..k - 1] == steps[..k - 1];
      assert steps[k..] == before[k..] + [last];
    } else {
      k := |steps|;
      HeldAtFirst(Run(EMPTY, before), last);
      assert steps[..k] == steps && steps[k..] == [];
    }
  }

  /** For every run that has the worker about to mark a promotion applied, or to record it rolled back: k is the step
      after which it got there. The ref then held the candidate, or the base; only other actors have stepped since;
      and the ref is now where the last of their writes to it put it, if there was one. */
  lemma HeldSince(steps: seq<Step>, p: nat) returns (k: nat)
    requires Holding(Run(EMPTY, steps).at) && Run(EMPTY, steps).at.p == p
    ensures 0 < k <= |steps| && Run(EMPTY, steps[..k]).at == Run(EMPTY, steps).at
    ensures Run(EMPTY, steps[..k - 1]).at != Run(EMPTY, steps).at && ByOthers(steps[k..])
    ensures p in Run(EMPTY, steps).promotions && p in Run(EMPTY, steps[..k]).promotions
    ensures var s, pr := Run(EMPTY, steps), Run(EMPTY, steps).promotions[p];
            && At(Run(EMPTY, steps[..k]).refs, pr.ref) == Some(Goal(pr, s.at))
            && At(s.refs, pr.ref)
               == Some(if LastSet(steps[k..], pr.ref).Some? then LastSet(steps[k..], pr.ref).value else Goal(pr, s.at))
  {
    k := HeldFrom(steps, p);
  }

  /** In every run, when the worker records a promotion rolled back its ref is at its base if and only if no other actor
      wrote the ref since it was restored, or the last of them put the base there again. */
  lemma RolledBackAtBaseIff(steps: seq<Step>, p: nat) returns (k: nat)
    requires Run(EMPTY, steps).at == Restored(p)
    ensures 0 < k <= |steps| && Run(EMPTY, steps[..k]).at == Restored(p) && ByOthers(steps[k..])
    ensures var t := Apply(Run(EMPTY, steps), Act(true));
            && p in t.promotions && Has(t, p, RolledBack)
            && var pr := t.promotions[p];
            && At(Run(EMPTY, steps[..k]).refs, pr.ref) == Some(pr.base)
            && (At(t.refs, pr.ref) == Some(pr.base) <==> LastSet(steps[k..], pr.ref) in {None, Some(pr.base)})
  {
    k := HeldSince(steps, p);
    var s := Run(EMPTY, steps);
    assert Apply(s, Act(true)).receipts[|s.receipts|] == Receipt(p, RolledBack);
  }

  /** And when it marks one applied, its ref holds the candidate if and only if no other actor wrote the ref
      since, or the last of them put the candidate there again. */
  lemma MarkedAtCandidateIff(steps: seq<Step>, p: nat) returns (k: nat)
    requires Run(EMPTY, steps).at == Marking(p)
    requires p in Run(EMPTY, steps).promotions && Run(EMPTY, steps).promotions[p].status == Approved
    ensures 0 < k <= |steps| && Run(EMPTY, steps[..k]).at == Marking(p) && ByOthers(steps[k..])
    ensures var t := Apply(Run(EMPTY, steps), Act(true));
            && p in t.promotions && t.promotions[p].status == Applied
            && var pr := t.promotions[p];
            && At(Run(EMPTY, steps[..k]).refs, pr.ref) == Some(pr.candidate)
            && (At(t.refs, pr.ref) == Some(pr.candidate) <==> LastSet(steps[k..], pr.ref) in {None, Some(pr.candidate)})
  {
    k := HeldSince(steps, p);
  }

  /** What this step writes to the ref, whether another actor's or the worker's. */
  function Writes(s: State, step: Step, ref: string): Option<string> {
    var t := Apply(s, step);
    if step.SetRef? then if step.ref == ref then Some(step.commit) else None
    else if |t.moves| > |s.moves| && t.moves[|s.moves|].ref == ref then Some(t.moves[|s.moves|].to)
    else None
  }

  /** The last value written to the ref by these steps, if any writes it. */
  function Written(s: State, steps: seq<Step>, ref: string): Option<string>
    decreases |steps|
  {
    if steps == [] then None
    else
      var later := Written(Apply(s, steps[0]), steps[1..], ref);
      if later.Some? then later else Writes(s, steps[0], ref)
  }

  lemma WritesFollowed(s: State, step: Step, ref: string)
    ensures At(Apply(s, step).refs, ref)
            == if Writes(s, step, ref).Some? then Writes(s, step, ref) else At(s.refs, ref)
  {
  }

  lemma {:induction false} WrittenFollowed(s: State, steps: seq<Step>, ref: string)
    ensures At(Run(s, steps).refs, ref)
            == if Written(s, steps, ref).Some? then Written(s, steps, ref) else At(s.refs, ref)
    decreases |steps|
  {
    if steps != [] {
      WritesFollowed(s, steps[0], ref);
      WrittenFollowed(Apply(s, steps[0]), steps[1..], ref);
    }
  }

  lemma {:induction false} RunKeepsIdentity(s: State, steps: seq<Step>, p: nat)
    requires p in s.promotions
    ensures var t := Run(s, steps);
            p in t.promotions && t.promotions[p] == s.promotions[p].(status := t.promotions[p].status)
    decreases |steps|
  {
    if steps != [] {
      ApplyExtends(s, steps[0]);
      RunKeepsIdentity(Apply(s, steps[0]), steps[1..], p);
    }
  }

  lemma SamePromotion(before: seq<Step>, between: seq<Step>, p: nat)
    requires p in Run(EMPTY, before).promotions
    ensures var s, t := Run(EMPTY, before), Run(EMPTY, before + between);
            p in t.promotions && t.promotions[p] == s.promotions[p].(status := t.promotions[p].status)
  {
    RunSplit(EMPTY, before, between);
    RunKeepsIdentity(Run(EMPTY, before), between, p);
  }

  lemma PassIsRecorded(s: State, p: nat)
    requires s.at == Passing(p) && p in s.promotions
    ensures var t := Apply(s, Act(true));
            Has(t, p, SmokePassed) && t.refs == s.refs && t.promotions == s.promotions
  {
    assert Apply(s, Act(true)).receipts[|s.receipts|] == Receipt(p, SmokePassed);
  }

  /** In every run, from any point k at which the promotion's ref holds its candidate to the recording of
      smoke-passed: the ref holds the candidate then if and only if nothing wrote it since, other actors or the
      worker, or the last write put the candidate there again. */
  lemma PassedAtCandidateIff(steps: seq<Step>, k: nat, p: nat)
    requires k <= |steps| && Run(EMPTY, steps).at == Passing(p)
    requires var s := Run(EMPTY, steps[..k]);
             p in s.promotions && At(s.refs, s.promotions[p].ref) == Some(s.promotions[p].candidate)
    ensures var t := Apply(Run(EMPTY, steps), Act(true));
            && p in t.promotions && Has(t, p, SmokePassed)
            && var pr := t.promotions[p];
            && (At(t.refs, pr.ref) == Some(pr.candidate)
                <==> Written(Run(EMPTY, steps[..k]), steps[k..], pr.ref) in {None, Some(pr.candidate)})
  {
    assert steps[..k] + steps[k..] == steps;
    RunSplit(EMPTY, steps[..k], steps[k..]);
    RunKeepsIdentity(Run(EMPTY, steps[..k]), steps[k..], p);
    WrittenFollowed(Run(EMPTY, steps[..k]), steps[k..], Run(EMPTY, steps[..k]).promotions[p].ref);
    PassIsRecorded(Run(EMPTY, steps), p);
  }

  /** Such a point is there whenever the worker itself came to mark the promotion: the step at which it did. */
  lemma PassedSinceMarkedIff(steps: seq<Step>, marking: nat, p: nat) returns (k: nat)
    requires marking <= |steps| && Run(EMPTY, steps[..marking]).at == Marking(p)
    requires Run(EMPTY, steps).at == Passing(p)
    ensures k <= marking && Run(EMPTY, steps[..k]).at == Marking(p) && ByOthers(steps[k..marking])
    ensures var t := Apply(Run(EMPTY, steps), Act(true));
            && p in t.promotions && Has(t, p, SmokePassed)
            && var pr := t.promotions[p];
            && At(Run(EMPTY, steps[..k]).refs, pr.ref) == Some(pr.candidate)
            && (At(t.refs, pr.ref) == Some(pr.candidate)
                <==> Written(Run(EMPTY, steps[..k]), steps[k..], pr.ref) in {None, Some(pr.candidate)})
  {
    k := HeldSince(steps[..marking], p);
    assert steps[..marking][..k] == steps[..k] && steps[..marking][k..] == steps[k..marking];
    SamePromotion(steps[..k], steps[k..marking], p);
    assert steps[..k] + steps[k..marking] == steps[..marking];
    SamePromotion(steps[..k], steps[k..], p);
    assert steps[..k] + steps[k..] == steps;
    PassedAtCandidateIff(steps, k, p);
    PassIsRecorded(Run(EMPTY, steps), p);
  }

  /** From an empty store, never stopped and never rolled back: another actor moves the ref after the smoke began,
      and smoke-passed is recorded with the ref elsewhere. */
  lemma PassedElsewhere(base: string, candidate: string, other: string) returns (steps: seq<Step>)
    requires base != candidate && other != candidate
    ensures var s := Run(EMPTY, steps);
            Has(s, 1, SmokePassed) && At(s.refs, "r") == Some(other) && !BackMoved(s, 1) && Crash !in steps
  {
    var first := SwapReached(base, candidate);
    var rest := [SetRef("r", other), Act(true), Act(true)];
    ThenSmoked(base, candidate);
    RunSplit(EMPTY, first, [Act(true), Act(true)]);
    var s := Run(EMPTY, first + [Act(true), Act(true)]);
    var s1 := Apply(s, rest[0]);
    var s2 := Apply(s1, rest[1]);
    var s3 := Apply(s2, rest[2]);
    assert s3.receipts[|s.receipts|] == Receipt(1, SmokePassed);
    FollowTrace([s, s1, s2, s3], rest);
    RunSplit(EMPTY, first + [Act(true), Act(true)], rest);
    steps := first + [Act(true), Act(true)] + rest;
  }

  /** From an empty store: a promotion is rolled back, another actor moves its ref, and rolled-back is recorded with the
      ref elsewhere. */
  lemma RolledBackElsewhere(base: string, candidate: string, other: string) returns (steps: seq<Step>)
    requires base != candidate && other != base
    ensures var s := Run(EMPTY, steps);
            Has(s, 1, RolledBack) && At(s.refs, "r") == Some(other)
  {
    var first := SwapReached(base, candidate);
    var rest := ThenRestored(base, candidate);
    RunSplit(EMPTY, first, rest);
    var s := Run(EMPTY, first + rest);
    var s1 := Apply(s, SetRef("r", other));
    var s2 := Apply(s1, Act(true));
    assert s2.receipts[|s.receipts|] == Receipt(1, RolledBack);
    FollowTrace([s, s1, s2], [SetRef("r", other), Act(true)]);
    RunSplit(EMPTY, first + rest, [SetRef("r", other), Act(true)]);
    steps := first + rest + [SetRef("r", other), Act(true)];
  }

  /** And one where a promotion is marked applied with its ref elsewhere. */
  lemma AppliedElsewhere(base: string, candidate: string, other: string) returns (steps: seq<Step>)
    requires base != candidate && other != candidate
    ensures var s := Run(EMPTY, steps);
            1 in s.promotions && s.promotions[1].status == Applied && At(s.refs, "r") == Some(other)
  {
    var first := SwapReached(base, candidate);
    var s := Swapped(base, candidate);
    var s1 := Apply(s, SetRef("r", other));
    var s2 := Apply(s1, Act(true));
    FollowTrace([s, s1, s2], [SetRef("r", other), Act(true)]);
    RunSplit(EMPTY, first, [SetRef("r", other), Act(true)]);
    steps := first + [SetRef("r", other), Act(true)];
  }
}
