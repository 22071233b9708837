/** The executive/finance supervisor as an interleaving of its goroutines
    (cmd/orgctl/executive_supervisor.go): two workers, one buffered channel, two contexts. */
module Supervisor {

  datatype Name = Executive | Finance

  /** Silent is the error made up for a worker that returned nil while its context was live. */
  datatype Error = NoError | Canceled | Silent | Real(code: int)

  datatype Outcome = Outcome(name: Name, error: Error)

  /** fn running; fn returned; the nil check done; the outcome in the channel and the goroutine over. */
  datatype Stage = Running | Returned(error: Error) | Checked(error: Error) | Sent

  datatype Verdict = Clean | Failed(cause: Outcome) | BothSilent

  datatype Phase = AwaitFirst | Observed | AwaitSecond | Joined | Done(verdict: Verdict)

  /** activeAtFirst records ctx.Err() == nil when the first outcome was acted on; activeAtEnd when it was classified. */
  datatype State = State(
    parentDone: bool, workerDone: bool,
    executive: Stage, finance: Stage, channel: seq<Outcome>, phase: Phase,
    first: Outcome, second: Outcome, activeAtFirst: bool, activeAtEnd: bool)

  datatype Step =
    | CancelParent
    | PropagateCancel
    | ReturnFrom(name: Name, error: Error)
    | CheckNil(name: Name)
    | Send(name: Name)
    | ReceiveFirst
    | DecideSibling
    | ReceiveSecond
    | Classify

  function Initial(): State {
    var none := Outcome(Executive, NoError);
    State(false, false, Running, Running, [], AwaitFirst, none, none, false, false)
  }

  function At(s: State, n: Name): Stage {
    if n == Executive then s.executive else s.finance
  }

  function Put(s: State, n: Name, t: Stage): State {
    if n == Executive then s.(executive := t) else s.(finance := t)
  }

  function Verdicts(parentDone: bool, first: Outcome, second: Outcome): Verdict {
    if parentDone then
      if first.error != NoError && first.error != Canceled then Failed(first)
      else if second.error != NoError && second.error != Canceled then Failed(second)
      else Clean
    else if first.error != NoError then Failed(first)
    else BothSilent
  }

  /** One atomic step; a step that is not enabled changes nothing. ReturnFrom may carry any error but Silent. */
  function Apply(s: State, step: Step): State {
    match step
    case CancelParent => s.(parentDone := true)
    case PropagateCancel => if s.parentDone then s.(workerDone := true) else s
    case ReturnFrom(n, e) =>
      if At(s, n) == Running && e != Silent then Put(s, n, Returned(e)) else s
    case CheckNil(n) =>
      if !At(s, n).Returned? then s
      else
        var e := At(s, n).error;
        Put(s, n, Checked(if e == NoError && !s.workerDone then Silent else e))
    case Send(n) =>
      if !At(s, n).Checked? then s
      else Put(s, n, Sent).(channel := s.channel + [Outcome(n, At(s, n).error)])
    case ReceiveFirst =>
      if s.phase.AwaitFirst? && s.channel != [] then
        s.(phase := Observed, first := s.channel[0], channel := s.channel[1..])
      else s
    case DecideSibling =>
      if s.phase.Observed? then
        s.(phase := AwaitSecond, activeAtFirst := !s.parentDone, workerDone := s.workerDone || !s.parentDone)
      else s
    case ReceiveSecond =>
      if s.phase.AwaitSecond? && s.channel != [] then
        s.(phase := Joined, second := s.channel[0], channel := s.channel[1..])
      else s
    case Classify =>
      if s.phase.Joined? then
        s.(phase := Done(Verdicts(s.parentDone, s.first, s.second)), activeAtEnd := !s.parentDone)
      else s
  }

  function Run(s: State, steps: seq<Step>): State
    decreases |steps|
  {
    if steps == [] then s else Run(Apply(s, steps[0]), steps[1..])
  }

  // ---------------------------------------------------------------------------------------------
  // The invariant

  /** Outcomes taken from the channel so far. */
  function Taken(p: Phase): nat {
    match p
    case AwaitFirst => 0
    case Observed => 1
    case AwaitSecond => 1
    case Joined => 2
    case Done(_) => 2
  }

  function Finished(s: State): nat {
    (if s.executive == Sent then 1 else 0) + (if s.finance == Sent then 1 else 0)
  }

  ghost predicate Inv(s: State) {
    // every finished goroutine's outcome is in the channel or already taken
    && |s.channel| + Taken(s.phase) == Finished(s)
       // nothing but the parent stops the workers before the first outcome is acted on
    && (s.workerDone && (s.phase.AwaitFirst? || s.phase.Observed?) ==> s.parentDone)
       // a nil outcome means the worker's context was already done
    && (s.executive == Checked(NoError) || s.finance == Checked(NoError) ==> s.workerDone)
    && (forall o | o in s.channel :: o.error == NoError ==> s.workerDone)
    && (!s.phase.AwaitFirst? && s.first.error == NoError ==> s.parentDone)
    && (s.phase.AwaitSecond? || s.phase.Joined? ==>
          (s.activeAtFirst ==> s.workerDone) && (!s.activeAtFirst ==> s.parentDone))
    && (s.phase.AwaitSecond? || s.phase.Joined? || s.phase.Done? ==> (s.activeAtFirst ==> s.first.error != NoError))
    && (s.phase.Done? ==> s.phase.verdict == Verdicts(!s.activeAtEnd, s.first, s.second))
    && (s.phase.Done? && s.activeAtEnd ==> s.first.error != NoError)
    && (s.phase.Done? && !s.activeAtFirst ==> !s.activeAtEnd)
  }

  lemma SendKeeps(s: State, n: Name)
    requires Inv(s) && At(s, n).Checked?
    ensures Inv(Apply(s, Send(n)))
  {
    var sent := Outcome(n, At(s, n).error);
    assert forall o | o in Apply(s, Send(n)).channel :: o in s.channel || o == sent;
  }

  lemma WorkerKeeps(s: State, step: Step)
    requires Inv(s) && (step.ReturnFrom? || step.CheckNil?)
    ensures Inv(Apply(s, step))
  {
  }

  lemma SupervisorKeeps(s: State, step: Step)
    requires Inv(s) && !(step.ReturnFrom? || step.CheckNil? || step.Send?)
    ensures Inv(Apply(s, step))
  {
    if s.channel != [] { assert s.channel[0] in s.channel; }
    assert forall o | o in Apply(s, step).channel :: o in s.channel;
  }

  lemma ApplyKeeps(s: State, step: Step)
    requires Inv(s)
    ensures Inv(Apply(s, step))
  {
    if step.Send? {
      if At(s, step.name).Checked? { SendKeeps(s, step.name); }
    } else if step.ReturnFrom? || step.CheckNil? {
      WorkerKeeps(s, step);
    } else {
      SupervisorKeeps(s, step);
    }
  }

  lemma {:induction false} RunKeeps(s: State, steps: seq<Step>)
    requires Inv(s)
    ensures Inv(Run(s, steps))
    decreases |steps|
  {
    if steps != [] {
      ApplyKeeps(s, steps[0]);
      RunKeeps(Apply(s, steps[0]), steps[1..]);
    }
  }

  // ---------------------------------------------------------------------------------------------
  // What every run guarantees

  /** No run leaves a worker behind: a result is returned only once both goroutines have ended and both
      outcomes were read. And whenever the supervisor waits for the second worker, its context is done
      or the parent's is. */
  lemma BothWorkersJoined(steps: seq<Step>)
    ensures var s := Run(Initial(), steps);
            && (s.phase.Done? ==> s.executive == Sent && s.finance == Sent && s.channel == [])
            && (s.phase.AwaitSecond? && !s.parentDone ==> s.workerDone)
  {
    RunKeeps(Initial(), steps);
  }

  /** The result of every completed run. A clean result needs the parent cancelled and no real error; the
      "both silent" fallback never happens; a reported error is never the sibling's cancellation. */
  lemma VerdictMeaning(steps: seq<Step>)
    requires Run(Initial(), steps).phase.Done?
    ensures var s := Run(Initial(), steps);
            var v := s.phase.verdict;
            && v != BothSilent
            && (v == Clean
                <==> !s.activeAtEnd && s.first.error in {NoError, Canceled} && s.second.error in {NoError, Canceled})
            && (v.Failed? ==>
                  && v.cause.error != NoError
                  && (v.cause == s.first || (v.cause == s.second && v.cause.error != Canceled)))
            && (s.activeAtEnd ==> v == Failed(s.first))
            && (s.first.error !in {NoError, Canceled} ==> v == Failed(s.first))
            && (!s.activeAtEnd && s.first.error in {NoError, Canceled} && s.second.error !in {NoError, Canceled} ==>
                  v == Failed(s.second))
  {
    RunKeeps(Initial(), steps);
  }

  /** A worker's own steps: it ends with the error it returned, or with the made-up one if and only if it returned nil
      while its context was live, and that is what it sends, once. */
  lemma OutcomeExact(s: State, n: Name, e: Error)
    requires At(s, n) == Running && e != Silent
    ensures var t := Apply(Apply(Apply(s, ReturnFrom(n, e)), CheckNil(n)), Send(n));
            && At(t, n) == Sent
            && t.channel == s.channel + [Outcome(n, if e == NoError && !s.workerDone then Silent else e)]
            && t == (if n == Executive then s.(executive := Sent) else s.(finance := Sent)).(channel := t.channel)
  {
  }

  /** The outcomes sent during these steps, in order. */
  function SentIn(s: State, steps: seq<Step>): seq<Outcome>
    decreases |steps|
  {
    if steps == [] then []
    else (if steps[0].Send? && At(s, steps[0].name).Checked?
          then [Outcome(steps[0].name, At(s, steps[0].name).error)] else [])
         + SentIn(Apply(s, steps[0]), steps[1..])
  }

  /** The outcomes the supervisor has taken, in order. */
  function TakenSoFar(s: State): seq<Outcome> {
    match s.phase
    case AwaitFirst => []
    case Observed => [s.first]
    case AwaitSecond => [s.first]
    case Joined => [s.first, s.second]
    case Done(_) => [s.first, s.second]
  }

  lemma SendInOrder(s: State, n: Name)
    ensures var t := Apply(s, Send(n));
            && TakenSoFar(t) == TakenSoFar(s)
            && t.channel == s.channel + if At(s, n).Checked? then [Outcome(n, At(s, n).error)] else []
  {
  }

  lemma OthersKeepOrder(s: State, step: Step)
    requires !step.Send? && !step.ReceiveFirst? && !step.ReceiveSecond?
    ensures TakenSoFar(Apply(s, step)) == TakenSoFar(s) && Apply(s, step).channel == s.channel
  {
  }

  lemma StepInOrder(s: State, step: Step)
    ensures TakenSoFar(Apply(s, step)) + Apply(s, step).channel
            == TakenSoFar(s) + s.channel
               + if step.Send? && At(s, step.name).Checked? then [Outcome(step.name, At(s, step.name).error)] else []
  {
    if step.Send? {
      SendInOrder(s, step.name);
    } else if step.ReceiveFirst? || step.ReceiveSecond? {
      if s.channel != [] { assert s.channel == [s.channel[0]] + s.channel[1..]; }
      assert TakenSoFar(Apply(s, step)) + Apply(s, step).channel == TakenSoFar(s) + s.channel;
    } else {
      OthersKeepOrder(s, step);
    }
  }

  /** Outcomes are taken in the order they were sent: the first one acted on is the first one sent. */
  lemma {:induction false} TakenInOrder(s: State, steps: seq<Step>)
    ensures TakenSoFar(Run(s, steps)) + Run(s, steps).channel == TakenSoFar(s) + s.channel + SentIn(s, steps)
    decreases |steps|
  {
    if steps != [] {
      StepInOrder(s, steps[0]);
      TakenInOrder(Apply(s, steps[0]), steps[1..]);
    }
  }

  /** Acting on the first outcome cancels the other worker if and only if the parent is still active. */
  lemma SiblingCancelledIff(s: State)
    requires s.phase == Observed
    ensures var t := Apply(s, DecideSibling);
            && t == s.(phase := AwaitSecond, activeAtFirst := !s.parentDone, workerDone := t.workerDone)
            && (t.workerDone <==> s.workerDone || !s.parentDone)
  {
  }

  /** What cancels the workers' context: the parent's cancellation reaching it, or the decision on the first outcome. */
  predicate Cancels(s: State, step: Step) {
    (step == PropagateCancel && s.parentDone) || (step == DecideSibling && s.phase == Observed && !s.parentDone)
  }

  lemma {:induction false} RunLast(s: State, steps: seq<Step>, last: Step)
    ensures Run(s, steps + [last]) == Apply(Run(s, steps), last)
    decreases |steps|
  {
    if steps != [] {
      RunLast(Apply(s, steps[0]), steps[1..], last);
      assert (steps + [last])[1..] == steps[1..] + [last];
    }
  }

  /** Some step among the first n cancelled the workers' context. */
  ghost predicate Cancelled(s: State, steps: seq<Step>, n: nat)
    requires n <= |steps|
  {
    exists k | 0 <= k < n :: Cancels(Run(s, steps[..k]), steps[k])
  }

  lemma {:induction false} CancelledFrom(s: State, steps: seq<Step>, n: nat)
    requires n <= |steps|
    ensures Run(s, steps[..n]).parentDone <==> s.parentDone || CancelParent in steps[..n]
    ensures Run(s, steps[..n]).workerDone <==> s.workerDone || Cancelled(s, steps, n)
  {
    if n > 0 {
      var m := n - 1;
      CancelledFrom(s, steps, m);
      RunLast(s, steps[..m], steps[m]);
      assert steps[..n] == steps[..m] + [steps[m]];
      CancelStep(Run(s, steps[..m]), steps[m]);
    }
  }

  lemma CancelStep(s: State, step: Step)
    ensures Apply(s, step).parentDone <==> s.parentDone || step == CancelParent
    ensures Apply(s, step).workerDone <==> s.workerDone || Cancels(s, step)
  {
  }

  /** The workers' context ends only by a cancellation of the parent that reached it, or because the first outcome was
      acted on before the parent was cancelled. */
  lemma WorkersCancelledIff(steps: seq<Step>)
    ensures Run(Initial(), steps).workerDone <==>
            exists k | 0 <= k < |steps| ::
              || (steps[k] == PropagateCancel && CancelParent in steps[..k])
              || (steps[k] == DecideSibling && CancelParent !in steps[..k]
                  && Run(Initial(), steps[..k]).phase == Observed)
  {
    CancelledFrom(Initial(), steps, |steps|);
    assert steps[..|steps|] == steps;
    forall k | 0 <= k < |steps|
      ensures Run(Initial(), steps[..k]).parentDone <==> CancelParent in steps[..k]
    {
      CancelledFrom(Initial(), steps, k);
    }
  }

  /** The promise that the original error is returned when the parent was active at the first
      termination holds exactly when that error is not a cancellation or the parent is still active at
      the end. */
  lemma OriginalErrorReturnedIff(steps: seq<Step>)
    requires Run(Initial(), steps).phase.Done?
    requires Run(Initial(), steps).activeAtFirst
    ensures var s := Run(Initial(), steps);
            s.phase.verdict == Failed(s.first) <==> s.activeAtEnd || s.first.error != Canceled
  {
    RunKeeps(Initial(), steps);
  }

  lemma {:induction false} FollowTrace(trace: seq<State>, steps: seq<Step>)
    requires |trace| == |steps| + 1
    requires forall i | 0 <= i < |steps| :: trace[i + 1] == Apply(trace[i], steps[i])
    ensures Run(trace[0], steps) == trace[|steps|]
    decreases |steps|
  {
    if steps != [] {
      assert trace[1] == Apply(trace[0], steps[0]);
      assert forall i | 0 <= i < |steps[1..]| :: trace[1..][i + 1] == trace[i + 2] && steps[1..][i] == steps[i + 1];
      FollowTrace(trace[1..], steps[1..]);
    }
  }

  /** The failing case happens: the finance worker stops with a cancellation of its own, the parent is
      cancelled while the executive worker unwinds, and the unexpected stop is reported as clean. */
  lemma OriginalErrorCanBeLost() returns (steps: seq<Step>)
    ensures var s := Run(Initial(), steps);
            s.phase == Done(Clean) && s.activeAtFirst && s.first == Outcome(Finance, Canceled)
  {
    steps := [ReturnFrom(Finance, Canceled), CheckNil(Finance), Send(Finance), ReceiveFirst, DecideSibling,
              CancelParent, ReturnFrom(Executive, NoError), CheckNil(Executive), Send(Executive), ReceiveSecond,
              Classify];
    var none, lost, clean := Outcome(Executive, NoError), Outcome(Finance, Canceled), Outcome(Executive, NoError);
    var trace := [
      Initial(),
      State(false, false, Running, Returned(Canceled), [], AwaitFirst, none, none, false, false),
      State(false, false, Running, Checked(Canceled), [], AwaitFirst, none, none, false, false),
      State(false, false, Running, Sent, [lost], AwaitFirst, none, none, false, false),
      State(false, false, Running, Sent, [], Observed, lost, none, false, false),
      State(false, true, Running, Sent, [], AwaitSecond, lost, none, true, false),
      State(true, true, Running, Sent, [], AwaitSecond, lost, none, true, false),
      State(true, true, Returned(NoError), Sent, [], AwaitSecond, lost, none, true, false),
      State(true, true, Checked(NoError), Sent, [], AwaitSecond, lost, none, true, false),
      State(true, true, Sent, Sent, [clean], AwaitSecond, lost, none, true, false),
      State(true, true, Sent, Sent, [], Joined, lost, clean, true, false),
      State(true, true, Sent, Sent, [], Done(Clean), lost, clean, true, false)];
    FollowTrace(trace, steps);
  }

  // ---------------------------------------------------------------------------------------------
  // Progress

  /** Steps still to be taken by goroutines and supervisor once both functions have returned. */
  function Remaining(s: State): nat {
    Left(s.executive) + Left(s.finance)
    + (match s.phase case AwaitFirst => 4 case Observed => 3 case AwaitSecond => 2 case Joined => 1 case Done(_) => 0)
  }

  function Left(t: Stage): nat {
    match t case Running => 3 case Returned(_) => 2 case Checked(_) => 1 case Sent => 0
  }

  predicate Internal(step: Step) {
    !step.CancelParent? && !step.PropagateCancel?
  }

  lemma EveryStepCounts(s: State, step: Step)
    requires Internal(step) && Apply(s, step) != s
    ensures Remaining(Apply(s, step)) < Remaining(s)
  {
    match step
    case ReturnFrom(n, _) => assert At(Apply(s, step), n).Returned?;
    case CheckNil(n) => assert At(Apply(s, step), n).Checked?;
    case Send(n) => assert At(Apply(s, step), n).Sent?;
    case _ =>
  }

  /** Once both functions have returned the supervisor cannot get stuck: until it is done some step is
      enabled; and every step but a cancellation brings the end strictly nearer (EveryStepCounts). */
  lemma SupervisorProgresses(s: State) returns (next: Step)
    requires Inv(s)
    requires s.executive != Running && s.finance != Running && !s.phase.Done?
    ensures Internal(next) && Remaining(Apply(s, next)) < Remaining(s)
  {
    next :=
      if s.executive.Returned? then CheckNil(Executive)
      else if s.finance.Returned? then CheckNil(Finance)
      else if s.executive.Checked? then Send(Executive)
      else if s.finance.Checked? then Send(Finance)
      else
        match s.phase
        case AwaitFirst => ReceiveFirst
        case Observed => DecideSibling
        case AwaitSecond => ReceiveSecond
        case _ => Classify;
    assert Apply(s, next) != s;
    EveryStepCounts(s, next);
  }
}
