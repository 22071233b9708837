/** When each step of a review execution goes on, what exactly it writes, and for whom a review is ever stored
    (internal/campaign/finance_service.go, internal/campaign/postgres/store.go). */
module FinanceLaws {
  import opened Prelude
  import opened AgentBudget
  import opened ExecutionBudget
  import opened FinanceReview

  // ---------------------------------------------------------------------------------------------
  // The steps, exactly

  /** The claim needs a ready task assigned to the request's reviewer; it takes the next attempt and its lease. */
  lemma ClaimIff(nanos: real -> int64, w: World, call: Call, output: Output, floor: Limits, finalizable: bool)
    requires call.stage == Unreviewed
    ensures var o := Advance(nanos, w, call, output, floor, finalizable);
            if && call.request in w.requests && call.task in w.tasks && w.tasks[call.task].status == Ready
               && w.tasks[call.task].assignee == w.requests[call.request].reviewer
            then
              && o.write.PutTask? && o.write.id == call.task && o.next == Some(Claimed(o.write.task.attempts))
              && o.write.task.attempts == w.tasks[call.task].attempts + 1
              && o.write.task == Task(Leased, w.tasks[call.task].assignee, o.write.task.attempts,
                                      Some(o.write.task.attempts))
            else o == Outcome(NoWrite, None)
  {
  }

  /** The start needs that lease still held. */
  lemma StartIff(nanos: real -> int64, w: World, call: Call, output: Output, floor: Limits, finalizable: bool)
    requires call.stage.Claimed?
    ensures var o, attempt := Advance(nanos, w, call, output, floor, finalizable), call.stage.attempt;
            if && call.task in w.tasks && w.tasks[call.task].status == Leased
               && w.tasks[call.task].lease == Some(attempt)
            then o == Outcome(PutTask(call.task, w.tasks[call.task].(status := Running)), Some(Started(attempt)))
            else o == Outcome(NoWrite, None)
  {
  }

  /** An output that passes the gate goes on as it is; one that does not fails the attempt, if it still holds the
      running task, and is never recorded. */
  lemma JudgeIff(nanos: real -> int64, w: World, call: Call, output: Output, floor: Limits, finalizable: bool)
    requires call.stage.Started?
    ensures var o, attempt := Advance(nanos, w, call, output, floor, finalizable), call.stage.attempt;
            if PassesGate(nanos, output.verdict, output.budget, floor)
            then o == Outcome(NoWrite, Some(Validated(attempt, output, floor)))
            else if && call.task in w.tasks && w.tasks[call.task].status == Running
                    && w.tasks[call.task].lease == Some(attempt)
            then o == Outcome(PutTask(call.task, w.tasks[call.task].(status := Failed, lease := None)), None)
            else o == Outcome(NoWrite, None)
  {
    GateExact(nanos, output.verdict, output.budget, floor);
  }

  /** The success is recorded if and only if the attempt still holds the running task. */
  lemma SuccessIff(nanos: real -> int64, w: World, call: Call, output: Output, floor: Limits, finalizable: bool)
    requires call.stage.Validated?
    ensures var o := Advance(nanos, w, call, output, floor, finalizable);
            var Validated(attempt, out, judged) := call.stage;
            if && call.task in w.tasks && w.tasks[call.task].status == Running
               && w.tasks[call.task].lease == Some(attempt)
            then
              o == Outcome(PutSuccess(call.task, w.tasks[call.task].(status := AwaitingVerification, lease := None),
                                      Success(call.task, attempt, out, judged, Running, Some(attempt))),
                           Some(Succeeded(attempt, out)))
            else o == Outcome(NoWrite, None)
  {
  }

  /** A lease that lapses before the success is recorded costs the attempt: nothing is recorded and nothing changes but
      the lease. */
  lemma LapsedIsNotRecorded(nanos: real -> int64, w: World, c: nat, output: Output, floor: Limits, finalizable: bool)
    requires c in w.calls && w.calls[c].stage.Validated? && w.calls[c].task in w.tasks
    ensures var task := w.calls[c].task;
            Run(nanos, w, [Lapse(task), Go(c, output, floor, finalizable)])
            == w.(tasks := w.tasks[task := w.tasks[task].(lease := None)], calls := w.calls - {c})
  {
    var task := w.calls[c].task;
    var lapsed := w.(tasks := w.tasks[task := w.tasks[task].(lease := None)]);
    SuccessIff(nanos, lapsed, w.calls[c], output, floor, finalizable);
    FollowTrace(nanos, [w, lapsed, lapsed.(calls := w.calls - {c})],
                [Lapse(task), Go(c, output, floor, finalizable)]);
  }

  /** Only its own steps and its own crash change an execution, and none changes the task and request it was given. */
  lemma ExecutionsAreIsolated(nanos: real -> int64, w: World, step: Step, c: nat)
    requires c in w.calls
    ensures var t := Apply(nanos, w, step);
            && (c in t.calls ==> t.calls[c].task == w.calls[c].task && t.calls[c].request == w.calls[c].request)
            && (!(step.Go? && step.call == c) && step != Crash(c) ==> c in t.calls && t.calls[c] == w.calls[c])
  {
  }

  /** The reviewer is not the requester, the CEO or the owner. */
  predicate Separate(w: World, q: nat) {
    && q in w.requests && w.requests[q].reviewer != w.requests[q].requester
    && w.requests[q].reviewer != "empresa/ceo" && w.requests[q].reviewer != "empresa/human"
  }

  /** A first review is stored, one that says the same is found, and a different one refused; none at all for a
      reviewer who is the requester, the CEO or the owner. */
  lemma StoreIff(nanos: real -> int64, w: World, call: Call, output: Output, floor: Limits, finalizable: bool)
    requires call.stage.Succeeded?
    ensures var o := Advance(nanos, w, call, output, floor, finalizable);
            var Succeeded(attempt, out) := call.stage;
            if !Separate(w, call.request) then o == Outcome(NoWrite, None)
            else if call.request !in w.reviews then
              var review := Review(call.task, attempt, out, |w.successes|);
              o == Outcome(PutReview(call.request, review), Some(Finishing(review)))
            else if w.reviews[call.request].output == out
            then o == Outcome(NoWrite, Some(Finishing(w.reviews[call.request])))
            else o == Outcome(NoWrite, None)
  {
  }

  /** The task is completed if and only if it awaits verification with nothing open, and the review answered anyway. */
  lemma FinishIff(nanos: real -> int64, w: World, call: Call, output: Output, floor: Limits, finalizable: bool)
    requires call.stage.Finishing?
    ensures var o := Advance(nanos, w, call, output, floor, finalizable);
            var answer := Answer(call.request, call.stage.review);
            && o.next == None
            && o.write == if && finalizable && call.task in w.tasks
                             && w.tasks[call.task].status == AwaitingVerification
                          then Complete(call.task, w.tasks[call.task].(status := Completed), answer)
                          else Reply(answer)
  {
  }

  /** An execution begins by looking for the review: found, it is answered; a request unknown, nothing happens. */
  lemma LookIff(nanos: real -> int64, w: World, call: Call, output: Output, floor: Limits, finalizable: bool)
    requires call.stage == Asked
    ensures Advance(nanos, w, call, output, floor, finalizable)
            == Outcome(NoWrite, if call.request !in w.requests then None
                                else if call.request in w.reviews then Some(Finishing(w.reviews[call.request]))
                                else Some(Unreviewed))
  {
  }

  // ---------------------------------------------------------------------------------------------
  // Who reviews

  /** The task is assigned to the request's reviewer. */
  predicate OnAssigned(w: World, q: nat, task: nat) {
    q in w.requests && task in w.tasks && w.tasks[task].assignee == w.requests[q].reviewer
  }

  predicate Working(stage: Stage) {
    stage.Claimed? || stage.Started? || stage.Validated? || stage.Succeeded?
  }

  ghost predicate Assigned(w: World) {
    && (forall c | c in w.calls && Working(w.calls[c].stage) :: OnAssigned(w, w.calls[c].request, w.calls[c].task))
    && (forall q | q in w.reviews :: OnAssigned(w, q, w.reviews[q].task) && Separate(w, q))
  }

  /** Requests stay, and tasks stay assigned to whom they were. */
  ghost predicate AssigneesKept(v: World, w: World) {
    && (forall t | t in v.tasks :: t in w.tasks && w.tasks[t].assignee == v.tasks[t].assignee)
    && (forall q | q in v.requests :: q in w.requests && w.requests[q] == v.requests[q])
  }

  lemma AdvanceAssigned(nanos: real -> int64, w: World, call: Call, output: Output, floor: Limits, finalizable: bool)
    requires Working(call.stage) ==> OnAssigned(w, call.request, call.task)
    ensures var o := Advance(nanos, w, call, output, floor, finalizable);
            && AssigneesKept(w, Perform(w, o.write))
            && (o.next.Some? && Working(o.next.value) ==> OnAssigned(w, call.request, call.task))
            && (o.write.PutReview? ==>
                  o.write.request == call.request && o.write.review.task == call.task
                  && OnAssigned(w, call.request, call.task) && Separate(w, call.request))
  {
  }

  lemma GoAssigned(nanos: real -> int64, w: World, c: nat, output: Output, floor: Limits, finalizable: bool)
    requires Assigned(w) && c in w.calls
    ensures Assigned(Apply(nanos, w, Go(c, output, floor, finalizable)))
  {
    var o := Advance(nanos, w, w.calls[c], output, floor, finalizable);
    AdvanceAssigned(nanos, w, w.calls[c], output, floor, finalizable);
    StayAssigned(w, Perform(w, o.write), c, o);
  }

  lemma StayAssigned(w: World, t: World, c: nat, o: Outcome)
    requires Assigned(w) && c in w.calls && t == Perform(w, o.write) && AssigneesKept(w, t)
    requires o.next.Some? && Working(o.next.value) ==> OnAssigned(w, w.calls[c].request, w.calls[c].task)
    requires o.write.PutReview? ==>
               o.write.review.task == w.calls[c].task && OnAssigned(w, o.write.request, w.calls[c].task)
               && Separate(w, o.write.request)
    ensures Assigned(t.(calls := if o.next.Some? then w.calls[c := w.calls[c].(stage := o.next.value)]
                                 else w.calls - {c}))
  {
  }

  lemma StepAssigned(nanos: real -> int64, w: World, step: Step)
    requires Assigned(w)
    ensures Assigned(Apply(nanos, w, step))
  {
    if step.Go? {
      if step.call in w.calls { GoAssigned(nanos, w, step.call, step.output, step.floor, step.finalizable); }
    } else {
      assert AssigneesKept(w, Apply(nanos, w, step));
    }
  }

  lemma {:induction false} RunAssigned(nanos: real -> int64, w: World, steps: seq<Step>)
    requires Assigned(w)
    ensures Assigned(Run(nanos, w, steps))
    decreases |steps|
  {
    if steps != [] {
      StepAssigned(nanos, w, steps[0]);
      RunAssigned(nanos, Apply(nanos, w, steps[0]), steps[1..]);
    }
  }

  /** In every run, every stored review was made at a task assigned to its request's reviewer, and that reviewer is
      not the requester, the CEO or the owner. */
  lemma ReviewerIsSeparate(nanos: real -> int64, steps: seq<Step>, q: nat)
    requires q in Run(nanos, EMPTY, steps).reviews
    ensures var w := Run(nanos, EMPTY, steps);
            && q in w.requests && w.reviews[q].task in w.tasks
            && w.tasks[w.reviews[q].task].assignee == w.requests[q].reviewer
            && w.requests[q].reviewer != w.requests[q].requester
            && w.requests[q].reviewer != "empresa/ceo" && w.requests[q].reviewer != "empresa/human"
  {
    RunAssigned(nanos, EMPTY, steps);
  }

  // ---------------------------------------------------------------------------------------------
  // The task engine's table

  /** A task that is done stays done, and awaiting verification is reached only from running. */
  lemma TransitionsExact(from: Status, to: Status)
    ensures from in {Completed, NoAction, Failed, DeadLetter, Rejected, Cancelled} <==>
            forall s: Status :: !CanTransition(from, s)
    ensures CanTransition(from, AwaitingVerification) <==> from == Running
    ensures CanTransition(from, Running) <==> from == Leased
    ensures CanTransition(from, Leased) <==> from == Ready
    ensures CanTransition(from, Completed) <==> from == AwaitingVerification
    ensures CanTransition(from, Cancelled) <==>
            from in {Pending, Ready, Leased, Running, AwaitingVerification, Blocked, RetryWait}
  {
    match from
    case Pending => assert CanTransition(Pending, Ready);
    case Ready => assert CanTransition(Ready, Leased);
    case Leased => assert CanTransition(Leased, Running);
    case Running => assert CanTransition(Running, Failed);
    case AwaitingVerification => assert CanTransition(AwaitingVerification, Completed);
    case Blocked => assert CanTransition(Blocked, Ready);
    case RetryWait => assert CanTransition(RetryWait, Ready);
    case _ =>
  }
}
