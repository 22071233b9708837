/** Executing a financial review as a machine: claim, start, validate, record the attempt, persist the review, finalize
    the task; any number of executions, crashes between any two writes, leases lapsing and operators moving tasks
    (internal/campaign/finance_service.go over internal/tasks). */
module FinanceReview {
  import opened Prelude
  import opened AgentBudget
  import opened ExecutionBudget

  datatype Status =
    | Pending | Ready | Leased | Running | AwaitingVerification | Blocked | RetryWait
    | Completed | NoAction | Failed | DeadLetter | Rejected | Cancelled

  /** The task engine's transition table. */
  predicate CanTransition(from: Status, to: Status) {
    match from
    case Pending => to in {Ready, Blocked, Rejected, Cancelled}
    case Ready => to in {Leased, Blocked, Rejected, Cancelled}
    case Leased => to in {Running, RetryWait, Blocked, DeadLetter, Cancelled}
    case Running => to in {AwaitingVerification, RetryWait, Blocked, Failed, DeadLetter, Cancelled}
    case AwaitingVerification => to in {Completed, NoAction, Failed, Blocked, Rejected, Cancelled}
    case Blocked => to in {Pending, Ready, Rejected, Cancelled}
    case RetryWait => to in {Ready, Blocked, DeadLetter, Cancelled}
    case _ => false
  }

  /** lease is the attempt that holds the active, unexpired lease. */
  datatype Task = Task(status: Status, assignee: string, attempts: nat, lease: Option<nat>)

  datatype Request = Request(task: nat, requester: string, reviewer: string)

  datatype Output = Output(verdict: Verdict, budget: Option<Recommendation>, summary: string)

  /** A success the task engine recorded; status and lease are what it verified, floor what the output was judged by. */
  datatype Success = Success(task: nat, attempt: nat, output: Output, floor: Limits, status: Status, lease: Option<nat>)

  /** after counts the successes recorded before the review was. */
  datatype Review = Review(task: nat, attempt: nat, output: Output, after: nat)

  datatype Stage =
    | Asked
    | Unreviewed
    | Claimed(attempt: nat)
    | Started(attempt: nat)
    | Validated(attempt: nat, output: Output, floor: Limits)
    | Succeeded(attempt: nat, output: Output)
    | Finishing(review: Review)

  datatype Call = Call(task: nat, request: nat, stage: Stage)

  datatype Completion = Completion(task: nat, request: nat)

  datatype Answer = Answer(request: nat, review: Review)

  datatype World = World(
    tasks: map<nat, Task>, requests: map<nat, Request>, reviews: map<nat, Review>,
    successes: seq<Success>, completions: seq<Completion>, answers: seq<Answer>, calls: map<nat, Call>)

  const EMPTY := World(map[], map[], map[], [], [], [], map[])

  const CEO := "empresa/ceo"
  const OWNER := "empresa/human"

  // ---------------------------------------------------------------------------------------------
  // One step of one execution

  /** The transaction an execution commits next. */
  datatype Write =
    | NoWrite
    | PutTask(id: nat, task: Task)
    | PutSuccess(id: nat, task: Task, success: Success)
    | PutReview(request: nat, review: Review)
    | Reply(answer: Answer)
    | Complete(id: nat, task: Task, answer: Answer)

  function Perform(w: World, write: Write): World {
    match write
    case NoWrite => w
    case PutTask(id, t) => w.(tasks := w.tasks[id := t])
    case PutSuccess(id, t, s) => w.(tasks := w.tasks[id := t], successes := w.successes + [s])
    case PutReview(q, r) => w.(reviews := w.reviews[q := r])
    case Reply(a) => w.(answers := w.answers + [a])
    case Complete(id, t, a) =>
      w.(tasks := w.tasks[id := t], answers := w.answers + [a],
         completions := w.completions + [Completion(id, a.request)])
  }

  /** What it writes, and its next stage, or None when it returns. */
  datatype Outcome = Outcome(write: Write, next: Option<Stage>)

  const STOP := Outcome(NoWrite, None)

  /** This attempt holds the task's lease, and the task has this status. */
  predicate Holds(w: World, id: nat, attempt: nat, status: Status) {
    id in w.tasks && w.tasks[id].status == status && w.tasks[id].lease == Some(attempt)
  }

  /** output and floor are what the model answered and the host required, finalizable whether no requirement is open. */
  function Advance(nanos: real -> int64, w: World, call: Call, output: Output, floor: Limits,
                   finalizable: bool): Outcome {
    match call.stage
    case Asked =>
      if call.request !in w.requests then STOP
      else if call.request in w.reviews then Outcome(NoWrite, Some(Finishing(w.reviews[call.request])))
      else Outcome(NoWrite, Some(Unreviewed))
    case Unreviewed =>
      if call.request !in w.requests || call.task !in w.tasks || w.tasks[call.task].status != Ready
         || w.tasks[call.task].assignee != w.requests[call.request].reviewer then STOP
      else
        var attempt := w.tasks[call.task].attempts + 1;
        Outcome(PutTask(call.task, w.tasks[call.task].(status := Leased, attempts := attempt, lease := Some(attempt))),
                Some(Claimed(attempt)))
    case Claimed(attempt) =>
      if !Holds(w, call.task, attempt, Leased) then STOP
      else Outcome(PutTask(call.task, w.tasks[call.task].(status := Running)), Some(Started(attempt)))
    case Started(attempt) =>
      if OutputAccepted(nanos, output.verdict, output.budget, floor) then
        Outcome(NoWrite, Some(Validated(attempt, output, floor)))
      else if Holds(w, call.task, attempt, Running) then
        Outcome(PutTask(call.task, w.tasks[call.task].(status := Failed, lease := None)), None)
      else STOP
    case Validated(attempt, out, judged) =>
      if !Holds(w, call.task, attempt, Running) then STOP
      else
        var t := w.tasks[call.task];
        Outcome(PutSuccess(call.task, t.(status := AwaitingVerification, lease := None),
                           Success(call.task, attempt, out, judged, t.status, t.lease)),
                Some(Succeeded(attempt, out)))
    case Succeeded(attempt, out) => Persist(w, call, attempt, out)
    case Finishing(review) =>
      var answer := Answer(call.request, review);
      if call.task in w.tasks && w.tasks[call.task].status == AwaitingVerification && finalizable
      then Outcome(Complete(call.task, w.tasks[call.task].(status := Completed), answer), None)
      else Outcome(Reply(answer), None)
  }

  /** The review row is unique per request, and refused to the requester, the CEO and the owner. */
  function Persist(w: World, call: Call, attempt: nat, out: Output): Outcome {
    if call.request !in w.requests then STOP
    else
      var q := w.requests[call.request];
      if q.reviewer == q.requester || q.reviewer == CEO || q.reviewer == OWNER then STOP
      else if call.request in w.reviews then
        if w.reviews[call.request].output == out then Outcome(NoWrite, Some(Finishing(w.reviews[call.request])))
        else STOP
      else
        var review := Review(call.task, attempt, out, |w.successes|);
        Outcome(PutReview(call.request, review), Some(Finishing(review)))
  }

  // ---------------------------------------------------------------------------------------------
  // Runs

  datatype Step =
    | NewTask(id: nat, assignee: string)
    | NewRequest(id: nat, record: Request)
    | Lapse(task: nat)
    | Move(task: nat, to: Status)
    | Begin(call: nat, task: nat, request: nat)
    | Go(call: nat, output: Output, floor: Limits, finalizable: bool)
    | Crash(call: nat)

  /** Every request has a review task of its own. Lapse lets a lease expire; Move is any transition an operator or the
      reconciler may make, which never takes a lease. */
  function Outside(w: World, step: Step): World {
    match step
    case NewTask(id, assignee) =>
      if id in w.tasks then w else w.(tasks := w.tasks[id := Task(Ready, assignee, 0, None)])
    case NewRequest(id, q) =>
      if id in w.requests || (exists other | other in w.requests :: w.requests[other].task == q.task) then w
      else w.(requests := w.requests[id := q])
    case Lapse(t) => if t in w.tasks then w.(tasks := w.tasks[t := w.tasks[t].(lease := None)]) else w
    case Move(t, to) =>
      if t in w.tasks && CanTransition(w.tasks[t].status, to) && to !in {Leased, Running, AwaitingVerification}
      then w.(tasks := w.tasks[t := w.tasks[t].(status := to, lease := None)]) else w
    case _ => w
  }

  function Apply(nanos: real -> int64, w: World, step: Step): World {
    match step
    case Begin(c, task, request) => if c in w.calls then w else w.(calls := w.calls[c := Call(task, request, Asked)])
    case Go(c, output, floor, finalizable) =>
      if c !in w.calls then w
      else
        var o := Advance(nanos, w, w.calls[c], output, floor, finalizable);
        Perform(w, o.write).(calls := if o.next.Some? then w.calls[c := w.calls[c].(stage := o.next.value)]
                             else w.calls - {c})
    case Crash(c) => w.(calls := w.calls - {c})
    case _ => Outside(w, step)
  }

  function Run(nanos: real -> int64, w: World, steps: seq<Step>): World
    decreases |steps|
  {
    if steps == [] then w else Run(nanos, Apply(nanos, w, steps[0]), steps[1..])
  }

  // ---------------------------------------------------------------------------------------------
  // The invariant

  /** A success recorded while the task was running under this attempt's lease, for an output that passed the gate. */
  predicate Sound(nanos: real -> int64, s: Success) {
    s.status == Running && s.lease == Some(s.attempt)
    && OutputAccepted(nanos, s.output.verdict, s.output.budget, s.floor)
  }

  ghost predicate Backed(successes: seq<Success>, task: nat, attempt: nat, output: Output, bound: nat) {
    exists i | 0 <= i < |successes| && i < bound ::
      successes[i].task == task && successes[i].attempt == attempt && successes[i].output == output
  }

  ghost predicate ReviewOk(successes: seq<Success>, r: Review) {
    r.after <= |successes| && Backed(successes, r.task, r.attempt, r.output, r.after)
  }

  ghost predicate CallOk(nanos: real -> int64, w: World, call: Call) {
    match call.stage
    case Validated(_, out, floor) => OutputAccepted(nanos, out.verdict, out.budget, floor)
    case Succeeded(attempt, out) => Backed(w.successes, call.task, attempt, out, |w.successes|)
    case Finishing(review) => call.request in w.reviews && w.reviews[call.request] == review
    case _ => true
  }

  ghost predicate RecordsOk(nanos: real -> int64, w: World) {
    && (forall i | 0 <= i < |w.successes| :: Sound(nanos, w.successes[i]))
    && (forall q | q in w.reviews :: ReviewOk(w.successes, w.reviews[q]))
    && (forall i | 0 <= i < |w.completions| :: w.completions[i].request in w.reviews)
    && (forall i | 0 <= i < |w.answers| ::
          w.answers[i].request in w.reviews && w.reviews[w.answers[i].request] == w.answers[i].review)
  }

  ghost predicate Inv(nanos: real -> int64, w: World) {
    RecordsOk(nanos, w) && forall c | c in w.calls :: CallOk(nanos, w, w.calls[c])
  }

  ghost predicate Grows(v: World, w: World) {
    && v.successes <= w.successes && v.completions <= w.completions && v.answers <= w.answers
    && (forall q | q in v.reviews :: q in w.reviews && w.reviews[q] == v.reviews[q])
    && (forall q | q in v.requests :: q in w.requests && w.requests[q] == v.requests[q])
  }

  lemma GrowsThrough(u: World, v: World, w: World)
    requires Grows(u, v) && Grows(v, w)
    ensures Grows(u, w)
  {
  }

  predicate Adds(w: World, write: Write) {
    write.PutReview? ==> write.request !in w.reviews
  }

  lemma PerformGrows(w: World, write: Write)
    requires Adds(w, write)
    ensures Grows(w, Perform(w, write))
  {
  }

  lemma ApplyGrows(nanos: real -> int64, w: World, step: Step)
    ensures Grows(w, Apply(nanos, w, step))
  {
    if step.Go? && step.call in w.calls {
      PerformGrows(w, Advance(nanos, w, w.calls[step.call], step.output, step.floor, step.finalizable).write);
    }
  }

  /** Reviews, requests and the record of successes, completions and answers are never changed or lost. */
  lemma {:induction false} RunGrows(nanos: real -> int64, w: World, steps: seq<Step>)
    ensures Grows(w, Run(nanos, w, steps))
    decreases |steps|
  {
    if steps != [] {
      ApplyGrows(nanos, w, steps[0]);
      RunGrows(nanos, Apply(nanos, w, steps[0]), steps[1..]);
    }
  }

  lemma BackedStays(v: seq<Success>, w: seq<Success>, task: nat, attempt: nat, output: Output, bound: nat)
    requires v <= w && Backed(v, task, attempt, output, bound)
    ensures Backed(w, task, attempt, output, bound)
  {
    var i :| 0 <= i < |v| && i < bound && v[i].task == task && v[i].attempt == attempt && v[i].output == output;
    assert w[i] == v[i];
  }

  lemma CallStays(nanos: real -> int64, v: World, w: World, call: Call)
    requires Grows(v, w) && CallOk(nanos, v, call)
    ensures CallOk(nanos, w, call)
  {
    if call.stage.Succeeded? {
      var i :| 0 <= i < |v.successes| && v.successes[i].task == call.task
          && v.successes[i].attempt == call.stage.attempt && v.successes[i].output == call.stage.output;
      assert w.successes[i] == v.successes[i];
    }
  }

  lemma CallsStay(nanos: real -> int64, v: World, w: World, calls: map<nat, Call>)
    requires Grows(v, w) && forall c | c in calls :: CallOk(nanos, v, calls[c])
    ensures forall c | c in calls :: CallOk(nanos, w, calls[c])
  {
    forall c | c in calls ensures CallOk(nanos, w, calls[c]) { CallStays(nanos, v, w, calls[c]); }
  }

  /** What a write must satisfy to keep the records sound. */
  ghost predicate WriteOk(nanos: real -> int64, w: World, write: Write) {
    match write
    case PutSuccess(_, _, s) => Sound(nanos, s)
    case PutReview(_, r) => ReviewOk(w.successes, r)
    case Reply(a) => a.request in w.reviews && w.reviews[a.request] == a.review
    case Complete(_, _, a) => a.request in w.reviews && w.reviews[a.request] == a.review
    case _ => true
  }

  lemma PerformKeeps(nanos: real -> int64, w: World, write: Write)
    requires RecordsOk(nanos, w) && Adds(w, write) && WriteOk(nanos, w, write)
    ensures RecordsOk(nanos, Perform(w, write))
  {
    var t := Perform(w, write);
    PerformGrows(w, write);
    forall q | q in t.reviews ensures ReviewOk(t.successes, t.reviews[q]) {
      var r := t.reviews[q];
      assert ReviewOk(w.successes, r);
      BackedStays(w.successes, t.successes, r.task, r.attempt, r.output, r.after);
    }
  }

  lemma AdvanceJustified(nanos: real -> int64, w: World, call: Call, output: Output, floor: Limits, finalizable: bool)
    requires CallOk(nanos, w, call)
    ensures var o := Advance(nanos, w, call, output, floor, finalizable);
            && Adds(w, o.write) && WriteOk(nanos, w, o.write)
            && (o.next.Some? ==> CallOk(nanos, Perform(w, o.write), call.(stage := o.next.value)))
  {
    if call.stage.Validated? {
      var t := Perform(w, Advance(nanos, w, call, output, floor, finalizable).write);
      if |t.successes| > |w.successes| { assert t.successes[|w.successes|].task == call.task; }
    }
  }

  lemma GoKeeps(nanos: real -> int64, w: World, c: nat, output: Output, floor: Limits, finalizable: bool)
    requires Inv(nanos, w) && c in w.calls
    ensures Inv(nanos, Apply(nanos, w, Go(c, output, floor, finalizable)))
  {
    var o := Advance(nanos, w, w.calls[c], output, floor, finalizable);
    AdvanceJustified(nanos, w, w.calls[c], output, floor, finalizable);
    PerformKeeps(nanos, w, o.write);
    PerformGrows(w, o.write);
    CallsStay(nanos, w, Perform(w, o.write), w.calls);
  }

  lemma ApplyKeeps(nanos: real -> int64, w: World, step: Step)
    requires Inv(nanos, w)
    ensures Inv(nanos, Apply(nanos, w, step))
  {
    if step.Go? && step.call in w.calls { GoKeeps(nanos, w, step.call, step.output, step.floor, step.finalizable); }
  }

  lemma {:induction false} RunKeeps(nanos: real -> int64, w: World, steps: seq<Step>)
    requires Inv(nanos, w)
    ensures Inv(nanos, Run(nanos, w, steps))
    decreases |steps|
  {
    if steps != [] {
      ApplyKeeps(nanos, w, steps[0]);
      RunKeeps(nanos, Apply(nanos, w, steps[0]), steps[1..]);
    }
  }

  // ---------------------------------------------------------------------------------------------
  // What every run guarantees

  /** In every run a review exists only if the success of its attempt, for its output, was recorded before it, while the
      task was running under that attempt's valid lease, and the output had passed the gate: a recommended budget
      reached the floor it was judged by in all seven amounts. */
  lemma ReviewFollowsSuccess(nanos: real -> int64, steps: seq<Step>, q: nat)
    requires q in Run(nanos, EMPTY, steps).reviews
    ensures var w := Run(nanos, EMPTY, steps);
            var r := w.reviews[q];
            exists i | 0 <= i < r.after <= |w.successes| ::
              var s := w.successes[i];
              && s.task == r.task && s.attempt == r.attempt && s.output == r.output
              && s.status == Running && s.lease == Some(r.attempt)
              && PassesGate(nanos, r.output.verdict, r.output.budget, s.floor)
              && (r.output.verdict == Recommended ==>
                    r.output.budget.Some? && AtFloor(nanos, r.output.budget.value, s.floor))
  {
    RunKeeps(nanos, EMPTY, steps);
    var w := Run(nanos, EMPTY, steps);
    var r := w.reviews[q];
    assert ReviewOk(w.successes, r);
    var i :| 0 <= i < |w.successes| && i < r.after && w.successes[i].task == r.task
        && w.successes[i].attempt == r.attempt && w.successes[i].output == r.output;
    assert Sound(nanos, w.successes[i]);
    GateExact(nanos, r.output.verdict, r.output.budget, w.successes[i].floor);
  }

  /** Every execution that answers, first or replay, now or after any continuation, answers the one review of
      its request. */
  lemma ReplayReturnsTheReview(nanos: real -> int64, steps: seq<Step>, more: seq<Step>, i: nat)
    requires i < |Run(nanos, EMPTY, steps).answers|
    ensures var w := Run(nanos, EMPTY, steps);
            var later := Run(nanos, w, more);
            && w.answers[i].request in later.reviews
            && later.reviews[w.answers[i].request] == w.answers[i].review
            && forall j | 0 <= j < |later.answers| && later.answers[j].request == w.answers[i].request ::
                 later.answers[j].review == w.answers[i].review
  {
    RunKeeps(nanos, EMPTY, steps);
    var w := Run(nanos, EMPTY, steps);
    RunKeeps(nanos, w, more);
    RunGrows(nanos, w, more);
  }

  // ---------------------------------------------------------------------------------------------
  // Completion, when executions of the request name its own task

  /** Every execution of this request that begins names this task. */
  predicate Names(steps: seq<Step>, q: nat, task: nat) {
    forall i | 0 <= i < |steps| && steps[i].Begin? && steps[i].request == q :: steps[i].task == task
  }

  /** Requests have tasks of their own, and only requests are reviewed. */
  ghost predicate Registered(w: World) {
    && (forall p, q | p in w.requests && q in w.requests :: w.requests[p].task == w.requests[q].task ==> p == q)
    && (forall q | q in w.reviews :: q in w.requests)
  }

  /** A write touches only its own call's task and request. */
  predicate Within(write: Write, task: nat, request: nat) {
    match write
    case PutTask(id, _) => id == task
    case PutSuccess(id, _, _) => id == task
    case PutReview(q, r) => q == request && r.task == task
    case Complete(id, _, a) => id == task && a.request == request
    case _ => true
  }

  lemma AdvanceWithin(nanos: real -> int64, w: World, call: Call, output: Output, floor: Limits, finalizable: bool)
    ensures var o := Advance(nanos, w, call, output, floor, finalizable);
            && Within(o.write, call.task, call.request)
            && (o.write.PutReview? ==> call.request in w.requests)
  {
  }

  lemma RegisteredKept(nanos: real -> int64, w: World, step: Step)
    requires Registered(w)
    ensures Registered(Apply(nanos, w, step))
  {
    if step.Go? && step.call in w.calls {
      AdvanceWithin(nanos, w, w.calls[step.call], step.output, step.floor, step.finalizable);
    }
  }

  lemma {:induction false} RegisteredRun(nanos: real -> int64, w: World, steps: seq<Step>)
    requires Registered(w)
    ensures Registered(Run(nanos, w, steps))
    decreases |steps|
  {
    if steps != [] {
      RegisteredKept(nanos, w, steps[0]);
      RegisteredRun(nanos, Apply(nanos, w, steps[0]), steps[1..]);
    }
  }

  /** Whatever was done for this request was done at this task. */
  ghost predicate Matched(w: World, q: nat, task: nat) {
    && (forall c | c in w.calls && w.calls[c].request == q :: w.calls[c].task == task)
    && (q in w.reviews ==> w.reviews[q].task == task)
    && (forall i | 0 <= i < |w.completions| && w.completions[i].request == q :: w.completions[i].task == task)
  }

  lemma MatchedKept(nanos: real -> int64, w: World, step: Step, q: nat, task: nat)
    requires Matched(w, q, task) && (step.Begin? && step.request == q ==> step.task == task)
    ensures Matched(Apply(nanos, w, step), q, task)
  {
    if step.Go? && step.call in w.calls {
      AdvanceWithin(nanos, w, w.calls[step.call], step.output, step.floor, step.finalizable);
    }
  }

  lemma {:induction false} MatchedRun(nanos: real -> int64, w: World, steps: seq<Step>, q: nat, task: nat)
    requires Matched(w, q, task) && Names(steps, q, task)
    ensures Matched(Run(nanos, w, steps), q, task)
    decreases |steps|
  {
    if steps != [] {
      MatchedKept(nanos, w, steps[0], q, task);
      assert forall i | 0 <= i < |steps[1..]| :: steps[1..][i] == steps[i + 1];
      MatchedRun(nanos, Apply(nanos, w, steps[0]), steps[1..], q, task);
    }
  }

  /** In every run: if the executions of the request named by a completion name that request's own task, then the
      completed task is its task and no other request's, and has its review, made by an attempt at that task. What
      other executions name does not matter. */
  lemma CompletionHasItsReview(nanos: real -> int64, steps: seq<Step>, i: nat)
    requires var w := Run(nanos, EMPTY, steps);
             && i < |w.completions|
             && var q := w.completions[i].request;
             && (q in w.requests ==> Names(steps, q, w.requests[q].task))
    ensures var w := Run(nanos, EMPTY, steps);
            var done := w.completions[i];
            && done.request in w.requests && w.requests[done.request].task == done.task
            && done.request in w.reviews && w.reviews[done.request].task == done.task
            && forall q | q in w.requests && w.requests[q].task == done.task :: q == done.request
  {
    var w := Run(nanos, EMPTY, steps);
    var q := w.completions[i].request;
    RunKeeps(nanos, EMPTY, steps);
    RegisteredRun(nanos, EMPTY, steps);
    MatchedRun(nanos, EMPTY, steps, q, w.requests[q].task);
  }

  /** The task id is never compared with the request's: once a request is reviewed, executing it again with any
      other task that awaits verification completes that task, reviewed or not. */
  lemma ReplayCompletesAnyTask(nanos: real -> int64, w: World, c: nat, task: nat, q: nat, output: Output, floor: Limits)
    requires c !in w.calls && q in w.requests && q in w.reviews
    requires task in w.tasks && w.tasks[task].status == AwaitingVerification && w.requests[q].task != task
    ensures var go := Go(c, output, floor, true);
            var t := Run(nanos, w, [Begin(c, task, q), go, go]);
            && task in t.tasks && t.tasks[task].status == Completed
            && t.completions == w.completions + [Completion(task, q)] && t.reviews == w.reviews
  {
    var go := Go(c, output, floor, true);
    var w1 := Apply(nanos, w, Begin(c, task, q));
    var w2 := Apply(nanos, w1, go);
    assert w2.calls[c] == Call(task, q, Finishing(w.reviews[q]));
    assert [Begin(c, task, q), go, go][1..] == [go, go] && [go, go][1..] == [go] && [go][1..] == [];
    assert Run(nanos, w, [Begin(c, task, q), go, go]) == Run(nanos, w1, [go, go]) == Run(nanos, w2, [go])
           == Apply(nanos, w2, go);
  }

  // ---------------------------------------------------------------------------------------------
  // A crash between the success and the review

  /** The request has no review, its task can no longer be claimed, and no execution of it has got past its look. */
  ghost predicate Unreviewable(w: World, q: nat) {
    && q in w.requests && q !in w.reviews
    && var t := w.requests[q].task;
    && t in w.tasks && w.tasks[t].status in {AwaitingVerification, Completed}
    && forall c | c in w.calls && w.calls[c].request == q ::
         w.calls[c].task == t && (w.calls[c].stage.Asked? || w.calls[c].stage.Unreviewed?)
  }

  /** And the task is waiting for the review. */
  ghost predicate Stranded(w: World, q: nat) {
    Unreviewable(w, q) && w.tasks[w.requests[q].task].status == AwaitingVerification
  }

  lemma CrashStrands(nanos: real -> int64, w: World, c: nat, q: nat)
    requires q in w.requests && q !in w.reviews
    requires c in w.calls && w.calls[c].stage.Succeeded? && w.calls[c].task == w.requests[q].task
    requires w.calls[c].task in w.tasks && w.tasks[w.calls[c].task].status == AwaitingVerification
    requires forall d | d in w.calls && d != c && w.calls[d].request == q ::
               w.calls[d].task == w.calls[c].task && (w.calls[d].stage.Asked? || w.calls[d].stage.Unreviewed?)
    ensures Stranded(Apply(nanos, w, Crash(c)), q)
  {
  }

  /** A task that is done or waits for verification cannot be claimed, run or failed: only completed. */
  lemma OnlyCompleted(nanos: real -> int64, w: World, call: Call, output: Output, floor: Limits, finalizable: bool)
    requires call.task in w.tasks && w.tasks[call.task].status in {AwaitingVerification, Completed}
    ensures var write := Advance(nanos, w, call, output, floor, finalizable).write;
            !write.PutTask? && !write.PutSuccess? && (write.Complete? ==> write.task.status == Completed)
  {
  }

  lemma GoUnreviewable(nanos: real -> int64, w: World, c: nat, output: Output, floor: Limits, finalizable: bool, q: nat)
    requires Unreviewable(w, q) && c in w.calls
    ensures Unreviewable(Apply(nanos, w, Go(c, output, floor, finalizable)), q)
  {
    var call := w.calls[c];
    AdvanceWithin(nanos, w, call, output, floor, finalizable);
    if call.request == q {
      assert Advance(nanos, w, call, output, floor, finalizable) in {STOP, Outcome(NoWrite, Some(Unreviewed))};
    } else if call.task == w.requests[q].task {
      OnlyCompleted(nanos, w, call, output, floor, finalizable);
    }
  }

  lemma UnreviewableKept(nanos: real -> int64, w: World, step: Step, q: nat)
    requires Unreviewable(w, q) && (step.Begin? && step.request == q ==> step.task == w.requests[q].task)
    requires !(step.Move? && step.task == w.requests[q].task)
    ensures Unreviewable(Apply(nanos, w, step), q)
  {
    if step.Go? && step.call in w.calls {
      GoUnreviewable(nanos, w, step.call, step.output, step.floor, step.finalizable, q);
    }
  }

  predicate Unmoved(steps: seq<Step>, task: nat) {
    forall i | 0 <= i < |steps| :: !(steps[i].Move? && steps[i].task == task)
  }

  /** From then on, as long as executions of the request name its own task, none of them produces the review,
      however often repeated and whatever else happens, until someone else moves the task: the claim needs a ready
      task. */
  lemma {:induction false} StrandedUntilMoved(nanos: real -> int64, w: World, steps: seq<Step>, q: nat)
    requires Unreviewable(w, q)
    requires Names(steps, q, w.requests[q].task) && Unmoved(steps, w.requests[q].task)
    ensures Unreviewable(Run(nanos, w, steps), q) && Run(nanos, w, steps).requests[q] == w.requests[q]
    decreases |steps|
  {
    if steps != [] {
      assert !(steps[0].Move? && steps[0].task == w.requests[q].task);
      UnreviewableKept(nanos, w, steps[0], q);
      ApplyGrows(nanos, w, steps[0]);
      assert forall i | 0 <= i < |steps[1..]| :: steps[1..][i] == steps[i + 1];
      StrandedUntilMoved(nanos, Apply(nanos, w, steps[0]), steps[1..], q);
    }
  }

  /** Only executions of this request name its task. */
  ghost predicate Alone(w: World, q: nat) {
    q in w.requests && forall c | c in w.calls && w.calls[c].task == w.requests[q].task :: w.calls[c].request == q
  }

  lemma StrandedKept(nanos: real -> int64, w: World, step: Step, q: nat)
    requires Stranded(w, q) && Alone(w, q)
    requires step.Begin? ==> (step.request == q <==> step.task == w.requests[q].task)
    requires !(step.Move? && step.task == w.requests[q].task)
    ensures Stranded(Apply(nanos, w, step), q) && Alone(Apply(nanos, w, step), q)
  {
    UnreviewableKept(nanos, w, step, q);
    if step.Go? && step.call in w.calls {
      var call := w.calls[step.call];
      AdvanceWithin(nanos, w, call, step.output, step.floor, step.finalizable);
      if call.request == q { OnlyLooks(nanos, w, call, step.output, step.floor, step.finalizable, q); }
    }
  }

  lemma OnlyLooks(nanos: real -> int64, w: World, call: Call, output: Output, floor: Limits, finalizable: bool, q: nat)
    requires Stranded(w, q) && call.request == q && call.task == w.requests[q].task
    requires call.stage.Asked? || call.stage.Unreviewed?
    ensures Advance(nanos, w, call, output, floor, finalizable).write == NoWrite
  {
  }

  /** If moreover no execution of another request names the task, it goes on waiting. */
  lemma {:induction false} WaitingUntilMoved(nanos: real -> int64, w: World, steps: seq<Step>, q: nat)
    requires Stranded(w, q) && Alone(w, q) && Unmoved(steps, w.requests[q].task)
    requires forall i | 0 <= i < |steps| && steps[i].Begin? ::
               steps[i].request == q <==> steps[i].task == w.requests[q].task
    ensures Stranded(Run(nanos, w, steps), q) && Alone(Run(nanos, w, steps), q)
    decreases |steps|
  {
    if steps != [] {
      assert !(steps[0].Move? && steps[0].task == w.requests[q].task);
      StrandedKept(nanos, w, steps[0], q);
      ApplyGrows(nanos, w, steps[0]);
      assert forall i | 0 <= i < |steps[1..]| :: steps[1..][i] == steps[i + 1];
      WaitingUntilMoved(nanos, Apply(nanos, w, steps[0]), steps[1..], q);
    }
  }

  // ---------------------------------------------------------------------------------------------
  // Both happen from an empty store

  lemma {:induction false} FollowTrace(nanos: real -> int64, trace: seq<World>, steps: seq<Step>)
    requires |trace| == |steps| + 1
    requires forall i | 0 <= i < |steps| :: trace[i + 1] == Apply(nanos, trace[i], steps[i])
    ensures Run(nanos, trace[0], steps) == trace[|steps|]
    decreases |steps|
  {
    if steps != [] {
      assert trace[1] == Apply(nanos, trace[0], steps[0]);
      assert forall i | 0 <= i < |steps[1..]| :: trace[1..][i + 1] == trace[i + 2] && steps[1..][i] == steps[i + 1];
      FollowTrace(nanos, trace[1..], steps[1..]);
    }
  }

  lemma {:induction false} RunSplit(nanos: real -> int64, w: World, first: seq<Step>, second: seq<Step>)
    ensures Run(nanos, w, first + second) == Run(nanos, Run(nanos, w, first), second)
    decreases |first|
  {
    if first == [] {
      assert first + second == second;
    } else {
      assert (first + second)[1..] == first[1..] + second;
      RunSplit(nanos, Apply(nanos, w, first[0]), first[1..], second);
    }
  }

  /** An output the gate accepts, and someone else to give it. */
  datatype Story = Story(requester: string, reviewer: string, output: Output, floor: Limits)
  {
    predicate Tellable(nanos: real -> int64) {
      && reviewer != requester && reviewer != CEO && reviewer != OWNER
      && OutputAccepted(nanos, output.verdict, output.budget, floor)
    }
    function Going(c: nat): Step { Go(c, output, floor, true) }
    function Trying(c: nat, task: nat, q: nat): seq<Step> {
      [Begin(c, task, q), Going(c), Going(c), Going(c), Going(c), Going(c)]
    }
    function Opening(task: nat, q: nat): seq<Step> {
      [NewTask(task, reviewer), NewRequest(q, Request(task, requester, reviewer))]
    }
    function Opened(w: World, task: nat, q: nat): World {
      w.(tasks := w.tasks[task := Task(Ready, reviewer, 0, None)],
         requests := w.requests[q := Request(task, requester, reviewer)])
    }
    function Tried(w: World, c: nat, task: nat, q: nat): World
      requires task in w.tasks
    {
      var attempt := w.tasks[task].attempts + 1;
      w.(tasks := w.tasks[task := Task(AwaitingVerification, reviewer, attempt, None)],
         successes := w.successes + [Success(task, attempt, output, floor, Running, Some(attempt))],
         calls := w.calls[c := Call(task, q, Succeeded(attempt, output))])
    }
  }

  /** The task is ready for this story's reviewer, and the request is theirs and not reviewed. */
  predicate Workable(t: Story, w: World, c: nat, task: nat, q: nat) {
    && c !in w.calls && task in w.tasks && w.tasks[task].status == Ready && w.tasks[task].assignee == t.reviewer
    && q in w.requests && w.requests[q].requester == t.requester && w.requests[q].reviewer == t.reviewer
    && q !in w.reviews
  }

  lemma Opens(nanos: real -> int64, t: Story, w: World, task: nat, q: nat)
    requires task !in w.tasks && q !in w.requests && forall p | p in w.requests :: w.requests[p].task != task
    ensures Run(nanos, w, t.Opening(task, q)) == t.Opened(w, task, q)
  {
    var w1 := w.(tasks := w.tasks[task := Task(Ready, t.reviewer, 0, None)]);
    FollowTrace(nanos, [w, w1, t.Opened(w, task, q)], t.Opening(task, q));
  }

  /** The execution at this stage, its task being in this state. */
  function At(w: World, c: nat, task: nat, q: nat, x: Task, stage: Stage): World {
    w.(tasks := w.tasks[task := x], calls := w.calls[c := Call(task, q, stage)])
  }

  lemma Looks(nanos: real -> int64, t: Story, w: World, c: nat, task: nat, q: nat)
    requires Workable(t, w, c, task, q)
    ensures Apply(nanos, At(w, c, task, q, w.tasks[task], Asked), t.Going(c))
            == At(w, c, task, q, w.tasks[task], Unreviewed)
  {
  }

  lemma Claims(nanos: real -> int64, t: Story, w: World, c: nat, task: nat, q: nat)
    requires Workable(t, w, c, task, q)
    ensures var attempt := w.tasks[task].attempts + 1;
            Apply(nanos, At(w, c, task, q, w.tasks[task], Unreviewed), t.Going(c))
            == At(w, c, task, q, Task(Leased, t.reviewer, attempt, Some(attempt)), Claimed(attempt))
  {
  }

  lemma Starts(nanos: real -> int64, t: Story, w: World, c: nat, task: nat, q: nat, attempt: nat)
    ensures Apply(nanos, At(w, c, task, q, Task(Leased, t.reviewer, attempt, Some(attempt)), Claimed(attempt)),
                  t.Going(c))
            == At(w, c, task, q, Task(Running, t.reviewer, attempt, Some(attempt)), Started(attempt))
  {
  }

  lemma Validates(nanos: real -> int64, t: Story, w: World, c: nat, task: nat, q: nat, attempt: nat)
    requires t.Tellable(nanos)
    ensures var x := Task(Running, t.reviewer, attempt, Some(attempt));
            Apply(nanos, At(w, c, task, q, x, Started(attempt)), t.Going(c))
            == At(w, c, task, q, x, Validated(attempt, t.output, t.floor))
  {
  }

  lemma Records(nanos: real -> int64, t: Story, w: World, c: nat, task: nat, q: nat, attempt: nat)
    requires task in w.tasks && attempt == w.tasks[task].attempts + 1
    ensures var x := Task(Running, t.reviewer, attempt, Some(attempt));
            Apply(nanos, At(w, c, task, q, x, Validated(attempt, t.output, t.floor)), t.Going(c))
            == t.Tried(w, c, task, q)
  {
  }

  /** An execution runs up to its recorded success. */
  lemma Tries(nanos: real -> int64, t: Story, w: World, c: nat, task: nat, q: nat)
    requires t.Tellable(nanos) && Workable(t, w, c, task, q)
    ensures Run(nanos, w, t.Trying(c, task, q)) == t.Tried(w, c, task, q)
  {
    var attempt := w.tasks[task].attempts + 1;
    Looks(nanos, t, w, c, task, q);
    Claims(nanos, t, w, c, task, q);
    Starts(nanos, t, w, c, task, q, attempt);
    Validates(nanos, t, w, c, task, q, attempt);
    Records(nanos, t, w, c, task, q, attempt);
    var running := Task(Running, t.reviewer, attempt, Some(attempt));
    FollowTrace(nanos, [w,
                        At(w, c, task, q, w.tasks[task], Asked),
                        At(w, c, task, q, w.tasks[task], Unreviewed),
                        At(w, c, task, q, Task(Leased, t.reviewer, attempt, Some(attempt)), Claimed(attempt)),
                        At(w, c, task, q, running, Started(attempt)),
                        At(w, c, task, q, running, Validated(attempt, t.output, t.floor)),
                        t.Tried(w, c, task, q)], t.Trying(c, task, q));
  }

  lemma TriesAndCrashes(nanos: real -> int64, t: Story, w: World, c: nat, task: nat, q: nat)
    requires t.Tellable(nanos) && Workable(t, w, c, task, q)
    ensures Run(nanos, w, t.Trying(c, task, q) + [Crash(c)]) == t.Tried(w, c, task, q).(calls := w.calls)
  {
    var tried := t.Tried(w, c, task, q);
    Tries(nanos, t, w, c, task, q);
    RunSplit(nanos, w, t.Trying(c, task, q), [Crash(c)]);
    assert tried.calls - {c} == w.calls;
    FollowTrace(nanos, [tried, tried.(calls := w.calls)], [Crash(c)]);
  }

  /** From an empty store, an execution of its own task, and a crash right after its success is recorded: stranded. */
  lemma CrashStrandsFromEmpty(nanos: real -> int64, t: Story) returns (steps: seq<Step>)
    requires t.Tellable(nanos)
    ensures Names(steps, 0, 0) && Stranded(Run(nanos, EMPTY, steps), 0) && Alone(Run(nanos, EMPTY, steps), 0)
    ensures |Run(nanos, EMPTY, steps).successes| == 1
  {
    var start := t.Opened(EMPTY, 0, 0);
    Opens(nanos, t, EMPTY, 0, 0);
    TriesAndCrashes(nanos, t, start, 0, 0, 0);
    RunSplit(nanos, EMPTY, t.Opening(0, 0), t.Trying(0, 0, 0) + [Crash(0)]);
    steps := t.Opening(0, 0) + (t.Trying(0, 0, 0) + [Crash(0)]);
  }

  lemma Reviews(nanos: real -> int64, t: Story, w: World, c: nat, task: nat, q: nat) returns (v: World)
    requires t.Tellable(nanos) && Workable(t, w, c, task, q)
    ensures v == Run(nanos, w, t.Trying(c, task, q) + [t.Going(c)])
    ensures v == t.Tried(w, c, task, q).(reviews := v.reviews, calls := v.calls)
    ensures v.reviews.Keys == w.reviews.Keys + {q} && v.calls.Keys == w.calls.Keys + {c}
  {
    var go := [t.Going(c)];
    var tried := t.Tried(w, c, task, q);
    Tries(nanos, t, w, c, task, q);
    RunSplit(nanos, w, t.Trying(c, task, q), go);
    v := Apply(nanos, tried, go[0]);
    FollowTrace(nanos, [tried, v], go);
  }

  lemma Reopens(nanos: real -> int64, w: World, task: nat)
    requires task in w.tasks && w.tasks[task].status == AwaitingVerification
    ensures Run(nanos, w, [Move(task, Blocked), Move(task, Ready)])
            == w.(tasks := w.tasks[task := w.tasks[task].(status := Ready, lease := None)])
  {
    var blocked := w.(tasks := w.tasks[task := w.tasks[task].(status := Blocked, lease := None)]);
    var ready := w.(tasks := w.tasks[task := w.tasks[task].(status := Ready, lease := None)]);
    assert blocked.tasks[task := blocked.tasks[task].(status := Ready, lease := None)] == ready.tasks;
    FollowTrace(nanos, [w, blocked, ready], [Move(task, Blocked), Move(task, Ready)]);
  }

  /** Moving the task is enough: blocked and made ready again, the next execution records the review. */
  lemma MovedIsReviewed(nanos: real -> int64, t: Story, w: World, c: nat, q: nat) returns (steps: seq<Step>)
    requires t.Tellable(nanos) && Stranded(w, q) && c !in w.calls
    requires w.requests[q].requester == t.requester && w.requests[q].reviewer == t.reviewer
    requires w.tasks[w.requests[q].task].assignee == t.reviewer
    ensures q in Run(nanos, w, steps).reviews && Names(steps, q, w.requests[q].task)
  {
    var task := w.requests[q].task;
    var moves := [Move(task, Blocked), Move(task, Ready)];
    var more := t.Trying(c, task, q) + [t.Going(c)];
    steps := moves + more;
    Reopens(nanos, w, task);
    var v := Reviews(nanos, t, Run(nanos, w, moves), c, task, q);
    RunSplit(nanos, w, moves, more);
    assert q in v.reviews.Keys;
  }

  /** Executing the request with any other ready task of its reviewer is enough too, with nobody moving anything. */
  lemma OtherTaskRepairs(nanos: real -> int64, t: Story, w: World, c: nat, other: nat, q: nat)
    returns (steps: seq<Step>)
    requires t.Tellable(nanos) && Stranded(w, q) && Workable(t, w, c, other, q)
    ensures q in Run(nanos, w, steps).reviews && forall i | 0 <= i < |steps| :: !steps[i].Move?
  {
    steps := t.Trying(c, other, q) + [t.Going(c)];
    var v := Reviews(nanos, t, w, c, other, q);
    assert q in v.reviews.Keys;
  }

  /** From an empty store: one request is reviewed, another's execution has recorded its success and no more, and
      executing the first request with the second's task completes that task, whose own request has no review. */
  lemma MismatchFromEmpty(nanos: real -> int64, t: Story) returns (steps: seq<Step>)
    requires t.Tellable(nanos)
    ensures var w := Run(nanos, EMPTY, steps);
            && 1 in w.tasks && w.tasks[1].status == Completed && w.completions == [Completion(1, 0)]
            && 1 in w.requests && w.requests[1].task == 1 && 1 !in w.reviews
  {
    var first := t.Opening(0, 0) + (t.Trying(0, 0, 0) + [t.Going(0)]);
    var start := t.Opened(EMPTY, 0, 0);
    Opens(nanos, t, EMPTY, 0, 0);
    var reviewed := Reviews(nanos, t, start, 0, 0, 0);
    RunSplit(nanos, EMPTY, t.Opening(0, 0), t.Trying(0, 0, 0) + [t.Going(0)]);
    var second := t.Opening(1, 1) + t.Trying(1, 1, 1);
    var both := t.Opened(reviewed, 1, 1);
    Opens(nanos, t, reviewed, 1, 1);
    Tries(nanos, t, both, 1, 1, 1);
    RunSplit(nanos, reviewed, t.Opening(1, 1), t.Trying(1, 1, 1));
    var waiting := t.Tried(both, 1, 1, 1);
    var last := [Begin(2, 1, 0), t.Going(2), t.Going(2)];
    ReplayCompletesAnyTask(nanos, waiting, 2, 1, 0, t.output, t.floor);
    steps := first + (second + last);
    RunSplit(nanos, EMPTY, first, second + last);
    RunSplit(nanos, reviewed, second, last);
    RunGrows(nanos, waiting, last);
  }
}
