/** ExecuteReviewTask as the imperative service it is: the three-step persist order over shared records, other
    executions and operators between any two writes, a crash possible at every point
    (internal/campaign/finance_service.go). */
module FinanceService {
  import opened Prelude
  import opened AgentBudget
  import opened ExecutionBudget
  import opened FinanceReview
  import opened FinanceLaws

  datatype Error =
    | NotFound | NotClaimable | LeaseLost | OutputInvalid | SeparationOfDuties | IdempotencyConflict | Crashed

  class Service {
    const nanos: real -> int64
    var w: World

    constructor (convert: real -> int64)
      ensures nanos == convert && w == EMPTY && Valid()
    {
      nanos, w := convert, EMPTY;
    }

    ghost predicate Valid()
      reads this
    {
      Inv(nanos, w)
    }

    /** Any number of steps of anyone else. */
    method Interfere()
      requires Valid()
      modifies this
      ensures Valid() && Grows(old(w), w)
    {
      var steps: seq<Step> := *;
      RunKeeps(nanos, w, steps);
      RunGrows(nanos, w, steps);
      w := Run(nanos, w, steps);
    }

    /** One transaction of this execution. */
    method Commit(write: Write)
      requires Valid() && Adds(w, write) && WriteOk(nanos, w, write)
      modifies this
      ensures Valid() && Grows(old(w), w) && w == Perform(old(w), write)
    {
      PerformKeeps(nanos, w, write);
      PerformGrows(w, write);
      CallsStay(nanos, w, Perform(w, write), w.calls);
      w := Perform(w, write);
    }

    /** Claim and start: the attempt that then holds the lease of the running task. The claim is refused if and only if
        the task it read was not ready or not this reviewer's, and the start only if the lease was gone. */
    method Claim(task: nat, reviewer: string) returns (r: Result<nat, Error>, ghost read: World, ghost held: World)
      requires Valid()
      modifies this
      ensures Valid() && Grows(old(w), read) && Grows(read, held) && Grows(held, w)
      ensures r == Err(NotClaimable) <==>
              !(task in read.tasks && read.tasks[task].status == Ready && read.tasks[task].assignee == reviewer)
      ensures r.Err? ==> r.error in {NotClaimable, Crashed, LeaseLost}
      ensures r == Err(LeaseLost) ==> !Holds(held, task, read.tasks[task].attempts + 1, Leased)
      ensures r.Ok? ==>
                && Holds(w, task, r.value, Running) && r.value == read.tasks[task].attempts + 1
                && Holds(held, task, r.value, Leased)
    {
      Interfere();
      read, held := w, w;
      if task !in w.tasks || w.tasks[task].status != Ready || w.tasks[task].assignee != reviewer {
        return Err(NotClaimable), read, held;
      }
      var attempt := w.tasks[task].attempts + 1;
      Commit(PutTask(task, w.tasks[task].(status := Leased, attempts := attempt, lease := Some(attempt))));
      held := w;
      if * { return Err(Crashed), read, held; }
      Interfere();
      held := w;
      if !Holds(w, task, attempt, Leased) { return Err(LeaseLost), read, held; }
      Commit(PutTask(task, w.tasks[task].(status := Running)));
      r := Ok(attempt);
    }

    /** Step A: the task engine records the success if and only if the attempt's lease on the running task is valid. */
    method RecordSuccess(task: nat, attempt: nat, output: Output, floor: Limits) returns (ok: bool, ghost read: World)
      requires Valid() && OutputAccepted(nanos, output.verdict, output.budget, floor)
      modifies this
      ensures Valid() && Grows(old(w), read) && Grows(read, w)
      ensures ok <==> Holds(read, task, attempt, Running)
      ensures ok ==> Backed(w.successes, task, attempt, output, |w.successes|)
      ensures w == if !ok then read
                   else read.(tasks := read.tasks[task := read.tasks[task].(status := AwaitingVerification,
                                                                            lease := None)],
                              successes := read.successes + [Success(task, attempt, output, floor, Running,
                                                                     Some(attempt))])
    {
      Interfere();
      read := w;
      if !Holds(w, task, attempt, Running) { return false, read; }
      var t := w.tasks[task];
      Commit(PutSuccess(task, t.(status := AwaitingVerification, lease := None),
                        Success(task, attempt, output, floor, t.status, t.lease)));
      assert w.successes[|w.successes| - 1].task == task;
      ok := true;
    }

    /** Step B: the review row, or the one already there if it says the same; refused to the requester, the CEO and the
        owner. */
    method RecordReview(task: nat, request: nat, attempt: nat, output: Output)
      returns (r: Result<Review, Error>, ghost read: World)
      requires Valid() && request in w.requests && Backed(w.successes, task, attempt, output, |w.successes|)
      modifies this
      ensures Valid() && Grows(old(w), read) && Grows(read, w) && request in read.requests
      ensures r == if !Separate(read, request) then Err(SeparationOfDuties)
                   else if request !in read.reviews then Ok(Review(task, attempt, output, |read.successes|))
                   else if read.reviews[request].output == output then Ok(read.reviews[request])
                   else Err(IdempotencyConflict)
      ensures w == if r.Ok? then read.(reviews := read.reviews[request := r.value]) else read
    {
      ghost var before := w;
      Interfere();
      read := w;
      BackedStays(before.successes, w.successes, task, attempt, output, |before.successes|);
      var q := w.requests[request];
      if q.reviewer == q.requester || q.reviewer == CEO || q.reviewer == OWNER {
        return Err(SeparationOfDuties), read;
      }
      if request in w.reviews {
        if w.reviews[request].output != output { return Err(IdempotencyConflict), read; }
        assert w.reviews == w.reviews[request := w.reviews[request]];
        return Ok(w.reviews[request]), read;
      }
      var review := Review(task, attempt, output, |w.successes|);
      Commit(PutReview(request, review));
      r := Ok(review);
    }

    /** Step C: completion, if the task still awaits verification and nothing is open; the review is answered anyway. */
    method Finalize(task: nat, request: nat, review: Review) returns (completed: bool, ghost read: World)
      requires Valid() && request in w.reviews && w.reviews[request] == review
      modifies this
      ensures Valid() && Grows(old(w), read) && Grows(read, w)
      ensures completed ==> task in read.tasks && read.tasks[task].status == AwaitingVerification
      ensures w.answers == read.answers + [Answer(request, review)] && w.reviews == read.reviews
      ensures w.tasks == if completed then read.tasks[task := read.tasks[task].(status := Completed)] else read.tasks
      ensures w.completions == read.completions + if completed then [Completion(task, request)] else []
    {
      Interfere();
      read := w;
      var finalizable: bool := *;
      completed := finalizable && task in w.tasks && w.tasks[task].status == AwaitingVerification;
      Commit(if completed then Complete(task, w.tasks[task].(status := Completed), Answer(request, review))
             else Reply(Answer(request, review)));
    }

    /** However other executions interleave and wherever this one stops, a review is only ever persisted behind
        a recorded success and never changed; a returned review is the durable review of the request. seen is what it
        looked at first: an unknown request is not found, and a review already there is the answer. */
    method ExecuteReviewTask(task: nat, request: nat, output: Output, floor: Limits)
      returns (r: Result<Review, Error>, ghost seen: World)
      requires Valid()
      modifies this
      ensures Valid() && Grows(old(w), seen) && Grows(seen, w)
      ensures r.Ok? ==> request in w.reviews && w.reviews[request] == r.value
      ensures r == Err(NotFound) <==> request !in seen.requests
      ensures request in seen.requests && request in seen.reviews ==> r == Ok(seen.reviews[request])
      ensures request in seen.requests && request !in seen.reviews && r.Ok? ==> r.value.output == output
    {
      Interfere();
      seen := w;
      if request !in w.requests { return Err(NotFound), seen; }
      if request in w.reviews {
        r := Ok(w.reviews[request]);
        var _, _ := Finalize(task, request, w.reviews[request]);
        return;
      }
      r := ClaimAndConclude(task, request, w.requests[request].reviewer, output, floor);
    }

    /** Claim, then conclude. */
    method ClaimAndConclude(task: nat, request: nat, reviewer: string, output: Output, floor: Limits)
      returns (r: Result<Review, Error>)
      requires Valid() && request in w.requests && reviewer == w.requests[request].reviewer
      modifies this
      ensures Valid() && Grows(old(w), w)
      ensures r.Ok? ==> request in w.reviews && w.reviews[request] == r.value && r.value.output == output
      ensures r.Err? ==> r.error != NotFound
    {
      ghost var before := w;
      var claimed, read, held := Claim(task, reviewer);
      GrowsThrough(before, read, held);
      GrowsThrough(before, held, w);
      if claimed.Err? { return Err(claimed.error); }
      ghost var leased := w;
      r := Conclude(task, request, claimed.value, output, floor);
      GrowsThrough(before, leased, w);
    }

    /** From the model's answer to the answer given: gate, then steps A, B and C. An output is refused as invalid if and
        only if it does not pass the gate. */
    method Conclude(task: nat, request: nat, attempt: nat, output: Output, floor: Limits)
      returns (r: Result<Review, Error>)
      requires Valid() && request in w.requests
      modifies this
      ensures Valid() && Grows(old(w), w)
      ensures r.Ok? ==> request in w.reviews && w.reviews[request] == r.value && r.value.output == output
      ensures r == Err(OutputInvalid) <==> !PassesGate(nanos, output.verdict, output.budget, floor)
      ensures r.Err? ==> r.error in {OutputInvalid, LeaseLost, SeparationOfDuties, IdempotencyConflict, Crashed}
    {
      GateExact(nanos, output.verdict, output.budget, floor);
      if !OutputAccepted(nanos, output.verdict, output.budget, floor) {
        r := Err(OutputInvalid);
        var _, _ := FailAttempt(task, attempt);
        return;
      }
      var recorded, _ := RecordSuccess(task, attempt, output, floor);
      if !recorded { return Err(LeaseLost); }
      if * { return Err(Crashed); }
      r := Deliver(task, request, attempt, output);
    }

    /** Steps B and C. */
    method Deliver(task: nat, request: nat, attempt: nat, output: Output) returns (r: Result<Review, Error>)
      requires Valid() && request in w.requests && Backed(w.successes, task, attempt, output, |w.successes|)
      modifies this
      ensures Valid() && Grows(old(w), w)
      ensures r.Ok? ==> request in w.reviews && w.reviews[request] == r.value && r.value.output == output
      ensures r.Err? ==> r.error in {SeparationOfDuties, IdempotencyConflict, Crashed}
    {
      ghost var before := w;
      var stored, read := RecordReview(task, request, attempt, output);
      GrowsThrough(before, read, w);
      if stored.Err? { return stored; }
      if * { return Err(Crashed); }
      ghost var kept := w;
      var _, last := Finalize(task, request, stored.value);
      GrowsThrough(before, kept, last);
      GrowsThrough(before, last, w);
      r := stored;
    }

    /** A refused output fails the attempt at once, if it still holds the running task. */
    method FailAttempt(task: nat, attempt: nat) returns (failed: bool, ghost read: World)
      requires Valid()
      modifies this
      ensures Valid() && Grows(old(w), read) && Grows(read, w)
      ensures failed <==> Holds(read, task, attempt, Running)
      ensures w == if failed then read.(tasks := read.tasks[task := read.tasks[task].(status := Failed,
                                                                                      lease := None)])
                   else read
    {
      Interfere();
      read := w;
      failed := Holds(w, task, attempt, Running);
      if failed { Commit(PutTask(task, w.tasks[task].(status := Failed, lease := None))); }
    }
  }
}
