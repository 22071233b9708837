/** The poll/dispatch loop and its dispatch goroutines, interleaved (internal/cellworker/worker.go):
    a semaphore channel, the in-flight set, the wait group and cancellation. */
module CellWorker {

  /** A dispatch goroutine: Dispatch running (its token held); token returned; id removed; wg.Done called. */
  datatype Stage = Dispatching | Released | Removed | Ended

  datatype Goroutine = Goroutine(id: int, stage: Stage)

  /** Where the loop stands. ids/next/any are the batch, the index of the id at hand and dispatchedAny. */
  datatype Place =
    | Top
    | Listing
    | Selecting(ids: seq<int>, next: nat, any: bool)
    | Acquired(ids: seq<int>, next: nat, any: bool)
    | Cleared(ids: seq<int>, next: nat, any: bool)
    | Busy(ids: seq<int>, next: nat, any: bool)
    | Marked(ids: seq<int>, next: nat)
    | Added(ids: seq<int>, next: nat)
    | Sleeping
    | Waiting
    | Returned

  datatype State = State(cancelled: bool, tokens: nat, inFlight: set<int>, wg: nat, gs: seq<Goroutine>, at: Place)

  /** Listed carries what ListEligible returned, an error being an empty batch; Woke what Sleep returned.
      Loop is the loop's other step, TakeDone the ctx.Done arm of its select; Advance moves goroutine g. */
  datatype Step = Cancel | Listed(ids: seq<int>) | Woke(slept: bool) | TakeDone | Loop | Advance(g: nat)

  function Initial(): State {
    State(false, 0, {}, 0, [], Top)
  }

  /** One atomic step under a semaphore of the given capacity; a step that is not enabled changes nothing. */
  function Apply(capacity: nat, s: State, step: Step): State {
    match step
    case Cancel => s.(cancelled := true)
    case Listed(ids) =>
      if !s.at.Listing? then s else s.(at := if ids == [] then Sleeping else Selecting(ids, 0, false))
    case Woke(slept) =>
      if !s.at.Sleeping? || (!slept && !s.cancelled) then s else s.(at := if slept then Top else Waiting)
    case TakeDone =>
      if s.at.Selecting? && s.at.next < |s.at.ids| && s.cancelled then s.(at := Waiting) else s
    case Loop => LoopStep(capacity, s)
    case Advance(g) => if g < |s.gs| then AdvanceStep(s, g) else s
  }

  function LoopStep(capacity: nat, s: State): State {
    match s.at
    case Top => s.(at := if s.cancelled then Waiting else Listing)
    case Selecting(ids, next, any) =>
      if next >= |ids| then s.(at := if any then Top else Sleeping)
      else if s.tokens < capacity then s.(tokens := s.tokens + 1, at := Acquired(ids, next, any))
      else s
    case Acquired(ids, next, any) =>
      if s.cancelled then GiveBack(s).(at := Waiting) else s.(at := Cleared(ids, next, any))
    case Cleared(ids, next, any) =>
      if next >= |ids| then s
      else if ids[next] in s.inFlight then s.(at := Busy(ids, next, any))
      else s.(inFlight := s.inFlight + {ids[next]}, at := Marked(ids, next))
    case Busy(ids, next, any) => GiveBack(s).(at := Selecting(ids, next + 1, any))
    case Marked(ids, next) => s.(wg := s.wg + 1, at := Added(ids, next))
    case Added(ids, next) =>
      if next >= |ids| then s
      else s.(gs := s.gs + [Goroutine(ids[next], Dispatching)], at := Selecting(ids, next + 1, true))
    case Waiting => if s.wg == 0 then s.(at := Returned) else s
    case _ => s
  }

  function GiveBack(s: State): State {
    if s.tokens > 0 then s.(tokens := s.tokens - 1) else s
  }

  function AdvanceStep(s: State, g: nat): State
    requires g < |s.gs|
  {
    var me := s.gs[g];
    match me.stage
    case Dispatching => GiveBack(s).(gs := s.gs[g := me.(stage := Released)])
    case Released => s.(inFlight := s.inFlight - {me.id}, gs := s.gs[g := me.(stage := Removed)])
    case Removed => if s.wg > 0 then s.(wg := s.wg - 1, gs := s.gs[g := me.(stage := Ended)]) else s
    case Ended => s
  }

  function Run(capacity: nat, s: State, steps: seq<Step>): State
    decreases |steps|
  {
    if steps == [] then s else Run(capacity, Apply(capacity, s, steps[0]), steps[1..])
  }

  // ---------------------------------------------------------------------------------------------
  // Counting goroutines

  datatype Kind = Holder | Leaving | Live

  function Weight(k: Kind, t: Stage): nat {
    match k
    case Holder => if t == Dispatching then 1 else 0
    case Leaving => if t == Released then 1 else 0
    case Live => if t == Ended then 0 else 1
  }

  function Count(k: Kind, gs: seq<Goroutine>): nat {
    if gs == [] then 0 else Weight(k, gs[0].stage) + Count(k, gs[1..])
  }

  lemma {:induction false} CountUpdate(k: Kind, gs: seq<Goroutine>, g: nat, t: Goroutine)
    requires g < |gs|
    ensures Count(k, gs[g := t]) == Count(k, gs) - Weight(k, gs[g].stage) + Weight(k, t.stage)
    ensures Weight(k, gs[g].stage) <= Count(k, gs)
  {
    if g > 0 {
      CountUpdate(k, gs[1..], g - 1, t);
      assert gs[g := t][1..] == gs[1..][g - 1 := t];
    } else {
      assert gs[g := t][1..] == gs[1..];
    }
  }

  lemma {:induction false} CountAppend(k: Kind, gs: seq<Goroutine>, t: Goroutine)
    ensures Count(k, gs + [t]) == Count(k, gs) + Weight(k, t.stage)
  {
    if gs == [] {
      assert [t][1..] == [];
    } else {
      assert (gs + [t])[1..] == gs[1..] + [t];
      CountAppend(k, gs[1..], t);
    }
  }

  lemma {:induction false} NoneLive(gs: seq<Goroutine>)
    requires Count(Live, gs) == 0
    ensures forall g | 0 <= g < |gs| :: gs[g].stage == Ended
  {
    if gs != [] {
      NoneLive(gs[1..]);
      assert forall g | 0 < g < |gs| :: gs[g] == gs[1..][g - 1];
    }
  }

  // ---------------------------------------------------------------------------------------------
  // The invariant

  predicate Registered(g: Goroutine) { g.stage == Dispatching || g.stage == Released }

  /** The loop's own token, its pending wg.Add, and whether it is past the cancellation re-check. */
  function OwnToken(p: Place): nat {
    if p.Acquired? || p.Cleared? || p.Busy? || p.Marked? || p.Added? then 1 else 0
  }

  function OwnAdd(p: Place): nat { if p.Added? then 1 else 0 }

  predicate Committed(p: Place) { p.Cleared? || p.Busy? || p.Marked? || p.Added? }

  predicate Pending(p: Place, id: int) {
    (p.Marked? || p.Added?) && p.next < |p.ids| && p.ids[p.next] == id
  }

  predicate InRange(p: Place) {
    (p.Acquired? || Committed(p) ==> p.next < |p.ids|) && (p.Selecting? ==> p.next <= |p.ids|)
  }

  ghost predicate Counted(capacity: nat, s: State) {
    && s.tokens == Count(Holder, s.gs) + OwnToken(s.at) && s.tokens <= capacity
    && s.wg == Count(Live, s.gs) + OwnAdd(s.at)
  }

  ghost predicate Tracked(s: State) {
    && (forall i | 0 <= i < |s.gs| && Registered(s.gs[i]) :: s.gs[i].id in s.inFlight && !Pending(s.at, s.gs[i].id))
    && (forall i, j | 0 <= i < j < |s.gs| && Registered(s.gs[i]) && Registered(s.gs[j]) :: s.gs[i].id != s.gs[j].id)
    && (forall id | Pending(s.at, id) :: id in s.inFlight)
    && (forall id | id in s.inFlight :: Pending(s.at, id) || Owner(s.gs, id))
  }

  ghost predicate Owner(gs: seq<Goroutine>, id: int) {
    exists i | 0 <= i < |gs| :: Registered(gs[i]) && gs[i].id == id
  }

  predicate Cancelling(s: State) {
    && (s.at.Waiting? || s.at.Returned? ==> s.cancelled)
    && (s.at.Returned? ==> s.wg == 0)
  }

  ghost predicate Inv(capacity: nat, s: State) {
    InRange(s.at) && Counted(capacity, s) && Tracked(s) && Cancelling(s)
  }

  lemma AdvanceCounted(capacity: nat, s: State, g: nat)
    requires Counted(capacity, s) && g < |s.gs|
    ensures Counted(capacity, AdvanceStep(s, g))
  {
    var t := AdvanceStep(s, g);
    CountUpdate(Holder, s.gs, g, t.gs[g]);
    CountUpdate(Live, s.gs, g, t.gs[g]);
    assert t.gs == s.gs[g := t.gs[g]];
  }

  lemma LoopCounted(capacity: nat, s: State)
    requires Counted(capacity, s) && InRange(s.at)
    ensures Counted(capacity, LoopStep(capacity, s))
  {
    if s.at.Added? {
      CountAppend(Holder, s.gs, Goroutine(s.at.ids[s.at.next], Dispatching));
      CountAppend(Live, s.gs, Goroutine(s.at.ids[s.at.next], Dispatching));
    }
  }

  lemma AdvanceListing(s: State, g: nat)
    requires Tracked(s) && g < |s.gs|
    ensures Tracked(AdvanceStep(s, g))
  {
    var t := AdvanceStep(s, g);
    assert forall i | 0 <= i < |s.gs| && i != g :: t.gs[i] == s.gs[i];
    assert t.gs[g].id == s.gs[g].id;
    forall id | id in t.inFlight ensures Pending(t.at, id) || Owner(t.gs, id) {
      if !Pending(t.at, id) {
        var i :| 0 <= i < |s.gs| && Registered(s.gs[i]) && s.gs[i].id == id;
        assert Registered(t.gs[i]) && t.gs[i].id == id;
      }
    }
  }

  lemma LoopListing(capacity: nat, s: State)
    requires Tracked(s) && InRange(s.at)
    ensures Tracked(LoopStep(capacity, s))
  {
    var t := LoopStep(capacity, s);
    if s.at.Added? {
      var id := s.at.ids[s.at.next];
      assert Pending(s.at, id);
      assert t.gs[|s.gs|] == Goroutine(id, Dispatching);
      assert forall i | 0 <= i < |s.gs| :: t.gs[i] == s.gs[i];
      forall x | x in t.inFlight ensures Owner(t.gs, x) {
        if x == id { assert Registered(t.gs[|s.gs|]); } else {
          assert !Pending(s.at, x);
          var i :| 0 <= i < |s.gs| && Registered(s.gs[i]) && s.gs[i].id == x;
          assert Registered(t.gs[i]);
        }
      }
    } else if t.at.Marked? {
      assert forall id :: Pending(t.at, id) <==> id == t.at.ids[t.at.next];
      assert forall id :: !Pending(s.at, id);
    } else {
      assert t.gs == s.gs && t.inFlight == s.inFlight;
      assert forall id :: Pending(t.at, id) <==> Pending(s.at, id);
    }
  }

  lemma PlacesKept(capacity: nat, s: State, step: Step)
    requires InRange(s.at) && Cancelling(s)
    ensures InRange(Apply(capacity, s, step).at) && Cancelling(Apply(capacity, s, step))
  {
  }

  lemma OutsideKept(capacity: nat, s: State, step: Step)
    requires Counted(capacity, s) && Tracked(s) && !step.Advance? && !step.Loop?
    ensures Counted(capacity, Apply(capacity, s, step)) && Tracked(Apply(capacity, s, step))
  {
    assert forall id :: Pending(Apply(capacity, s, step).at, id) <==> Pending(s.at, id);
  }

  lemma ApplyKeeps(capacity: nat, s: State, step: Step)
    requires Inv(capacity, s)
    ensures Inv(capacity, Apply(capacity, s, step))
  {
    PlacesKept(capacity, s, step);
    if step.Advance? {
      if step.g < |s.gs| {
        AdvanceCounted(capacity, s, step.g);
        AdvanceListing(s, step.g);
      }
    } else if step.Loop? {
      LoopCounted(capacity, s);
      LoopListing(capacity, s);
    } else {
      OutsideKept(capacity, s, step);
    }
  }

  lemma {:induction false} RunKeeps(capacity: nat, s: State, steps: seq<Step>)
    requires Inv(capacity, s)
    ensures Inv(capacity, Run(capacity, s, steps))
    decreases |steps|
  {
    if steps != [] {
      ApplyKeeps(capacity, s, steps[0]);
      RunKeeps(capacity, Apply(capacity, s, steps[0]), steps[1..]);
    }
  }

  // ---------------------------------------------------------------------------------------------
  // What every interleaving guarantees

  /** At most capacity Dispatch calls run, never two for one invocation id. */
  lemma DispatchIsBounded(capacity: nat, steps: seq<Step>)
    ensures var s := Run(capacity, Initial(), steps);
            && Count(Holder, s.gs) <= s.tokens <= capacity
            && (forall i, j | 0 <= i < j < |s.gs| && s.gs[i].stage == Dispatching && s.gs[j].stage == Dispatching ::
                  s.gs[i].id != s.gs[j].id)
  {
    RunKeeps(capacity, Initial(), steps);
  }

  /** Once cancelled, the loop starts a goroutine only for an id it was already past its re-check with. */
  function StillToStart(p: Place): nat { if Committed(p) then 1 else 0 }

  lemma {:induction false} StartsAfterCancel(capacity: nat, s: State, steps: seq<Step>)
    requires s.cancelled
    ensures |Run(capacity, s, steps).gs| + StillToStart(Run(capacity, s, steps).at) <= |s.gs| + StillToStart(s.at)
    decreases |steps|
  {
    if steps != [] {
      var t := Apply(capacity, s, steps[0]);
      assert t.cancelled && |t.gs| + StillToStart(t.at) <= |s.gs| + StillToStart(s.at);
      StartsAfterCancel(capacity, t, steps[1..]);
    }
  }

  /** However a run goes on after cancellation, at most one more goroutine is started, and none unless the loop was
      past its re-check when the cancellation came. */
  lemma AtMostOneLateStart(capacity: nat, before: seq<Step>, after: seq<Step>)
    requires Run(capacity, Initial(), before).cancelled
    ensures var s, t := Run(capacity, Initial(), before), Run(capacity, Initial(), before + after);
            |t.gs| <= |s.gs| + (if s.at.Cleared? || s.at.Busy? || s.at.Marked? || s.at.Added? then 1 else 0)
  {
    RunSplit(capacity, Initial(), before, after);
    StartsAfterCancel(capacity, Run(capacity, Initial(), before), after);
  }

  /** Run returns only after cancellation, with every dispatch goroutine over, every token back and
      nothing in flight. */
  lemma ReturnLeavesNothingBehind(capacity: nat, steps: seq<Step>)
    requires Run(capacity, Initial(), steps).at.Returned?
    ensures var s := Run(capacity, Initial(), steps);
            s.cancelled && s.tokens == 0 && s.wg == 0 && s.inFlight == {}
            && forall g | 0 <= g < |s.gs| :: s.gs[g].stage == Ended
  {
    RunKeeps(capacity, Initial(), steps);
    var s := Run(capacity, Initial(), steps);
    NoneLive(s.gs);
    HoldersAreLive(s.gs);
    forall id ensures id !in s.inFlight {
      assert !Pending(s.at, id);
      assert forall i | 0 <= i < |s.gs| :: !Registered(s.gs[i]);
    }
  }

  lemma {:induction false} HoldersAreLive(gs: seq<Goroutine>)
    ensures Count(Holder, gs) <= Count(Live, gs)
  {
    if gs != [] { HoldersAreLive(gs[1..]); }
  }

  function RegisteredIds(gs: seq<Goroutine>): set<int> {
    set i | 0 <= i < |gs| && Registered(gs[i]) :: gs[i].id
  }

  lemma {:induction false} RegisteredCount(gs: seq<Goroutine>)
    requires forall i, j | 0 <= i < j < |gs| && Registered(gs[i]) && Registered(gs[j]) :: gs[i].id != gs[j].id
    ensures |RegisteredIds(gs)| == Count(Holder, gs) + Count(Leaving, gs)
  {
    if gs == [] {
      assert RegisteredIds(gs) == {};
    } else {
      var rest := gs[1..];
      assert forall i | 0 <= i < |rest| :: rest[i] == gs[i + 1];
      RegisteredCount(rest);
      var own := if Registered(gs[0]) then {gs[0].id} else {};
      assert RegisteredIds(gs) == own + RegisteredIds(rest) by {
        assert forall i | 0 < i < |gs| :: gs[i] == rest[i - 1];
      }
      assert own !! RegisteredIds(rest);
    }
  }

  /** The id the loop has marked and whose goroutine it has not started. */
  function OwnMark(p: Place): nat { if p.Marked? || p.Added? then 1 else 0 }

  function Mark(p: Place): set<int> { if (p.Marked? || p.Added?) && p.next < |p.ids| then {p.ids[p.next]} else {} }

  lemma InFlightParts(s: State)
    requires Tracked(s) && InRange(s.at)
    ensures s.inFlight == RegisteredIds(s.gs) + Mark(s.at) && RegisteredIds(s.gs) !! Mark(s.at)
    ensures |Mark(s.at)| == OwnMark(s.at)
  {
    assert forall id :: id in Mark(s.at) <==> Pending(s.at, id);
    forall id | id in s.inFlight ensures id in RegisteredIds(s.gs) + Mark(s.at) {
      if id !in Mark(s.at) {
        var i :| 0 <= i < |s.gs| && Registered(s.gs[i]) && s.gs[i].id == id;
      }
    }
  }

  /** The in-flight set, counted exactly in every run: the running dispatches, the id just marked, and one for
      every goroutine that has returned its token and not yet removed its id. It exceeds the capacity exactly when
      those leaving outnumber the free places. */
  lemma InFlightCount(capacity: nat, steps: seq<Step>)
    ensures var s := Run(capacity, Initial(), steps);
            && |s.inFlight| == Count(Holder, s.gs) + Count(Leaving, s.gs) + OwnMark(s.at)
            && Count(Holder, s.gs) + OwnMark(s.at) <= s.tokens <= capacity
            && (|s.inFlight| > capacity <==> Count(Leaving, s.gs) > capacity - Count(Holder, s.gs) - OwnMark(s.at))
  {
    RunKeeps(capacity, Initial(), steps);
    var s := Run(capacity, Initial(), steps);
    RegisteredCount(s.gs);
    InFlightParts(s);
  }

  /** The semaphore does not bound the in-flight set: a token comes back before its id is removed. */
  lemma InFlightCanExceedCapacity() returns (steps: seq<Step>)
    ensures var s := Run(1, Initial(), steps);
            s.tokens == 1 && |s.inFlight| == 2
  {
    steps := [Loop, Listed([1, 2]), Loop, Loop, Loop, Loop, Loop, Advance(0), Loop, Loop, Loop];
    var ids := [1, 2];
    var one, back := [Goroutine(1, Dispatching)], [Goroutine(1, Released)];
    var trace := [
      Initial(),
      State(false, 0, {}, 0, [], Listing),
      State(false, 0, {}, 0, [], Selecting(ids, 0, false)),
      State(false, 1, {}, 0, [], Acquired(ids, 0, false)),
      State(false, 1, {}, 0, [], Cleared(ids, 0, false)),
      State(false, 1, {1}, 0, [], Marked(ids, 0)),
      State(false, 1, {1}, 1, [], Added(ids, 0)),
      State(false, 1, {1}, 1, one, Selecting(ids, 1, true)),
      State(false, 0, {1}, 1, back, Selecting(ids, 1, true)),
      State(false, 1, {1}, 1, back, Acquired(ids, 1, true)),
      State(false, 1, {1}, 1, back, Cleared(ids, 1, true)),
      State(false, 1, {1, 2}, 1, back, Marked(ids, 1))];
    assert Apply(1, trace[4], Loop) == trace[5];
    assert Apply(1, trace[6], Loop) == trace[7];
    assert Apply(1, trace[7], Advance(0)) == trace[8] by { assert one[0 := Goroutine(1, Released)] == back; }
    assert Apply(1, trace[10], Loop) == trace[11];
    FollowTrace(1, trace, steps);
  }

  lemma {:induction false} FollowTrace(capacity: nat, trace: seq<State>, steps: seq<Step>)
    requires |trace| == |steps| + 1
    requires forall i | 0 <= i < |steps| :: trace[i + 1] == Apply(capacity, trace[i], steps[i])
    ensures Run(capacity, trace[0], steps) == trace[|steps|]
    decreases |steps|
  {
    if steps != [] {
      assert trace[1] == Apply(capacity, trace[0], steps[0]);
      assert forall i | 0 <= i < |steps[1..]| :: trace[1..][i + 1] == trace[i + 2] && steps[1..][i] == steps[i + 1];
      FollowTrace(capacity, trace[1..], steps[1..]);
    }
  }

  // ---------------------------------------------------------------------------------------------
  // Shutdown makes progress

  /** Loop steps left after cancellation: at most seven. */
  function Ahead(p: Place): (n: nat)
    ensures n <= 7
  {
    match p
    case Cleared(_, _, _) => 7
    case Marked(_, _) => 6
    case Added(_, _) => 5
    case Busy(_, _, _) => 5
    case Listing => 5
    case Selecting(_, _, _) => 4
    case Sleeping => 3
    case Acquired(_, _, _) => 2
    case Top => 2
    case Waiting => 1
    case Returned => 0
  }

  lemma LoopStepsDown(capacity: nat, s: State, step: Step)
    requires InRange(s.at) && s.cancelled && !step.Advance? && Apply(capacity, s, step) != s
    ensures Ahead(Apply(capacity, s, step).at) < Ahead(s.at)
  {
  }

  lemma SomethingMoves(capacity: nat, s: State) returns (next: Step)
    requires Inv(capacity, s) && s.cancelled && !s.at.Returned?
    ensures Apply(capacity, s, next) != s
  {
    if s.at.Waiting? && s.wg > 0 {
      var g := SomeLive(s.gs);
      next := Advance(g);
      assert Apply(capacity, s, next).gs[g].stage != s.gs[g].stage;
    } else {
      next :=
        if s.at.Listing? then Listed([])
        else if s.at.Sleeping? then Woke(false)
        else if s.at.Selecting? && s.at.next < |s.at.ids| then TakeDone
        else Loop;
      assert Apply(capacity, s, next).at != s.at;
    }
  }

  /** After cancellation every loop step strictly lowers Ahead, whatever ListEligible and Sleep answer; the
      loop is never stuck on the semaphore, only on the wait group, and then some goroutine can move. */
  lemma ShutdownProgresses(capacity: nat, s: State, step: Step)
    requires Inv(capacity, s) && s.cancelled
    ensures !step.Advance? && Apply(capacity, s, step) != s ==> Ahead(Apply(capacity, s, step).at) < Ahead(s.at)
    ensures !s.at.Returned? ==> exists next :: Apply(capacity, s, next) != s
  {
    if !step.Advance? && Apply(capacity, s, step) != s { LoopStepsDown(capacity, s, step); }
    if !s.at.Returned? {
      var next := SomethingMoves(capacity, s);
    }
  }

  lemma {:induction false} SomeLive(gs: seq<Goroutine>) returns (g: nat)
    requires Count(Live, gs) > 0
    ensures g < |gs| && gs[g].stage != Ended
  {
    if gs[0].stage != Ended {
      g := 0;
    } else {
      g := SomeLive(gs[1..]);
      g := g + 1;
    }
  }

  /** The loop stops taking work only once cancelled, and only where it looks: before a poll, when its sleep is cut
      short, or before or just after it acquires a token for a listed id. A full sleep leads to another poll. */
  lemma BreaksIff(capacity: nat, s: State, step: Step)
    requires !s.at.Waiting?
    ensures Apply(capacity, s, step).at.Waiting? <==>
            && s.cancelled
            && match step
               case Loop => s.at.Top? || s.at.Acquired?
               case TakeDone => s.at.Selecting? && s.at.next < |s.at.ids|
               case Woke(slept) => s.at.Sleeping? && !slept
               case _ => false
    ensures s.at.Sleeping? ==> (Apply(capacity, s, step).at.Top? <==> step == Woke(true))
  {
  }

  // ---------------------------------------------------------------------------------------------
  // What one batch dispatches

  /** Of the ids listed, in order, those not in flight, each once. */
  function ToDispatch(ids: seq<int>, busy: set<int>): seq<int> {
    if ids == [] then []
    else if ids[0] in busy then ToDispatch(ids[1..], busy)
    else [ids[0]] + ToDispatch(ids[1..], busy + {ids[0]})
  }

  function Started(ids: seq<int>): seq<Goroutine> {
    seq(|ids|, i requires 0 <= i < |ids| => Goroutine(ids[i], Dispatching))
  }

  /** The state after the goroutines of these ids are started, the loop being at its n-th id. */
  function Dispatched(s: State, chosen: seq<int>, ids: seq<int>, n: nat, any: bool): State {
    s.(tokens := s.tokens + |chosen|, inFlight := s.inFlight + (set id | id in chosen), wg := s.wg + |chosen|,
       gs := s.gs + Started(chosen), at := Selecting(ids, n, any || chosen != []))
  }

  predicate OnlyLoop(steps: seq<Step>) {
    forall i | 0 <= i < |steps| :: steps[i] == Loop
  }

  lemma {:induction false} RunSplit(capacity: nat, s: State, a: seq<Step>, b: seq<Step>)
    ensures Run(capacity, s, a + b) == Run(capacity, Run(capacity, s, a), b)
    decreases |a|
  {
    if a == [] {
      assert a + b == b;
    } else {
      assert (a + b)[1..] == a[1..] + b;
      RunSplit(capacity, Apply(capacity, s, a[0]), a[1..], b);
    }
  }

  lemma BusyIsSkipped(capacity: nat, s: State, ids: seq<int>, n: nat, any: bool)
    requires s.at == Selecting(ids, n, any) && n < |ids| && !s.cancelled && s.tokens < capacity
    requires ids[n] in s.inFlight
    ensures Run(capacity, s, [Loop, Loop, Loop, Loop]) == s.(at := Selecting(ids, n + 1, any))
  {
    var held := s.(tokens := s.tokens + 1);
    FollowTrace(capacity, [s, held.(at := Acquired(ids, n, any)), held.(at := Cleared(ids, n, any)),
                           held.(at := Busy(ids, n, any)), s.(at := Selecting(ids, n + 1, any))],
                [Loop, Loop, Loop, Loop]);
  }

  lemma IdleIsDispatched(capacity: nat, s: State, ids: seq<int>, n: nat, any: bool)
    requires s.at == Selecting(ids, n, any) && n < |ids| && !s.cancelled && s.tokens < capacity
    requires ids[n] !in s.inFlight
    ensures Run(capacity, s, [Loop, Loop, Loop, Loop, Loop]) == Dispatched(s, [ids[n]], ids, n + 1, any)
  {
    var held := s.(tokens := s.tokens + 1);
    var marked := held.(inFlight := s.inFlight + {ids[n]});
    assert (set id | id in [ids[n]]) == {ids[n]};
    assert Started([ids[n]]) == [Goroutine(ids[n], Dispatching)];
    FollowTrace(capacity, [s, held.(at := Acquired(ids, n, any)), held.(at := Cleared(ids, n, any)),
                           marked.(at := Marked(ids, n)), marked.(wg := s.wg + 1, at := Added(ids, n)),
                           Dispatched(s, [ids[n]], ids, n + 1, any)],
                [Loop, Loop, Loop, Loop, Loop]);
  }

  lemma DispatchedTogether(s: State, id: int, rest: seq<int>, ids: seq<int>, n: nat, m: nat, any: bool)
    ensures Dispatched(Dispatched(s, [id], ids, n, any), rest, ids, m, true) == Dispatched(s, [id] + rest, ids, m, any)
  {
    assert Started([id]) + Started(rest) == Started([id] + rest);
    assert (set x | x in [id]) + (set x | x in rest) == (set x | x in [id] + rest);
    assert s.gs + Started([id]) + Started(rest) == s.gs + Started([id] + rest);
    assert s.inFlight + (set x | x in [id]) + (set x | x in rest) == s.inFlight + (set x | x in [id] + rest);
  }

  /** Left to itself with room for the batch, the loop starts a goroutine for exactly the listed ids that are not in
      flight, each once and in order, holding a token and a wait-group count for each. */
  lemma {:induction false} BatchFrom(capacity: nat, s: State, ids: seq<int>, n: nat, any: bool)
    returns (steps: seq<Step>)
    requires s.at == Selecting(ids, n, any) && n <= |ids| && !s.cancelled && s.tokens + (|ids| - n) <= capacity
    ensures OnlyLoop(steps)
    ensures Run(capacity, s, steps) == Dispatched(s, ToDispatch(ids[n..], s.inFlight), ids, |ids|, any)
    decreases |ids| - n
  {
    if n == |ids| {
      steps := [];
      assert Started([]) == [] && (set id | id in ToDispatch(ids[n..], s.inFlight)) == {};
      assert s.gs + [] == s.gs;
    } else {
      assert ids[n..][1..] == ids[n + 1..];
      if ids[n] in s.inFlight {
        BusyIsSkipped(capacity, s, ids, n, any);
        var rest := BatchFrom(capacity, s.(at := Selecting(ids, n + 1, any)), ids, n + 1, any);
        RunSplit(capacity, s, [Loop, Loop, Loop, Loop], rest);
        steps := [Loop, Loop, Loop, Loop] + rest;
      } else {
        IdleIsDispatched(capacity, s, ids, n, any);
        var t := Dispatched(s, [ids[n]], ids, n + 1, any);
        assert (set id | id in [ids[n]]) == {ids[n]};
        var rest := BatchFrom(capacity, t, ids, n + 1, true);
        RunSplit(capacity, s, [Loop, Loop, Loop, Loop, Loop], rest);
        DispatchedTogether(s, ids[n], ToDispatch(ids[n + 1..], t.inFlight), ids, n + 1, |ids|, any);
        steps := [Loop, Loop, Loop, Loop, Loop] + rest;
      }
    }
  }

  /** A whole poll: the ids listed that are not in flight are dispatched, each once and in order; then the loop polls
      again at once if it dispatched anything, and sleeps if it did not or if nothing was listed. */
  lemma BatchDispatched(capacity: nat, s: State, ids: seq<int>) returns (steps: seq<Step>)
    requires s.at == Listing && !s.cancelled && s.tokens + |ids| <= capacity
    ensures OnlyLoop(steps)
    ensures var todo := ToDispatch(ids, s.inFlight);
            Run(capacity, s, [Listed(ids)] + steps)
            == Dispatched(s, todo, ids, |ids|, false).(at := if todo != [] then Top else Sleeping)
  {
    var todo := ToDispatch(ids, s.inFlight);
    assert ids[0..] == ids;
    if ids == [] {
      steps := [];
      assert Started([]) == [] && (set id | id in todo) == {} && s.gs + [] == s.gs;
      FollowTrace(capacity, [s, s.(at := Sleeping)], [Listed(ids)]);
      assert [Listed(ids)] + steps == [Listed(ids)];
    } else {
      var listed := s.(at := Selecting(ids, 0, false));
      var first := BatchFrom(capacity, listed, ids, 0, false);
      steps := first + [Loop];
      FollowTrace(capacity, [s, listed], [Listed(ids)]);
      RunSplit(capacity, s, [Listed(ids)], steps);
      RunSplit(capacity, listed, first, [Loop]);
      var done := Dispatched(listed, todo, ids, |ids|, false);
      FollowTrace(capacity, [done, Apply(capacity, done, Loop)], [Loop]);
    }
  }

  /** Which ids those are: every listed id that was not in flight, once, and no other. */
  lemma {:induction false} ToDispatchExact(ids: seq<int>, busy: set<int>)
    ensures forall id :: id in ToDispatch(ids, busy) <==> id in ids && id !in busy
    ensures forall i, j | 0 <= i < j < |ToDispatch(ids, busy)| :: ToDispatch(ids, busy)[i] != ToDispatch(ids, busy)[j]
  {
    if ids != [] {
      ToDispatchExact(ids[1..], if ids[0] in busy then busy else busy + {ids[0]});
      assert ids == [ids[0]] + ids[1..];
    }
  }

  /** A goroutine's own steps: token back, id removed, wait group done, in this order. */
  lemma GoroutineEnds(s: State, g: nat)
    requires g < |s.gs| && s.gs[g].stage == Dispatching && s.tokens > 0 && s.wg > 0
    ensures var a := AdvanceStep(s, g);
            var b := AdvanceStep(a, g);
            var c := AdvanceStep(b, g);
            && a.tokens == s.tokens - 1 && a.inFlight == s.inFlight && a.wg == s.wg
            && b.tokens == a.tokens && b.inFlight == s.inFlight - {s.gs[g].id} && b.wg == s.wg
            && c.tokens == a.tokens && c.inFlight == b.inFlight && c.wg == s.wg - 1
            && c.gs == s.gs[g := s.gs[g].(stage := Ended)]
  {
  }
}
