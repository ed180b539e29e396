/** What the scheduler promises over whole runs. */
module RuntimeTheorems {
  import opened DeadlineQueue
  import opened WheelModel
  import opened Sequences
  import opened Runtime
  import opened RuntimeInvariant

  // ----- runs

  /** Any run of such a program, whatever the callers of register_event do. */
  ghost predicate EnabledRun(s: State, steps: seq<Step>)
    decreases |steps|
  {
    steps == [] || (Enabled(s, steps[0]) && EnabledRun(Apply(s, steps[0]), steps[1..]))
  }

  function RunTo(s: State, steps: seq<Step>): State
    requires EnabledRun(s, steps)
    decreases |steps|
  {
    if steps == [] then s else RunTo(Apply(s, steps[0]), steps[1..])
  }

  ghost predicate SafeCalls(s: State, steps: seq<Step>)
    requires EnabledRun(s, steps)
    decreases |steps|
  {
    steps == [] || (Allowed(s, steps[0]) && SafeCalls(Apply(s, steps[0]), steps[1..]))
  }

  /** A run in which the callers of register_event meet their obligations. */
  ghost predicate AllowedRun(s: State, steps: seq<Step>) {
    EnabledRun(s, steps) && SafeCalls(s, steps)
  }

  /** A new scheduler: main is on the call stack, the wheel is empty. */
  function Initial(size: nat, now: nat): State {
    State(Setup, [0], {}, {}, [], {}, map[], 0, map[],
          Wheel(now, 0, seq(size, _ => []), true), map[], [], {}, [], map[])
  }

  lemma InitialInv(size: nat, now: nat)
    requires 0 < size < TWO31 && now < TWO63
    ensures Inv(Initial(size, now))
  {
    var s := Initial(size, now);
    ConcatEmpty(Rotated(s.wheel));
  }

  lemma {:induction false} RunKeeps(s: State, steps: seq<Step>)
    requires Inv(s) && AllowedRun(s, steps)
    ensures Inv(RunTo(s, steps))
    decreases |steps|
  {
    if steps != [] {
      StepKeeps(s, steps[0]);
      RunKeeps(Apply(s, steps[0]), steps[1..]);
    }
  }

  /** Every reachable state satisfies the invariant. */
  lemma ReachableInv(size: nat, now: nat, steps: seq<Step>)
    requires 0 < size < TWO31 && now < TWO63 && AllowedRun(Initial(size, now), steps)
    ensures Inv(RunTo(Initial(size, now), steps))
  {
    InitialInv(size, now);
    RunKeeps(Initial(size, now), steps);
  }

  /** The states a scheduler can be in. */
  ghost predicate Reached(s: State) {
    exists size: nat, now: nat, steps :: Reaches(size, now, steps, s)
  }

  ghost predicate Reaches(size: nat, now: nat, steps: seq<Step>, s: State) {
    && 0 < size < TWO31 && now < TWO63
    && AllowedRun(Initial(size, now), steps) && RunTo(Initial(size, now), steps) == s
  }

  lemma InitialReached(size: nat, now: nat)
    requires 0 < size < TWO31 && now < TWO63
    ensures Reached(Initial(size, now))
  {
    assert Reaches(size, now, [], Initial(size, now));
  }

  lemma ReachedInv(s: State)
    requires Reached(s)
    ensures Inv(s)
  {
    var size: nat, now: nat, steps :| Reaches(size, now, steps, s);
    ReachableInv(size, now, steps);
  }

  lemma ReachedStep(s: State, step: Step)
    requires Reached(s) && Allowed(s, step)
    ensures Reached(Apply(s, step))
  {
    var size: nat, now: nat, steps :| Reaches(size, now, steps, s);
    RunSnoc(Initial(size, now), steps, step);
    assert Reaches(size, now, steps + [step], Apply(s, step));
  }

  lemma {:induction false} RunSnoc(s: State, steps: seq<Step>, step: Step)
    requires AllowedRun(s, steps) && Allowed(RunTo(s, steps), step)
    ensures AllowedRun(s, steps + [step]) && RunTo(s, steps + [step]) == Apply(RunTo(s, steps), step)
    decreases |steps|
  {
    if steps == [] {
      assert steps + [step] == [step];
      assert EnabledRun(Apply(s, step), []) && SafeCalls(Apply(s, step), []);
    } else {
      RunSnoc(Apply(s, steps[0]), steps[1..], step);
      assert (steps + [step])[1..] == steps[1..] + [step];
    }
  }

  // ----- one place per coroutine, nothing dangling

  function One(b: bool): nat { if b then 1 else 0 }

  /** In how many places coroutine c is to be found. */
  function Places(s: State, c: nat): nat {
    One(c in s.stack) + One(c in s.newborn) + One(c in s.parked) +
    One(c in s.destroy) + One(c in s.freed) + One(c in Waiting(s))
  }

  function Spawned(steps: seq<Step>): set<nat> {
    set k | 0 <= k < |steps| && steps[k].Spawn? :: steps[k].co
  }

  lemma {:induction false} RunConserves(s: State, steps: seq<Step>)
    requires OnePlace(s) && Numbered(s) && EnabledRun(s, steps)
    ensures var t := RunTo(s, steps);
            OnePlace(t) && Numbered(t) && Known(t) == Known(s) + Spawned(steps)
    decreases |steps|
  {
    if steps == [] {
      assert Spawned(steps) == {};
    } else {
      PlacesKept(s, steps[0]);
      RunConserves(Apply(s, steps[0]), steps[1..]);
      assert Spawned(steps) == Spawned(steps[1..]) + if steps[0].Spawn? then {steps[0].co} else {} by {
        SpawnedFirst(steps);
      }
    }
  }

  lemma SpawnedFirst(steps: seq<Step>)
    requires steps != []
    ensures Spawned(steps) == Spawned(steps[1..]) + if steps[0].Spawn? then {steps[0].co} else {}
  {
    forall c | c in Spawned(steps) ensures c in Spawned(steps[1..]) || (steps[0].Spawn? && steps[0].co == c) {
      var k :| 0 <= k < |steps| && steps[k].Spawn? && steps[k].co == c;
      if k > 0 {
        assert steps[1..][k - 1] == steps[k];
      }
    }
    forall c | c in Spawned(steps[1..]) ensures c in Spawned(steps) {
      var k :| 0 <= k < |steps[1..]| && steps[1..][k].Spawn? && steps[1..][k].co == c;
      assert steps[k + 1] == steps[1..][k];
    }
  }

  /** Over every run, whatever the callers of register_event do, each coroutine ever spawned, and main, is
      in exactly one place, and nothing else is anywhere. */
  lemma ExactlyOnePlace(size: nat, now: nat, steps: seq<Step>, c: nat)
    requires EnabledRun(Initial(size, now), steps)
    ensures var s := RunTo(Initial(size, now), steps);
            && Places(s, c) == One(c == 0 || c in Spawned(steps))
            && Places(s, 0) == 1 && s.stack != [] && s.stack[0] == 0
  {
    var s := RunTo(Initial(size, now), steps);
    assert Known(Initial(size, now)) == {0};
    RunConserves(Initial(size, now), steps);
    assert s.stack[0] in s.stack;
    PlacesOfKnown(s, c);
    PlacesOfKnown(s, 0);
  }

  lemma PlacesOfKnown(s: State, c: nat)
    requires OnePlace(s)
    ensures Places(s, c) == One(c in Known(s))
  {
    assert c in s.stack <==> c in Members(s.stack);
    assert c in s.destroy <==> c in Members(s.destroy);
  }

  /** In every reachable state no list, deque, wheel slot or epoll entry leads to an item that is gone
      or to a coroutine that has ended or been freed. */
  lemma NothingDangles(size: nat, now: nat, steps: seq<Step>)
    requires 0 < size < TWO31 && now < TWO63 && AllowedRun(Initial(size, now), steps)
    ensures var s := RunTo(Initial(size, now), steps);
            && (forall i :: i in s.items ==> s.items[i].co !in s.destroy && s.items[i].co !in s.freed)
            && (forall i :: i in s.active ==> i in s.items)
            && (forall fd :: fd in s.epoll ==> s.epoll[fd] in s.items)
            && |s.wheel.slots| > 0 && (forall e :: e in Flat(s.wheel) ==> e.key in s.items)
            && (forall d, i :: d in s.conds && i in s.conds[d] ==> i in s.items)
  {
    var s := RunTo(Initial(size, now), steps);
    ReachableInv(size, now, steps);
    forall i | i in s.items ensures s.items[i].co !in s.destroy && s.items[i].co !in s.freed {
      assert s.items[i].co in Waiting(s);
      assert s.items[i].co !in Members(s.destroy);
    }
  }

  // ----- every wait is resumed at most once, and its answer never changes

  /** Each item ever created is either still waiting or was resumed, and resumed once. */
  lemma WokenExactlyOnce(size: nat, now: nat, steps: seq<Step>, i: nat)
    requires 0 < size < TWO31 && now < TWO63 && AllowedRun(Initial(size, now), steps)
    ensures var s := RunTo(Initial(size, now), steps);
            && (i in s.items ==> i < s.next && i !in s.wakes)
            && (i < s.next ==> i in s.items || multiset(s.wakes)[i] == 1)
            && (i in s.flags <==> i in s.wakes)
  {
    var s := RunTo(Initial(size, now), steps);
    ReachableInv(size, now, steps);
    if i in s.wakes {
      DistinctCount(s.wakes, i);
    }
  }

  lemma {:induction false} DistinctCount(q: seq<nat>, x: nat)
    requires Distinct(q)
    ensures multiset(q)[x] == One(x in q)
  {
    if q != [] {
      DistinctCount(q[1..], x);
      assert q == [q[0]] + q[1..];
      assert q[0] !in q[1..];
    }
  }

  lemma AnswerStays(s: State, step: Step, i: nat)
    requires Inv(s) && Allowed(s, step) && i in s.flags
    ensures i in Apply(s, step).flags && Apply(s, step).flags[i] == s.flags[i]
  {
    if step.PopResume? {
      assert s.active[0] in s.items;
    }
  }

  /** What a wait was told never changes. */
  lemma {:induction false} AnswerNeverChanges(s: State, steps: seq<Step>, i: nat)
    requires Inv(s) && AllowedRun(s, steps) && i in s.flags
    ensures i in RunTo(s, steps).flags && RunTo(s, steps).flags[i] == s.flags[i]
    decreases |steps|
  {
    if steps != [] {
      AnswerStays(s, steps[0], i);
      StepKeeps(s, steps[0]);
      AnswerNeverChanges(Apply(s, steps[0]), steps[1..], i);
    }
  }

  // ----- the order of resumption

  lemma StepExtends(s: State, step: Step)
    requires Enabled(s, step)
    ensures s.wakes + s.active <= Apply(s, step).wakes + Apply(s, step).active
  {
    var s' := Apply(s, step);
    if step.PopResume? {
      assert s.active == [s.active[0]] + s.active[1..];
      assert s.wakes + s.active == s'.wakes + s'.active;
    } else {
      assert s'.wakes == s.wakes && s.active <= s'.active;
    }
  }

  /** Coroutines are resumed in the order their items became active: over any run the items resumed
      so far followed by the active list only ever grow at the end. */
  lemma {:induction false} ResumeOrder(s: State, steps: seq<Step>)
    requires EnabledRun(s, steps)
    ensures s.wakes + s.active <= RunTo(s, steps).wakes + RunTo(s, steps).active
    decreases |steps|
  {
    if steps != [] {
      StepExtends(s, steps[0]);
      ResumeOrder(Apply(s, steps[0]), steps[1..]);
    }
  }

  /** A poll appends the ready items in the order epoll reported them, then the other items that
      are due, in deadline order with ties in registration order. */
  lemma PollOrder(s: State, ready: seq<nat>, now: nat)
    requires Inv(s) && Enabled(s, Poll(ready, now))
    ensures var due := AfterTake(RemoveAll(s.wheel, ready), now).1;
            && Apply(s, Poll(ready, now)).active == s.active + ready + Keys(due)
            && Sorted(due) && TiesAscending(due)
            && (forall e :: e in due <==> e in Flat(s.wheel) && e.key !in ready && e.deadline <= now)
  {
    var w := RemoveAll(s.wheel, ready);
    RemoveAllRefines(s.wheel, ready);
    TakeSplits(w, now);
    ExactSorted(Rotated(w), w.start);
    var due, rest := AfterTake(w, now).1, Flat(AfterTake(w, now).0);
    assert Flat(w) == due + rest;
    TiesSplit(due, rest);
    forall i, j | 0 <= i < j < |due| ensures due[i].deadline <= due[j].deadline {
      assert Flat(w)[i].deadline <= Flat(w)[j].deadline;
    }
    forall e ensures e in due <==> e in Flat(s.wheel) && e.key !in ready && e.deadline <= now {
      if e in Flat(w) && e.deadline <= now {
        NotBeforeStart(w, e);
        assert e !in rest;
      }
    }
  }

  lemma NotBeforeStart(w: Wheel<nat>, e: Entry<nat>)
    requires Exact(w) && e in Flat(w)
    ensures w.start <= e.deadline
  {
    ConcatMember(Rotated(w), e);
  }

  /** A signal wakes the coroutine that has waited longest on the condition, and a broadcast wakes
      all of them in the order they waited. */
  lemma WakingIsFifo(s: State, c: nat)
    requires Inv(s)
    ensures forall i :: i in s.items && s.items[i].wait == OnCond(c) && i !in s.active ==> i in Deque(s, c)
    ensures Ascending(Deque(s, c))
    ensures Deque(SignalAll(s, c), c) == [] && SignalAll(s, c).active == s.active + Deque(s, c)
    ensures Deque(s, c) != [] ==>
              && SignalOne(s, c).active == s.active + [Deque(s, c)[0]]
              && forall i :: i in s.items && s.items[i].wait == OnCond(c) && i !in s.active ==> Deque(s, c)[0] <= i
  {
    forall i | i in s.items && s.items[i].wait == OnCond(c) && i !in s.active ensures i in Deque(s, c) {
      assert Parked(s, i);
    }
  }

  // ----- only finished coroutines are freed

  /** Over any run a coroutine that is queued for destruction or freed was put there by its own end:
      at some moment of the run it was the running coroutine and its function returned. */
  lemma {:induction false} FreedOnlyAfterFinish(s: State, steps: seq<Step>, c: nat)
    requires EnabledRun(s, steps) && c !in s.destroy && c !in s.freed
    requires c in RunTo(s, steps).destroy || c in RunTo(s, steps).freed
    ensures exists k :: 0 <= k < |steps| && FinishedAt(s, steps, k, c)
    decreases |steps|
  {
    var s' := Apply(s, steps[0]);
    if c in s'.destroy || c in s'.freed {
      EndsByFinish(s, steps[0], c);
      assert FinishedAt(s, steps, 0, c);
    } else {
      FreedOnlyAfterFinish(s', steps[1..], c);
      var k :| 0 <= k < |steps[1..]| && FinishedAt(s', steps[1..], k, c);
      assert FinishedAt(s, steps, k + 1, c);
    }
  }

  lemma EndsByFinish(s: State, step: Step, c: nat)
    requires Enabled(s, step) && c !in s.destroy && c !in s.freed
    requires c in Apply(s, step).destroy || c in Apply(s, step).freed
    ensures step.Finish? && Top(s) == c
  {
  }

  ghost predicate FinishedAt(s: State, steps: seq<Step>, k: nat, c: nat)
    requires EnabledRun(s, steps) && k < |steps|
    decreases k
  {
    if k == 0 then steps[0].Finish? && Top(s) == c
    else FinishedAt(Apply(s, steps[0]), steps[1..], k - 1, c)
  }

  // ----- every finished coroutine is freed

  /** Whoever has ended stays queued for destruction until it is freed, and freed it stays. */
  lemma {:induction false} EndedStay(s: State, steps: seq<Step>, c: nat)
    requires EnabledRun(s, steps) && (c in s.destroy || c in s.freed)
    ensures c in RunTo(s, steps).destroy || c in RunTo(s, steps).freed
    ensures c in s.freed ==> c in RunTo(s, steps).freed
    decreases |steps|
  {
    if steps != [] {
      EndedStay(Apply(s, steps[0]), steps[1..], c);
    }
  }

  lemma {:induction false} FinishedStay(s: State, steps: seq<Step>, k: nat, c: nat)
    requires EnabledRun(s, steps) && k < |steps| && FinishedAt(s, steps, k, c)
    ensures c in RunTo(s, steps).destroy || c in RunTo(s, steps).freed
    decreases |steps|
  {
    var s' := Apply(s, steps[0]);
    if k == 0 {
      assert s'.destroy[|s.destroy|] == c;
      EndedStay(s', steps[1..], c);
    } else {
      FinishedStay(s', steps[1..], k - 1, c);
    }
  }

  /** clear_co leaves nobody queued. */
  lemma {:induction false} ClearedAtLast(s: State, steps: seq<Step>)
    requires EnabledRun(s, steps) && steps != [] && steps[|steps| - 1].ClearCo?
    ensures RunTo(s, steps).destroy == [] && RunTo(s, steps).phase == AtPoll
    decreases |steps|
  {
    var s' := Apply(s, steps[0]);
    if |steps| == 1 {
      assert RunTo(s', steps[1..]) == s';
    } else {
      assert steps[1..][|steps[1..]| - 1] == steps[|steps| - 1];
      ClearedAtLast(s', steps[1..]);
    }
  }

  /** After any run of a new scheduler that ends with clear_co nobody is queued for destruction, and freed
      are exactly the coroutines whose function returned at some moment of the run. */
  lemma FreedIffFinished(size: nat, now: nat, steps: seq<Step>, c: nat)
    requires EnabledRun(Initial(size, now), steps) && steps != [] && steps[|steps| - 1].ClearCo?
    ensures RunTo(Initial(size, now), steps).destroy == []
    ensures c in RunTo(Initial(size, now), steps).freed <==>
            exists k :: 0 <= k < |steps| && FinishedAt(Initial(size, now), steps, k, c)
  {
    var s := Initial(size, now);
    ClearedAtLast(s, steps);
    if k :| 0 <= k < |steps| && FinishedAt(s, steps, k, c) {
      FinishedStay(s, steps, k, c);
    }
    if c in RunTo(s, steps).freed {
      FreedOnlyAfterFinish(s, steps, c);
    }
  }

  /** The loop stands at its poll only with an empty call stack and nobody queued for destruction. */
  predicate Swept(s: State) {
    s.phase != Setup && (s.phase == AtPoll ==> |s.stack| == 1 && s.destroy == [])
  }

  lemma {:induction false} StaysSwept(s: State, steps: seq<Step>)
    requires EnabledRun(s, steps) && Swept(s) && forall k :: 0 <= k < |steps| ==> !steps[k].LeaveLoop?
    ensures Swept(RunTo(s, steps))
    decreases |steps|
  {
    if steps != [] {
      assert !steps[0].LeaveLoop?;
      assert forall k :: 0 <= k < |steps[1..]| ==> steps[1..][k] == steps[k + 1];
      StaysSwept(Apply(s, steps[0]), steps[1..]);
    }
  }

  /** In a loop that is not left, the coroutines that ended since the last poll, or were queued before, are
      all freed when the loop comes to its next poll. */
  lemma FreedBeforeNextPoll(s: State, steps: seq<Step>, c: nat)
    requires EnabledRun(s, steps) && s.phase in {Draining, InHook}
    requires forall k :: 0 <= k < |steps| ==> !steps[k].LeaveLoop?
    requires RunTo(s, steps).phase == AtPoll
    requires c in s.destroy || exists k :: 0 <= k < |steps| && FinishedAt(s, steps, k, c)
    ensures RunTo(s, steps).destroy == [] && c in RunTo(s, steps).freed
  {
    StaysSwept(s, steps);
    if c in s.destroy {
      EndedStay(s, steps, c);
    } else {
      var k :| 0 <= k < |steps| && FinishedAt(s, steps, k, c);
      FinishedStay(s, steps, k, c);
    }
  }

  /** Control that has come back to the loop never sticks there: it polls, then resumes the active
      coroutines one by one until none is left, then calls the hook, then clears. */
  lemma LoopGoesOn(s: State)
    requires Inv(s) && |s.stack| == 1
    ensures s.phase == AtPoll ==>
              Enabled(s, Poll([], s.wheel.start)) && LoopTurn(Apply(s, Poll([], s.wheel.start)), Draining)
    ensures s.phase == Draining && s.active != [] ==> Enabled(s, PopResume) && !Enabled(s, EndDrain)
    ensures s.phase == Draining && s.active == [] ==>
              && Enabled(s, EndDrain) && Enabled(Apply(s, EndDrain), ClearCo)
              && var t := Apply(Apply(s, EndDrain), ClearCo);
                 LoopTurn(t, AtPoll) && t.destroy == [] && t.freed == s.freed + Members(s.destroy)
    ensures s.phase == InHook ==> Enabled(s, ClearCo)
  {
    assert CountReaches(0, |s.wheel.slots|);
  }

  /** Each phase of the loop leads only to the next, by its own step. */
  lemma PhasesInOrder(s: State, step: Step)
    requires Enabled(s, step) && Apply(s, step).phase != s.phase
    ensures match s.phase
            case Setup => step.EnterLoop? && Apply(s, step).phase == AtPoll
            case AtPoll => step.Poll? && Apply(s, step).phase == Draining
            case Draining => step.EndDrain? && s.active == [] && |s.stack| == 1 && Apply(s, step).phase == InHook
            case InHook => (step.ClearCo? && Apply(s, step).phase == AtPoll && Apply(s, step).destroy == []) ||
                           (step.LeaveLoop? && Apply(s, step).phase == Setup)
  {
  }

  // ----- one round of the event loop

  /** How the items that existed right after a poll, in state `p`, stand in a later state of the drain:
      the active ones still wait their turn or have been resumed with the flag set by the poll, and
      event items that were not active are untouched. */
  ghost predicate Tracks(p: State, s: State) {
    && (forall i :: i in p.active ==>
          || (i in s.active && (i in s.timedOut <==> i in p.timedOut))
          || (i in s.wakes && i in s.flags && s.flags[i] == (i in p.timedOut)))
    && (forall i :: i in p.items && i !in p.active && p.items[i].wait.OnEvent? ==>
          i in s.items && i !in s.active && s.items[i] == p.items[i])
  }

  lemma TracksPop(p: State, s: State)
    requires Tracks(p, s) && Inv(s) && Enabled(s, PopResume)
    ensures Tracks(p, ResumeHead(s))
  {
    var s' := ResumeHead(s);
    var i := s.active[0];
    DistinctTail(s.active);
    assert s.active == [i] + s.active[1..];
    forall k | k in p.active
      ensures (k in s'.active && (k in s'.timedOut <==> k in p.timedOut))
           || (k in s'.wakes && k in s'.flags && s'.flags[k] == (k in p.timedOut))
    {
      if k in s.wakes { assert k != i; }
    }
  }

  lemma TracksSignal(p: State, s: State, step: Step)
    requires Tracks(p, s) && Inv(s) && Enabled(s, step) && (step.Signal? || step.Broadcast?)
    ensures Tracks(p, Apply(s, step))
  {
    forall i | i in Deque(s, step.cond) ensures i in s.items && s.items[i].wait.OnCond? {
      assert i in s.conds[step.cond];
    }
    if Deque(s, step.cond) != [] {
      assert Deque(s, step.cond)[0] in Deque(s, step.cond);
    }
  }

  lemma TracksWait(p: State, s: State, step: Step)
    requires Tracks(p, s) && Inv(s) && Enabled(s, step) && (step.Register? || step.CondWait?)
    ensures Tracks(p, Apply(s, step))
  {
    assert s.next !in s.items;
  }

  lemma TracksStep(p: State, s: State, step: Step)
    requires Tracks(p, s) && Inv(s) && s.phase == Draining && Allowed(s, step) && !step.EndDrain?
    ensures Tracks(p, Apply(s, step)) && Apply(s, step).phase == Draining
  {
    if step.PopResume? {
      TracksPop(p, s);
    } else if step.Signal? || step.Broadcast? {
      TracksSignal(p, s, step);
    } else if step.Register? || step.CondWait? {
      TracksWait(p, s, step);
    }
  }

  /** A run that stays inside one drain. */
  ghost predicate DrainRun(s: State, steps: seq<Step>) {
    AllowedRun(s, steps) && forall k :: 0 <= k < |steps| ==> !steps[k].EndDrain?
  }

  lemma {:induction false} DrainTracks(p: State, s: State, steps: seq<Step>)
    requires Tracks(p, s) && Inv(s) && s.phase == Draining && DrainRun(s, steps)
    ensures Tracks(p, RunTo(s, steps)) && Inv(RunTo(s, steps))
    decreases |steps|
  {
    if steps != [] {
      TracksStep(p, s, steps[0]);
      StepKeeps(s, steps[0]);
      assert forall k :: 0 <= k < |steps[1..]| ==> steps[1..][k] == steps[k + 1];
      DrainTracks(p, Apply(s, steps[0]), steps[1..]);
    }
  }

  /** Which items a poll makes active, and which of them as timed out. */
  lemma PollActivates(s: State, ready: seq<nat>, now: nat, i: nat)
    requires Inv(s) && Enabled(s, Poll(ready, now)) && i in s.items && s.items[i].wait.OnEvent?
    ensures var p, d := Apply(s, Poll(ready, now)), s.items[i].wait.deadline;
            && (i in ready ==> i in p.active && i !in p.timedOut)
            && (i !in ready && 0 < d <= now ==> i in p.active && i in p.timedOut)
            && (i !in ready && !(0 < d <= now) ==> i !in p.active)
  {
    var p, d := Apply(s, Poll(ready, now)), s.items[i].wait.deadline;
    var due := AfterTake(RemoveAll(s.wheel, ready), now).1;
    PollOrder(s, ready, now);
    assert i !in s.active && i !in s.timedOut;
    assert Parked(s, i);
    if d > 0 { assert Entry(i, d) in Flat(s.wheel); }
    if i in KeySet(due) || i in Keys(due) {
      DueKey(s, due, i);
    }
    if i !in ready && 0 < d <= now {
      var k :| 0 <= k < |due| && due[k] == Entry(i, d);
      assert Keys(due)[k] == i;
    }
  }

  lemma DueKey(s: State, due: seq<Entry<nat>>, i: nat)
    requires WheelHolds(s) && (i in Keys(due) || i in KeySet(due))
    requires forall e :: e in due ==> e in Flat(s.wheel)
    ensures i in s.items && s.items[i].wait.OnEvent?
    ensures exists e :: e in due && e.key == i && s.items[i].wait.deadline == e.deadline
  {
    if i in Keys(due) {
      KeysMember(due, i);
    }
  }

  /** One round, from the poll to the end of its drain: every wait on a descriptor or a deadline is
      answered exactly as it should be. An item epoll reported is resumed and told it did not time
      out, also when its deadline has passed; an item that only its deadline has reached is resumed
      and told it did; every other one keeps waiting. */
  lemma RoundAnswers(s: State, ready: seq<nat>, now: nat, steps: seq<Step>, i: nat)
    requires Inv(s) && Enabled(s, Poll(ready, now))
    requires DrainRun(Apply(s, Poll(ready, now)), steps)
    requires RunTo(Apply(s, Poll(ready, now)), steps).active == []
    requires i in s.items && s.items[i].wait.OnEvent?
    ensures var t, d := RunTo(Apply(s, Poll(ready, now)), steps), s.items[i].wait.deadline;
            && (i in ready ==> i in t.flags && !t.flags[i] && i !in t.items)
            && (i !in ready && 0 < d <= now ==> i in t.flags && t.flags[i] && i !in t.items)
            && (i !in ready && !(0 < d <= now) ==> i in t.items && t.items[i] == s.items[i] && i !in t.flags)
  {
    var p := Apply(s, Poll(ready, now));
    PollKeeps(s, ready, now);
    PollActivates(s, ready, now, i);
    assert Tracks(p, p);
    DrainTracks(p, p, steps);
  }

  // ----- the error exit of the ready loop

  /** At every poll an item epoll can report is linked in the wheel if it has a deadline and in no
      list at all otherwise, so removeitem finds its list and the check for a stray link never fires. */
  lemma ReadyItemsAreLinkedRight(s: State, i: nat)
    requires Inv(s) && s.phase == AtPoll && Reported(s, i)
    ensures i in s.items && s.items[i].wait.OnEvent?
    ensures i !in s.active && forall c :: c in s.conds ==> i !in s.conds[c]
    ensures var d := s.items[i].wait.deadline;
            if d > 0 then Entry(i, d) in Flat(s.wheel) else forall e :: e in Flat(s.wheel) ==> e.key != i
  {
    assert Parked(s, i);
  }

  // ----- register_event: exactly when it is safe

  /** register_event keeps the scheduler sound just when its caller meets the stated obligations. */
  lemma RegisterSafeIff(s: State, fd: int, timeout: int, now: nat)
    requires Inv(s) && Enabled(s, Register(fd, timeout, now))
    ensures Inv(RegisterEvent(s, fd, timeout, now)) <==> SafeRegister(s, fd, timeout, now)
  {
    if SafeRegister(s, fd, timeout, now) {
      RegisterKeeps(s, fd, timeout, now);
    } else {
      UnsafeRegisterBreaks(s, fd, timeout, now);
    }
  }

  lemma UnsafeRegisterBreaks(s: State, fd: int, timeout: int, now: nat)
    requires Inv(s) && Enabled(s, Register(fd, timeout, now)) && !SafeRegister(s, fd, timeout, now)
    ensures !Inv(RegisterEvent(s, fd, timeout, now))
  {
    RegisterCases(s, fd, timeout, now);
    if timeout == 0 || timeout < -1 {
      LeftoverBreaks(s, fd);
    } else if fd > -1 && fd in s.epoll {
      SharedDescriptorBreaks(s, RegisterEvent(s, fd, timeout, now), fd);
    } else {
      OutsideWindowBreaks(s, fd, now + timeout);
    }
  }

  /** The shortest misuse: a first coroutine registers descriptor 7 with timeout 0. The call is refused,
      but epoll keeps an entry that leads to no item. */
  lemma LeftoverDescriptor(size: nat, now: nat)
    requires 0 < size < TWO31 && now < TWO63
    ensures var s1 := Apply(Initial(size, now), Spawn(1));
            var s2 := Apply(s1, Step.Resume(1));
            && Enabled(s2, Register(7, 0, now))
            && var s3 := Apply(s2, Register(7, 0, now));
               s3.stack == s2.stack && 7 in s3.epoll && s3.epoll[7] !in s3.items
  {
    assert Known(Initial(size, now)) == {0};
  }

  lemma LeftoverBreaks(s: State, fd: int)
    requires Inv(s) && fd > -1 && fd !in s.epoll
    ensures !Inv(s.(epoll := EpollAdd(s.epoll, fd, s.next), next := s.next + 1))
  {
    var s' := s.(epoll := EpollAdd(s.epoll, fd, s.next), next := s.next + 1);
    assert s.next !in s.items && s'.epoll[fd] == s.next;
  }

  /** A second waiter on a descriptor is one epoll does not know. */
  lemma SharedDescriptorBreaks(s: State, s': State, fd: int)
    requires Inv(s) && fd > -1 && fd in s.epoll && s'.epoll == s.epoll
    requires s.next in s'.items && s'.items[s.next].wait.OnEvent? && s'.items[s.next].wait.fd == fd
    ensures !Inv(s')
  {
    assert s.epoll[fd] in s.items && s.next !in s.items;
  }

  lemma OutsideWindowBreaks(s: State, fd: int, d: nat)
    requires Inv(s) && |s.stack| > 1 && 0 < d < TWO63
    requires !(s.wheel.start <= d < s.wheel.start + |s.wheel.slots|)
    ensures !Inv(Registered(s, fd, d, AfterAdd(s.wheel, Entry(s.next, d))))
  {
    var e := Entry(s.next, d);
    var s' := Registered(s, fd, d, AfterAdd(s.wheel, e));
    assert s.next !in s.items;
    AddKeepsExactIff(s.wheel, e);
    AcceptsWindow(s.wheel, d);
    if d != s.wheel.start + |s.wheel.slots| {
      assert s'.wheel == s.wheel;
      assert e !in Flat(s.wheel);
      assert !Parked(s', s.next);
      assert s.next in s'.items && s.next !in s'.active;
    }
  }

  // ----- resume and yield: exactly when they are safe

  /** resume keeps the scheduler sound just when the coroutine is new or parked by a bare yield: not when
      it waits, is on the call stack, has ended or is freed, none of which the code checks. */
  lemma ResumeSafeIff(s: State, c: nat)
    requires Inv(s) && c in Known(s)
    ensures Inv(ResumeCo(s, c)) <==> c in s.newborn || c in s.parked
  {
    var s' := ResumeCo(s, c);
    ListsUntouched(s, s');
    assert s'.stack[|s.stack|] == c;
    assert Members(s'.stack) == Members(s.stack) + {c};
    if c in s.stack {
      var k :| 0 <= k < |s.stack| && s.stack[k] == c;
      assert s'.stack[k] == s'.stack[|s.stack|];
    }
  }

  /** yield, and with it every wait, keeps it sound just when it is not main that yields. */
  lemma YieldSafeIff(s: State)
    requires Inv(s)
    ensures Inv(YieldTop(s)) <==> |s.stack| > 1
  {
    var s' := YieldTop(s);
    ListsUntouched(s, s');
    if |s.stack| > 1 {
      PoppedPlaces(s);
    }
  }

  /** The shortest misuse of resume: the first coroutine waits on descriptor 7, and main resumes it
      instead of the event loop. It runs, and still waits. */
  lemma ResumedWaiter(size: nat, now: nat)
    requires 0 < size < TWO31 && now < TWO63
    ensures var steps := [Spawn(1), Step.Resume(1), Register(7, -1, now)];
            && AllowedRun(Initial(size, now), steps)
            && Places(ResumeCo(RunTo(Initial(size, now), steps), 1), 1) == 2
  {
    var s0 := Initial(size, now);
    assert Known(s0) == {0};
    RunSnoc(s0, [], Spawn(1));
    RunSnoc(s0, [] + [Spawn(1)], Step.Resume(1));
    RunSnoc(s0, [] + [Spawn(1)] + [Step.Resume(1)], Register(7, -1, now));
    assert [] + [Spawn(1)] + [Step.Resume(1)] + [Register(7, -1, now)] ==
           [Spawn(1), Step.Resume(1), Register(7, -1, now)];
    var s3 := RunTo(s0, [Spawn(1), Step.Resume(1), Register(7, -1, now)]);
    assert s3.items[0].co == 1;
  }

  // ----- nested resume

  /** The run starts above depth n of the call stack and its last step is the first to return to it. */
  ghost predicate ReturnsTo(s: State, steps: seq<Step>, n: nat)
    requires EnabledRun(s, steps)
    decreases |steps|
  {
    && steps != [] && |s.stack| > n
    && var s' := Apply(s, steps[0]);
       if |steps| == 1 then |s'.stack| == n else ReturnsTo(s', steps[1..], n)
  }

  lemma {:induction false} StackBelowUntouched(s: State, steps: seq<Step>, n: nat)
    requires EnabledRun(s, steps) && ReturnsTo(s, steps, n)
    ensures RunTo(s, steps).stack == s.stack[..n]
    decreases |steps|
  {
    var s' := Apply(s, steps[0]);
    if |steps| > 1 {
      StackBelowUntouched(s', steps[1..], n);
      assert s'.stack[..n] == s.stack[..n];
    } else {
      assert RunTo(s', steps[1..]) == s';
    }
  }

  /** resume is like a call: when control first comes back to the depth of the caller, whatever the
      resumed coroutine and those it resumed did, the call stack is the one before the call. */
  lemma ResumeIsStackLike(s: State, resume: Step, steps: seq<Step>)
    requires OnePlace(s) && Enabled(s, resume) && (resume.Resume? || resume.PopResume?)
    requires EnabledRun(Apply(s, resume), steps) && ReturnsTo(Apply(s, resume), steps, |s.stack|)
    ensures RunTo(Apply(s, resume), steps).stack == s.stack
    ensures resume.PopResume? ==> RunTo(Apply(s, resume), steps).stack == [0]
  {
    StackBelowUntouched(Apply(s, resume), steps, |s.stack|);
  }
}
