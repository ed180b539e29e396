/** The scheduler itself: its call stack and destroy queue, and the linked lists of everything that
    waits. Each operation is one step of the transition system, from a state that can be reached to the
    next. */
module Schedulers {
  import opened WheelModel
  import opened IntrusiveLists
  import opened TimeWheels
  import opened Runtime
  import opened RuntimeInvariant
  import opened CallStacks
  import W = WaitLists
  import T = RuntimeTheorems

  /** Always true. The definition of `At` is behind it, so that it stays folded in proofs that need not look
      inside; those that do say `assert Inside(0)`. */
  predicate Inside(k: nat) {
    true
  }

  class Scheduler {
    const calls: CallStack
    const waits: W.WaitLists

    /** The coroutines are where the state says. */
    ghost predicate CallsShow(s: State)
      reads calls
    {
      && calls.Valid()
      && calls.stack == s.stack && calls.destroyCo == s.destroy && calls.freed == s.freed
      && calls.Newborn() == s.newborn && calls.cos.Keys == Known(s)
    }

    /** The scheduler is in state s of the transition system, one that can be reached. */
    ghost predicate At(s: State)
      reads calls, waits, waits.conds.Values, waits.loop, waits.loop.wheel, waits.loop.wheel.slots
      reads waits.loop.active, waits.loop.timeout, waits.loop.pool, set x | x in waits.loop.pool :: x.item
    {
      forall k {:trigger Inside(k)} :: Inside(k) ==> CallsShow(s) && waits.Shows(s) && T.Reached(s)
    }

    constructor (size: nat, now: nat)
      requires 0 < size < TWO31 && now < TWO63
      ensures At(T.Initial(size, now))
    {
      calls := new CallStack();
      waits := new W.WaitLists(size, now);
      new;
      T.InitialReached(size, now);
    }

    lemma SameStack(s: State)
      requires At(s)
      ensures calls.stack == s.stack != []
    {
      assert Inside(0);
    }

    /** Steps of the call stack keep the invariant and leave what waits as it is. */
    lemma StackStep(s: State, step: Step)
      requires At(s) && Enabled(s, step)
      requires step.Spawn? || step.Resume? || step.Yield? || step.Finish? || step.ClearCo?
               || step.EnterLoop? || step.EndDrain? || step.LeaveLoop?
      ensures T.Reached(Apply(s, step)) && waits.Shows(Apply(s, step))
      ensures Known(Apply(s, step)) == Known(s) + if step.Spawn? then {step.co} else {}
    {
      assert Inside(0);
      T.ReachedInv(s);
      T.ReachedStep(s, step);
      PlacesKept(s, step);
      waits.ShowsSame(s, Apply(s, step));
    }

    /** Creates a coroutine. */
    method Spawn(c: nat, ghost s: State)
      requires At(s) && Enabled(s, Step.Spawn(c))
      modifies calls`cos
      ensures At(Apply(s, Step.Spawn(c)))
    {
      assert Inside(0);
      StackStep(s, Step.Spawn(c));
      calls.Create(c);
      waits.Untouched(Apply(s, Step.Spawn(c)));
    }

    /** What is new, parked or waiting is not on the stack and has not ended. */
    lemma CanResume(s: State, c: nat)
      requires CallsShow(s) && T.Reached(s) && (c in s.newborn || c in s.parked || c in Runtime.Waiting(s))
      ensures c in calls.cos && c !in calls.stack && !calls.cos[c].ended
    {
      T.ReachedInv(s);
      assert c !in Members(s.stack) && c !in Members(s.destroy) && c !in s.freed;
    }

    /** coroutine::resume up to the switch. */
    method Resume(c: nat, ghost s: State)
      requires At(s) && Enabled(s, Step.Resume(c))
      modifies calls`stack, calls`cos
      ensures At(Apply(s, Step.Resume(c)))
    {
      assert Inside(0);
      StackStep(s, Step.Resume(c));
      CanResume(s, c);
      Enter(c, s, Apply(s, Step.Resume(c)));
    }

    method Enter(c: nat, ghost s: State, ghost s': State)
      requires CallsShow(s) && waits.Shows(s') && Known(s') == Known(s)
      requires c in calls.cos && c !in calls.stack && !calls.cos[c].ended
      requires s'.stack == s.stack + [c] && s'.newborn == s.newborn - {c}
      requires s'.destroy == s.destroy && s'.freed == s.freed
      modifies calls`stack, calls`cos
      ensures CallsShow(s') && waits.Shows(s')
    {
      calls.Resume(c);
      waits.Untouched(s');
    }

    /** coroutine::yield of a coroutine that waits on nothing. */
    method Yield(ghost s: State)
      requires At(s) && Enabled(s, Step.Yield)
      modifies calls`stack
      ensures At(Apply(s, Step.Yield))
    {
      assert Inside(0);
      StackStep(s, Step.Yield);
      Leave(s, Apply(s, Step.Yield));
    }

    method Leave(ghost s: State, ghost s': State)
      requires CallsShow(s) && waits.Shows(s') && Known(s') == Known(s) && |s.stack| > 1
      requires s'.stack == Popped(s) && s'.newborn == s.newborn && s'.destroy == s.destroy && s'.freed == s.freed
      modifies calls`stack
      ensures CallsShow(s') && waits.Shows(s')
    {
      var curr, last := calls.Yield();
      waits.Untouched(s');
    }

    /** The end of a coroutine's function. */
    method Finish(ghost s: State)
      requires At(s) && Enabled(s, Step.Finish)
      modifies calls`stack, calls`destroyCo, calls`cos
      ensures At(Apply(s, Step.Finish))
    {
      assert Inside(0);
      StackStep(s, Step.Finish);
      End(s, Apply(s, Step.Finish));
    }

    method End(ghost s: State, ghost s': State)
      requires CallsShow(s) && waits.Shows(s') && Known(s') == Known(s) && |s.stack| > 1
      requires s'.stack == Popped(s) && s'.newborn == s.newborn && s'.freed == s.freed
      requires s'.destroy == s.destroy + [Top(s)]
      modifies calls`stack, calls`destroyCo, calls`cos
      ensures CallsShow(s') && waits.Shows(s')
    {
      var c := calls.FinishRunning();
      waits.Untouched(s');
    }

    /** clear_co. */
    method ClearCo(ghost s: State)
      requires At(s) && Enabled(s, Step.ClearCo)
      modifies calls`destroyCo, calls`freed
      ensures At(Apply(s, Step.ClearCo))
      ensures calls.destroyCo == [] && calls.freed == old(calls.freed) + set c | c in old(calls.destroyCo)
    {
      assert Inside(0);
      StackStep(s, Step.ClearCo);
      calls.ClearCo();
      waits.Untouched(Apply(s, Step.ClearCo));
    }

    /** The event loop goes from one phase to the next. */
    lemma Move(s: State, step: Step)
      requires At(s) && Enabled(s, step) && (step.EnterLoop? || step.EndDrain? || step.LeaveLoop?)
      ensures At(Apply(s, step))
    {
      assert Inside(0);
      StackStep(s, step);
    }

    // ----- waiting

    lemma WaitStep(s: State, step: Step)
      requires At(s) && Allowed(s, step) && !step.Spawn?
      ensures T.Reached(Apply(s, step)) && Known(Apply(s, step)) == Known(s)
    {
      assert Inside(0);
      T.ReachedInv(s);
      T.ReachedStep(s, step);
      PlacesKept(s, step);
    }

    /** co_cond_wait up to its switch. */
    method CondWait(c: nat, ghost s: State)
      requires At(s) && Enabled(s, Step.CondWait(c)) && c in waits.conds
      modifies calls`stack, {waits.conds[c]}`deque, waits.loop`pool, waits.loop`next, waits.loop`nodes
      ensures At(Apply(s, Step.CondWait(c))) && fresh(waits.loop.pool - old(waits.loop.pool))
    {
      assert Inside(0);
      WaitStep(s, Step.CondWait(c));
      waits.NextIsNew(s);
      WaitAndLeave(c, s, WaitOnCond(s, c));
    }

    method WaitAndLeave(c: nat, ghost s: State, ghost s': State)
      requires CallsShow(s) && waits.Shows(s) && |s.stack| > 1 && c in waits.conds
      requires s.next !in s.items && s.next !in s.timedOut && s' == WaitOnCond(s, c) && Known(s') == Known(s)
      modifies calls`stack, {waits.conds[c]}`deque, waits.loop`pool, waits.loop`next, waits.loop`nodes
      ensures CallsShow(s') && waits.Shows(s') && fresh(waits.loop.pool - old(waits.loop.pool))
    {
      waits.CondWait(c, calls.stack[|calls.stack| - 1], s);
      Leave(s, s');
    }

    /** register_event up to its switch, or its return. */
    method RegisterEvent(fd: int, ms: int, now: nat, ghost s: State) returns (waiting: bool)
      requires At(s) && Allowed(s, Step.Register(fd, ms, now))
      modifies calls`stack, waits.loop, waits.loop.wheel.slots
      modifies waits.loop.pool`next, waits.loop.pool`prev, waits.loop.pool`link
      ensures At(Apply(s, Step.Register(fd, ms, now))) && fresh(waits.loop.pool - old(waits.loop.pool))
      ensures waiting <==> Blocks(s, ms)
    {
      assert Inside(0);
      WaitStep(s, Step.Register(fd, ms, now));
      waits.NextIsNew(s);
      RegisterShape(s, fd, ms, now);
      waiting := RegisterAndLeave(fd, ms, now, s, Runtime.RegisterEvent(s, fd, ms, now));
    }

    method RegisterAndLeave(fd: int, ms: int, now: nat, ghost s: State, ghost s': State) returns (waiting: bool)
      requires CallsShow(s) && waits.Shows(s) && Allowed(s, Step.Register(fd, ms, now))
      requires s.next !in s.items && s.next !in s.timedOut
      requires s' == Runtime.RegisterEvent(s, fd, ms, now) && Known(s') == Known(s)
      requires s'.newborn == s.newborn && s'.destroy == s.destroy && s'.freed == s.freed
      requires s'.stack == if Blocks(s, ms) then Popped(s) else s.stack
      modifies calls`stack, waits.loop, waits.loop.wheel.slots
      modifies waits.loop.pool`next, waits.loop.pool`prev, waits.loop.pool`link
      ensures CallsShow(s') && waits.Shows(s') && fresh(waits.loop.pool - old(waits.loop.pool))
      ensures waiting <==> Blocks(s, ms)
    {
      waiting := waits.Register(fd, ms, now, calls.stack[|calls.stack| - 1], s);
      if waiting {
        Leave(s, s');
      }
    }

    /** The caller of register_event yields when it waits and stays when it is refused. */
    lemma RegisterShape(s: State, fd: int, ms: int, now: nat)
      requires Enabled(s, Step.Register(fd, ms, now))
      ensures var s' := Runtime.RegisterEvent(s, fd, ms, now);
              && s'.newborn == s.newborn && s'.destroy == s.destroy && s'.freed == s.freed
              && s'.stack == if Blocks(s, ms) then Popped(s) else s.stack
    {
    }

    // ----- waking

    /** co_cond_signal. */
    method Signal(c: nat, ghost s: State) returns (r: int)
      requires At(s) && Enabled(s, Step.Signal(c)) && c in waits.conds
      modifies {waits.conds[c]}`deque, waits.loop.active
      modifies waits.loop.pool`next, waits.loop.pool`prev, waits.loop.pool`link
      ensures At(Apply(s, Step.Signal(c))) && r == if Deque(s, c) == [] then -1 else 1
    {
      assert Inside(0);
      WaitStep(s, Step.Signal(c));
      waits.OthersApart(s, c);
      r := waits.Signal(c, s);
    }

    /** co_cond_broadcast. */
    method Broadcast(c: nat, ghost s: State)
      requires At(s) && Enabled(s, Step.Broadcast(c)) && c in waits.conds
      modifies {waits.conds[c]}`deque, waits.loop.active
      modifies waits.loop.pool`next, waits.loop.pool`prev, waits.loop.pool`link
      ensures At(Apply(s, Step.Broadcast(c)))
    {
      assert Inside(0);
      WaitStep(s, Step.Broadcast(c));
      waits.OthersApart(s, c);
      waits.Broadcast(c, s);
    }

    // ----- the event loop

    /** A round up to its drain, for the nodes of the records the kernel reports. */
    method Poll(events: seq<TimeItem>, now: nat, ghost s: State)
      requires At(s) && waits.CanPoll(events, now, s)
      modifies waits.loop.wheel, waits.loop.wheel.slots, waits.loop.active, waits.loop.timeout
      modifies waits.loop.pool`next, waits.loop.pool`prev, waits.loop.pool`link
      modifies (set x | x in waits.loop.pool :: x.item)`isTimeout
      ensures Enabled(s, Step.Poll(Ids(events), now)) && At(Apply(s, Step.Poll(Ids(events), now)))
    {
      assert Inside(0);
      waits.PollEnabled(events, now, s);
      WaitStep(s, Step.Poll(Ids(events), now));
      PollLists(events, now, s);
      CallsSame(s, Apply(s, Step.Poll(Ids(events), now)));
    }

    method PollLists(events: seq<TimeItem>, now: nat, ghost s: State)
      requires CallsShow(s) && waits.Shows(s) && 0 < |s.wheel.slots|
      requires waits.AllReady(events) && waits.loop.wheel.TakeDefined(now)
      modifies waits.loop.wheel, waits.loop.wheel.slots, waits.loop.active, waits.loop.timeout
      modifies waits.loop.pool`next, waits.loop.pool`prev, waits.loop.pool`link
      modifies (set x | x in waits.loop.pool :: x.item)`isTimeout
      ensures CallsShow(s) && waits.Shows(MergeTimeouts(AddReady(s, Ids(events)), now))
    {
      waits.Poll(events, now, s);
    }

    /** Steps of the lists leave the call stack as it is. */
    lemma CallsSame(s: State, s': State)
      requires CallsShow(s) && Known(s') == Known(s)
      requires s'.stack == s.stack && s'.newborn == s.newborn && s'.destroy == s.destroy && s'.freed == s.freed
      ensures CallsShow(s')
    {
    }

    /** The drain pops the head of the active list and resumes its coroutine, which learns whether it
        timed out. */
    method PopResume(ghost s: State) returns (timedOut: bool)
      requires At(s) && Enabled(s, Step.PopResume)
      modifies calls`stack, calls`cos
      modifies waits.loop`itemMap, waits.loop`interest, waits.loop`pool, waits.loop`nodes
      modifies waits.loop.active, waits.loop.pool`next, waits.loop.pool`prev, waits.loop.pool`link
      ensures At(Apply(s, Step.PopResume)) && timedOut == Apply(s, Step.PopResume).flags[s.active[0]]
      ensures waits.loop.pool <= old(waits.loop.pool)
    {
      assert Inside(0);
      ghost var s1 := s.(active := s.active[1..]);
      WaitStep(s, Step.PopResume);
      waits.HeadEnds(s, s1);
      HeadWaits(s);
      CanResume(s, s.items[s.active[0]].co);
      timedOut := PopAndEnter(s.items[s.active[0]].co, s, s1, ResumeHead(s));
    }

    method PopAndEnter(ghost c: nat, ghost s: State, ghost s1: State, ghost s': State) returns (timedOut: bool)
      requires CallsShow(s) && waits.Shows(s) && waits.HeadGone(s, s1, s') && Known(s') == Known(s)
      requires c == s.items[s.active[0]].co && c in calls.cos && c !in calls.stack && !calls.cos[c].ended
      requires s'.stack == s.stack + [c] && s'.newborn == s.newborn - {c}
      requires s'.destroy == s.destroy && s'.freed == s.freed
      modifies calls`stack, calls`cos
      modifies waits.loop`itemMap, waits.loop`interest, waits.loop`pool, waits.loop`nodes
      modifies waits.loop.active, waits.loop.pool`next, waits.loop.pool`prev, waits.loop.pool`link
      ensures CallsShow(s') && waits.Shows(s') && timedOut == (s.active[0] in s.timedOut)
      ensures waits.loop.pool <= old(waits.loop.pool)
    {
      var co;
      co, timedOut := waits.ResumeFirst(s, s1, s');
      Enter(co, s, s');
    }

    /** The coroutine of the head of the active list waits, and comes on top of the stack. */
    lemma HeadWaits(s: State)
      requires T.Reached(s) && s.active != [] && s.active[0] in s.items
      ensures var co, s' := s.items[s.active[0]].co, ResumeHead(s);
              && co in Runtime.Waiting(s) && s'.stack == s.stack + [co] && s'.newborn == s.newborn - {co}
              && s'.destroy == s.destroy && s'.freed == s.freed
    {
      T.ReachedInv(s);
    }

    lemma ActiveHead(s: State)
      requires At(s)
      ensures waits.loop.active.head == null <==> s.active == []
    {
      assert Inside(0) && W.Open(0) && W.Deep(0);
    }

    /** Nobody waits on a condition that does not exist. */
    lemma Unused(c: nat, s: State)
      requires At(s) && c !in waits.conds
      ensures Deque(s, c) == [] && Inv(s)
    {
      assert Inside(0) && W.Open(0);
      T.ReachedInv(s);
    }

    /** A new condition variable. */
    method NewCondition(c: nat, ghost s: State)
      requires At(s) && c !in waits.conds
      modifies waits
      ensures At(s) && c in waits.conds && waits.conds.Keys == old(waits.conds.Keys) + {c}
    {
      assert Inside(0);
      waits.NewCondition(c, s);
    }
  }
}
