/** The channel as the program keeps it: fields updated in place, and two condition variables of the
    scheduler, with its linked lists underneath. Each call is a move of `ChannelSteps`. */
module Channels {
  import opened ChannelModel
  import opened ChannelSteps
  import opened ChannelAnswers
  import opened Schedulers
  import R = Runtime

  class Channel<T> {
    const sch: Scheduler
    const cap: int
    const empty: nat
    const full: nat
    var size: int
    var closed: bool
    var queue: seq<T>
    /** What the stacks of the suspended coroutines hold. */
    var frames: map<nat, Waiter<T>>
    ghost var accepted: seq<T>
    ghost var delivered: seq<T>

    ghost function Now(): Vars<T>
      reads this
    {
      Vars(cap, size, closed, queue, empty, full, frames, accepted, delivered)
    }

    /** The scheduler is in state s, and so is the channel, which is sound. */
    ghost predicate In(s: R.State)
      reads this, sch.calls, sch.waits, sch.waits.conds.Values, sch.waits.loop, sch.waits.loop.wheel
      reads sch.waits.loop.wheel.slots, sch.waits.loop.active, sch.waits.loop.timeout, sch.waits.loop.pool
      reads set x | x in sch.waits.loop.pool :: x.item
    {
      sch.At(s) && empty in sch.waits.conds && full in sch.waits.conds && Sound(Now(), s)
    }

    /** What the conditions of the channel need of the scheduler. */
    ghost predicate On(s: R.State)
      reads sch.calls, sch.waits, sch.waits.conds.Values, sch.waits.loop, sch.waits.loop.wheel
      reads sch.waits.loop.wheel.slots, sch.waits.loop.active, sch.waits.loop.timeout, sch.waits.loop.pool
      reads set x | x in sch.waits.loop.pool :: x.item
    {
      sch.At(s) && empty in sch.waits.conds && full in sch.waits.conds
    }

    /** The constructor, with its two condition variables. */
    constructor (sch: Scheduler, cap: int, empty: nat, full: nat, ghost s: R.State)
      requires sch.At(s) && empty != full && empty !in sch.waits.conds && full !in sch.waits.conds
      modifies sch.waits
      ensures In(s) && this.sch == sch && Now() == NewVars(cap, empty, full)
      ensures this.cap == cap && !closed && size == 0 && queue == []
    {
      this.sch, this.cap, this.empty, this.full := sch, cap, empty, full;
      size, closed, queue, frames, accepted, delivered := 0, false, [], map[], [], [];
      new;
      sch.Unused(empty, s);
      sch.Unused(full, s);
      NewIsSound<T>(cap, empty, full, s);
      sch.NewCondition(empty, s);
      sch.NewCondition(full, s);
    }

    // ----- put

    /** put, from its start to its return or its first wait. */
    method Put(x: T, ghost s: R.State) returns (o: Outcome<T>, ghost s': R.State)
      requires In(s) && Can(Now(), s, CallPut(x))
      modifies this
      modifies sch.calls`stack, {sch.waits.conds[empty], sch.waits.conds[full]}`deque
      modifies sch.waits.loop`pool, sch.waits.loop`next, sch.waits.loop`nodes
      modifies sch.waits.loop.active, sch.waits.loop.pool`next, sch.waits.loop.pool`prev, sch.waits.loop.pool`link
      ensures In(s') && (Now(), s', o) == PutMove(old(Now()), s, x)
      ensures o.Refused? <==> old(closed)
      ensures o.Waits? <==> !old(closed) && old(size) == cap
      ensures o.Accepted? <==> !old(closed) && old(size) != cap
      ensures queue == if o.Accepted? then old(queue) + [x] else old(queue)
      ensures s' == if o.Refused? then s else if o.Waits? then R.WaitOnCond(s, full) else R.SignalOne(s, empty)
      ensures fresh(sch.waits.loop.pool - old(sch.waits.loop.pool))
    {
      MoveIsSound(Now(), s, CallPut(x));
      PutComesTo(Now(), s, x);
      o, s' := PutLoop(x, s);
    }

    /** From the loop test of put, which looks at `close_` first, to its return or its next wait. */
    method PutLoop(x: T, ghost s: R.State) returns (o: Outcome<T>, ghost s': R.State)
      requires On(s) && R.UserTurn(s) && (!closed && size == cap ==> |s.stack| > 1)
      modifies this
      modifies sch.calls`stack, {sch.waits.conds[empty], sch.waits.conds[full]}`deque
      modifies sch.waits.loop`pool, sch.waits.loop`next, sch.waits.loop`nodes
      modifies sch.waits.loop.active, sch.waits.loop.pool`next, sch.waits.loop.pool`prev, sch.waits.loop.pool`link
      ensures On(s') && (Now(), s', o) == PutMove(old(Now()), s, x)
      ensures fresh(sch.waits.loop.pool - old(sch.waits.loop.pool))
    {
      if closed {
        return Refused, s;
      }
      if size == cap {
        sch.SameStack(s);
        Park(full, Putter(sch.calls.stack[|sch.calls.stack| - 1], x), s);
        return Waits, R.WaitOnCond(s, full);
      }
      Push(x, s);
      var r := sch.Signal(empty, s);
      return Accepted, R.SignalOne(s, empty);
    }

    method Push(x: T, ghost s: R.State)
      requires On(s)
      modifies this`queue, this`size, this`accepted
      ensures On(s) && queue == old(queue) + [x] && size == old(size) + 1 && accepted == old(accepted) + [x]
    {
      queue := queue + [x];
      size := size + 1;
      accepted := accepted + [x];
    }

    /** A wait: the call is noted on the coroutine's stack, and the coroutine waits. */
    method Park(c: nat, w: Waiter<T>, ghost s: R.State)
      requires On(s) && |s.stack| > 1 && (c == empty || c == full)
      modifies this`frames
      modifies sch.calls`stack, {sch.waits.conds[c]}`deque
      modifies sch.waits.loop`pool, sch.waits.loop`next, sch.waits.loop`nodes
      ensures On(R.WaitOnCond(s, c)) && frames == old(frames)[R.Top(s) := w]
      ensures fresh(sch.waits.loop.pool - old(sch.waits.loop.pool))
    {
      sch.SameStack(s);
      Note(sch.calls.stack[|sch.calls.stack| - 1], w, s);
      sch.CondWait(c, s);
    }

    method Note(co: nat, w: Waiter<T>, ghost s: R.State)
      requires On(s)
      modifies this`frames
      ensures On(s) && frames == old(frames)[co := w]
    {
      frames := frames[co := w];
    }

    // ----- get

    /** get, from its start to its return or its first wait. */
    method Get(ghost s: R.State) returns (o: Outcome<T>, ghost s': R.State)
      requires In(s) && Can(Now(), s, CallGet)
      modifies this
      modifies sch.calls`stack, {sch.waits.conds[empty], sch.waits.conds[full]}`deque
      modifies sch.waits.loop`pool, sch.waits.loop`next, sch.waits.loop`nodes
      modifies sch.waits.loop.active, sch.waits.loop.pool`next, sch.waits.loop.pool`prev, sch.waits.loop.pool`link
      ensures In(s') && (Now(), s', o) == GetMove(old(Now()), s)
      ensures o.Refused? <==> old(closed)
      ensures o.Waits? <==> !old(closed) && old(size) == 0
      ensures o.Delivered? <==> !old(closed) && old(size) != 0
      ensures old(queue) == if o.Delivered? then [o.val] + queue else queue
      ensures s' == if o.Refused? then s else if o.Waits? then R.WaitOnCond(s, empty) else R.SignalOne(s, full)
      ensures fresh(sch.waits.loop.pool - old(sch.waits.loop.pool))
    {
      MoveIsSound(Now(), s, CallGet);
      GetComesTo(Now(), s);
      o, s' := GetLoop(s);
    }

    method GetLoop(ghost s: R.State) returns (o: Outcome<T>, ghost s': R.State)
      requires On(s) && size == |queue| && R.UserTurn(s) && (!closed && size == 0 ==> |s.stack| > 1)
      modifies this
      modifies sch.calls`stack, {sch.waits.conds[empty], sch.waits.conds[full]}`deque
      modifies sch.waits.loop`pool, sch.waits.loop`next, sch.waits.loop`nodes
      modifies sch.waits.loop.active, sch.waits.loop.pool`next, sch.waits.loop.pool`prev, sch.waits.loop.pool`link
      ensures On(s') && (Now(), s', o) == GetMove(old(Now()), s)
      ensures fresh(sch.waits.loop.pool - old(sch.waits.loop.pool))
    {
      if closed {
        return Refused, s;
      }
      if size == 0 {
        sch.SameStack(s);
        Park(empty, Getter(sch.calls.stack[|sch.calls.stack| - 1]), s);
        return Waits, R.WaitOnCond(s, empty);
      }
      var x := Pop(s);
      var r := sch.Signal(full, s);
      return Delivered(x), R.SignalOne(s, full);
    }

    method Pop(ghost s: R.State) returns (x: T)
      requires On(s) && queue != []
      modifies this`queue, this`size, this`delivered
      ensures On(s) && old(queue) == [x] + queue && size == old(size) - 1 && delivered == old(delivered) + [x]
    {
      x := queue[0];
      queue := queue[1..];
      size := size - 1;
      delivered := delivered + [x];
    }

    // ----- close

    /** close: both conditions are broadcast. */
    method Close(ghost s: R.State) returns (ghost s': R.State)
      requires In(s) && Can(Now(), s, CallClose)
      modifies this, {sch.waits.conds[empty], sch.waits.conds[full]}`deque
      modifies sch.waits.loop.active, sch.waits.loop.pool`next, sch.waits.loop.pool`prev, sch.waits.loop.pool`link
      ensures In(s') && (Now(), s') == CloseMove(old(Now()), s)
      ensures closed && queue == old(queue) && s' == R.SignalAll(R.SignalAll(s, full), empty)
    {
      MoveIsSound(Now(), s, CallClose);
      s' := R.SignalAll(R.SignalAll(s, full), empty);
      CloseAndWake(s);
    }

    method CloseAndWake(ghost s: R.State)
      requires On(s) && R.UserTurn(s)
      modifies this`closed, {sch.waits.conds[empty], sch.waits.conds[full]}`deque
      modifies sch.waits.loop.active, sch.waits.loop.pool`next, sch.waits.loop.pool`prev, sch.waits.loop.pool`link
      ensures On(R.SignalAll(R.SignalAll(s, full), empty)) && closed
    {
      Shut(s);
      WakeBoth(s);
    }

    method Shut(ghost s: R.State)
      requires On(s)
      modifies this`closed
      ensures On(s) && closed
    {
      closed := true;
    }

    method WakeBoth(ghost s: R.State)
      requires On(s) && R.UserTurn(s)
      modifies {sch.waits.conds[empty], sch.waits.conds[full]}`deque
      modifies sch.waits.loop.active, sch.waits.loop.pool`next, sch.waits.loop.pool`prev, sch.waits.loop.pool`link
      ensures On(R.SignalAll(R.SignalAll(s, full), empty))
    {
      sch.Broadcast(full, s);
      sch.Broadcast(empty, R.SignalAll(s, full));
    }

    // ----- resumption

    /** The head of the active list is a coroutine inside the channel: the event loop resumes it, and its
        put or get goes on behind co_cond_wait. */
    method ResumeHead(ghost s: R.State) returns (o: Outcome<T>, ghost s': R.State)
      requires In(s) && Can(Now(), s, Resumed)
      modifies this, sch.calls, sch.waits.conds[empty], sch.waits.conds[full]
      modifies sch.waits.loop, sch.waits.loop.active, sch.waits.loop.pool
      ensures In(s') && (Now(), s', o) == ResumeMove(old(Now()), s)
      ensures var co := s.items[s.active[0]].co;
              var call := if old(frames)[co].Putter? then PutCall(old(frames)[co].val) else GetCall;
              Answered(old(Now()), Answer(co, call, o), Now())
      ensures fresh(sch.waits.loop.pool - old(sch.waits.loop.pool))
    {
      MoveIsSound(Now(), s, Resumed);
      HeadIsCall(Now(), s);
      ResumeComesTo(Now(), s);
      o, s' := ResumeCall(s, R.ResumeHead(s));
    }

    method ResumeCall(ghost s: R.State, ghost s1: R.State) returns (o: Outcome<T>, ghost s': R.State)
      requires On(s) && R.Enabled(s, R.PopResume) && HeadInside(Now(), s) && size == |queue|
      requires s1 == R.ResumeHead(s) && |s1.stack| > 1
      requires !frames[s.items[s.active[0]].co].Other?
      modifies this, sch.calls, sch.waits.conds[empty], sch.waits.conds[full]
      modifies sch.waits.loop, sch.waits.loop.active, sch.waits.loop.pool
      ensures var co := s.items[s.active[0]].co;
              && On(s')
              && (Now(), s', o) == GoOnMove(old(frames)[co], old(Now()).(frames := old(frames) - {co}), s1)
      ensures fresh(sch.waits.loop.pool - old(sch.waits.loop.pool))
    {
      var w := TakeHead(s, s1);
      o, s' := GoOn(w, s1);
    }

    method TakeHead(ghost s: R.State, ghost s1: R.State) returns (w: Waiter<T>)
      requires On(s) && R.Enabled(s, R.PopResume) && HeadInside(Now(), s) && s1 == R.ResumeHead(s)
      modifies this`frames, sch.calls`stack, sch.calls`cos
      modifies sch.waits.loop`itemMap, sch.waits.loop`interest, sch.waits.loop`pool, sch.waits.loop`nodes
      modifies sch.waits.loop.active, sch.waits.loop.pool`next, sch.waits.loop.pool`prev, sch.waits.loop.pool`link
      ensures On(s1) && sch.waits.loop.pool <= old(sch.waits.loop.pool)
      ensures var co := s.items[s.active[0]].co; w == old(frames)[co] && frames == old(frames) - {co}
    {
      var timedOut := sch.PopResume(s);
      sch.SameStack(s1);
      w := Forget(sch.calls.stack[|sch.calls.stack| - 1], s1);
    }

    method Forget(co: nat, ghost s: R.State) returns (w: Waiter<T>)
      requires On(s) && co in frames
      modifies this`frames
      ensures On(s) && w == old(frames)[co] && frames == old(frames) - {co}
    {
      w := frames[co];
      frames := frames - {co};
    }

    method GoOn(w: Waiter<T>, ghost s: R.State) returns (o: Outcome<T>, ghost s': R.State)
      requires On(s) && |s.stack| > 1 && size == |queue| && !w.Other?
      modifies this
      modifies sch.calls`stack, {sch.waits.conds[empty], sch.waits.conds[full]}`deque
      modifies sch.waits.loop`pool, sch.waits.loop`next, sch.waits.loop`nodes
      modifies sch.waits.loop.active, sch.waits.loop.pool`next, sch.waits.loop.pool`prev, sch.waits.loop.pool`link
      ensures On(s') && (Now(), s', o) == GoOnMove(w, old(Now()), s)
      ensures fresh(sch.waits.loop.pool - old(sch.waits.loop.pool))
    {
      match w {
        case Getter(_) => o, s' := GetLoop(s);
        case Putter(_, x) => o, s' := PutLoop(x, s);
      }
    }

    // ----- the drain

    /** The drain loop of the event loop, when every active coroutine is inside this channel and ends after
        its operation. It ends, and then nobody waits in vain. */
    method DrainActive(ghost s: R.State) returns (ghost s': R.State)
      requires In(s) && R.LoopTurn(s, R.Draining) && NoOthers(View(Now(), s)) && cap >= 1
      modifies this, sch.calls, sch.waits.conds[empty], sch.waits.conds[full]
      modifies sch.waits.loop, sch.waits.loop.active, sch.waits.loop.pool
      ensures In(s') && s'.active == []
      ensures var c := old(View(Now(), s)); Inv(c) && View(Now(), s') == Drain(c)
      ensures (R.Deque(s', empty) != [] ==> size == 0) && (R.Deque(s', full) != [] ==> size == cap)
    {
      ghost var c0 := View(Now(), s);
      CourseBegins(Now(), s);
      sch.ActiveHead(s);
      s' := DrainLoop(s, c0);
      CourseEnds(c0, Now(), s');
    }

    method DrainLoop(ghost s: R.State, ghost c0: Chan<T>) returns (ghost s': R.State)
      requires In(s) && R.LoopTurn(s, R.Draining) && OnCourse(c0, View(Now(), s))
      requires sch.waits.loop.active.head == null <==> s.active == []
      modifies this, sch.calls, sch.waits.conds[empty], sch.waits.conds[full]
      modifies sch.waits.loop, sch.waits.loop.active, sch.waits.loop.pool
      ensures In(s') && s'.active == [] && OnCourse(c0, View(Now(), s'))
    {
      s' := s;
      ghost var c := View(Now(), s);
      while sch.waits.loop.active.head != null
        invariant In(s') && R.LoopTurn(s', R.Draining) && c == View(Now(), s') && OnCourse(c0, c)
        invariant sch.waits.loop.active.head == null <==> s'.active == []
        invariant fresh(sch.waits.loop.pool - old(sch.waits.loop.pool))
        decreases Waiting(c), |c.active|
      {
        s' := DrainOne(s', c0);
        c := View(Now(), s');
      }
    }

    method DrainOne(ghost s: R.State, ghost c0: Chan<T>) returns (ghost t: R.State)
      requires In(s) && R.LoopTurn(s, R.Draining) && OnCourse(c0, View(Now(), s)) && s.active != []
      modifies this, sch.calls, sch.waits.conds[empty], sch.waits.conds[full]
      modifies sch.waits.loop, sch.waits.loop.active, sch.waits.loop.pool
      ensures In(t) && R.LoopTurn(t, R.Draining) && (sch.waits.loop.active.head == null <==> t.active == [])
      ensures OnCourse(c0, View(Now(), t)) && Closer(old(View(Now(), s)), View(Now(), t))
      ensures fresh(sch.waits.loop.pool - old(sch.waits.loop.pool))
    {
      ghost var c := View(Now(), s);
      var o;
      o, t := ResumeOnCourse(s, c0);
      t := EndUnlessWaiting(o, t, c0, c);
      sch.ActiveHead(t);
    }

    method ResumeOnCourse(ghost s: R.State, ghost c0: Chan<T>) returns (o: Outcome<T>, ghost t: R.State)
      requires In(s) && R.LoopTurn(s, R.Draining) && OnCourse(c0, View(Now(), s)) && s.active != []
      modifies this, sch.calls, sch.waits.conds[empty], sch.waits.conds[full]
      modifies sch.waits.loop, sch.waits.loop.active, sch.waits.loop.pool
      ensures In(t) && InDrain(t, o)
      ensures OnCourse(c0, View(Now(), t)) && Closer(old(View(Now(), s)), View(Now(), t))
      ensures fresh(sch.waits.loop.pool - old(sch.waits.loop.pool))
    {
      ResumeIsProgress(c0, Now(), s);
      o, t := ResumeHead(s);
    }

    method EndUnlessWaiting(o: Outcome<T>, ghost s: R.State, ghost c0: Chan<T>, ghost c: Chan<T>)
      returns (ghost t: R.State)
      requires In(s) && InDrain(s, o) && OnCourse(c0, View(Now(), s)) && Closer(c, View(Now(), s))
      modifies sch.calls`stack, sch.calls`destroyCo, sch.calls`cos
      ensures In(t) && R.LoopTurn(t, R.Draining)
      ensures OnCourse(c0, View(Now(), t)) && Closer(c, View(Now(), t))
    {
      t := s;
      if !o.Waits? {
        t := EndCall(s);
      }
    }

    method EndCall(ghost s: R.State) returns (ghost t: R.State)
      requires In(s) && |s.stack| > 1
      modifies sch.calls`stack, sch.calls`destroyCo, sch.calls`cos
      ensures t == R.Apply(s, R.Finish) && In(t) && View(Now(), t) == View(Now(), s)
      ensures t.phase == s.phase && |t.stack| == |s.stack| - 1
    {
      FinishSeen(Now(), s);
      t := R.Apply(s, R.Finish);
      sch.Finish(s);
    }
  }
}
