/** Every step of the scheduler keeps the invariant. */
module RuntimeInvariant {
  import opened DeadlineQueue
  import opened WheelModel
  import opened WheelRuns
  import opened Sequences
  import opened Runtime

  // ----- places: kept and conserved by every step, whatever the callers of register_event do

  lemma PoppedPlaces(s: State)
    requires OnePlace(s) && |s.stack| > 1
    ensures Top(s) in Members(s.stack) && Members(Popped(s)) == Members(s.stack) - {Top(s)}
    ensures Popped(s) != [] && Popped(s)[0] == 0 && Distinct(Popped(s))
  {
    assert s.stack == Popped(s) + [Top(s)];
  }

  /** Known coroutines stay known; only a spawn adds one. */
  ghost predicate Conserved(s: State, step: Step, s': State) {
    OnePlace(s') && Numbered(s') && Known(s') == Known(s) + if step.Spawn? then {step.co} else {}
  }

  lemma MovesPlaces(s: State, step: Step)
    requires OnePlace(s) && Numbered(s) && Enabled(s, step)
    requires step.Spawn? || step.Resume? || step.Yield? || step.Finish? || step.ClearCo?
    ensures Conserved(s, step, Apply(s, step))
  {
    var s' := Apply(s, step);
    assert Waiting(s') == Waiting(s);
    if step.Yield? || step.Finish? {
      PoppedPlaces(s);
      if step.Finish? {
        assert Top(s) !in Members(s.destroy);
        assert Members(s'.destroy) == Members(s.destroy) + {Top(s)};
      }
    } else if step.Resume? {
      assert step.co !in Members(s.stack);
      assert Members(s'.stack) == Members(s.stack) + {step.co};
    } else if step.ClearCo? {
      assert Members(s'.destroy) == {};
    }
  }

  lemma WaitPlaces(s: State, step: Step, w: Wait, s': State)
    requires OnePlace(s) && Numbered(s) && |s.stack| > 1 && !step.Spawn?
    requires s'.items == WaitOn(s, w).items && s'.next == s.next + 1 && s'.stack == Popped(s)
    requires s'.newborn == s.newborn && s'.parked == s.parked && s'.destroy == s.destroy && s'.freed == s.freed
    ensures Conserved(s, step, s')
  {
    PoppedPlaces(s);
    assert s.next !in s.items;
    assert Waiting(s') == Waiting(s) + {Top(s)} by {
      forall c | c in Waiting(s) ensures c in Waiting(s') {
        var i :| i in s.items && s.items[i].co == c;
        assert s'.items[i].co == c;
      }
      assert s'.items[s.next].co == Top(s);
    }
  }

  lemma RegisterPlaces(s: State, fd: int, timeout: int, now: nat)
    requires OnePlace(s) && Numbered(s) && Enabled(s, Register(fd, timeout, now))
    ensures Conserved(s, Register(fd, timeout, now), RegisterEvent(s, fd, timeout, now))
  {
    var s' := RegisterEvent(s, fd, timeout, now);
    if timeout <= |s.wheel.slots| && (timeout > 0 || timeout == -1) {
      var w := OnEvent(fd, if timeout > 0 then now + timeout else 0);
      WaitPlaces(s, Register(fd, timeout, now), w, s');
    } else {
      assert Waiting(s') == Waiting(s);
    }
  }

  lemma WaitingWithout(s: State, i: nat)
    requires OnePlace(s) && i in s.items
    ensures s.items[i].co in Waiting(s)
    ensures Waiting(s.(items := s.items - {i})) == Waiting(s) - {s.items[i].co}
  {
    var s' := s.(items := s.items - {i});
    forall c | c in Waiting(s) && c != s.items[i].co ensures c in Waiting(s') {
      var j :| j in s.items && s.items[j].co == c;
      assert j in s'.items && s'.items[j].co == c;
    }
  }

  lemma ResumeHeadPlaces(s: State)
    requires OnePlace(s) && Numbered(s) && s.active != [] && s.active[0] in s.items
    ensures Conserved(s, PopResume, ResumeHead(s))
  {
    var s' := ResumeHead(s);
    var i := s.active[0];
    var c := s.items[i].co;
    WaitingWithout(s, i);
    assert Waiting(s') == Waiting(s.(items := s.items - {i}));
    assert Members(s'.stack) == Members(s.stack) + {c};
    assert c !in Members(s.stack);
  }

  lemma PlacesKept(s: State, step: Step)
    requires OnePlace(s) && Numbered(s) && Enabled(s, step)
    ensures Conserved(s, step, Apply(s, step))
  {
    if step.PopResume? {
      ResumeHeadPlaces(s);
    } else if step.CondWait? {
      WaitPlaces(s, step, OnCond(step.cond), Apply(s, step));
    } else if step.Register? {
      RegisterPlaces(s, step.fd, step.timeout, step.now);
    } else if step.Spawn? || step.Resume? || step.Yield? || step.Finish? || step.ClearCo? {
      MovesPlaces(s, step);
    } else {
      UnmovedPlaces(s, step);
    }
  }

  lemma UnmovedPlaces(s: State, step: Step)
    requires OnePlace(s) && Numbered(s) && Enabled(s, step)
    requires step.Signal? || step.Broadcast? || step.Poll? || step.EnterLoop? || step.EndDrain? || step.LeaveLoop?
    ensures Conserved(s, step, Apply(s, step))
  {
    assert Waiting(Apply(s, step)) == Waiting(s);
  }

  // ----- steps that only move coroutines

  lemma ListsUntouched(s: State, s': State)
    requires ListsHold(s)
    requires s'.items == s.items && s'.next == s.next && s'.epoll == s.epoll && s'.wheel == s.wheel
    requires s'.conds == s.conds && s'.active == s.active && s'.timedOut == s.timedOut
    requires s'.wakes == s.wakes && s'.flags == s.flags
    requires s'.phase == s.phase || s.phase != Draining || s.active == []
    ensures ListsHold(s') && Waiting(s') == Waiting(s)
  {
    assert NoneForgotten(s') by {
      forall k | k in s'.items && k !in s'.active ensures Parked(s', k) {
        assert Parked(s, k);
      }
    }
  }

  /** The steps that only move coroutines leave the lists as they are. */
  lemma MovesKeep(s: State, step: Step)
    requires Inv(s) && Enabled(s, step)
    requires step.Spawn? || step.Resume? || step.Yield? || step.Finish? || step.ClearCo?
             || step.EnterLoop? || step.EndDrain? || step.LeaveLoop?
    ensures Inv(Apply(s, step))
  {
    ListsUntouched(s, Apply(s, step));
    PlacesKept(s, step);
  }

  // ----- signals

  lemma SignalDeques(s: State, c: nat)
    requires DequesHold(s) && Deque(s, c) != []
    ensures DequesHold(SignalOne(s, c))
  {
    var s' := SignalOne(s, c);
    var q := Deque(s, c);
    assert forall i :: 0 <= i < |q[1..]| ==> q[1..][i] == q[i + 1];
    forall d | d in s'.conds
      ensures Ascending(s'.conds[d])
      ensures forall k :: k in s'.conds[d] ==> k in s'.items && s'.items[k].wait == OnCond(d) && k !in s'.active
    {
      assert d in s.conds;
      forall k | k in s'.conds[d] ensures k in s.conds[d] && k != q[0] {
        if d != c { assert s.items[q[0]].wait == OnCond(c); }
      }
    }
  }

  lemma SignalKeeps(s: State, c: nat)
    requires Inv(s)
    ensures Inv(SignalOne(s, c))
  {
    var s' := SignalOne(s, c);
    assert Waiting(s') == Waiting(s);
    if Deque(s, c) != [] {
      var i := Deque(s, c)[0];
      assert i in s.conds[c];
      SignalDeques(s, c);
      assert Deque(s, c) == [i] + Deque(s, c)[1..];
      DistinctConcat(s.active, [i]);
      assert NoneForgotten(s') by {
        forall k | k in s'.items && k !in s'.active ensures Parked(s', k) {
          assert Parked(s, k);
        }
      }
    }
  }

  lemma DistinctConcat<T>(a: seq<T>, b: seq<T>)
    requires Distinct(a) && Distinct(b) && forall x :: x in b ==> x !in a
    ensures Distinct(a + b)
  {
    var t := a + b;
    forall i, j | 0 <= i < j < |t| ensures t[i] != t[j] {
      if j >= |a| { assert t[j] in b; }
    }
  }

  lemma BroadcastKeeps(s: State, c: nat)
    requires Inv(s)
    ensures Inv(SignalAll(s, c))
  {
    var s' := SignalAll(s, c);
    var q := Deque(s, c);
    assert Waiting(s') == Waiting(s);
    assert c in s.conds ==> q == s.conds[c];
    DistinctConcat(s.active, q);
    assert NoneForgotten(s') by {
      forall k | k in s'.items && k !in s'.active ensures Parked(s', k) {
        assert Parked(s, k);
      }
    }
  }

  // ----- waiting

  /** A new item that waits on a condition disturbs nothing but the deques. */
  lemma CondItemAdded(s: State, c: nat)
    requires ListsHold(s) && s.stack != []
    ensures var s' := WaitOnCond(s, c);
            WheelHolds(s') && ActiveHolds(s')
  {
    assert s.next !in s.items;
  }

  lemma CondItemCounted(s: State, c: nat)
    requires ListsHold(s) && s.stack != []
    ensures var s' := WaitOnCond(s, c);
            EpollHolds(s') && History(s')
  {
    assert s.next !in s.items;
  }

  lemma AscendingSnoc(q: seq<nat>, x: nat)
    requires Ascending(q) && forall y :: y in q ==> y < x
    ensures Ascending(q + [x])
  {
    forall i, j | 0 <= i < j < |q + [x]| ensures (q + [x])[i] < (q + [x])[j] {
      if j == |q| { assert q[i] in q; }
    }
  }

  lemma CondWaitDeques(s: State, c: nat)
    requires ListsHold(s) && s.stack != []
    ensures DequesHold(WaitOnCond(s, c))
  {
    assert s.next !in s.items;
    assert forall k :: k in Deque(s, c) ==> k in s.items && k < s.next;
    AscendingSnoc(Deque(s, c), s.next);
  }

  lemma CondWaitForgetsNone(s: State, c: nat)
    requires ListsHold(s) && s.stack != []
    ensures NoneForgotten(WaitOnCond(s, c))
  {
    var s' := WaitOnCond(s, c);
    assert s.next !in s.items;
    forall k | k in s'.items && k !in s'.active ensures Parked(s', k) {
      if k != s.next { assert Parked(s, k); }
    }
  }

  lemma CondWaitLists(s: State, c: nat)
    requires ListsHold(s) && s.stack != []
    ensures ListsHold(WaitOnCond(s, c))
  {
    CondItemAdded(s, c);
    CondItemCounted(s, c);
    CondWaitDeques(s, c);
    CondWaitForgetsNone(s, c);
  }

  lemma CondWaitKeeps(s: State, c: nat)
    requires Inv(s) && Enabled(s, CondWait(c))
    ensures Inv(Apply(s, CondWait(c)))
  {
    PlacesKept(s, CondWait(c));
    CondWaitLists(s, c);
  }

  // ----- register_event

  lemma {:induction false} InsertKeysDistinct(q: seq<Entry<nat>>, e: Entry<nat>)
    requires KeysDistinct(q) && forall x :: x in q ==> x.key != e.key
    ensures KeysDistinct(Insert(q, e))
  {
    if q == [] || e.deadline < q[0].deadline {
      assert forall i :: 0 <= i < |q| ==> q[i] in q;
    } else {
      var rest := Insert(q[1..], e);
      InsertKeysDistinct(q[1..], e);
      InsertMembers(q[1..], e);
      assert q[0] in q;
      forall i | 0 <= i < |rest| ensures rest[i].key != q[0].key {
        assert rest[i] in rest;
      }
    }
  }

  lemma {:induction false} InsertTies(q: seq<Entry<nat>>, e: Entry<nat>)
    requires TiesAscending(q) && Sorted(q) && forall x :: x in q ==> x.key < e.key
    ensures TiesAscending(Insert(q, e))
  {
    InsertIsStable(q, e);
    var k := DueCount(q, e.deadline);
    var t := q[..k] + [e] + q[k..];
    assert forall x :: x in q[k..] ==> x.deadline > e.deadline;
    forall i, j | 0 <= i < j < |t| && t[i].deadline == t[j].deadline ensures t[i].key < t[j].key {
      if j == k {
        assert t[i] in q;
      }
    }
  }

  /** The entry of a fresh item joins the wheel. */
  lemma WheelGains(s: State, e: Entry<nat>)
    requires WheelHolds(s) && forall i :: i in s.items ==> i < e.key
    requires s.wheel.start <= e.deadline < s.wheel.start + |s.wheel.slots| && e.deadline < TWO63
    ensures var w := AfterAdd(s.wheel, e);
            && Exact(w) && KeysDistinct(Flat(w)) && TiesAscending(Flat(w))
            && (forall x :: x in Flat(w) <==> x in Flat(s.wheel) || x == e)
  {
    AddRefinesInsert(s.wheel, e);
    ExactSorted(Rotated(s.wheel), s.wheel.start);
    InsertTies(Flat(s.wheel), e);
    InsertKeysDistinct(Flat(s.wheel), e);
    InsertMembers(Flat(s.wheel), e);
  }

  /** register_event once it is going to yield, with the wheel it leaves. */
  function Registered(s: State, fd: int, d: nat, w: Wheel<nat>): State
    requires s.stack != []
  {
    WaitOn(s.(epoll := EpollAdd(s.epoll, fd, s.next), wheel := w), OnEvent(fd, d))
  }

  ghost predicate WheelUpdated(s: State, d: nat, w: Wheel<nat>)
    requires 0 < |s.wheel.slots|
  {
    && Exact(w) && KeysDistinct(Flat(w)) && TiesAscending(Flat(w))
    && (forall x :: x in Flat(w) <==> x in Flat(s.wheel) || (d > 0 && x == Entry(s.next, d)))
  }

  lemma RegisteredLists(s: State, fd: int, d: nat, w: Wheel<nat>)
    requires ListsHold(s) && s.stack != [] && WheelUpdated(s, d, w)
    ensures var s' := Registered(s, fd, d, w);
            WheelHolds(s') && DequesHold(s') && ActiveHolds(s') && NoneForgotten(s')
  {
    var s' := Registered(s, fd, d, w);
    assert s.next !in s.items;
    assert NoneForgotten(s') by {
      forall k | k in s'.items && k !in s'.active ensures Parked(s', k) {
        if k != s.next { assert Parked(s, k); }
      }
    }
  }

  lemma RegisteredKeeps(s: State, fd: int, d: nat, w: Wheel<nat>)
    requires Inv(s) && |s.stack| > 1 && (fd < 0 || fd !in s.epoll) && WheelUpdated(s, d, w)
    ensures Inv(Registered(s, fd, d, w))
  {
    var s' := Registered(s, fd, d, w);
    WaitPlaces(s, Yield, OnEvent(fd, d), s');
    RegisteredLists(s, fd, d, w);
    RegisteredEpoll(s, fd, d, w);
  }

  lemma RegisteredEpoll(s: State, fd: int, d: nat, w: Wheel<nat>)
    requires EpollHolds(s) && History(s) && s.stack != [] && (fd < 0 || fd !in s.epoll)
    ensures EpollHolds(Registered(s, fd, d, w)) && History(Registered(s, fd, d, w))
  {
    assert s.next !in s.items;
  }

  lemma RegisterTimedKeeps(s: State, fd: int, d: nat)
    requires Inv(s) && |s.stack| > 1 && (fd < 0 || fd !in s.epoll)
    requires 0 < d < TWO63 && s.wheel.start <= d < s.wheel.start + |s.wheel.slots|
    ensures Inv(Registered(s, fd, d, AfterAdd(s.wheel, Entry(s.next, d))))
  {
    var e := Entry(s.next, d);
    assert s.next !in s.items;
    WheelGains(s, e);
    var w := AfterAdd(s.wheel, e);
    RegisteredKeeps(s, fd, d, w);
  }

  /** The four ways register_event goes. */
  lemma RegisterCases(s: State, fd: int, timeout: int, now: nat)
    requires Enabled(s, Register(fd, timeout, now))
    ensures var s' := RegisterEvent(s, fd, timeout, now);
            if timeout > |s.wheel.slots| then s' == s
            else if timeout > 0 then
              s' == Registered(s, fd, now + timeout, AfterAdd(s.wheel, Entry(s.next, now + timeout)))
            else if timeout == -1 then s' == Registered(s, fd, 0, s.wheel)
            else if fd <= -1 || fd in s.epoll then s' == s
            else s' == s.(epoll := EpollAdd(s.epoll, fd, s.next), next := s.next + 1)
  {
  }

  lemma RegisterKeeps(s: State, fd: int, timeout: int, now: nat)
    requires Inv(s) && Allowed(s, Register(fd, timeout, now))
    ensures Inv(RegisterEvent(s, fd, timeout, now))
  {
    RegisterCases(s, fd, timeout, now);
    RegisterCaseKeeps(s, fd, timeout, now, RegisterEvent(s, fd, timeout, now));
  }

  lemma RegisterCaseKeeps(s: State, fd: int, timeout: int, now: nat, s': State)
    requires Inv(s) && Allowed(s, Register(fd, timeout, now))
    requires if timeout > |s.wheel.slots| then s' == s
             else if timeout > 0 then
               s' == Registered(s, fd, now + timeout, AfterAdd(s.wheel, Entry(s.next, now + timeout)))
             else if timeout == -1 then s' == Registered(s, fd, 0, s.wheel)
             else s' == s
    ensures Inv(s')
  {
    if 0 < timeout <= |s.wheel.slots| {
      RegisterTimedKeeps(s, fd, now + timeout);
    } else if timeout == -1 {
      RegisterUntimedKeeps(s, fd);
    }
  }

  lemma RegisterUntimedKeeps(s: State, fd: int)
    requires Inv(s) && |s.stack| > 1 && (fd < 0 || fd !in s.epoll)
    ensures Inv(Registered(s, fd, 0, s.wheel))
  {
    RegisteredKeeps(s, fd, 0, s.wheel);
  }

  // ----- resuming the head of the active list

  lemma ResumeHeadLists(s: State)
    requires ListsHold(s) && s.phase == Draining && s.active != []
    ensures var s' := ResumeHead(s);
            && WheelHolds(s') && DequesHold(s') && ActiveHolds(s') && NoneForgotten(s')
  {
    var s' := ResumeHead(s);
    var i := s.active[0];
    assert s.active == [i] + s.active[1..];
    assert i !in s'.active;
    assert NoneForgotten(s') by {
      forall k | k in s'.items && k !in s'.active ensures Parked(s', k) {
        assert Parked(s, k);
      }
    }
  }

  lemma ResumeHeadEpoll(s: State)
    requires EpollHolds(s) && s.active != [] && s.active[0] in s.items
    ensures EpollHolds(ResumeHead(s))
  {
  }

  lemma ResumeHeadHistory(s: State)
    requires History(s) && s.active != [] && s.active[0] in s.items
    ensures History(ResumeHead(s))
  {
    DistinctConcat(s.wakes, [s.active[0]]);
  }

  lemma ResumeHeadKeeps(s: State)
    requires Inv(s) && Enabled(s, PopResume)
    ensures Inv(Apply(s, PopResume))
  {
    ResumeHeadLists(s);
    ResumeHeadPlaces(s);
    ResumeHeadEpoll(s);
    ResumeHeadHistory(s);
  }

  // ----- poll: ready events, then deadlines

  lemma {:induction false} RemoveAllRefines(w: Wheel<nat>, ready: seq<nat>)
    requires Exact(w) && KeysDistinct(Flat(w)) && TiesAscending(Flat(w))
    ensures Exact(RemoveAll(w, ready)) && KeysDistinct(Flat(RemoveAll(w, ready)))
    ensures TiesAscending(Flat(RemoveAll(w, ready)))
    ensures RemoveAll(w, ready).start == w.start
    ensures forall e :: e in Flat(RemoveAll(w, ready)) <==> e in Flat(w) && e.key !in ready
    decreases |ready|
  {
    if ready != [] {
      var k := ready[0];
      var w1 := AfterRemove(w, k);
      RemoveRefines(w, k);
      WithoutKeysDistinct(Flat(w), k);
      WithoutTies(Flat(w), k);
      RemoveAllRefines(w1, ready[1..]);
      forall e ensures e in Flat(RemoveAll(w, ready)) <==> e in Flat(w) && e.key !in ready {
        WithoutMember(Flat(w), k, e);
        assert ready == [k] + ready[1..];
      }
    }
  }

  lemma {:induction false} WithoutKeysDistinct(q: seq<Entry<nat>>, k: nat)
    requires KeysDistinct(q)
    ensures KeysDistinct(Without(q, k))
  {
    if q != [] {
      WithoutKeysDistinct(q[1..], k);
      var t := Without(q[1..], k);
      forall i | 0 <= i < |t| ensures t[i].key != q[0].key {
        WithoutMember(q[1..], k, t[i]);
        assert t[i] in q[1..];
      }
    }
  }

  lemma {:induction false} WithoutTies(q: seq<Entry<nat>>, k: nat)
    requires TiesAscending(q)
    ensures TiesAscending(Without(q, k))
  {
    if q != [] {
      WithoutTies(q[1..], k);
      var t := Without(q[1..], k);
      forall i | 0 <= i < |t| && q[0].deadline == t[i].deadline ensures q[0].key < t[i].key {
        WithoutMember(q[1..], k, t[i]);
        var j :| 0 <= j < |q[1..]| && q[1..][j] == t[i];
        assert q[j + 1] == t[i];
      }
    }
  }

  lemma TiesSplit(a: seq<Entry<nat>>, b: seq<Entry<nat>>)
    requires TiesAscending(a + b)
    ensures TiesAscending(a) && TiesAscending(b)
  {
    var q := a + b;
    forall i, j | 0 <= i < j < |b| && b[i].deadline == b[j].deadline ensures b[i].key < b[j].key {
      assert q[|a| + i] == b[i] && q[|a| + j] == b[j];
    }
    assert forall i :: 0 <= i < |a| ==> a[i] == q[i];
  }

  lemma AddReadyLists(s: State, ready: seq<nat>)
    requires Inv(s) && s.phase == AtPoll && Distinct(ready)
    requires forall i :: i in ready ==> Reported(s, i)
    ensures ListsHold(AddReady(s, ready))
    ensures AddReady(s, ready).wheel.start == s.wheel.start
  {
    var s' := AddReady(s, ready);
    RemoveAllRefines(s.wheel, ready);
    forall i | i in ready ensures i in s.items && s.items[i].wait.OnEvent? && i !in s.active {
      assert Reported(s, i);
      var fd :| fd in s.epoll && s.epoll[fd] == i;
    }
    DistinctConcat(s.active, ready);
    assert NoneForgotten(s') by {
      forall k | k in s'.items && k !in s'.active ensures Parked(s', k) {
        assert Parked(s, k);
      }
    }
  }

  lemma KeysDistinctSplit(a: seq<Entry<nat>>, b: seq<Entry<nat>>)
    requires KeysDistinct(a + b)
    ensures KeysDistinct(b) && Distinct(Keys(a))
    ensures forall x, y :: x in a && y in b ==> x.key != y.key
  {
    var q := a + b;
    forall i, j | 0 <= i < j < |b| ensures b[i].key != b[j].key {
      assert q[|a| + i].key != q[|a| + j].key;
    }
    forall i, j | 0 <= i < j < |a| ensures Keys(a)[i] != Keys(a)[j] {
      assert q[i].key != q[j].key;
    }
    forall x, y | x in a && y in b ensures x.key != y.key {
      var i :| 0 <= i < |a| && a[i] == x;
      var j :| 0 <= j < |b| && b[j] == y;
      assert q[i].key != q[|a| + j].key;
    }
  }

  /** What the take hands over and what it leaves. */
  lemma TakeSplits(w: Wheel<nat>, now: nat)
    requires Exact(w) && Legal(w, Take(now))
    ensures var (w', due) := AfterTake(w, now);
            && Exact(w') && Flat(w) == due + Flat(w')
            && AllBy(due, now) && (w.start <= now ==> AllAfter(Flat(w'), now))
  {
    StepRefines(w, Take(now));
    ExactSorted(Rotated(w), w.start);
    if w.start <= now {
      TakeIsPrefix(Flat(w), now);
    }
  }

  lemma KeysMember(q: seq<Entry<nat>>, k: nat)
    requires k in Keys(q)
    ensures exists e :: e in q && e.key == k
  {
    var i :| 0 <= i < |Keys(q)| && Keys(q)[i] == k;
    assert q[i] in q && q[i].key == k;
  }

  lemma MergeLists(s: State, w: Wheel<nat>, due: seq<Entry<nat>>)
    requires ListsHold(s) && s.phase == Draining
    requires Exact(w) && Flat(s.wheel) == due + Flat(w)
    ensures ListsHold(s.(wheel := w, active := s.active + Keys(due), timedOut := s.timedOut + KeySet(due)))
  {
    var s' := s.(wheel := w, active := s.active + Keys(due), timedOut := s.timedOut + KeySet(due));
    KeysDistinctSplit(due, Flat(w));
    forall k | k in Keys(due)
      ensures k in s.items && k !in s.active && s.items[k].wait.OnEvent? && s.items[k].wait.deadline > 0
    {
      KeysMember(due, k);
      var e :| e in due && e.key == k;
      assert e in Flat(s.wheel);
    }
    forall e | e in due ensures e.key in Keys(due) {
      var i :| 0 <= i < |due| && due[i] == e;
      assert Keys(due)[i] == e.key;
    }
    DistinctConcat(s.active, Keys(due));
    MergeWheel(s, w, due);
    assert NoneForgotten(s') by {
      forall k | k in s'.items && k !in s'.active ensures Parked(s', k) {
        assert Parked(s, k);
      }
    }
  }

  lemma MergeWheel(s: State, w: Wheel<nat>, due: seq<Entry<nat>>)
    requires WheelHolds(s) && Exact(w) && Flat(s.wheel) == due + Flat(w)
    ensures WheelHolds(s.(wheel := w, active := s.active + Keys(due), timedOut := s.timedOut + KeySet(due)))
  {
    KeysDistinctSplit(due, Flat(w));
    TiesSplit(due, Flat(w));
    forall e | e in Flat(w) ensures e in Flat(s.wheel) && e.key !in Keys(due) {
      if e.key in Keys(due) { KeysMember(due, e.key); }
    }
  }

  lemma MergeKeeps(s: State, now: nat)
    requires ListsHold(s) && s.phase == Draining && Legal(s.wheel, Take(now))
    ensures ListsHold(MergeTimeouts(s, now))
  {
    TakeSplits(s.wheel, now);
    MergeLists(s, AfterTake(s.wheel, now).0, AfterTake(s.wheel, now).1);
  }

  lemma PollKeeps(s: State, ready: seq<nat>, now: nat)
    requires Inv(s) && Enabled(s, Poll(ready, now))
    ensures Inv(Apply(s, Poll(ready, now)))
  {
    AddReadyLists(s, ready);
    var s1 := AddReady(s, ready);
    MergeKeeps(s1, now);
    PlacesKept(s, Poll(ready, now));
  }

  /** The invariant is inductive. */
  lemma StepKeeps(s: State, step: Step)
    requires Inv(s) && Allowed(s, step)
    ensures Inv(Apply(s, step))
  {
    match step
    case Register(fd, timeout, now) => RegisterKeeps(s, fd, timeout, now);
    case CondWait(c) => CondWaitKeeps(s, c);
    case Signal(c) => SignalKeeps(s, c);
    case Broadcast(c) => BroadcastKeeps(s, c);
    case Poll(ready, now) => PollKeeps(s, ready, now);
    case PopResume => ResumeHeadKeeps(s);
    case _ => MovesKeep(s, step);
  }
}
