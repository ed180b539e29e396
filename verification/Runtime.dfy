/** The scheduler as a transition system: coroutines, the call stack, waiting items, epoll, the time
    wheel, condition deques and the active list. Coroutine 0 is the main coroutine. */
module Runtime {
  import opened DeadlineQueue
  import opened WheelModel
  import opened Sequences

  /** What a waiting item waits for. A deadline of 0 means no timeout, a negative fd no descriptor. */
  datatype Wait = OnCond(cond: nat) | OnEvent(fd: int, deadline: nat)

  datatype Item = Item(co: nat, wait: Wait)

  /** Setup is main's code outside the loop; InHook is the function called at the end of a round. */
  datatype Phase = Setup | AtPoll | Draining | InHook

  datatype State = State(
    phase: Phase,
    stack: seq<nat>,
    newborn: set<nat>,
    parked: set<nat>,
    destroy: seq<nat>,
    freed: set<nat>,
    items: map<nat, Item>,
    next: nat,
    epoll: map<int, nat>,
    wheel: Wheel<nat>,
    conds: map<nat, seq<nat>>,
    active: seq<nat>,
    timedOut: set<nat>,
    // history: the items resumed so far, in order, and what each wait returned
    wakes: seq<nat>,
    flags: map<nat, bool>)

  datatype Step =
    | Spawn(co: nat)
    | Resume(co: nat)
    | Yield
    | Register(fd: int, timeout: int, now: nat)
    | CondWait(cond: nat)
    | Signal(cond: nat)
    | Broadcast(cond: nat)
    | Finish
    | EnterLoop
    | Poll(ready: seq<nat>, time: nat)
    | PopResume
    | EndDrain
    | ClearCo
    | LeaveLoop

  // ----- the steps

  function Deque(s: State, c: nat): seq<nat> {
    if c in s.conds then s.conds[c] else []
  }

  function Top(s: State): nat
    requires s.stack != []
  {
    s.stack[|s.stack| - 1]
  }

  function Popped(s: State): seq<nat>
    requires s.stack != []
  {
    s.stack[..|s.stack| - 1]
  }

  /** coroutine::resume up to its switch. It does not ask where the coroutine is. */
  function ResumeCo(s: State, c: nat): State {
    s.(newborn := s.newborn - {c}, parked := s.parked - {c}, stack := s.stack + [c])
  }

  /** coroutine::yield of whoever is running. */
  function YieldTop(s: State): State
    requires s.stack != []
  {
    s.(parked := s.parked + {Top(s)}, stack := Popped(s))
  }

  /** The running coroutine creates an item for itself and yields. */
  function WaitOn(s: State, w: Wait): State
    requires s.stack != []
  {
    s.(items := s.items[s.next := Item(Top(s), w)], next := s.next + 1, stack := Popped(s))
  }

  /** co_cond_wait up to its yield. */
  function WaitOnCond(s: State, c: nat): State
    requires s.stack != []
  {
    WaitOn(s, OnCond(c)).(conds := s.conds[c := Deque(s, c) + [s.next]])
  }

  /** co_epoll::add, whose refusal the caller ignores. */
  function EpollAdd(epoll: map<int, nat>, fd: int, i: nat): map<int, nat> {
    if fd > -1 && fd !in epoll then epoll[fd := i] else epoll
  }

  /** register_event up to its yield, or its early returns: a timeout beyond the wheel, and a timeout
      of 0 or below -1, which leaves the descriptor registered with an item nobody waits on. */
  function RegisterEvent(s: State, fd: int, timeout: int, now: nat): State
    requires s.stack != [] && 0 < |s.wheel.slots| && s.wheel.start < TWO63
    requires timeout > 0 ==> now + timeout < TWO63
  {
    if timeout > |s.wheel.slots| then s
    else
      var s1 := s.(epoll := EpollAdd(s.epoll, fd, s.next));
      if timeout > 0 then
        var d := now + timeout;
        WaitOn(s1.(wheel := AfterAdd(s1.wheel, Entry(s.next, d))), OnEvent(fd, d))
      else if timeout == -1 then WaitOn(s1, OnEvent(fd, 0))
      else if fd <= -1 || fd in s.epoll then s
      else s1.(next := s.next + 1)
  }

  /** register_event goes on to yield. */
  predicate Blocks(s: State, timeout: int) {
    timeout <= |s.wheel.slots| && (timeout > 0 || timeout == -1)
  }

  function SignalOne(s: State, c: nat): State {
    var q := Deque(s, c);
    if q == [] then s else s.(conds := s.conds[c := q[1..]], active := s.active + [q[0]])
  }

  function SignalAll(s: State, c: nat): State {
    s.(conds := s.conds[c := []], active := s.active + Deque(s, c))
  }

  function Keys(q: seq<Entry<nat>>): (ks: seq<nat>)
    ensures |ks| == |q| && forall i :: 0 <= i < |q| ==> ks[i] == q[i].key
  {
    seq(|q|, i requires 0 <= i < |q| => q[i].key)
  }

  function KeySet(q: seq<Entry<nat>>): set<nat> {
    set e | e in q :: e.key
  }

  function AddReady(s: State, ready: seq<nat>): State {
    s.(wheel := RemoveAll(s.wheel, ready), active := s.active + ready, phase := Draining)
  }

  function MergeTimeouts(s: State, now: nat): State
    requires 0 < |s.wheel.slots|
  {
    var (w, due) := AfterTake(s.wheel, now);
    s.(wheel := w, active := s.active + Keys(due), timedOut := s.timedOut + KeySet(due))
  }

  /** The head of the active list is popped and its coroutine resumed, which first gives the item's
      resources back: the descriptor leaves epoll and the item is deleted. */
  function ResumeHead(s: State): State
    requires s.active != [] && s.active[0] in s.items
  {
    var i := s.active[0];
    var it := s.items[i];
    s.(active := s.active[1..],
       stack := s.stack + [it.co],
       items := s.items - {i},
       epoll := if it.wait.OnEvent? && it.wait.fd > -1 then s.epoll - {it.wait.fd} else s.epoll,
       timedOut := s.timedOut - {i},
       wakes := s.wakes + [i],
       flags := s.flags[i := i in s.timedOut])
  }

  // ----- when a step can be taken

  /** Control is with a coroutine, or with main's own code. */
  predicate UserTurn(s: State) {
    |s.stack| > 1 || (s.stack != [] && s.phase in {Setup, InHook})
  }

  /** Control is with the event loop. */
  predicate LoopTurn(s: State, p: Phase) {
    |s.stack| == 1 && s.phase == p
  }

  /** epoll may report item i: some descriptor is registered with it. */
  predicate Reported(s: State, i: nat) {
    exists fd :: fd in s.epoll && s.epoll[fd] == i
  }

  /** The steps of a program that resumes only coroutines that are new or parked by a bare yield, and in
      which only coroutines yield or wait, never main; epoll reports each registered item at most once. */
  predicate Enabled(s: State, step: Step) {
    match step
    case Spawn(c) => UserTurn(s) && c !in Known(s)
    case Resume(c) => UserTurn(s) && (c in s.newborn || c in s.parked)
    case Yield => |s.stack| > 1
    case Register(fd, timeout, now) =>
      |s.stack| > 1 && 0 < |s.wheel.slots| && s.wheel.start < TWO63 && (timeout > 0 ==> now + timeout < TWO63)
    case CondWait(_) => |s.stack| > 1
    case Signal(_) => UserTurn(s)
    case Broadcast(_) => UserTurn(s)
    case Finish => |s.stack| > 1
    case EnterLoop => LoopTurn(s, Setup)
    case Poll(ready, now) =>
      && LoopTurn(s, AtPoll) && 0 < |s.wheel.slots|
      && Distinct(ready) && (forall i :: i in ready ==> Reported(s, i))
      && now < TWO63 && (s.wheel.start <= now ==> CountReaches(now - s.wheel.start, |s.wheel.slots|))
    case PopResume => LoopTurn(s, Draining) && s.active != [] && s.active[0] in s.items
    case EndDrain => LoopTurn(s, Draining) && s.active == []
    case ClearCo => LoopTurn(s, InHook)
    case LeaveLoop => LoopTurn(s, InHook)
  }

  function Apply(s: State, step: Step): State
    requires Enabled(s, step)
  {
    match step
    case Spawn(c) => s.(newborn := s.newborn + {c})
    case Resume(c) => ResumeCo(s, c)
    case Yield => YieldTop(s)
    case Register(fd, timeout, now) => RegisterEvent(s, fd, timeout, now)
    case CondWait(c) => WaitOnCond(s, c)
    case Signal(c) => SignalOne(s, c)
    case Broadcast(c) => SignalAll(s, c)
    case Finish => s.(destroy := s.destroy + [Top(s)], stack := Popped(s))
    case EnterLoop => s.(phase := AtPoll)
    case Poll(ready, now) => MergeTimeouts(AddReady(s, ready), now)
    case PopResume => ResumeHead(s)
    case EndDrain => s.(phase := InHook)
    case ClearCo => s.(freed := s.freed + (set c | c in s.destroy), destroy := [], phase := AtPoll)
    case LeaveLoop => s.(phase := Setup)
  }

  /** What a caller of register_event owes: one waiter per descriptor, and a deadline strictly inside
      the wheel's window; timeouts the function refuses must not leave a descriptor behind. */
  predicate SafeRegister(s: State, fd: int, timeout: int, now: nat) {
    || timeout > |s.wheel.slots|
    || ((timeout < -1 || timeout == 0) && (fd < 0 || fd in s.epoll))
    || ((fd < 0 || fd !in s.epoll) &&
        (timeout == -1 ||
         (timeout > 0 && s.wheel.start <= now + timeout < s.wheel.start + |s.wheel.slots|)))
  }

  predicate Allowed(s: State, step: Step) {
    Enabled(s, step) && (step.Register? ==> SafeRegister(s, step.fd, step.timeout, step.now))
  }

  // ----- the invariant

  function Waiting(s: State): set<nat> {
    set i | i in s.items :: s.items[i].co
  }

  function Members(q: seq<nat>): set<nat> {
    set c | c in q
  }

  function Known(s: State): set<nat> {
    Members(s.stack) + s.newborn + s.parked + Members(s.destroy) + s.freed + Waiting(s)
  }

  predicate Numbered(s: State) {
    forall i :: i in s.items ==> i < s.next
  }

  /** Each coroutine is in exactly one place. */
  ghost predicate OnePlace(s: State) {
    && s.stack != [] && s.stack[0] == 0
    && Distinct(s.stack) && Distinct(s.destroy)
    && Members(s.stack) !! s.newborn !! s.parked !! Members(s.destroy) !! s.freed !! Waiting(s)
    && (forall i, j :: i in s.items && j in s.items && i != j ==> s.items[i].co != s.items[j].co)
  }

  ghost predicate KeysDistinct(q: seq<Entry<nat>>) {
    forall i, j :: 0 <= i < j < |q| ==> q[i].key != q[j].key
  }

  /** Among equal deadlines the item created first comes first. */
  ghost predicate TiesAscending(q: seq<Entry<nat>>) {
    forall i, j :: 0 <= i < j < |q| && q[i].deadline == q[j].deadline ==> q[i].key < q[j].key
  }

  /** The wheel holds timed items only, each once, under its own deadline, ties in order of creation. */
  ghost predicate WheelHolds(s: State) {
    && Exact(s.wheel)
    && KeysDistinct(Flat(s.wheel)) && TiesAscending(Flat(s.wheel))
    && (forall e :: e in Flat(s.wheel) ==>
          && e.key in s.items && e.key !in s.active
          && s.items[e.key].wait.OnEvent? && s.items[e.key].wait.deadline == e.deadline > 0)
  }

  /** Items are numbered as they are created, so an ascending deque is in the order of waiting. */
  predicate Ascending(q: seq<nat>) {
    forall i, j :: 0 <= i < j < |q| ==> q[i] < q[j]
  }

  ghost predicate DequesHold(s: State) {
    forall c :: c in s.conds ==>
      && Ascending(s.conds[c])
      && forall i :: i in s.conds[c] ==> i in s.items && s.items[i].wait == OnCond(c) && i !in s.active
  }

  ghost predicate ActiveHolds(s: State) {
    && Distinct(s.active)
    && (forall i :: i in s.active ==> i in s.items)
    && (forall i :: i in s.active && s.items[i].wait.OnEvent? ==> s.phase == Draining)
    && (forall i :: i in s.timedOut ==> i in s.active && s.items[i].wait.OnEvent? && s.items[i].wait.deadline > 0)
  }

  /** Where item i must be found if it is not yet active: no wait is forgotten. */
  ghost predicate Parked(s: State, i: nat)
    requires i in s.items && 0 < |s.wheel.slots|
  {
    match s.items[i].wait
    case OnCond(c) => c in s.conds && i in s.conds[c]
    case OnEvent(fd, d) => d > 0 ==> Entry(i, d) in Flat(s.wheel)
  }

  ghost predicate NoneForgotten(s: State)
    requires 0 < |s.wheel.slots|
  {
    forall i :: i in s.items && i !in s.active ==> Parked(s, i)
  }

  /** epoll knows exactly the items that wait on a descriptor. */
  ghost predicate EpollHolds(s: State) {
    && (forall fd :: fd in s.epoll ==>
          && fd > -1 && s.epoll[fd] in s.items
          && s.items[s.epoll[fd]].wait.OnEvent? && s.items[s.epoll[fd]].wait.fd == fd)
    && (forall i :: i in s.items && s.items[i].wait.OnEvent? && s.items[i].wait.fd > -1 ==>
          s.items[i].wait.fd in s.epoll && s.epoll[s.items[i].wait.fd] == i)
  }

  /** Every item ever created is still waiting or was resumed exactly once. */
  ghost predicate History(s: State) {
    && Distinct(s.wakes)
    && (forall i :: i in s.items ==> i < s.next && i !in s.wakes)
    && (forall i :: i in s.wakes ==> i < s.next && i in s.flags)
    && (forall i :: 0 <= i < s.next ==> i in s.items || i in s.wakes)
    && (forall i :: i in s.flags ==> i in s.wakes)
  }

  /** The lists, epoll and the history fit together. */
  ghost predicate ListsHold(s: State) {
    && WheelHolds(s) && DequesHold(s) && ActiveHolds(s)
    && NoneForgotten(s) && EpollHolds(s) && History(s)
  }

  ghost predicate Inv(s: State) {
    OnePlace(s) && ListsHold(s)
  }
}
