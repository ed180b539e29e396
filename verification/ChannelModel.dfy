/** The bounded channel over its two condition variables and the shared active list: what one
    uninterrupted stretch of `put`, `get` or `close` does, and what every run of them keeps. */
module ChannelModel {

  /** A coroutine waiting in the channel, or some other entry of the active list. */
  datatype Waiter<T> = Getter(id: nat) | Putter(id: nat, val: T) | Other(id: nat)

  /** What a put or get came to; Elsewhere is for steps that are neither. */
  datatype Outcome<T> = Accepted | Delivered(val: T) | Refused | Waits | Elsewhere

  datatype Chan<T> = Chan(
    cap: int,
    size: int,
    closed: bool,
    queue: seq<T>,
    empty: seq<Waiter<T>>,
    full: seq<Waiter<T>>,
    active: seq<Waiter<T>>,
    // history
    accepted: seq<T>,
    delivered: seq<T>)

  // ----- co_condition

  function SignalEmpty<T>(s: Chan<T>): Chan<T> {
    if s.empty == [] then s else s.(empty := s.empty[1..], active := s.active + [s.empty[0]])
  }

  function SignalFull<T>(s: Chan<T>): Chan<T> {
    if s.full == [] then s else s.(full := s.full[1..], active := s.active + [s.full[0]])
  }

  // ----- put, get, close

  /** `put` from its start, or from its resumption after a wait, to its return or its next wait. */
  function PutStep<T>(s: Chan<T>, id: nat, v: T): (Chan<T>, Outcome<T>) {
    if s.closed then (s, Refused)
    else if s.size == s.cap then (s.(full := s.full + [Putter(id, v)]), Waits)
    else
      (SignalEmpty(s.(queue := s.queue + [v], size := s.size + 1, accepted := s.accepted + [v])), Accepted)
  }

  /** `get` likewise. The queue is only read when `size` says it is not empty. */
  function GetStep<T>(s: Chan<T>, id: nat): (Chan<T>, Outcome<T>)
    requires s.size == |s.queue|
  {
    if s.closed then (s, Refused)
    else if s.size == 0 then (s.(empty := s.empty + [Getter(id)]), Waits)
    else
      var v := s.queue[0];
      (SignalFull(s.(queue := s.queue[1..], size := s.size - 1, delivered := s.delivered + [v])), Delivered(v))
  }

  function CloseStep<T>(s: Chan<T>): Chan<T> {
    s.(closed := true, full := [], empty := [], active := s.active + s.full + s.empty)
  }

  /** Fresh calls, the drain loop resuming the head of the active list, and other activity. */
  datatype Op<T> = Put(id: nat, val: T) | Get(id: nat) | ResumeHead | Close | OtherSignal(id: nat)

  predicate Enabled<T(==)>(s: Chan<T>, op: Op<T>) {
    s.size == |s.queue| && (op.ResumeHead? ==> s.active != [])
  }

  function ResumeStep<T>(s: Chan<T>): (Chan<T>, Outcome<T>)
    requires s.size == |s.queue| && s.active != []
  {
    var s1 := s.(active := s.active[1..]);
    match s.active[0]
    case Getter(id) => GetStep(s1, id)
    case Putter(id, v) => PutStep(s1, id, v)
    case Other(_) => (s1, Elsewhere)
  }

  function Apply<T(==)>(s: Chan<T>, op: Op<T>): (Chan<T>, Outcome<T>)
    requires Enabled(s, op)
  {
    match op
    case Put(id, v) => PutStep(s, id, v)
    case Get(id) => GetStep(s, id)
    case ResumeHead => ResumeStep(s)
    case Close => (CloseStep(s), Elsewhere)
    case OtherSignal(id) => (s.(active := s.active + [Other(id)]), Elsewhere)
  }

  // ----- the invariant

  /** Getters signalled but not yet resumed. */
  function Getters<T>(a: seq<Waiter<T>>): nat {
    if a == [] then 0 else (if a[0].Getter? then 1 else 0) + Getters(a[1..])
  }

  function Putters<T>(a: seq<Waiter<T>>): nat {
    if a == [] then 0 else (if a[0].Putter? then 1 else 0) + Putters(a[1..])
  }

  lemma {:induction false} CountsConcat<T>(a: seq<Waiter<T>>, b: seq<Waiter<T>>)
    ensures Getters(a + b) == Getters(a) + Getters(b)
    ensures Putters(a + b) == Putters(a) + Putters(b)
  {
    if a == [] {
      assert a + b == b;
    } else {
      assert (a + b)[1..] == a[1..] + b;
      CountsConcat(a[1..], b);
    }
  }

  /** No value is lost, invented or reordered, and the size is that of the queue. */
  ghost predicate Conserves<T>(s: Chan<T>) {
    && s.size == |s.queue| && (s.cap >= 0 ==> s.size <= s.cap)
    && s.accepted == s.delivered + s.queue
  }

  /** While a getter waits there are as many signalled getters as values; while a putter waits there
      are as many signalled putters as free places. A closed channel has no waiters. */
  ghost predicate NoLostWakeup<T>(s: Chan<T>) {
    && (forall w :: w in s.empty ==> w.Getter?)
    && (forall w :: w in s.full ==> w.Putter?)
    && (s.closed ==> s.empty == [] && s.full == [])
    && (s.empty != [] ==> Getters(s.active) >= s.size)
    && (s.full != [] ==> Putters(s.active) >= s.cap - s.size)
  }

  ghost predicate Inv<T>(s: Chan<T>) {
    Conserves(s) && NoLostWakeup(s)
  }

  lemma SignalEmptyKeeps<T>(s: Chan<T>)
    requires forall w :: w in s.empty ==> w.Getter?
    requires s.empty != [] ==> Getters(s.active) >= s.size - 1
    ensures var s' := SignalEmpty(s);
            && (forall w :: w in s'.empty ==> w.Getter?)
            && (s.empty != [] ==> Getters(s'.active) >= s'.size)
            && Putters(s'.active) == Putters(s.active)
  {
    if s.empty != [] {
      assert s.empty[0] in s.empty;
      CountsConcat(s.active, [s.empty[0]]);
      assert Getters([s.empty[0]]) == 1 + Getters<T>([]);
      assert Putters([s.empty[0]]) == 0 + Putters<T>([]);
    }
  }

  lemma SignalFullKeeps<T>(s: Chan<T>)
    requires forall w :: w in s.full ==> w.Putter?
    requires s.full != [] ==> Putters(s.active) >= s.cap - s.size - 1
    ensures var s' := SignalFull(s);
            && (forall w :: w in s'.full ==> w.Putter?)
            && (s.full != [] ==> Putters(s'.active) >= s'.cap - s'.size)
            && Getters(s'.active) == Getters(s.active)
  {
    if s.full != [] {
      assert s.full[0] in s.full;
      CountsConcat(s.active, [s.full[0]]);
      assert Putters([s.full[0]]) == 1 + Putters<T>([]);
      assert Getters([s.full[0]]) == 0 + Getters<T>([]);
    }
  }

  /** `put` keeps the invariant, also when the resumed putter has just left the active list: it may
      start with one signalled putter too few. */
  lemma PutKeeps<T>(s: Chan<T>, id: nat, v: T)
    requires Conserves(s)
    requires s.closed ==> NoLostWakeup(s)
    requires (forall w :: w in s.empty ==> w.Getter?) && (forall w :: w in s.full ==> w.Putter?)
    requires s.empty != [] ==> Getters(s.active) >= s.size
    requires s.full != [] ==> Putters(s.active) >= s.cap - s.size - 1
    ensures Inv(PutStep(s, id, v).0)
  {
    if !s.closed && s.size != s.cap {
      var s1 := s.(queue := s.queue + [v], size := s.size + 1, accepted := s.accepted + [v]);
      SignalEmptyKeeps(s1);
    }
  }

  lemma GetKeeps<T>(s: Chan<T>, id: nat)
    requires Conserves(s)
    requires s.closed ==> NoLostWakeup(s)
    requires (forall w :: w in s.empty ==> w.Getter?) && (forall w :: w in s.full ==> w.Putter?)
    requires s.empty != [] ==> Getters(s.active) >= s.size - 1
    requires s.full != [] ==> Putters(s.active) >= s.cap - s.size
    ensures Inv(GetStep(s, id).0)
  {
    if !s.closed && s.size != 0 {
      var v := s.queue[0];
      var s1 := s.(queue := s.queue[1..], size := s.size - 1, delivered := s.delivered + [v]);
      assert s.queue == [v] + s.queue[1..];
      SignalFullKeeps(s1);
    }
  }

  lemma ResumeKeeps<T>(s: Chan<T>)
    requires Inv(s) && s.active != []
    ensures Inv(ResumeStep(s).0)
  {
    var s1 := s.(active := s.active[1..]);
    match s.active[0]
    case Getter(id) => GetKeeps(s1, id);
    case Putter(id, v) => PutKeeps(s1, id, v);
    case Other(_) =>
  }

  lemma CloseKeeps<T>(s: Chan<T>)
    requires Inv(s)
    ensures Inv(CloseStep(s))
  {
  }

  lemma StepKeeps<T>(s: Chan<T>, op: Op<T>)
    requires Inv(s) && Enabled(s, op)
    ensures Inv(Apply(s, op).0)
  {
    match op
    case Put(id, v) => PutKeeps(s, id, v);
    case Get(id) => GetKeeps(s, id);
    case ResumeHead => ResumeKeeps(s);
    case Close => CloseKeeps(s);
    case OtherSignal(id) => CountsConcat(s.active, [Other(id)]);
  }

  // ----- runs

  function Fresh<T>(cap: int): Chan<T> {
    Chan(cap, 0, false, [], [], [], [], [], [])
  }

  ghost predicate Runs<T>(s: Chan<T>, ops: seq<Op<T>>)
    decreases |ops|
  {
    ops == [] || (Enabled(s, ops[0]) && Runs(Apply(s, ops[0]).0, ops[1..]))
  }

  function RunTo<T(==)>(s: Chan<T>, ops: seq<Op<T>>): Chan<T>
    requires Runs(s, ops)
    decreases |ops|
  {
    if ops == [] then s else RunTo(Apply(s, ops[0]).0, ops[1..])
  }

  lemma {:induction false} RunKeeps<T>(s: Chan<T>, ops: seq<Op<T>>)
    requires Inv(s) && Runs(s, ops)
    ensures Inv(RunTo(s, ops)) && RunTo(s, ops).cap == s.cap
    decreases |ops|
  {
    if ops != [] {
      StepKeeps(s, ops[0]);
      RunKeeps(Apply(s, ops[0]).0, ops[1..]);
    }
  }

  /** Over every interleaving of any number of producers and consumers: what was delivered followed
      by what is queued is what was accepted, the queue stays within the capacity, and no wakeup is
      lost: a getter waits only while the signalled getters cover the values, a putter only while the
      signalled putters cover the free places. */
  lemma EveryRun<T>(cap: int, ops: seq<Op<T>>)
    requires Runs(Fresh<T>(cap), ops)
    ensures var s := RunTo(Fresh<T>(cap), ops);
            && s.accepted == s.delivered + s.queue
            && s.size == |s.queue| && (cap >= 0 ==> s.size <= cap)
            && (!s.closed && s.empty != [] ==> Getters(s.active) >= s.size)
            && (!s.closed && s.full != [] ==> Putters(s.active) >= cap - s.size)
  {
    assert Inv(Fresh<T>(cap));
    RunKeeps(Fresh<T>(cap), ops);
  }

  /** Once the active list holds none of the channel's waiters, a getter waits only on an empty queue
      and a putter only on a full one; with room for a value they are never both stuck. */
  lemma NoDeadlock<T>(cap: int, ops: seq<Op<T>>)
    requires Runs(Fresh<T>(cap), ops)
    requires var s := RunTo(Fresh<T>(cap), ops); Getters(s.active) == 0 && Putters(s.active) == 0
    ensures var s := RunTo(Fresh<T>(cap), ops);
            && (s.empty != [] ==> s.size == 0)
            && (s.full != [] ==> s.size == cap)
            && (cap >= 1 ==> s.empty == [] || s.full == [])
  {
    assert Inv(Fresh<T>(cap));
    RunKeeps(Fresh<T>(cap), ops);
    PuttersNeedCapacity(Fresh<T>(cap), ops);
  }

  /** Only a channel of non-negative capacity can be full. */
  lemma {:induction false} PuttersNeedCapacity<T>(s: Chan<T>, ops: seq<Op<T>>)
    requires Inv(s) && Runs(s, ops) && (s.full != [] ==> s.cap >= 0)
    ensures RunTo(s, ops).full != [] ==> s.cap >= 0
    decreases |ops|
  {
    if ops != [] {
      StepKeeps(s, ops[0]);
      PuttersNeedCapacity(Apply(s, ops[0]).0, ops[1..]);
    }
  }

  // ----- close

  /** A put, a get, or the resumption of one. */
  predicate OfChannel<T>(s: Chan<T>, op: Op<T>) {
    op.Put? || op.Get? || (op.ResumeHead? && s.active != [] && !s.active[0].Other?)
  }

  /** After close nothing is accepted or delivered any more, nobody waits, and whoever is resumed or
      calls is refused. */
  lemma {:induction false} CloseIsFinal<T>(s: Chan<T>, ops: seq<Op<T>>)
    requires Inv(s) && s.closed && Runs(s, ops)
    ensures var t := RunTo(s, ops);
            && t.closed && t.accepted == s.accepted && t.delivered == s.delivered
            && t.empty == [] && t.full == []
    ensures forall op: Op<T> :: Enabled(RunTo(s, ops), op) && OfChannel(RunTo(s, ops), op) ==>
              Apply(RunTo(s, ops), op).1 == Refused
    decreases |ops|
  {
    if ops != [] {
      StepKeeps(s, ops[0]);
      CloseIsFinal(Apply(s, ops[0]).0, ops[1..]);
    }
  }

  /** Who is resumed in the next n resumptions, and what each comes to. */
  function Answers<T>(s: Chan<T>, n: nat): seq<(Waiter<T>, Outcome<T>)>
    requires s.size == |s.queue| && n <= |s.active|
    decreases n
  {
    if n == 0 then [] else [(s.active[0], ResumeStep(s).1)] + Answers(ResumeStep(s).0, n - 1)
  }

  lemma {:induction false} ClosedAnswers<T>(s: Chan<T>)
    requires Inv(s) && s.closed
    ensures |Answers(s, |s.active|)| == |s.active|
    ensures forall k :: 0 <= k < |s.active| ==>
              Answers(s, |s.active|)[k] == (s.active[k], if s.active[k].Other? then Elsewhere else Refused)
    decreases |s.active|
  {
    if s.active != [] {
      ResumeKeeps(s);
      ClosedAnswers(ResumeStep(s).0);
    }
  }

  /** After close every coroutine that was waiting, or already signalled, is resumed and refused: first
      those signalled before, then the putters, then the getters, each in the order they waited. */
  lemma CloseWakesAll<T>(s: Chan<T>)
    requires Inv(s)
    ensures var woken, answers := s.active + s.full + s.empty, Answers(CloseStep(s), |s.active + s.full + s.empty|);
            && |answers| == |woken|
            && (forall k :: 0 <= k < |woken| ==> answers[k].0 == woken[k])
            && (forall k :: 0 <= k < |woken| && !woken[k].Other? ==> answers[k].1 == Refused)
            && (forall k :: |s.active| <= k < |woken| ==> !woken[k].Other?)
  {
    CloseKeeps(s);
    ClosedAnswers(CloseStep(s));
    var woken := s.active + s.full + s.empty;
    forall k | |s.active| <= k < |woken| ensures !woken[k].Other? {
      assert woken[k] in s.full || woken[k] in s.empty;
    }
  }

  // ----- draining

  function Waiting<T>(s: Chan<T>): nat {
    |s.empty| + |s.full| + |s.active|
  }

  /** The drain loop when the resumed coroutines do nothing else: it ends, because each resumption
      either finishes an operation or puts its coroutine back to wait. */
  function Drain<T>(s: Chan<T>): Chan<T>
    requires Inv(s)
    decreases Waiting(s), |s.active|
  {
    if s.active == [] then s
    else
      ResumeKeeps(s);
      Drain(ResumeStep(s).0)
  }

  /** From any reachable state the drain reaches a state in which nobody waits in vain. */
  lemma {:induction false} DrainSettles<T>(s: Chan<T>)
    requires Inv(s) && s.cap >= 1
    ensures var t := Drain(s);
            && Inv(t) && t.active == [] && t.cap == s.cap && t.closed == s.closed
            && (t.empty != [] ==> t.size == 0)
            && (t.full != [] ==> t.size == t.cap)
            && (t.empty == [] || t.full == [])
            && s.delivered <= t.delivered && s.accepted <= t.accepted
    decreases Waiting(s), |s.active|
  {
    if s.active != [] {
      ResumeKeeps(s);
      DrainSettles(ResumeStep(s).0);
    }
  }

  /** Every entry of the active list is a waiter of this channel. */
  ghost predicate NoOthers<T>(s: Chan<T>) {
    forall w :: w in s.active ==> !w.Other?
  }

  /** One resumption of the drain: it stays on course and comes closer to the end. */
  lemma ResumeProgress<T>(s: Chan<T>)
    requires Inv(s) && s.active != [] && NoOthers(s)
    ensures var t := ResumeStep(s).0;
            && !s.active[0].Other? && Inv(t) && NoOthers(t) && Drain(t) == Drain(s)
            && (Waiting(t) < Waiting(s) || (Waiting(t) == Waiting(s) && |t.active| < |s.active|))
  {
    ResumeKeeps(s);
    assert s.active[0] in s.active;
    var t := ResumeStep(s).0.active;
    assert s.empty != [] ==> s.empty[0] in s.empty;
    assert s.full != [] ==> s.full[0] in s.full;
    assert t == s.active[1..] || (s.empty != [] && t == s.active[1..] + [s.empty[0]])
           || (s.full != [] && t == s.active[1..] + [s.full[0]]);
  }
}
