/** A channel inside the scheduler: what its two condition deques and the active list look like to it,
    and what every step of the scheduler does to that view. */
module ChannelSteps {
  import opened Sequences
  import opened ChannelModel
  import opened DeadlineQueue
  import WM = WheelModel
  import R = Runtime
  import RI = RuntimeInvariant
  import RT = RuntimeTheorems

  /** Always true. Definitions behind it stay folded unless a proof says `assert Seen(0)`. */
  predicate Seen(k: nat) {
    true
  }

  /** The scheduler is sound. */
  ghost predicate Kept(s: R.State) {
    forall k {:trigger Seen(k)} :: Seen(k) ==> R.Inv(s)
  }

  /** The variables of a channel. Its conditions are known to the scheduler by number; `frames` is what
      the stacks of its suspended coroutines hold: which call each of them is in the middle of. */
  datatype Vars<T> = Vars(
    cap: int,
    size: int,
    closed: bool,
    queue: seq<T>,
    empty: nat,
    full: nat,
    frames: map<nat, Waiter<T>>,
    accepted: seq<T>,
    delivered: seq<T>)

  /** What an item is to the channel. */
  function Label<T>(items: map<nat, R.Item>, frames: map<nat, Waiter<T>>, i: nat): Waiter<T> {
    if i in items && items[i].co in frames then frames[items[i].co] else Other(i)
  }

  function Labels<T>(items: map<nat, R.Item>, frames: map<nat, Waiter<T>>, q: seq<nat>): (ws: seq<Waiter<T>>)
    ensures |ws| == |q| && forall k :: 0 <= k < |q| ==> ws[k] == Label(items, frames, q[k])
  {
    seq(|q|, k requires 0 <= k < |q| => Label(items, frames, q[k]))
  }

  /** The channel as its own model sees it. */
  function View<T>(v: Vars<T>, s: R.State): Chan<T> {
    Chan(v.cap, v.size, v.closed, v.queue, Labels(s.items, v.frames, R.Deque(s, v.empty)),
         Labels(s.items, v.frames, R.Deque(s, v.full)), Labels(s.items, v.frames, s.active), v.accepted, v.delivered)
  }

  /** The item of a coroutine inside the channel waits on the condition of its call. */
  predicate Belongs<T>(v: Vars<T>, it: R.Item)
    requires it.co in v.frames
  {
    match v.frames[it.co]
    case Getter(co) => co == it.co && it.wait == R.OnCond(v.empty)
    case Putter(co, _) => co == it.co && it.wait == R.OnCond(v.full)
    case Other(_) => false
  }

  ghost predicate Fits<T>(v: Vars<T>, s: R.State) {
    && v.empty != v.full
    && (forall i :: i in s.items && s.items[i].co in v.frames ==> Belongs(v, s.items[i]))
    && (forall co :: co in v.frames ==> co in R.Waiting(s))
  }

  lemma LabelsSame<T>(items: map<nat, R.Item>, frames: map<nat, Waiter<T>>,
                      items': map<nat, R.Item>, frames': map<nat, Waiter<T>>, q: seq<nat>)
    requires forall i :: i in q ==> Label(items', frames', i) == Label(items, frames, i)
    ensures Labels(items', frames', q) == Labels(items, frames, q)
  {
    forall k | 0 <= k < |q| ensures Labels(items', frames', q)[k] == Labels(items, frames, q)[k] {
      assert q[k] in q;
    }
  }

  lemma LabelsConcat<T>(items: map<nat, R.Item>, frames: map<nat, Waiter<T>>, a: seq<nat>, b: seq<nat>)
    ensures Labels(items, frames, a + b) == Labels(items, frames, a) + Labels(items, frames, b)
  {
  }

  lemma LabelsTail<T>(items: map<nat, R.Item>, frames: map<nat, Waiter<T>>, a: seq<nat>)
    requires a != []
    ensures Labels(items, frames, a[1..]) == Labels(items, frames, a)[1..]
    ensures Labels(items, frames, [a[0]]) == [Labels(items, frames, a)[0]]
  {
  }

  /** Whatever a list of the scheduler holds is an item, and no coroutine has two. */
  ghost predicate Listed(s: R.State) {
    && (forall i :: i in s.active ==> i in s.items)
    && (forall c, i :: i in R.Deque(s, c) ==> i in s.items && s.items[i].wait == R.OnCond(c) && i !in s.active)
    && (forall i, j :: i in s.items && j in s.items && i != j ==> s.items[i].co != s.items[j].co)
    && Distinct(s.active)
  }

  lemma ListedAreItems(s: R.State)
    requires R.Inv(s)
    ensures Listed(s)
  {
    forall c, i | i in R.Deque(s, c) ensures i in s.items && s.items[i].wait == R.OnCond(c) && i !in s.active {
      assert i in s.conds[c];
    }
  }

  // ----- the channel's own steps

  /** A call that begins to wait. */
  lemma WaitSeen<T>(v: Vars<T>, s: R.State, c: nat, w: Waiter<T>)
    requires R.Inv(s) && |s.stack| > 1 && Fits(v, s)
    requires (c == v.empty && w == Getter(R.Top(s))) || (c == v.full && w.Putter? && w.id == R.Top(s))
    ensures var v', s' := v.(frames := v.frames[R.Top(s) := w]), R.WaitOnCond(s, c);
            && Fits(v', s')
            && View(v', s') == if c == v.empty then View(v, s).(empty := View(v, s).empty + [w])
                               else View(v, s).(full := View(v, s).full + [w])
  {
    RunningIsNotWaiting(s);
    ListedAreItems(s);
    NextIsNew(s);
    WaitLabels(v, s, c, w);
    WaitFits(v, s, c, w);
  }

  lemma WaitFits<T>(v: Vars<T>, s: R.State, c: nat, w: Waiter<T>)
    requires Fits(v, s) && s.stack != []
    requires s.next !in s.items && forall i :: i in s.items ==> s.items[i].co != R.Top(s)
    requires (c == v.empty && w == Getter(R.Top(s))) || (c == v.full && w.Putter? && w.id == R.Top(s))
    ensures Fits(v.(frames := v.frames[R.Top(s) := w]), R.WaitOnCond(s, c))
  {
    WaitingGrows(s, R.OnCond(c));
    assert R.Waiting(R.WaitOnCond(s, c)) == R.Waiting(R.WaitOn(s, R.OnCond(c)));
  }

  lemma WaitLabels<T>(v: Vars<T>, s: R.State, c: nat, w: Waiter<T>)
    requires Listed(s) && s.stack != [] && v.empty != v.full && (c == v.empty || c == v.full)
    requires s.next !in s.items && forall i :: i in s.items ==> s.items[i].co != R.Top(s)
    ensures var v', s' := v.(frames := v.frames[R.Top(s) := w]), R.WaitOnCond(s, c);
            View(v', s') == if c == v.empty then View(v, s).(empty := View(v, s).empty + [w])
                            else View(v, s).(full := View(v, s).full + [w])
  {
    var v', s' := v.(frames := v.frames[R.Top(s) := w]), R.WaitOnCond(s, c);
    WaitKeepsLabels(v, s, c, w);
    LabelsConcat(s'.items, v'.frames, R.Deque(s, c), [s.next]);
    assert Labels(s'.items, v'.frames, [s.next]) == [w];
  }

  lemma WaitKeepsLabels<T>(v: Vars<T>, s: R.State, c: nat, w: Waiter<T>)
    requires Listed(s) && s.stack != []
    requires s.next !in s.items && forall i :: i in s.items ==> s.items[i].co != R.Top(s)
    ensures var items', frames' := R.WaitOnCond(s, c).items, v.frames[R.Top(s) := w];
            && Labels(items', frames', s.active) == Labels(s.items, v.frames, s.active)
            && forall d :: Labels(items', frames', R.Deque(s, d)) == Labels(s.items, v.frames, R.Deque(s, d))
  {
    var items', frames' := R.WaitOnCond(s, c).items, v.frames[R.Top(s) := w];
    LabelsSame(s.items, v.frames, items', frames', s.active);
    forall d ensures Labels(items', frames', R.Deque(s, d)) == Labels(s.items, v.frames, R.Deque(s, d)) {
      LabelsSame(s.items, v.frames, items', frames', R.Deque(s, d));
    }
  }

  lemma WaitingGrows(s: R.State, w: R.Wait)
    requires s.stack != [] && s.next !in s.items
    ensures var s' := R.WaitOn(s, w); R.Top(s) in R.Waiting(s') && R.Waiting(s) <= R.Waiting(s')
  {
    var s' := R.WaitOn(s, w);
    assert s'.items[s.next].co == R.Top(s);
    forall co | co in R.Waiting(s) ensures co in R.Waiting(s') {
      var i :| i in s.items && s.items[i].co == co;
      assert s'.items[i].co == co;
    }
  }

  lemma RunningIsNotWaiting(s: R.State)
    requires R.OnePlace(s)
    ensures R.Top(s) !in R.Waiting(s)
    ensures forall i :: i in s.items ==> s.items[i].co != R.Top(s)
  {
    assert R.Top(s) in R.Members(s.stack);
    forall i | i in s.items ensures s.items[i].co != R.Top(s) {
      assert s.items[i].co in R.Waiting(s);
    }
  }

  /** A signal on one of the channel's conditions. */
  lemma SignalSeen<T>(v: Vars<T>, s: R.State)
    requires Fits(v, s)
    ensures Fits(v, R.SignalOne(s, v.empty)) && View(v, R.SignalOne(s, v.empty)) == SignalEmpty(View(v, s))
    ensures Fits(v, R.SignalOne(s, v.full)) && View(v, R.SignalOne(s, v.full)) == SignalFull(View(v, s))
  {
    if R.Deque(s, v.empty) != [] {
      SignalLabels(v, s, v.empty);
    }
    if R.Deque(s, v.full) != [] {
      SignalLabels(v, s, v.full);
    }
    assert R.Waiting(R.SignalOne(s, v.empty)) == R.Waiting(s) == R.Waiting(R.SignalOne(s, v.full));
  }

  lemma SignalLabels<T>(v: Vars<T>, s: R.State, c: nat)
    requires R.Deque(s, c) != []
    ensures var q := R.Deque(s, c);
            && Labels(s.items, v.frames, s.active + [q[0]]) ==
               Labels(s.items, v.frames, s.active) + [Labels(s.items, v.frames, q)[0]]
            && Labels(s.items, v.frames, q[1..]) == Labels(s.items, v.frames, q)[1..]
  {
    LabelsTail(s.items, v.frames, R.Deque(s, c));
    LabelsConcat(s.items, v.frames, s.active, [R.Deque(s, c)[0]]);
  }

  /** Both broadcasts of close. */
  lemma CloseSeen<T>(v: Vars<T>, s: R.State)
    requires Fits(v, s)
    ensures var v', s' := v.(closed := true), R.SignalAll(R.SignalAll(s, v.full), v.empty);
            Fits(v', s') && View(v', s') == CloseStep(View(v, s))
  {
    var s' := R.SignalAll(R.SignalAll(s, v.full), v.empty);
    assert R.Waiting(s') == R.Waiting(s);
    LabelsConcat(s.items, v.frames, s.active, R.Deque(s, v.full));
    LabelsConcat(s.items, v.frames, s.active + R.Deque(s, v.full), R.Deque(s, v.empty));
  }

  /** The head of the active list is a call of the channel and is resumed. */
  lemma PopSeen<T>(v: Vars<T>, s: R.State)
    requires R.Inv(s) && Fits(v, s) && s.active != [] && s.items[s.active[0]].co in v.frames
    ensures var co := s.items[s.active[0]].co;
            var v', s' := v.(frames := v.frames - {co}), R.ResumeHead(s);
            && Fits(v', s') && View(v, s).active[0] == v.frames[co] && v.frames[co].id == co
            && !v.frames[co].Other? && View(v', s') == View(v, s).(active := View(v, s).active[1..])
  {
    var i := s.active[0];
    ListedAreItems(s);
    assert Belongs(v, s.items[i]);
    PopLabels(v, s);
    RI.WaitingWithout(s, i);
    assert R.Waiting(R.ResumeHead(s)) == R.Waiting(s.(items := s.items - {i}));
  }

  lemma PopLabels<T>(v: Vars<T>, s: R.State)
    requires Listed(s) && s.active != [] && s.items[s.active[0]].co in v.frames
    ensures var co := s.items[s.active[0]].co;
            var v', s' := v.(frames := v.frames - {co}), R.ResumeHead(s);
            View(v, s).active[0] == v.frames[co] && View(v', s') == View(v, s).(active := View(v, s).active[1..])
  {
    var v', s' := v.(frames := v.frames - {s.items[s.active[0]].co}), R.ResumeHead(s);
    DistinctTail(s.active);
    LabelsSame(s.items, v.frames, s'.items, v'.frames, R.Deque(s, v.empty));
    LabelsSame(s.items, v.frames, s'.items, v'.frames, R.Deque(s, v.full));
    LabelsSame(s.items, v.frames, s'.items, v'.frames, s.active[1..]);
    LabelsTail(s.items, v.frames, s.active);
  }

  // ----- everybody else's steps

  /** Steps that are not the channel's: other conditions, other items. */
  predicate Foreign<T>(v: Vars<T>, s: R.State, step: R.Step) {
    match step
    case CondWait(c) => c != v.empty && c != v.full
    case Signal(c) => c != v.empty && c != v.full
    case Broadcast(c) => c != v.empty && c != v.full
    case PopResume => s.active != [] && s.active[0] in s.items && s.items[s.active[0]].co !in v.frames
    case _ => true
  }

  /** Others come to the end of the active list, or one of them leaves its head. */
  predicate OthersMove<T(==)>(a: seq<Waiter<T>>, a': seq<Waiter<T>>) {
    || (a <= a' && forall k :: |a| <= k < |a'| ==> a'[k].Other?)
    || (a != [] && a[0].Other? && a' == a[1..])
  }

  /** The view changes at most by others that move. */
  ghost predicate Undisturbed<T>(v: Vars<T>, s: R.State, s': R.State) {
    && Fits(v, s') && OthersMove(View(v, s).active, View(v, s').active)
    && View(v, s') == View(v, s).(active := View(v, s').active)
  }

  lemma AppendSeen<T>(v: Vars<T>, s: R.State, s': R.State, extra: seq<nat>)
    requires Fits(v, s) && s'.items == s.items && s'.active == s.active + extra
    requires R.Deque(s', v.empty) == R.Deque(s, v.empty) && R.Deque(s', v.full) == R.Deque(s, v.full)
    requires forall i :: i in extra && i in s.items ==> s.items[i].co !in v.frames
    ensures Undisturbed(v, s, s')
  {
    LabelsConcat(s.items, v.frames, s.active, extra);
    assert R.Waiting(s') == R.Waiting(s);
    forall k | 0 <= k < |extra| ensures Labels(s.items, v.frames, extra)[k].Other? {
      assert extra[k] in extra;
    }
  }

  /** An item whose wait is none of the channel's is none of its own. */
  lemma StrangeWait<T>(v: Vars<T>, s: R.State, i: nat)
    requires Fits(v, s) && i in s.items && s.items[i].wait != R.OnCond(v.empty) && s.items[i].wait != R.OnCond(v.full)
    ensures s.items[i].co !in v.frames
  {
    assert s.items[i].co in v.frames ==> Belongs(v, s.items[i]);
  }

  lemma NewItemSeen<T>(v: Vars<T>, s: R.State, s': R.State, w: R.Wait)
    requires Fits(v, s) && Listed(s) && s.stack != [] && s.next !in s.items
    requires forall i :: i in s.items ==> s.items[i].co != R.Top(s)
    requires R.Top(s) !in R.Waiting(s) && s'.items == R.WaitOn(s, w).items && s'.active == s.active
    requires R.Deque(s', v.empty) == R.Deque(s, v.empty) && R.Deque(s', v.full) == R.Deque(s, v.full)
    ensures Undisturbed(v, s, s')
  {
    WaitingGrows(s, w);
    assert R.Waiting(s') == R.Waiting(R.WaitOn(s, w));
    LabelsSame(s.items, v.frames, s'.items, v.frames, R.Deque(s, v.empty));
    LabelsSame(s.items, v.frames, s'.items, v.frames, R.Deque(s, v.full));
    LabelsSame(s.items, v.frames, s'.items, v.frames, s.active);
  }

  lemma ForeignPopSeen<T>(v: Vars<T>, s: R.State)
    requires R.Inv(s) && Fits(v, s) && Foreign(v, s, R.PopResume)
    ensures Undisturbed(v, s, R.ResumeHead(s))
  {
    var i := s.active[0];
    var s' := R.ResumeHead(s);
    ListedAreItems(s);
    DistinctTail(s.active);
    ForeignPopLabels(v, s);
    RI.WaitingWithout(s, i);
    assert R.Waiting(s') == R.Waiting(s.(items := s.items - {i}));
  }

  lemma ForeignPopLabels<T>(v: Vars<T>, s: R.State)
    requires Listed(s) && Foreign(v, s, R.PopResume)
    ensures var s' := R.ResumeHead(s);
            View(v, s).active[0].Other? && View(v, s') == View(v, s).(active := View(v, s).active[1..])
  {
    var s' := R.ResumeHead(s);
    DistinctTail(s.active);
    LabelsSame(s.items, v.frames, s'.items, v.frames, R.Deque(s, v.empty));
    LabelsSame(s.items, v.frames, s'.items, v.frames, R.Deque(s, v.full));
    LabelsSame(s.items, v.frames, s'.items, v.frames, s.active[1..]);
    LabelsTail(s.items, v.frames, s.active);
  }

  lemma ForeignWakeSeen<T>(v: Vars<T>, s: R.State, step: R.Step)
    requires R.Inv(s) && Fits(v, s) && Foreign(v, s, step) && R.Enabled(s, step) && (step.Signal? || step.Broadcast?)
    ensures Undisturbed(v, s, R.Apply(s, step))
  {
    var q := R.Deque(s, step.cond);
    ListedAreItems(s);
    forall i | i in q ensures s.items[i].co !in v.frames {
      StrangeWait(v, s, i);
    }
    var extra := if step.Broadcast? then q else if q == [] then [] else [q[0]];
    AppendSeen(v, s, R.Apply(s, step), extra);
  }

  lemma ForeignPollSeen<T>(v: Vars<T>, s: R.State, ready: seq<nat>, now: nat)
    requires R.Inv(s) && Fits(v, s) && R.Enabled(s, R.Poll(ready, now))
    ensures Undisturbed(v, s, R.Apply(s, R.Poll(ready, now)))
  {
    var extra := PolledAreStrange(v, s, ready, now);
    PollEffect(s, ready, now);
    AppendSeen(v, s, R.Apply(s, R.Poll(ready, now)), extra);
  }

  lemma PollEffect(s: R.State, ready: seq<nat>, now: nat)
    requires R.Enabled(s, R.Poll(ready, now))
    ensures var s' := R.Apply(s, R.Poll(ready, now)); s'.items == s.items && s'.conds == s.conds
  {
  }

  lemma PolledAreStrange<T>(v: Vars<T>, s: R.State, ready: seq<nat>, now: nat) returns (extra: seq<nat>)
    requires R.Inv(s) && Fits(v, s) && R.Enabled(s, R.Poll(ready, now))
    ensures R.Apply(s, R.Poll(ready, now)).active == s.active + extra
    ensures forall i :: i in extra && i in s.items ==> s.items[i].co !in v.frames
  {
    var due := PollAppends(s, ready, now);
    extra := ready + R.Keys(due);
    EventsAreStrange(v, s, ready, due, now);
  }

  lemma EventsAreStrange<T>(v: Vars<T>, s: R.State, ready: seq<nat>, due: seq<Entry<nat>>, now: nat)
    requires R.Inv(s) && Fits(v, s) && R.Enabled(s, R.Poll(ready, now))
    requires forall e :: e in due ==> e in WM.Flat(s.wheel)
    ensures forall i :: i in ready + R.Keys(due) && i in s.items ==> s.items[i].co !in v.frames
  {
    forall i | i in ready + R.Keys(due) && i in s.items ensures s.items[i].co !in v.frames {
      PolledIsEvent(s, ready, due, now, i);
      StrangeWait(v, s, i);
    }
  }

  lemma PollAppends(s: R.State, ready: seq<nat>, now: nat) returns (due: seq<Entry<nat>>)
    requires R.Inv(s) && R.Enabled(s, R.Poll(ready, now))
    ensures R.Apply(s, R.Poll(ready, now)).active == s.active + (ready + R.Keys(due))
    ensures forall e :: e in due ==> e in WM.Flat(s.wheel)
  {
    due := WM.AfterTake(WM.RemoveAll(s.wheel, ready), now).1;
    RT.PollOrder(s, ready, now);
    assert s.active + (ready + R.Keys(due)) == s.active + ready + R.Keys(due);
  }

  lemma PolledIsEvent(s: R.State, ready: seq<nat>, due: seq<Entry<nat>>, now: nat, i: nat)
    requires R.Inv(s) && R.Enabled(s, R.Poll(ready, now)) && i in ready + R.Keys(due)
    requires forall e :: e in due ==> e in WM.Flat(s.wheel)
    ensures i in s.items && s.items[i].wait.OnEvent?
  {
    if i in ready {
      assert R.Reported(s, i);
    } else {
      RI.KeysMember(due, i);
    }
  }

  lemma ForeignWaitSeen<T>(v: Vars<T>, s: R.State, c: nat)
    requires R.Inv(s) && Fits(v, s) && |s.stack| > 1 && c != v.empty && c != v.full
    ensures Undisturbed(v, s, R.WaitOnCond(s, c))
  {
    RunningIsNotWaiting(s);
    ListedAreItems(s);
    NextIsNew(s);
    NewItemSeen(v, s, R.WaitOnCond(s, c), R.OnCond(c));
  }

  lemma NextIsNew(s: R.State)
    requires R.Inv(s)
    ensures s.next !in s.items
  {
  }

  lemma ForeignRegisterSeen<T>(v: Vars<T>, s: R.State, fd: int, timeout: int, now: nat)
    requires R.Inv(s) && Fits(v, s) && R.Enabled(s, R.Register(fd, timeout, now))
    ensures Undisturbed(v, s, R.RegisterEvent(s, fd, timeout, now))
  {
    var s' := R.RegisterEvent(s, fd, timeout, now);
    RunningIsNotWaiting(s);
    ListedAreItems(s);
    NextIsNew(s);
    var w := RegisterEffect(s, fd, timeout, now);
    if R.Blocks(s, timeout) {
      NewItemSeen(v, s, s', w);
    } else {
      AppendSeen(v, s, s', []);
    }
  }

  lemma RegisterEffect(s: R.State, fd: int, timeout: int, now: nat) returns (w: R.Wait)
    requires R.Enabled(s, R.Register(fd, timeout, now))
    ensures var s' := R.RegisterEvent(s, fd, timeout, now);
            && s'.conds == s.conds && s'.active == s.active && s.active == s.active + []
            && s'.items == if R.Blocks(s, timeout) then R.WaitOn(s, w).items else s.items
  {
    w := R.OnEvent(fd, if timeout > 0 then now + timeout else 0);
  }

  /** No step of anybody else disturbs the channel: to it, others come to the active list and go. */
  lemma ForeignSeen<T>(v: Vars<T>, s: R.State, step: R.Step)
    requires R.Inv(s) && Fits(v, s) && Foreign(v, s, step) && R.Enabled(s, step)
    ensures Undisturbed(v, s, R.Apply(s, step))
  {
    match step
    case CondWait(c) => ForeignWaitSeen(v, s, c);
    case Register(fd, timeout, now) => ForeignRegisterSeen(v, s, fd, timeout, now);
    case Signal(_) => ForeignWakeSeen(v, s, step);
    case Broadcast(_) => ForeignWakeSeen(v, s, step);
    case Poll(ready, now) => ForeignPollSeen(v, s, ready, now);
    case PopResume => ForeignPopSeen(v, s);
    case _ => AppendSeen(v, s, R.Apply(s, step), []);
  }

  /** Such a move is a run of the channel's model, so what holds over its runs holds across them. */
  lemma {:induction false} OthersMoveIsRun<T>(c: Chan<T>, a: seq<Waiter<T>>) returns (ops: seq<Op<T>>)
    requires c.size == |c.queue| && OthersMove(c.active, a)
    ensures Runs(c, ops) && RunTo(c, ops) == c.(active := a)
    decreases |a|
  {
    if a == c.active {
      ops := [];
    } else if c.active <= a && |a| > |c.active| && a[|c.active|].Other? {
      var c' := c.(active := c.active + [a[|c.active|]]);
      var rest := OthersMoveOn(c', a);
      ops := [OtherSignal(a[|c.active|].id)] + rest;
      assert ops[1..] == rest;
    } else {
      ops := [ResumeHead];
      assert ops[1..] == [];
      assert Runs(c.(active := a), []);
    }
  }

  lemma {:induction false} OthersMoveOn<T>(c: Chan<T>, a: seq<Waiter<T>>) returns (ops: seq<Op<T>>)
    requires c.size == |c.queue| && c.active <= a && forall k :: |c.active| <= k < |a| ==> a[k].Other?
    ensures Runs(c, ops) && RunTo(c, ops) == c.(active := a)
    decreases |a| - |c.active|
  {
    if |a| == |c.active| {
      ops := [];
    } else {
      var w := a[|c.active|];
      var rest := OthersMoveOn(c.(active := c.active + [w]), a);
      ops := [OtherSignal(w.id)] + rest;
      assert ops[1..] == rest;
    }
  }

  // ----- put, get and close as steps of the scheduler

  /** put by the running coroutine, from its start or its resumption to its return or its next wait. */
  function PutMove<T>(v: Vars<T>, s: R.State, x: T): (r: (Vars<T>, R.State, Outcome<T>))
    requires s.stack != []
  {
    if v.closed then (v, s, Refused)
    else if v.size == v.cap then
      (v.(frames := v.frames[R.Top(s) := Putter(R.Top(s), x)]), R.WaitOnCond(s, v.full), Waits)
    else
      (v.(queue := v.queue + [x], size := v.size + 1, accepted := v.accepted + [x]), R.SignalOne(s, v.empty), Accepted)
  }

  function GetMove<T>(v: Vars<T>, s: R.State): (r: (Vars<T>, R.State, Outcome<T>))
    requires s.stack != [] && v.size == |v.queue|
  {
    if v.closed then (v, s, Refused)
    else if v.size == 0 then
      (v.(frames := v.frames[R.Top(s) := Getter(R.Top(s))]), R.WaitOnCond(s, v.empty), Waits)
    else
      var x := v.queue[0];
      (v.(queue := v.queue[1..], size := v.size - 1, delivered := v.delivered + [x]), R.SignalOne(s, v.full),
       Delivered(x))
  }

  function CloseMove<T>(v: Vars<T>, s: R.State): (r: (Vars<T>, R.State)) {
    (v.(closed := true), R.SignalAll(R.SignalAll(s, v.full), v.empty))
  }

  /** The head of the active list is a coroutine inside the channel: the event loop resumes it, and its
      call goes on. */
  predicate HeadInside<T>(v: Vars<T>, s: R.State) {
    s.active != [] && s.active[0] in s.items && s.items[s.active[0]].co in v.frames
  }

  function ResumeMove<T>(v: Vars<T>, s: R.State): (r: (Vars<T>, R.State, Outcome<T>))
    requires HeadInside(v, s) && v.size == |v.queue|
  {
    var co := s.items[s.active[0]].co;
    var v1, s1 := v.(frames := v.frames - {co}), R.ResumeHead(s);
    GoOnMove(v.frames[co], v1, s1)
  }

  /** The interrupted call of the running coroutine goes on. */
  function GoOnMove<T>(w: Waiter<T>, v: Vars<T>, s: R.State): (r: (Vars<T>, R.State, Outcome<T>))
    requires s.stack != [] && v.size == |v.queue|
  {
    match w
    case Getter(_) => GetMove(v, s)
    case Putter(_, x) => PutMove(v, s, x)
    case Other(_) => (v, s, Elsewhere)
  }

  lemma PutSeen<T>(v: Vars<T>, s: R.State, x: T)
    requires R.Inv(s) && Fits(v, s) && (!v.closed && v.size == v.cap ==> |s.stack| > 1)
    ensures var (v', s', o) := PutMove(v, s, x);
            Fits(v', s') && (View(v', s'), o) == PutStep(View(v, s), R.Top(s), x)
  {
    if !v.closed {
      if v.size == v.cap {
        WaitSeen(v, s, v.full, Putter(R.Top(s), x));
      } else {
        PutAccepted(v, s, x);
      }
    }
  }

  lemma PutAccepted<T>(v: Vars<T>, s: R.State, x: T)
    requires Fits(v, s) && s.stack != [] && !v.closed && v.size != v.cap
    ensures var (v', s', o) := PutMove(v, s, x);
            Fits(v', s') && (View(v', s'), o) == PutStep(View(v, s), R.Top(s), x)
  {
    var v' := v.(queue := v.queue + [x], size := v.size + 1, accepted := v.accepted + [x]);
    assert Fits(v', s);
    SignalSeen(v', s);
  }

  lemma GetSeen<T>(v: Vars<T>, s: R.State)
    requires R.Inv(s) && Fits(v, s) && v.size == |v.queue| && (!v.closed && v.size == 0 ==> |s.stack| > 1)
    ensures var (v', s', o) := GetMove(v, s);
            Fits(v', s') && (View(v', s'), o) == GetStep(View(v, s), R.Top(s))
  {
    if !v.closed {
      if v.size == 0 {
        WaitSeen(v, s, v.empty, Getter(R.Top(s)));
      } else {
        GetDelivered(v, s);
      }
    }
  }

  lemma GetDelivered<T>(v: Vars<T>, s: R.State)
    requires Fits(v, s) && s.stack != [] && !v.closed && v.size == |v.queue| != 0
    ensures var (v', s', o) := GetMove(v, s);
            Fits(v', s') && (View(v', s'), o) == GetStep(View(v, s), R.Top(s))
  {
    var v' := v.(queue := v.queue[1..], size := v.size - 1, delivered := v.delivered + [v.queue[0]]);
    assert Fits(v', s);
    SignalSeen(v', s);
  }

  lemma ResumeSeen<T>(v: Vars<T>, s: R.State)
    requires R.Inv(s) && R.Enabled(s, R.PopResume) && Fits(v, s) && v.size == |v.queue| && HeadInside(v, s)
    ensures !View(v, s).active[0].Other?
    ensures var (v', s', o) := ResumeMove(v, s);
            Fits(v', s') && (View(v', s'), o) == ResumeStep(View(v, s))
  {
    var co := s.items[s.active[0]].co;
    PopSeen(v, s);
    HeadKept(s);
    ResumedGoesOn(v, s, v.frames[co], v.(frames := v.frames - {co}), R.ResumeHead(s));
  }

  lemma ResumedGoesOn<T>(v: Vars<T>, s: R.State, w: Waiter<T>, v1: Vars<T>, s1: R.State)
    requires Kept(s1) && Fits(v1, s1) && v1.size == |v1.queue| && |s1.stack| > 1 && !w.Other? && w.id == R.Top(s1)
    requires v.size == |v.queue| && s.active != [] && View(v, s).active[0] == w
    requires View(v1, s1) == View(v, s).(active := View(v, s).active[1..])
    ensures var (v', s', o) := GoOnMove(w, v1, s1);
            Fits(v', s') && (View(v', s'), o) == ResumeStep(View(v, s))
  {
    assert Seen(0);
    GoOnSeen(w, v1, s1);
  }

  lemma HeadKept(s: R.State)
    requires R.Inv(s) && R.Enabled(s, R.PopResume)
    ensures Kept(R.ResumeHead(s))
  {
    RI.ResumeHeadKeeps(s);
  }

  lemma GoOnSeen<T>(w: Waiter<T>, v: Vars<T>, s: R.State)
    requires R.Inv(s) && Fits(v, s) && v.size == |v.queue| && |s.stack| > 1 && !w.Other? && w.id == R.Top(s)
    ensures var (v', s', o) := GoOnMove(w, v, s);
            && Fits(v', s')
            && (View(v', s'), o) == match w
                                    case Getter(id) => GetStep(View(v, s), id)
                                    case Putter(id, x) => PutStep(View(v, s), id, x)
  {
    match w
    case Getter(_) => GetSeen(v, s);
    case Putter(_, x) => PutSeen(v, s, x);
  }

  lemma HeadIsCall<T>(v: Vars<T>, s: R.State)
    requires Sound(v, s) && HeadInside(v, s)
    ensures !v.frames[s.items[s.active[0]].co].Other? && |R.ResumeHead(s).stack| > 1
  {
    assert Seen(0);
    assert Belongs(v, s.items[s.active[0]]);
  }

  /** After its call a resumed coroutine is off the stack if it waits again, and on top of it otherwise. */
  lemma ResumeStack<T>(v: Vars<T>, s: R.State)
    requires HeadInside(v, s) && v.size == |v.queue| && R.LoopTurn(s, R.Draining)
    requires !v.frames[s.items[s.active[0]].co].Other?
    ensures var (v', s', o) := ResumeMove(v, s);
            if o.Waits? then R.LoopTurn(s', R.Draining) else |s'.stack| == 2 && s'.phase == R.Draining
  {
  }

  /** The resumed coroutine finishes its function: nothing changes for the channel. */
  lemma FinishSeen<T>(v: Vars<T>, s: R.State)
    requires Sound(v, s) && |s.stack| > 1
    ensures var t := R.Apply(s, R.Finish);
            Sound(v, t) && View(v, t) == View(v, s) && t.phase == s.phase && |t.stack| == |s.stack| - 1
  {
    assert Seen(0);
    var t := R.Apply(s, R.Finish);
    RI.StepKeeps(s, R.Finish);
    assert R.Waiting(t) == R.Waiting(s);
  }

  /** The drain that began at c0 has come to c. */
  ghost predicate OnCourse<T>(c0: Chan<T>, c: Chan<T>) {
    forall k {:trigger Seen(k)} :: Seen(k) ==> Inv(c0) && Inv(c) && NoOthers(c) && Drain(c) == Drain(c0)
  }

  /** It stays on course and comes closer to the end. */
  ghost predicate Closer<T>(c: Chan<T>, d: Chan<T>) {
    Waiting(d) < Waiting(c) || (Waiting(d) == Waiting(c) && |d.active| < |c.active|)
  }

  /** What a resumption during the drain comes to: closer to the end, and with the call either waiting again
      or on top of the stack. */
  ghost predicate Advanced<T>(c0: Chan<T>, c: Chan<T>, r: (Vars<T>, R.State, Outcome<T>)) {
    && OnCourse(c0, View(r.0, r.1)) && Closer(c, View(r.0, r.1)) && InDrain(r.1, r.2)
  }

  predicate InDrain<T>(s: R.State, o: Outcome<T>) {
    if o.Waits? then R.LoopTurn(s, R.Draining) else |s.stack| == 2 && s.phase == R.Draining
  }

  lemma CourseBegins<T>(v: Vars<T>, s: R.State)
    requires Sound(v, s) && NoOthers(View(v, s))
    ensures OnCourse(View(v, s), View(v, s))
  {
    assert Seen(0);
  }

  lemma CourseEnds<T>(c0: Chan<T>, v: Vars<T>, s: R.State)
    requires OnCourse(c0, View(v, s)) && s.active == [] && c0.cap >= 1
    ensures Inv(c0) && View(v, s) == Drain(c0)
    ensures (R.Deque(s, v.empty) != [] ==> v.size == 0) && (R.Deque(s, v.full) != [] ==> v.size == v.cap)
  {
    assert Seen(0);
    DrainSettles(c0);
    assert View(v, s).active == [];
  }

  /** In an active list without others the head is a coroutine inside the channel, and resuming it is
      progress. */
  lemma ResumeIsProgress<T>(c0: Chan<T>, v: Vars<T>, s: R.State)
    requires Sound(v, s) && OnCourse(c0, View(v, s)) && s.active != [] && R.LoopTurn(s, R.Draining)
    ensures Can(v, s, Resumed)
    ensures Advanced(c0, View(v, s), ResumeMove(v, s))
  {
    assert Seen(0);
    assert View(v, s).active[0] in View(v, s).active;
    HeadIsCall(v, s);
    ResumeSeen(v, s);
    ResumeProgress(View(v, s));
    ResumeStack(v, s);
  }

  // ----- a channel among everything else the scheduler does

  datatype Move<T> = CallPut(x: T) | CallGet | CallClose | Resumed | ByOthers(step: R.Step)

  ghost predicate Sound<T>(v: Vars<T>, s: R.State) {
    forall k {:trigger Seen(k)} :: Seen(k) ==> R.Inv(s) && Fits(v, s) && Inv(View(v, s))
  }

  /** main may call too, as long as it need not wait. */
  predicate Can<T(==)>(v: Vars<T>, s: R.State, m: Move<T>) {
    v.size == |v.queue| &&
    match m
    case CallPut(_) => R.UserTurn(s) && (!v.closed && v.size == v.cap ==> |s.stack| > 1)
    case CallGet => R.UserTurn(s) && (!v.closed && v.size == 0 ==> |s.stack| > 1)
    case CallClose => R.UserTurn(s)
    case Resumed => R.Enabled(s, R.PopResume) && HeadInside(v, s)
    case ByOthers(step) => R.Allowed(s, step) && Foreign(v, s, step)
  }

  function Next<T(==)>(v: Vars<T>, s: R.State, m: Move<T>): (r: (Vars<T>, R.State))
    requires Can(v, s, m)
  {
    match m
    case CallPut(x) => var (v', s', _) := PutMove(v, s, x); (v', s')
    case CallGet => var (v', s', _) := GetMove(v, s); (v', s')
    case CallClose => CloseMove(v, s)
    case Resumed => var (v', s', _) := ResumeMove(v, s); (v', s')
    case ByOthers(step) => (v, R.Apply(s, step))
  }

  /** The steps of the scheduler a call takes keep the scheduler sound. */
  lemma MoveKeepsRuntime<T>(v: Vars<T>, s: R.State, m: Move<T>)
    requires R.Inv(s) && Can(v, s, m)
    ensures R.Inv(Next(v, s, m).1)
  {
    match m
    case CallPut(x) => CallKeepsRuntime(s, v.full, v.empty);
    case CallGet => CallKeepsRuntime(s, v.empty, v.full);
    case CallClose =>
      RI.BroadcastKeeps(s, v.full);
      RI.BroadcastKeeps(R.SignalAll(s, v.full), v.empty);
    case Resumed => ResumeKeepsRuntime(v, s);
    case ByOthers(step) => RI.StepKeeps(s, step);
  }

  lemma ResumeKeepsRuntime<T>(v: Vars<T>, s: R.State)
    requires R.Inv(s) && R.Enabled(s, R.PopResume) && HeadInside(v, s) && v.size == |v.queue|
    ensures R.Inv(ResumeMove(v, s).1)
  {
    RI.ResumeHeadKeeps(s);
    ResumeShape(v, s);
    CallKeepsRuntime(R.ResumeHead(s), v.full, v.empty);
    CallKeepsRuntime(R.ResumeHead(s), v.empty, v.full);
  }

  /** Where a resumed call leaves the scheduler. */
  lemma ResumeShape<T>(v: Vars<T>, s: R.State)
    requires HeadInside(v, s) && v.size == |v.queue| && s.stack != []
    ensures var s1, s' := R.ResumeHead(s), ResumeMove(v, s).1;
            && |s1.stack| > 1
            && s' in {s1, R.WaitOnCond(s1, v.full), R.SignalOne(s1, v.empty), R.WaitOnCond(s1, v.empty),
                      R.SignalOne(s1, v.full)}
  {
  }

  lemma CallKeepsRuntime(s: R.State, c: nat, d: nat)
    requires R.Inv(s)
    ensures |s.stack| > 1 ==> R.Inv(R.WaitOnCond(s, c))
    ensures R.Inv(R.SignalOne(s, d))
  {
    RI.SignalKeeps(s, d);
    if |s.stack| > 1 {
      RI.CondWaitKeeps(s, c);
    }
  }

  lemma MoveKeepsView<T>(v: Vars<T>, s: R.State, m: Move<T>)
    requires Sound(v, s) && Can(v, s, m)
    ensures Fits(Next(v, s, m).0, Next(v, s, m).1) && Inv(View(Next(v, s, m).0, Next(v, s, m).1))
  {
    assert Seen(0);
    match m
    case CallPut(x) =>
      PutSeen(v, s, x);
      PutKeeps(View(v, s), R.Top(s), x);
    case CallGet =>
      GetSeen(v, s);
      GetKeeps(View(v, s), R.Top(s));
    case CallClose =>
      CloseSeen(v, s);
      CloseKeeps(View(v, s));
    case Resumed =>
      ResumeSeen(v, s);
      ResumeKeeps(View(v, s));
    case ByOthers(step) =>
      ForeignSeen(v, s, step);
      OthersKeep(View(v, s), View(v, R.Apply(s, step)).active);
  }

  lemma OthersKeep<T>(c: Chan<T>, a: seq<Waiter<T>>)
    requires Inv(c) && OthersMove(c.active, a)
    ensures Inv(c.(active := a))
  {
    var ops := OthersMoveIsRun(c, a);
    RunKeeps(c, ops);
  }

  /** Every move keeps the scheduler and the channel sound. */
  lemma MoveIsSound<T>(v: Vars<T>, s: R.State, m: Move<T>)
    requires Sound(v, s) && Can(v, s, m)
    ensures Sound(Next(v, s, m).0, Next(v, s, m).1)
  {
    assert Seen(0);
    MoveKeepsRuntime(v, s, m);
    MoveKeepsView(v, s, m);
  }

  ghost predicate Moves<T>(v: Vars<T>, s: R.State, ms: seq<Move<T>>)
    decreases |ms|
  {
    ms == [] || (Can(v, s, ms[0]) && Moves(Next(v, s, ms[0]).0, Next(v, s, ms[0]).1, ms[1..]))
  }

  function After<T(==)>(v: Vars<T>, s: R.State, ms: seq<Move<T>>): (r: (Vars<T>, R.State))
    requires Moves(v, s, ms)
    decreases |ms|
  {
    if ms == [] then (v, s) else After(Next(v, s, ms[0]).0, Next(v, s, ms[0]).1, ms[1..])
  }

  lemma SameChannel<T>(v: Vars<T>, s: R.State, m: Move<T>)
    requires Can(v, s, m)
    ensures var v' := Next(v, s, m).0; v'.cap == v.cap && v'.empty == v.empty && v'.full == v.full
  {
  }

  lemma {:induction false} MovesKeep<T>(v: Vars<T>, s: R.State, ms: seq<Move<T>>)
    requires Sound(v, s) && Moves(v, s, ms)
    ensures Sound(After(v, s, ms).0, After(v, s, ms).1)
    ensures var v' := After(v, s, ms).0; v'.cap == v.cap && v'.empty == v.empty && v'.full == v.full
    decreases |ms|
  {
    assert Seen(0);
    if ms != [] {
      MoveIsSound(v, s, ms[0]);
      SameChannel(v, s, ms[0]);
      MovesKeep(Next(v, s, ms[0]).0, Next(v, s, ms[0]).1, ms[1..]);
    }
  }

  /** A new channel, on two conditions nobody waits on. */
  function NewVars<T>(cap: int, empty: nat, full: nat): Vars<T> {
    Vars(cap, 0, false, [], empty, full, map[], [], [])
  }

  lemma NewIsSound<T>(cap: int, empty: nat, full: nat, s: R.State)
    requires R.Inv(s) && empty != full && R.Deque(s, empty) == [] && R.Deque(s, full) == []
    ensures Sound(NewVars<T>(cap, empty, full), s)
  {
    assert Seen(0);
    var v := NewVars<T>(cap, empty, full);
    assert View(v, s).empty == [] && View(v, s).full == [];
  }

  /** Among everything else the scheduler does, from any sound state on: no value is lost, invented or
      reordered; while a coroutine waits for a value, as many others as there are values have been
      signalled; and once the active list holds none of the channel's coroutines, they wait for values
      only while there are none, and for room only while there is none. */
  lemma ChannelAmongOthers<T>(cap: int, empty: nat, full: nat, s: R.State, ms: seq<Move<T>>)
    requires R.Inv(s) && empty != full && R.Deque(s, empty) == [] && R.Deque(s, full) == []
    requires Moves(NewVars<T>(cap, empty, full), s, ms)
    ensures var (v, t) := After(NewVars<T>(cap, empty, full), s, ms);
            var c := View(v, t);
            && R.Inv(t) && v.accepted == v.delivered + v.queue && v.size == |v.queue|
            && v.cap == cap && (cap >= 0 ==> v.size <= cap)
            && (c.empty != [] ==> Getters(c.active) >= v.size)
            && (c.full != [] ==> Putters(c.active) >= cap - v.size)
            && (Getters(c.active) == 0 && Putters(c.active) == 0 && cap >= 0 ==>
                  (R.Deque(t, empty) != [] ==> v.size == 0) && (R.Deque(t, full) != [] ==> v.size == cap))
  {
    assert Seen(0);
    NewIsSound<T>(cap, empty, full, s);
    MovesKeep(NewVars<T>(cap, empty, full), s, ms);
  }
}
