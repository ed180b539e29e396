/** Whole runs of the time wheel against the deadline queue. */
module WheelRuns {
  import opened DeadlineQueue
  import opened WheelModel

  datatype Op<K> = Add(e: Entry<K>) | Remove(k: K) | Take(now: nat)

  /** The deadline queue with the window its admissions are judged by. */
  datatype Queue<K> = Queue(start: nat, span: nat, pending: seq<Entry<K>>)

  /** The gaps, in seconds mode, whose 32-bit value makes the count 0, so that the cursor steps back. */
  predicate StepsBack(gap: nat) {
    TWO32 - 1999 <= gap % TWO32 <= TWO32 - 1000
  }

  lemma StepsBackCount(gap: nat, n: nat)
    requires n > 0
    ensures StepsBack(gap) <==> Count(gap, n, false) == 0
    ensures Count(gap, n, false) > 0 ==> 1000 * (Count(gap, n, false) - 1) <= gap
  {
    var m := gap % TWO32;
    assert ToInt32(gap) == (if m < TWO31 then m else m - TWO32) <= gap;
  }

  /** When a take after this gap does its work: in millisecond mode the count must reach; in seconds
      mode a cursor that steps back must not bring a slot of the future under it, nor leave 0 for the end
      of the 64-bit range unless the wheel size divides it. */
  predicate GoodGap(gap: nat, n: nat, ms: bool, index: nat)
    requires n > 0
  {
    if ms then CountReaches(gap, n)
    else StepsBack(gap) ==> 1000 * (n - 1) <= gap && (index > 0 || EvenlyWraps(n))
  }

  /** The operations a caller may issue: times the clock can show, no deadline exactly one wheel size
      ahead, and good gaps between takes. Late and far deadlines and a clock that goes backwards are
      allowed. */
  ghost predicate Legal<K>(w: Wheel<K>, op: Op<K>)
    requires w.start < TWO63 && |w.slots| > 0
  {
    match op
    case Add(e) => e.deadline < TWO63 && Diff(w.start, w.ms, e.deadline) != |w.slots|
    case Remove(_) => true
    case Take(now) =>
      now < TWO63 && (w.start <= now ==> GoodGap(now - w.start, |w.slots|, w.ms, w.index))
  }

  lemma TakeRanged<K>(w: Wheel<K>, now: nat)
    requires Ranged(w) && Legal(w, Take(now))
    ensures Ranged(AfterTake(w, now).0)
  {
    if w.start <= now {
      var n, gap := |w.slots|, now - w.start;
      var c := Count(gap, n, w.ms);
      if w.ms { ReachingCount(gap, n); } else { StepsBackCount(gap, n); }
      if c > 0 {
        TakeUnfolds(w, now, c);
      } else if c == 0 {
        TakeStepsBack(w, now);
      }
    }
  }

  /** A count of 0 takes nothing but moves the cursor one slot back. */
  lemma TakeStepsBack<K>(w: Wheel<K>, now: nat)
    requires Ranged(w) && w.start <= now < TWO63 && Count(now - w.start, |w.slots|, w.ms) == 0
    ensures AfterTake(w, now) == (w.(start := now, index := Moved(w.index, 0)), [])
    ensures w.index > 0 || EvenlyWraps(|w.slots|) ==>
              var rot, n := Rotated(AfterTake(w, now).0), |w.slots|;
              && Ranged(AfterTake(w, now).0)
              && forall r :: 0 <= r < n ==> rot[r] == Rotated(w)[if r == 0 then n - 1 else r - 1]
  {
    var n := |w.slots|;
    if w.index > 0 || EvenlyWraps(n) {
      forall r | 0 <= r < n
        ensures Rotated(AfterTake(w, now).0)[r] == Rotated(w)[if r == 0 then n - 1 else r - 1]
      {
        SlotIndexBack(w.index, r, n);
      }
    }
  }

  function WheelStep<K(==)>(w: Wheel<K>, op: Op<K>): (r: (Wheel<K>, seq<Entry<K>>))
    requires Ranged(w) && Legal(w, op)
    ensures Ranged(r.0)
  {
    match op
    case Add(e) => (AfterAdd(w, e), [])
    case Remove(k) => (AfterRemove(w, k), [])
    case Take(now) => TakeRanged(w, now); AfterTake(w, now)
  }

  function QueueStep<K(==)>(q: Queue<K>, op: Op<K>): (r: (Queue<K>, seq<Entry<K>>)) {
    match op
    case Add(e) =>
      if q.start <= e.deadline < q.start + q.span then (q.(pending := Insert(q.pending, e)), [])
      else (q, [])
    case Remove(k) => (q.(pending := Without(q.pending, k)), [])
    case Take(now) =>
      if now < q.start then (q, [])
      else (Queue(now, q.span, Later(q.pending, now)), Due(q.pending, now))
  }

  function Abstract<K>(w: Wheel<K>): Queue<K>
    requires |w.slots| > 0
  {
    Queue(w.start, |w.slots|, Flat(w))
  }

  // ----- removal

  lemma RotatedRemove<K>(w: Wheel<K>, k: K)
    requires |w.slots| > 0
    ensures forall r :: 0 <= r < |w.slots| ==> Rotated(AfterRemove(w, k))[r] == Without(Rotated(w)[r], k)
  {
  }

  lemma {:induction false} ConcatWithout<K>(a: seq<seq<Entry<K>>>, b: seq<seq<Entry<K>>>, k: K)
    requires |a| == |b| && forall r :: 0 <= r < |a| ==> b[r] == Without(a[r], k)
    ensures Concat(b) == Without(Concat(a), k)
  {
    if a != [] {
      ConcatWithout(a[1..], b[1..], k);
      WithoutConcat(a[0], Concat(a[1..]), k);
    }
  }

  /** removeitem takes the entry out of the queue and keeps everything else where it was. */
  lemma RemoveRefines<K>(w: Wheel<K>, k: K)
    requires |w.slots| > 0
    ensures Flat(AfterRemove(w, k)) == Without(Flat(w), k)
    ensures Exact(w) ==> Exact(AfterRemove(w, k))
    ensures Coarse(w) ==> Coarse(AfterRemove(w, k))
  {
    var ahead, ahead' := Rotated(w), Rotated(AfterRemove(w, k));
    RotatedRemove(w, k);
    ConcatWithout(ahead, ahead', k);
    forall r, e: Entry<K> | 0 <= r < |ahead'| && e in ahead'[r] ensures e in ahead[r] {
      WithoutMember(ahead[r], k, e);
    }
  }

  // ----- millisecond mode: refinement

  lemma StepRefines<K>(w: Wheel<K>, op: Op<K>)
    requires Exact(w) && Legal(w, op)
    ensures Exact(WheelStep(w, op).0)
    ensures WheelStep(w, op).1 == QueueStep(Abstract(w), op).1
    ensures Abstract(WheelStep(w, op).0) == QueueStep(Abstract(w), op).0
  {
    match op
    case Add(e) =>
      AcceptsWindow(w, e.deadline);
      if w.start <= e.deadline < w.start + |w.slots| {
        AddRefinesInsert(w, e);
      }
    case Remove(k) =>
      RemoveRefines(w, k);
    case Take(now) =>
      if now < w.start {
        TakeBackwards(w, now);
      } else {
        ReachingCount(now - w.start, |w.slots|);
        TakeCounted(w, now, Count(now - w.start, |w.slots|, true));
      }
  }

  ghost predicate LegalRun<K>(w: Wheel<K>, ops: seq<Op<K>>)
    requires Ranged(w)
    decreases |ops|
  {
    ops == [] ||
    (Legal(w, ops[0]) && LegalRun(WheelStep(w, ops[0]).0, ops[1..]))
  }

  /** The final wheel and the list each operation handed out. */
  function RunWheel<K(==)>(w: Wheel<K>, ops: seq<Op<K>>): (r: (Wheel<K>, seq<seq<Entry<K>>>))
    requires Ranged(w) && LegalRun(w, ops)
    ensures Ranged(r.0)
    decreases |ops|
  {
    if ops == [] then (w, [])
    else
      var (w', out) := WheelStep(w, ops[0]);
      var (w'', outs) := RunWheel(w', ops[1..]);
      (w'', [out] + outs)
  }

  function RunQueue<K(==)>(q: Queue<K>, ops: seq<Op<K>>): (r: (Queue<K>, seq<seq<Entry<K>>>))
    decreases |ops|
  {
    if ops == [] then (q, [])
    else
      var (q', out) := QueueStep(q, ops[0]);
      var (q'', outs) := RunQueue(q', ops[1..]);
      (q'', [out] + outs)
  }

  /** Over every run of adds, removals and takes the wheel hands out exactly the lists the deadline
      queue hands out, and what stays pending is what stays in the queue, in its order. */
  lemma {:induction false} WheelRefinesQueue<K>(w: Wheel<K>, ops: seq<Op<K>>)
    requires Exact(w) && LegalRun(w, ops)
    ensures RunWheel(w, ops).1 == RunQueue(Abstract(w), ops).1
    ensures Abstract(RunWheel(w, ops).0) == RunQueue(Abstract(w), ops).0
    ensures Exact(RunWheel(w, ops).0)
    decreases |ops|
  {
    if ops != [] {
      StepRefines(w, ops[0]);
      WheelRefinesQueue(WheelStep(w, ops[0]).0, ops[1..]);
    }
  }

  /** What the queue, and so the wheel, keeps: it is sorted and inside the window. */
  ghost predicate WellKept<K>(q: Queue<K>) {
    Sorted(q.pending) && forall e :: e in q.pending ==> q.start <= e.deadline < q.start + q.span
  }

  lemma ExactIsWellKept<K>(w: Wheel<K>)
    requires Exact(w)
    ensures WellKept(Abstract(w))
  {
    ExactSorted(Rotated(w), w.start);
    forall e | e in Flat(w) ensures w.start <= e.deadline < w.start + |w.slots| {
      ConcatMember(Rotated(w), e);
    }
  }

  lemma {:induction false} InsertMembers<K>(q: seq<Entry<K>>, e: Entry<K>)
    ensures forall x :: x in Insert(q, e) <==> x in q || x == e
  {
    if q == [] || e.deadline < q[0].deadline {
    } else {
      InsertMembers(q[1..], e);
      assert q == [q[0]] + q[1..];
    }
  }

  lemma {:induction false} WithoutSorted<K>(q: seq<Entry<K>>, k: K)
    requires Sorted(q)
    ensures Sorted(Without(q, k))
  {
    if q != [] {
      SortedSlices(q, 1);
      WithoutSorted(q[1..], k);
      forall x | x in Without(q[1..], k) ensures q[0].deadline <= x.deadline {
        WithoutMember(q[1..], k, x);
        var i :| 0 <= i < |q[1..]| && q[1..][i] == x;
        assert x == q[i + 1];
      }
      SortedCons(q[0], Without(q[1..], k));
    }
  }

  lemma QueueStepKeeps<K>(q: Queue<K>, op: Op<K>)
    requires WellKept(q)
    ensures WellKept(QueueStep(q, op).0)
    ensures op.Take? ==> AllBy(QueueStep(q, op).1, op.now) && Sorted(QueueStep(q, op).1)
    ensures op.Take? ==> q.pending == QueueStep(q, op).1 + QueueStep(q, op).0.pending
    ensures op.Take? && q.start <= op.now ==> AllAfter(QueueStep(q, op).0.pending, op.now)
  {
    match op
    case Add(e) =>
      InsertIsStable(q.pending, e);
      InsertMembers(q.pending, e);
    case Remove(k) =>
      WithoutSorted(q.pending, k);
      forall e | e in Without(q.pending, k) ensures e in q.pending {
        WithoutMember(q.pending, k, e);
      }
    case Take(now) =>
      TakeIsPrefix(q.pending, now);
  }

  /** What an operation hands out is due, and in deadline order. */
  ghost predicate HandsOutDue<K>(op: Op<K>, out: seq<Entry<K>>) {
    Sorted(out) && if op.Take? then AllBy(out, op.now) else out == []
  }

  /** Over every run the pending entries stay sorted and inside the window, and every take hands out
      due entries only, in deadline order. */
  lemma {:induction false} QueueRunKeeps<K>(q: Queue<K>, ops: seq<Op<K>>)
    requires WellKept(q)
    ensures WellKept(RunQueue(q, ops).0) && |RunQueue(q, ops).1| == |ops|
    ensures forall i :: 0 <= i < |ops| ==> HandsOutDue(ops[i], RunQueue(q, ops).1[i])
    decreases |ops|
  {
    if ops != [] {
      QueueStepKeeps(q, ops[0]);
      var q' := QueueStep(q, ops[0]).0;
      QueueRunKeeps(q', ops[1..]);
      assert HandsOutDue(ops[0], QueueStep(q, ops[0]).1);
      forall i | 0 < i < |ops| ensures HandsOutDue(ops[i], RunQueue(q, ops).1[i]) {
        assert HandsOutDue(ops[1..][i - 1], RunQueue(q', ops[1..]).1[i - 1]);
      }
    }
  }

  /** And so does the wheel. */
  lemma WheelRunKeeps<K>(w: Wheel<K>, ops: seq<Op<K>>)
    requires Exact(w) && LegalRun(w, ops)
    ensures WellKept(Abstract(RunWheel(w, ops).0)) && |RunWheel(w, ops).1| == |ops|
    ensures forall i :: 0 <= i < |ops| ==> HandsOutDue(ops[i], RunWheel(w, ops).1[i])
  {
    ExactIsWellKept(w);
    WheelRefinesQueue(w, ops);
    QueueRunKeeps(Abstract(w), ops);
  }

  // ----- seconds mode: never early by a full second

  lemma CoarseAdd<K>(w: Wheel<K>, e: Entry<K>)
    requires Coarse(w) && e.deadline < TWO63 && Diff(w.start, w.ms, e.deadline) != |w.slots|
    ensures Coarse(AfterAdd(w, e))
  {
    var d := Diff(w.start, w.ms, e.deadline);
    if d < |w.slots| {
      RotatedAdd(w, e, d);
    }
  }

  lemma CoarseKept<K>(rot: seq<seq<Entry<K>>>, ahead: seq<seq<Entry<K>>>, c: nat, start: nat, now: nat)
    requires Advanced(rot, ahead, c) && CoarseAhead(ahead, start)
    requires start + 1000 * (c - 1) <= now
    ensures CoarseAhead(rot, now)
  {
    forall r, e: Entry<K> | 0 <= r < |rot| && e in rot[r] ensures e.deadline <= now + 1000 * r + 999 {
      assert e in ahead[c - 1 + r];
    }
  }

  lemma CoarseTaken<K>(ahead: seq<seq<Entry<K>>>, c: nat, start: nat, now: nat)
    requires 0 < c <= |ahead| && CoarseAhead(ahead, start)
    requires start + 1000 * (c - 1) <= now
    ensures AllBy(Concat(ahead[..c]), now + 999)
  {
    forall e | e in Concat(ahead[..c]) ensures e.deadline <= now + 999 {
      ConcatMember(ahead[..c], e);
      var i :| 0 <= i < c && e in ahead[..c][i];
      assert e in ahead[i];
    }
  }

  lemma CoarseTake<K>(w: Wheel<K>, now: nat)
    requires Coarse(w) && Legal(w, Take(now))
    ensures Coarse(AfterTake(w, now).0)
    ensures AllBy(AfterTake(w, now).1, now + 999)
  {
    if w.start <= now {
      var n, gap := |w.slots|, now - w.start;
      var c := Count(gap, n, false);
      StepsBackCount(gap, n);
      if c > 0 {
        TakeUnfolds(w, now, c);
        CoarseKept(Rotated(AfterTake(w, now).0), Rotated(w), c, w.start, now);
        CoarseTaken(Rotated(w), c, w.start, now);
      } else if c == 0 {
        CoarseBack(w, now);
      }
    }
  }

  /** A cursor that steps back keeps the bounds if even the last slot of the wheel was due by then. */
  lemma CoarseBack<K>(w: Wheel<K>, now: nat)
    requires Coarse(w) && w.start <= now < TWO63 && Count(now - w.start, |w.slots|, false) == 0
    requires 1000 * (|w.slots| - 1) <= now - w.start && (w.index > 0 || EvenlyWraps(|w.slots|))
    ensures Coarse(AfterTake(w, now).0) && AfterTake(w, now).1 == []
  {
    TakeStepsBack(w, now);
    var rot, n := Rotated(AfterTake(w, now).0), |w.slots|;
    forall r, e: Entry<K> | 0 <= r < n && e in rot[r] ensures e.deadline <= now + 1000 * r + 999 {
      assert e in Rotated(w)[if r == 0 then n - 1 else r - 1];
    }
  }

  /** At this time nothing is handed out a full second early: not by the take, nor by the next one at
      the same time, whatever entry is added in between. */
  ghost predicate NeverEarly(start: nat, now: nat, n: nat, index: nat)
    requires n > 0
  {
    forall w: Wheel<nat>, e: Entry<nat> :: Standing(w, start, n, index) ==> Punctual(w, e, now)
  }

  ghost predicate Standing(w: Wheel<nat>, start: nat, n: nat, index: nat) {
    |w.slots| == n && w.start == start && w.index == index && Coarse(w)
  }

  ghost predicate Punctual(w: Wheel<nat>, e: Entry<nat>, now: nat)
    requires Ranged(w)
  {
    var (w1, first) := AfterTake(w, now);
    && AllBy(first, now + 999)
    && (w1.start < TWO63 && e.deadline < TWO63 && Diff(w1.start, false, e.deadline) != |w1.slots| ==>
          AllBy(AfterTake(AfterAdd(w1, e), now).1, now + 999))
  }

  lemma GoodGapPunctual(w: Wheel<nat>, e: Entry<nat>, now: nat)
    requires Coarse(w) && w.start <= now < TWO63 && GoodGap(now - w.start, |w.slots|, false, w.index)
    ensures Punctual(w, e, now)
  {
    var w1 := AfterTake(w, now).0;
    CoarseTake(w, now);
    if e.deadline < TWO63 && Diff(w1.start, false, e.deadline) != |w1.slots| {
      CoarseAdd(w1, e);
      CoarseTake(AfterAdd(w1, e), now);
    }
  }

  /** A wheel with one entry, in the slot furthest ahead of the cursor. */
  function LastEntry(start: nat, n: nat, index: nat): (w: Wheel<nat>)
    requires n > 0
  {
    Wheel(start, index,
          seq(n, i => if i == SlotIndex(index, n - 1, n) then [Entry(0, start + 1000 * (n - 1) + 999)] else []),
          false)
  }

  lemma LastEntryAhead(start: nat, n: nat, index: nat)
    requires Steady(index, n)
    ensures var ahead := Rotated(LastEntry(start, n, index));
            forall r :: 0 <= r < n ==>
              ahead[r] == if r == n - 1 then [Entry(0, start + 1000 * (n - 1) + 999)] else []
  {
    forall r | 0 <= r < n && SlotIndex(index, r, n) == SlotIndex(index, n - 1, n) ensures r == n - 1 {
      SlotIndexInjective(index, r, n - 1, n);
    }
  }

  /** On a wheel that reaches further than the gap, a cursor that steps back brings the entry of the last
      slot under it, and the next take hands it out a full second early or more. */
  lemma StepBackFiresEarly(start: nat, now: nat, n: nat, index: nat) returns (w: Wheel<nat>, e: Entry<nat>)
    requires 0 < n < TWO31 && start <= now < TWO63 && StepsBack(now - start) && now - start < 1000 * (n - 1)
    requires index < TWO64 && (index <= start || EvenlyWraps(n)) && (index > 0 || EvenlyWraps(n))
    ensures Standing(w, start, n, index) && !Punctual(w, e, now)
  {
    w := LastEntry(start, n, index);
    LastEntryAhead(start, n, index);
    StepsBackCount(now - start, n);
    TakeStepsBack(w, now);
    e := Entry(1, 0);
    RefusedLeavesEarly(AfterTake(w, now).0, Entry(0, start + 1000 * (n - 1) + 999), e);
  }

  lemma RefusedLeavesEarly(w: Wheel<nat>, last: Entry<nat>, e: Entry<nat>)
    requires Ranged(w) && w.start > 0 && !w.ms && e.deadline == 0
    requires last in Rotated(w)[0] && last.deadline > w.start + 999
    ensures Diff(w.start, false, e.deadline) > |w.slots| && !AllBy(AfterTake(AfterAdd(w, e), w.start).1, w.start + 999)
  {
    AcceptsWindow(w, e.deadline);
    CursorSlotTaken(w, last);
  }

  /** A cursor that steps back from 0 wraps to 2^64 - 1. If the wheel size does not divide 2^64, the
      cursor slot is then ahead of the cursor as well, and an entry added there is handed out at once. */
  lemma WrappedCursorFiresEarly(start: nat, now: nat, n: nat) returns (w: Wheel<nat>, e: Entry<nat>)
    requires 0 < n < TWO31 && start <= now && now + 1000 * n < TWO63 && StepsBack(now - start) && !EvenlyWraps(n)
    ensures Standing(w, start, n, 0) && !Punctual(w, e, now)
  {
    w := Wheel(start, 0, seq(n, _ => []), false);
    StepsBackCount(now - start, n);
    TakeStepsBack(w, now);
    var k := Wrap(TWO64 - 1, n);
    LastSlot(n);
    e := Entry(0, now + 1000 * (k + 1));
    var w1 := AfterTake(w, now).0;
    assert Diff(now, false, e.deadline) == k + 1;
    assert SlotIndex(w1.index, k + 1, n) == k == SlotIndex(w1.index, 0, n);
    CursorSlotTaken(AfterAdd(w1, e), e);
  }

  /** Exactly when seconds mode is safe after a gap. */
  lemma NeverEarlyIff(start: nat, now: nat, n: nat, index: nat)
    requires 0 < n < TWO31 && start <= now && now + 1000 * n < TWO63
    requires index < TWO64 && (index <= start || EvenlyWraps(n))
    ensures NeverEarly(start, now, n, index) <==> GoodGap(now - start, n, false, index)
  {
    var gap := now - start;
    if GoodGap(gap, n, false, index) {
      forall w: Wheel<nat>, e: Entry<nat> | Standing(w, start, n, index) ensures Punctual(w, e, now) {
        GoodGapPunctual(w, e, now);
      }
    } else {
      BadGapFiresEarly(start, now, n, index);
    }
  }

  lemma BadGapFiresEarly(start: nat, now: nat, n: nat, index: nat)
    requires 0 < n < TWO31 && start <= now && now + 1000 * n < TWO63
    requires index < TWO64 && (index <= start || EvenlyWraps(n)) && !GoodGap(now - start, n, false, index)
    ensures !NeverEarly(start, now, n, index)
  {
    if index == 0 && !EvenlyWraps(n) {
      var w, e := WrappedCursorFiresEarly(start, now, n);
    } else {
      var w, e := StepBackFiresEarly(start, now, n, index);
    }
  }

  /** Over every run in seconds mode, although the cursor and the start drift apart, nothing is
      handed out a full second or more before its deadline. */
  lemma {:induction false} SecondsNeverEarly<K>(w: Wheel<K>, ops: seq<Op<K>>)
    requires Coarse(w) && LegalRun(w, ops)
    ensures |RunWheel(w, ops).1| == |ops|
    ensures forall i :: 0 <= i < |ops| && ops[i].Take? ==> AllBy(RunWheel(w, ops).1[i], ops[i].now + 999)
    ensures Coarse(RunWheel(w, ops).0)
    decreases |ops|
  {
    if ops != [] {
      var w' := WheelStep(w, ops[0]).0;
      match ops[0] {
        case Add(e) => CoarseAdd(w, e);
        case Remove(k) => RemoveRefines(w, k);
        case Take(now) => CoarseTake(w, now);
      }
      SecondsNeverEarly(w', ops[1..]);
      var outs := RunWheel(w', ops[1..]).1;
      forall i | 0 <= i < |ops| && ops[i].Take? ensures AllBy(RunWheel(w, ops).1[i], ops[i].now + 999) {
        if i > 0 { assert ops[1..][i - 1].Take?; }
      }
    }
  }
}
