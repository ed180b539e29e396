/** What the time wheel computes, on values: slots addressed modulo the wheel size from a moving
    cursor, with the C++ integer conversions written out, and the proof that it is a deadline queue. */
module WheelModel {
  import opened DeadlineQueue

  const TWO31 := 0x8000_0000
  const TWO32 := 0x1_0000_0000
  const TWO63 := 0x8000_0000_0000_0000
  const TWO64 := 0x1_0000_0000_0000_0000

  /** `slots[i]` is the list of slot i, `start` the time of the last take and `index` the cursor.
      `ms` selects slots of one millisecond; otherwise a slot is a second. */
  datatype Wheel<K> = Wheel(start: nat, index: nat, slots: seq<seq<Entry<K>>>, ms: bool)

  /** The ranges the C++ types and the clock leave. The cursor never runs ahead of the clock, unless the
      wheel size divides 2^64 and its wrap-around does no harm. */
  ghost predicate Ranged<K>(w: Wheel<K>) {
    && 0 < |w.slots| < TWO31
    && w.start < TWO63 && w.index < TWO64
    && (w.index <= w.start || EvenlyWraps(|w.slots|))
  }

  // ----- slots seen from the cursor

  /** `a % n` by repeated subtraction; WrapIsRemainder relates the two. */
  function Wrap(a: nat, n: nat): (j: nat)
    requires n > 0
    ensures j < n
  {
    if a < n then a else Wrap(a - n, n)
  }

  /** The slot r steps ahead of the cursor: a 64-bit sum, modulo the wheel size. */
  function SlotIndex(index: nat, r: nat, n: nat): (j: nat)
    requires n > 0
    ensures j < n
  {
    Wrap(if index + r < TWO64 then index + r else index + r - TWO64, n)
  }

  /** The wheel size divides 2^64. */
  predicate EvenlyWraps(n: nat)
    requires n > 0
  {
    Wrap(TWO64, n) == 0
  }

  /** The slots in firing order: element r is the slot r steps ahead of the cursor. */
  function Rotated<K>(w: Wheel<K>): (s: seq<seq<Entry<K>>>)
    requires |w.slots| > 0
    ensures |s| == |w.slots|
  {
    seq(|w.slots|, r requires 0 <= r < |w.slots| => w.slots[SlotIndex(w.index, r, |w.slots|)])
  }

  function Concat<K>(ss: seq<seq<Entry<K>>>): seq<Entry<K>> {
    if ss == [] then [] else ss[0] + Concat(ss[1..])
  }

  /** The abstraction: every pending entry, in the order the wheel would fire them. */
  function Flat<K>(w: Wheel<K>): seq<Entry<K>>
    requires |w.slots| > 0
  {
    Concat(Rotated(w))
  }

  /** In millisecond mode an entry r steps ahead of the cursor is due r milliseconds after the start. */
  ghost predicate ExactAhead<K>(ahead: seq<seq<Entry<K>>>, start: nat) {
    forall r, e :: 0 <= r < |ahead| && e in ahead[r] ==> e.deadline == start + r
  }

  ghost predicate Exact<K>(w: Wheel<K>) {
    && Ranged(w) && w.ms
    && ExactAhead(Rotated(w), w.start)
  }

  /** In seconds mode an entry r steps ahead is due at most r seconds and 999 ms after the start. */
  ghost predicate CoarseAhead<K>(ahead: seq<seq<Entry<K>>>, start: nat) {
    forall r, e :: 0 <= r < |ahead| && e in ahead[r] ==> e.deadline <= start + 1000 * r + 999
  }

  ghost predicate Coarse<K>(w: Wheel<K>) {
    && Ranged(w) && !w.ms
    && CoarseAhead(Rotated(w), w.start)
  }

  // ----- add_timeout

  /** `ExpireTime - w_start_` in 64-bit unsigned arithmetic, in slots. */
  function Diff(start: nat, ms: bool, deadline: nat): nat
    requires start < TWO63 && deadline < TWO63
  {
    var d := if deadline >= start then deadline - start else deadline + TWO64 - start;
    if ms then d else d / 1000
  }

  predicate Accepts<K>(w: Wheel<K>, deadline: nat)
    requires w.start < TWO63 && deadline < TWO63
  {
    Diff(w.start, w.ms, deadline) <= |w.slots|
  }

  function AfterAdd<K>(w: Wheel<K>, e: Entry<K>): (w': Wheel<K>)
    requires 0 < |w.slots| && w.start < TWO63 && e.deadline < TWO63
  {
    if !Accepts(w, e.deadline) then w
    else
      var j := SlotIndex(w.index, Diff(w.start, w.ms, e.deadline), |w.slots|);
      w.(slots := w.slots[j := w.slots[j] + [e]])
  }

  // ----- take_all_timeout

  /** Conversion to a 32-bit `int`. */
  function ToInt32(x: int): (r: int)
    ensures -TWO31 <= r < TWO31
  {
    (x + TWO31) % TWO32 - TWO31
  }

  function TruncDiv(x: int, d: int): int
    requires d > 0
  {
    if x >= 0 then x / d else -((-x) / d)
  }

  /** The `int count` of slots to take: truncated, advanced by one, capped by the wheel size. */
  function Count(gap: nat, n: nat, ms: bool): (c: int)
    ensures c <= n
  {
    var c := ToInt32(gap);
    var c := if ms then ToInt32(c + 1) else TruncDiv(c, 1000) + 1;
    if c > n then n else c
  }

  /** The slots after the loop has emptied c of them, from the cursor on. */
  function Emptied<K>(w: Wheel<K>, c: nat): (s: seq<seq<Entry<K>>>)
    requires 0 < |w.slots|
    ensures |s| == |w.slots|
  {
    if c == 0 then w.slots
    else Emptied(w, c - 1)[SlotIndex(w.index, c - 1, |w.slots|) := []]
  }

  /** What the loop finds in the c slots it comes to. */
  function Found<K>(w: Wheel<K>, c: nat): (s: seq<seq<Entry<K>>>)
    requires 0 < |w.slots|
    ensures |s| == c
  {
    seq(c, i requires 0 <= i < c => Emptied(w, i)[SlotIndex(w.index, i, |w.slots|)])
  }

  /** The cursor after a take of c slots: `w_index_ += count - 1` in 64 bits. */
  function Moved(index: nat, c: nat): nat {
    if index + c == 0 then TWO64 - 1
    else if index + c - 1 < TWO64 then index + c - 1
    else index + c - 1 - TWO64
  }

  /** New wheel and the entries appended to the caller's list. */
  function AfterTake<K>(w: Wheel<K>, now: nat): (r: (Wheel<K>, seq<Entry<K>>))
    requires 0 < |w.slots|
    ensures |r.0.slots| == |w.slots|
  {
    if now < w.start then (w, [])
    else
      var c := Count(now - w.start, |w.slots|, w.ms);
      if c < 0 then (w, [])
      else
        (Wheel(now, Moved(w.index, c), Emptied(w, c), w.ms), Concat(Found(w, c)))
  }

  /** The increment of the count overflows at one value only. */
  lemma CountDefined(gap: nat)
    requires gap % TWO32 != TWO31 - 1
    ensures ToInt32(ToInt32(gap) + 1) == ToInt32(gap) + 1
  {
    var m := gap % TWO32;
    assert ToInt32(gap) == if m < TWO31 then m else m - TWO32;
  }

  // ----- removeitem

  function AfterRemove<K(==)>(w: Wheel<K>, k: K): (w': Wheel<K>)
    ensures |w'.slots| == |w.slots|
  {
    w.(slots := seq(|w.slots|, j requires 0 <= j < |w.slots| => Without(w.slots[j], k)))
  }

  /** The ready events leave the wheel one by one. */
  function RemoveAll<K(==)>(w: Wheel<K>, ks: seq<K>): (w': Wheel<K>)
    ensures |w'.slots| == |w.slots|
    decreases |ks|
  {
    if ks == [] then w else RemoveAll(AfterRemove(w, ks[0]), ks[1..])
  }

  lemma {:induction false} RemoveAllSnoc<K>(w: Wheel<K>, ks: seq<K>, k: K)
    ensures RemoveAll(w, ks + [k]) == AfterRemove(RemoveAll(w, ks), k)
    decreases |ks|
  {
    if ks == [] {
      assert ks + [k] == [k];
      assert RemoveAll(AfterRemove(w, k), []) == AfterRemove(w, k);
    } else {
      assert (ks + [k])[1..] == ks[1..] + [k];
      RemoveAllSnoc(AfterRemove(w, ks[0]), ks[1..], k);
    }
  }

  lemma RemoveAllNext<K>(w: Wheel<K>, ks: seq<K>, i: nat)
    requires i < |ks|
    ensures RemoveAll(w, ks[..i + 1]) == AfterRemove(RemoveAll(w, ks[..i]), ks[i])
  {
    assert ks[..i + 1] == ks[..i] + [ks[i]];
    RemoveAllSnoc(w, ks[..i], ks[i]);
  }

  // ----- modular arithmetic of the cursor

  lemma {:induction false} WrapIsRemainder(a: nat, n: nat)
    requires n > 0
    ensures Wrap(a, n) == a % n
  {
    if a >= n {
      WrapIsRemainder(a - n, n);
      SubtractingKeepsRemainder(a, n);
    }
  }

  lemma SubtractingKeepsRemainder(a: nat, n: nat)
    requires 0 < n <= a
    ensures (a - n) % n == a % n
  {
    RemainderUnique((a - n) / n + 1, (a - n) % n, a / n, a % n, n);
  }

  lemma RemainderUnique(p: int, x: int, q: int, y: int, n: int)
    requires 0 <= x < n && 0 <= y < n && p * n + x == q * n + y
    ensures x == y
  {
    if p > q {
      AtLeastOnce(p - q, n);
    } else if p < q {
      AtLeastOnce(q - p, n);
    }
  }

  lemma AtLeastOnce(k: int, n: int)
    requires k >= 1 && n > 0
    ensures k * n >= n
  {
  }

  /** Numbers less than n apart wrap to different slots. */
  lemma {:induction false} WrapInjective(a: nat, b: nat, n: nat)
    requires a <= b < a + n && Wrap(a, n) == Wrap(b, n)
    ensures a == b
    decreases b
  {
    if a >= n {
      WrapInjective(a - n, b - n, n);
    }
  }

  lemma {:induction false} WrapSum(a: nat, b: nat, n: nat)
    requires n > 0
    ensures Wrap(a + b, n) == Wrap(Wrap(a, n) + b, n)
  {
    if a >= n {
      WrapSum(a - n, b, n);
    }
  }

  /** The slots ahead of the cursor are not torn apart by the end of the 64-bit range. */
  ghost predicate Steady(index: nat, n: nat) {
    0 < n < TWO31 && index < TWO64 && (index + 2 * n <= TWO64 || EvenlyWraps(n))
  }

  lemma SteadySlot(index: nat, r: nat, n: nat)
    requires Steady(index, n) && r < 2 * n
    ensures SlotIndex(index, r, n) == Wrap(index + r, n)
  {
    if index + r >= TWO64 {
      WrapSum(TWO64, index + r - TWO64, n);
    }
  }

  lemma SlotIndexInjective(index: nat, r: nat, s: nat, n: nat)
    requires Steady(index, n) && r < n && s < n && SlotIndex(index, r, n) == SlotIndex(index, s, n)
    ensures r == s
  {
    SteadySlot(index, r, n);
    SteadySlot(index, s, n);
    if r <= s { WrapInjective(index + r, index + s, n); } else { WrapInjective(index + s, index + r, n); }
  }

  /** Every slot is some number of steps ahead of the cursor. */
  lemma SlotAhead(index: nat, j: nat, n: nat) returns (r: nat)
    requires Steady(index, n) && j < n
    ensures r < n && SlotIndex(index, r, n) == j
  {
    var c := Wrap(index, n);
    r := if c <= j then j - c else j + n - c;
    WrapSum(index, r, n);
    SteadySlot(index, r, n);
  }

  /** What is in a slot is pending. */
  lemma SlotIsPending<K>(w: Wheel<K>, j: nat, e: Entry<K>)
    requires Ranged(w) && j < |w.slots| && e in w.slots[j]
    ensures e in Flat(w)
  {
    var r := SlotAhead(w.index, j, |w.slots|);
    assert e in Rotated(w)[r];
    ConcatMember(Rotated(w), e);
  }

  /** The first c slots from the cursor are empty, the others as they were. */
  lemma {:induction false} EmptiedAt<K>(w: Wheel<K>, c: nat, r: nat)
    requires Steady(w.index, |w.slots|) && c <= |w.slots| && r < |w.slots|
    ensures Emptied(w, c)[SlotIndex(w.index, r, |w.slots|)] == if r < c then [] else Rotated(w)[r]
  {
    if c > 0 {
      EmptiedAt(w, c - 1, r);
      if SlotIndex(w.index, r, |w.slots|) == SlotIndex(w.index, c - 1, |w.slots|) {
        SlotIndexInjective(w.index, r, c - 1, |w.slots|);
      }
    }
  }

  /** The cursor after s steps ahead, around the 64-bit range if that does no harm. */
  ghost predicate Ahead(index: nat, s: nat, next: nat, n: nat) {
    Steady(index, n) && Steady(next, n) && (next == index + s || (EvenlyWraps(n) && next + TWO64 == index + s))
  }

  /** Advancing the cursor by s turns "s + r ahead" into "r ahead", around the wheel. */
  lemma SlotIndexShift(index: nat, s: nat, next: nat, r: nat, n: nat)
    requires Ahead(index, s, next, n) && s < n && r < n
    ensures SlotIndex(next, r, n) == SlotIndex(index, if s + r < n then s + r else s + r - n, n)
  {
    SteadySlot(next, r, n);
    SteadySlot(index, if s + r < n then s + r else s + r - n, n);
    if next != index + s {
      WrapSum(TWO64, next + r, n);
    }
  }

  /** Moving the cursor one back brings the last slot under it. */
  lemma SlotIndexBack(index: nat, r: nat, n: nat)
    requires Steady(index, n) && (index > 0 || EvenlyWraps(n)) && r < n
    ensures SlotIndex(Moved(index, 0), r, n) == SlotIndex(index, if r == 0 then n - 1 else r - 1, n)
  {
    SteadySlot(index, if r == 0 then n - 1 else r - 1, n);
    if index > 0 {
      SteadySlot(index - 1, r, n);
    } else if r == 0 {
      LastSlot(n);
    }
  }

  /** (2^64 - 1) modulo n is n - 1 just when n divides 2^64. */
  lemma LastSlot(n: nat)
    requires 0 < n
    ensures Wrap(TWO64 - 1, n) == n - 1 <==> EvenlyWraps(n)
  {
    WrapSum(TWO64 - 1, 1, n);
  }

  // ----- concatenation of slots

  lemma {:induction false} ConcatSplit<K>(a: seq<seq<Entry<K>>>, b: seq<seq<Entry<K>>>)
    ensures Concat(a + b) == Concat(a) + Concat(b)
  {
    if a == [] {
      assert a + b == b;
    } else {
      assert (a + b)[1..] == a[1..] + b;
      ConcatSplit(a[1..], b);
    }
  }

  lemma ConcatAt<K>(ss: seq<seq<Entry<K>>>, d: nat)
    requires d < |ss|
    ensures Concat(ss) == Concat(ss[..d]) + ss[d] + Concat(ss[d + 1..])
  {
    assert ss == ss[..d] + ss[d..];
    ConcatSplit(ss[..d], ss[d..]);
    assert ss[d..][1..] == ss[d + 1..];
  }

  lemma {:induction false} ConcatEmpty<K>(ss: seq<seq<Entry<K>>>)
    requires forall i :: 0 <= i < |ss| ==> ss[i] == []
    ensures Concat(ss) == []
  {
    if ss != [] {
      ConcatEmpty(ss[1..]);
    }
  }

  lemma {:induction false} ConcatMember<K>(ss: seq<seq<Entry<K>>>, e: Entry<K>)
    ensures e in Concat(ss) <==> exists i :: 0 <= i < |ss| && e in ss[i]
  {
    if ss != [] {
      ConcatMember(ss[1..], e);
      if e in Concat(ss[1..]) {
        var i :| 0 <= i < |ss[1..]| && e in ss[1..][i];
        assert e in ss[i + 1];
      }
      if i :| 0 <= i < |ss| && e in ss[i] {
        if i > 0 { assert e in ss[1..][i - 1]; }
      }
    }
  }

  /** Slots up to offset d fire by start + d, slots from d on no earlier than start + d. */
  lemma ExactBounds<K>(ahead: seq<seq<Entry<K>>>, start: nat, d: nat)
    requires d < |ahead| && ExactAhead(ahead, start)
    ensures AllBy(Concat(ahead[..d + 1]), start + d)
    ensures AllAfter(Concat(ahead[d + 1..]), start + d)
  {
    forall e | e in Concat(ahead[..d + 1]) ensures e.deadline <= start + d {
      ConcatMember(ahead[..d + 1], e);
      var i :| 0 <= i < d + 1 && e in ahead[..d + 1][i];
      assert e in ahead[i];
    }
    forall e | e in Concat(ahead[d + 1..]) ensures e.deadline > start + d {
      ConcatMember(ahead[d + 1..], e);
      var i :| 0 <= i < |ahead[d + 1..]| && e in ahead[d + 1..][i];
      assert e in ahead[d + 1 + i];
    }
  }

  lemma {:induction false} ExactSorted<K>(ahead: seq<seq<Entry<K>>>, start: nat)
    requires ExactAhead(ahead, start)
    ensures Sorted(Concat(ahead))
    decreases |ahead|
  {
    if ahead != [] {
      var rest := ahead[1..];
      assert ExactAhead(rest, start + 1) by {
        forall r, e: Entry<K> | 0 <= r < |rest| && e in rest[r] ensures e.deadline == start + 1 + r {
          assert e in ahead[r + 1];
        }
      }
      ExactSorted(rest, start + 1);
      var head: seq<Entry<K>>, tail: seq<Entry<K>> := ahead[0], Concat(rest);
      ExactBounds(ahead, start, 0);
      assert ahead[0 + 1..] == rest;
      forall i, j | 0 <= i < j < |head + tail|
        ensures (head + tail)[i].deadline <= (head + tail)[j].deadline
      {
        if i < |head| { assert head[i] in ahead[0]; }
        if j < |head| { assert head[j] in ahead[0]; } else { assert tail[j - |head|] in tail; }
      }
    }
  }

  // ----- add: insertion into the queue

  lemma RotatedAdd<K>(w: Wheel<K>, e: Entry<K>, d: nat)
    requires Ranged(w) && d < |w.slots|
    ensures var j := SlotIndex(w.index, d, |w.slots|);
            Rotated(w.(slots := w.slots[j := w.slots[j] + [e]])) == Rotated(w)[d := Rotated(w)[d] + [e]]
  {
    var n := |w.slots|;
    var j := SlotIndex(w.index, d, n);
    forall r | 0 <= r < n && SlotIndex(w.index, r, n) == j ensures r == d {
      SlotIndexInjective(w.index, r, d, n);
    }
  }

  /** A deadline in the past, or more than the wheel size ahead in whole slots, is refused. */
  lemma AcceptsWindow<K>(w: Wheel<K>, deadline: nat)
    requires Ranged(w) && deadline < TWO63
    ensures Accepts(w, deadline) <==>
              && w.start <= deadline
              && deadline < w.start + if w.ms then |w.slots| + 1 else 1000 * (|w.slots| + 1)
  {
  }

  lemma ConcatUpTo<K>(ahead: seq<seq<Entry<K>>>, d: nat)
    requires d < |ahead|
    ensures Concat(ahead[..d + 1]) == Concat(ahead[..d]) + ahead[d]
  {
    assert ahead[..d + 1] == ahead[..d] + [ahead[d]];
    ConcatSplit(ahead[..d], [ahead[d]]);
    assert Concat([ahead[d]]) == ahead[d] + Concat([]);
  }

  lemma ConcatInsert<K>(ahead: seq<seq<Entry<K>>>, start: nat, e: Entry<K>, d: nat)
    requires d < |ahead| && ExactAhead(ahead, start) && e.deadline == start + d
    ensures Concat(ahead[d := ahead[d] + [e]]) == Insert(Concat(ahead), e)
  {
    var ahead' := ahead[d := ahead[d] + [e]];
    ConcatAt(ahead, d);
    ConcatAt(ahead', d);
    assert ahead'[..d] == ahead[..d];
    assert ahead'[d + 1..] == ahead[d + 1..];
    ConcatUpTo(ahead, d);
    ExactBounds(ahead, start, d);
    var a, b := Concat(ahead[..d + 1]), Concat(ahead[d + 1..]);
    InsertSplits(a, b, e);
    assert Concat(ahead') == a + [e] + b;
  }

  /** add_timeout inside the window is stable insertion by deadline. */
  lemma AddRefinesInsert<K>(w: Wheel<K>, e: Entry<K>)
    requires Exact(w) && w.start <= e.deadline < w.start + |w.slots| && e.deadline < TWO63
    ensures Exact(AfterAdd(w, e))
    ensures Flat(AfterAdd(w, e)) == Insert(Flat(w), e)
  {
    var d := e.deadline - w.start;
    RotatedAdd(w, e, d);
    ConcatInsert(Rotated(w), w.start, e, d);
  }

  /** What is under the cursor is handed out by any take. */
  lemma CursorSlotTaken<K>(w: Wheel<K>, e: Entry<K>)
    requires |w.slots| > 0 && e in Rotated(w)[0]
    ensures e in AfterTake(w, w.start).1
  {
    assert Count(0, |w.slots|, w.ms) == 1;
    assert Found(w, 1)[0] == Rotated(w)[0];
    ConcatMember(Found(w, 1), e);
  }

  /** A deadline exactly one wheel size ahead is accepted but lands in the cursor slot. */
  lemma AddKeepsExactIff<K>(w: Wheel<K>, e: Entry<K>)
    requires Exact(w) && e.deadline < TWO63
    ensures Exact(AfterAdd(w, e)) <==> e.deadline != w.start + |w.slots|
    ensures e.deadline == w.start + |w.slots| ==>
              e in AfterTake(AfterAdd(w, e), w.start).1
  {
    AcceptsWindow(w, e.deadline);
    var n := |w.slots|;
    if w.start <= e.deadline < w.start + n {
      AddRefinesInsert(w, e);
    } else if e.deadline == w.start + n {
      var w' := AfterAdd(w, e);
      SteadySlot(w.index, n, n);
      SteadySlot(w.index, 0, n);
      RotatedAdd(w, e, 0);
      var first := Rotated(w')[0];
      assert first == Rotated(w)[0] + [e];
      assert first[|first| - 1] == e;
      CursorSlotTaken(w', e);
    }
  }

  // ----- take: exactly the due entries

  /** `rot` shows what `ahead` becomes once its first c slots are emptied and the cursor stands on
      the last of them. */
  ghost predicate Advanced<K>(rot: seq<seq<Entry<K>>>, ahead: seq<seq<Entry<K>>>, c: nat) {
    && |rot| == |ahead| && 0 < c <= |ahead|
    && forall r :: 0 <= r < |rot| ==>
         rot[r] == if 1 <= r <= |ahead| - c then ahead[c - 1 + r] else []
  }

  lemma RotatedAfterTake<K>(w: Wheel<K>, c: nat, next: nat, now: nat)
    requires 0 < c <= |w.slots| && Ahead(w.index, c - 1, next, |w.slots|)
    ensures Advanced(Rotated(Wheel(now, next, Emptied(w, c), w.ms)), Rotated(w), c)
  {
    var n := |w.slots|;
    forall r | 0 <= r < n
      ensures Rotated(Wheel(now, next, Emptied(w, c), w.ms))[r] ==
              if 1 <= r <= n - c then Rotated(w)[c - 1 + r] else []
    {
      SlotIndexShift(w.index, c - 1, next, r, n);
      EmptiedAt(w, c, if c - 1 + r < n then c - 1 + r else c - 1 + r - n);
    }
  }

  lemma CursorAhead<K>(w: Wheel<K>, c: nat, now: nat)
    requires Ranged(w) && 0 < c <= |w.slots| && c - 1 <= now - w.start && now < TWO63
    ensures var next := Moved(w.index, c);
            && Ahead(w.index, c - 1, next, |w.slots|) && (next <= now || EvenlyWraps(|w.slots|))
  {
  }

  /** On a steady wheel the loop comes to each slot once, so it finds them as they were. */
  lemma FoundInOrder<K>(w: Wheel<K>, c: nat)
    requires Steady(w.index, |w.slots|) && c <= |w.slots|
    ensures Found(w, c) == Rotated(w)[..c]
  {
    forall i | 0 <= i < c ensures Found(w, c)[i] == Rotated(w)[i] {
      EmptiedAt(w, i, i);
    }
  }

  lemma ConcatAdvanced<K>(rot: seq<seq<Entry<K>>>, ahead: seq<seq<Entry<K>>>, c: nat)
    requires Advanced(rot, ahead, c)
    ensures Concat(rot) == Concat(ahead[c..])
  {
    var k := |ahead| - c + 1;
    var mid, tail := rot[1..k], rot[k..];
    assert rot[1..] == mid + tail;
    ConcatSplit(mid, tail);
    ConcatEmpty(tail);
    assert mid == ahead[c..];
  }

  /** What the loop computes for an untruncated gap. */
  lemma TakeUnfolds<K>(w: Wheel<K>, now: nat, c: nat)
    requires Ranged(w) && w.start <= now < TWO63
    requires 0 < c <= |w.slots| && c - 1 <= now - w.start
    requires Count(now - w.start, |w.slots|, w.ms) == c
    ensures var w' := AfterTake(w, now).0;
            && Ranged(w') && w'.start == now && w'.ms == w.ms && |w'.slots| == |w.slots|
            && Advanced(Rotated(w'), Rotated(w), c)
            && Flat(w') == Concat(Rotated(w)[c..])
    ensures AfterTake(w, now).1 == Concat(Rotated(w)[..c])
  {
    CursorAhead(w, c, now);
    FoundInOrder(w, c);
    RotatedAfterTake(w, c, Moved(w.index, c), now);
    ConcatAdvanced(Rotated(AfterTake(w, now).0), Rotated(w), c);
  }

  /** take_all_timeout answered like the queue: it took what is due and kept the rest. */
  ghost predicate TakesExactly<K>(w: Wheel<K>, now: nat)
    requires |w.slots| > 0
  {
    var (w', taken) := AfterTake(w, now);
    && |w'.slots| == |w.slots|
    && taken == Due(Flat(w), now)
    && Flat(w') == Later(Flat(w), now)
  }

  lemma ExactAdvanced<K>(rot: seq<seq<Entry<K>>>, ahead: seq<seq<Entry<K>>>, c: nat, start: nat, now: nat)
    requires Advanced(rot, ahead, c) && ExactAhead(ahead, start)
    requires c == |ahead| <= now - start + 1 || c == now - start + 1
    ensures ExactAhead(rot, now)
  {
    forall r, e: Entry<K> | 0 <= r < |rot| && e in rot[r] ensures e.deadline == now + r {
      assert e in ahead[c - 1 + r];
    }
  }

  lemma ConcatCut<K>(ahead: seq<seq<Entry<K>>>, start: nat, c: nat, now: nat)
    requires 0 < c <= |ahead| && ExactAhead(ahead, start)
    requires c == |ahead| <= now - start + 1 || c == now - start + 1
    ensures Due(Concat(ahead), now) == Concat(ahead[..c])
    ensures Later(Concat(ahead), now) == Concat(ahead[c..])
  {
    ExactBounds(ahead, start, c - 1);
    assert AllAfter(Concat(ahead[c..]), now) by {
      if c == |ahead| { assert ahead[c..] == []; }
    }
    assert ahead == ahead[..c] + ahead[c..];
    ConcatSplit(ahead[..c], ahead[c..]);
    DueOfSplit(Concat(ahead[..c]), Concat(ahead[c..]), now);
  }

  /** The untruncated case, with the cap: the c slots are exactly the due ones. */
  lemma TakeCounted<K>(w: Wheel<K>, now: nat, c: nat)
    requires Exact(w) && w.start <= now < TWO63
    requires c == if now - w.start + 1 <= |w.slots| then now - w.start + 1 else |w.slots|
    requires Count(now - w.start, |w.slots|, true) == c
    ensures TakesExactly(w, now) && Exact(AfterTake(w, now).0)
  {
    TakeUnfolds(w, now, c);
    ExactAdvanced(Rotated(AfterTake(w, now).0), Rotated(w), c, w.start, now);
    ConcatCut(Rotated(w), w.start, c, now);
  }

  /** A clock that went backwards takes nothing, and nothing is due. */
  lemma TakeBackwards<K>(w: Wheel<K>, now: nat)
    requires Exact(w) && now < w.start
    ensures TakesExactly(w, now) && AfterTake(w, now).0 == w
  {
    var q := Flat(w);
    forall e | e in q ensures e.deadline > now {
      ConcatMember(Rotated(w), e);
    }
    DueOfSplit([], q, now);
    assert [] + q == q;
  }

  /** The gaps whose 32-bit count reaches as far as the gap, or around a wheel of n slots: short ones,
      and longer ones whose low 32 bits still pass for a large `int`. */
  predicate CountReaches(gap: nat, n: nat) {
    gap < n || n - 1 <= gap % TWO32 < TWO31 - 1
  }

  lemma ReachingCount(gap: nat, n: nat)
    requires 0 < n < TWO31
    ensures CountReaches(gap, n) <==> Count(gap, n, true) == if gap + 1 <= n then gap + 1 else n
    ensures gap < TWO31 - 1 ==> CountReaches(gap, n)
  {
    if gap < n {
      assert ToInt32(gap) == gap;
    } else {
      var m := gap % TWO32;
      assert ToInt32(gap) == if m < TWO31 then m else m - TWO32;
    }
  }

  /** After 2^32 ms without a take the count is 1 instead of the wheel size. */
  lemma LongSilenceCutsShort()
    ensures Count(TWO32, 60000, true) == 1 && !CountReaches(TWO32, 60000)
  {
  }

  /** A wheel with one entry, m slots ahead of the cursor. */
  function OneEntry(start: nat, n: nat, m: nat): (w: Wheel<nat>)
    requires m < n
    ensures |w.slots| == n
    ensures forall i :: 0 <= i < n ==> w.slots[i] == if i == m then [Entry(0, start + m)] else []
  {
    Wheel(start, 0, seq(n, i => if i == m then [Entry(0, start + m)] else []), true)
  }

  lemma OneEntryExact(start: nat, n: nat, m: nat)
    requires m < n < TWO31 && start < TWO63
    ensures Exact(OneEntry(start, n, m))
    ensures Rotated(OneEntry(start, n, m)) == OneEntry(start, n, m).slots
  {
    var w := OneEntry(start, n, m);
    assert forall r :: 0 <= r < n ==> Rotated(w)[r] == w.slots[r];
  }

  lemma OneEntryFlat(start: nat, n: nat, m: nat)
    requires m < n < TWO31 && start < TWO63
    ensures Flat(OneEntry(start, n, m)) == [Entry(0, start + m)]
  {
    var ss := OneEntry(start, n, m).slots;
    OneEntryExact(start, n, m);
    ConcatAt(ss, m);
    ConcatEmpty(ss[..m]);
    ConcatEmpty(ss[m + 1..]);
  }

  /** A truncated count misses an entry that is due. */
  lemma TruncationMisses(start: nat, gap: nat, n: nat) returns (w: Wheel<nat>)
    requires 0 < n < TWO31 && start + gap < TWO63 && !CountReaches(gap, n)
    ensures |w.slots| == n && w.start == start && Exact(w)
    ensures !TakesExactly(w, start + gap)
  {
    ReachingCount(gap, n);
    var c := Count(gap, n, true);
    var m := if c < 0 then 0 else c;
    w := OneEntry(start, n, m);
    OneEntryExact(start, n, m);
    OneEntryFlat(start, n, m);
    var e := Entry(0, start + m);
    assert Due([e], start + gap) == [e] + Due([], start + gap);
    if c >= 0 {
      FoundInOrder(w, c);
      ConcatEmpty(w.slots[..c]);
    }
  }

  /** Every millisecond wheel of n slots and this start is served exactly after this gap. */
  ghost predicate ServedExactly(start: nat, gap: nat, n: nat)
    requires n > 0
  {
    forall w: Wheel<nat> ::
      |w.slots| == n && w.start == start && Exact(w) ==> TakesExactly(w, start + gap)
  }

  lemma ReachingIsExact(start: nat, gap: nat, n: nat)
    requires 0 < n < TWO31 && start + gap < TWO63 && CountReaches(gap, n)
    ensures ServedExactly(start, gap, n)
  {
    ReachingCount(gap, n);
    var c := Count(gap, n, true);
    forall w: Wheel<nat> | |w.slots| == n && w.start == start && Exact(w)
      ensures TakesExactly(w, start + gap)
    {
      TakeCounted(w, start + gap, c);
    }
  }

  lemma CutShortIsInexact(start: nat, gap: nat, n: nat)
    requires 0 < n < TWO31 && start + gap < TWO63 && !CountReaches(gap, n)
    ensures !ServedExactly(start, gap, n)
  {
    var w := TruncationMisses(start, gap, n);
  }

  /** take_all_timeout is exact for every wheel just when the count, an `int` computed from a
      64-bit gap, is not cut short; gaps below 2^31 - 1 never are. */
  lemma TakeExactIff(start: nat, gap: nat, n: nat)
    requires 0 < n < TWO31 && start + gap < TWO63
    ensures ServedExactly(start, gap, n) <==> CountReaches(gap, n)
    ensures gap < TWO31 - 1 ==> CountReaches(gap, n)
  {
    if CountReaches(gap, n) {
      ReachingIsExact(start, gap, n);
    } else {
      CutShortIsInexact(start, gap, n);
    }
    ReachingCount(gap, n);
  }
}
