/** The reference the hashed time wheel is measured against: a queue of deadlines kept in
    deadline order, entries with the same deadline staying in the order they were inserted. */
module DeadlineQueue {

  datatype Entry<K> = Entry(key: K, deadline: nat)

  ghost predicate Sorted<K>(q: seq<Entry<K>>) {
    forall i, j :: 0 <= i < j < |q| ==> q[i].deadline <= q[j].deadline
  }

  ghost predicate AllBy<K>(q: seq<Entry<K>>, limit: nat) {
    forall e :: e in q ==> e.deadline <= limit
  }

  ghost predicate AllAfter<K>(q: seq<Entry<K>>, limit: nat) {
    forall e :: e in q ==> e.deadline > limit
  }

  /** Insertion behind every entry that is due no later. */
  function Insert<K>(q: seq<Entry<K>>, e: Entry<K>): seq<Entry<K>> {
    if q == [] || e.deadline < q[0].deadline then [e] + q
    else [q[0]] + Insert(q[1..], e)
  }

  /** The entries due at `now`, in queue order. */
  function Due<K>(q: seq<Entry<K>>, now: nat): seq<Entry<K>> {
    if q == [] then []
    else if q[0].deadline <= now then [q[0]] + Due(q[1..], now)
    else Due(q[1..], now)
  }

  /** The entries not yet due at `now`, in queue order. */
  function Later<K>(q: seq<Entry<K>>, now: nat): seq<Entry<K>> {
    if q == [] then []
    else if q[0].deadline > now then [q[0]] + Later(q[1..], now)
    else Later(q[1..], now)
  }

  /** The queue without the entries of key `k`. */
  function Without<K(==)>(q: seq<Entry<K>>, k: K): seq<Entry<K>> {
    if q == [] then []
    else if q[0].key == k then Without(q[1..], k)
    else [q[0]] + Without(q[1..], k)
  }

  /** Between the entries due no later and the entries due later, the new entry goes in the middle. */
  lemma {:induction false} InsertSplits<K>(a: seq<Entry<K>>, b: seq<Entry<K>>, e: Entry<K>)
    requires AllBy(a, e.deadline) && AllAfter(b, e.deadline)
    ensures Insert(a + b, e) == a + [e] + b
  {
    if a == [] {
      assert a + b == b;
      if b != [] {
        assert b[0] in b;
      }
    } else {
      assert a[0] in a;
      assert (a + b)[1..] == a[1..] + b;
      InsertSplits(a[1..], b, e);
    }
  }

  /** How many entries at the front are due no later than `limit`. */
  function DueCount<K>(q: seq<Entry<K>>, limit: nat): (k: nat)
    ensures k <= |q|
    ensures AllBy(q[..k], limit)
    ensures k < |q| ==> q[k].deadline > limit
  {
    if q == [] || q[0].deadline > limit then 0
    else
      var k := 1 + DueCount(q[1..], limit);
      assert q[..k] == [q[0]] + q[1..][..k - 1];
      k
  }

  lemma SortedSuffixIsLater<K>(q: seq<Entry<K>>, limit: nat)
    requires Sorted(q)
    ensures AllAfter(q[DueCount(q, limit)..], limit)
  {
    var k := DueCount(q, limit);
    forall x | x in q[k..] ensures x.deadline > limit {
      var i :| k <= i < |q| && q[i] == x;
      assert q[k].deadline <= q[i].deadline;
    }
  }

  lemma SortedMiddle<K>(a: seq<Entry<K>>, b: seq<Entry<K>>, e: Entry<K>)
    requires Sorted(a) && Sorted(b)
    requires AllBy(a, e.deadline) && AllAfter(b, e.deadline)
    ensures Sorted(a + [e] + b)
  {
    var s := a + [e] + b;
    forall i, j | 0 <= i < j < |s| ensures s[i].deadline <= s[j].deadline {
      if i < |a| { assert s[i] in a; }
      if j > |a| { assert s[j] in b; }
    }
  }

  lemma SortedSlices<K>(q: seq<Entry<K>>, k: nat)
    requires Sorted(q) && k <= |q|
    ensures Sorted(q[..k]) && Sorted(q[k..])
  {
    forall i, j | 0 <= i < j < |q[k..]| ensures q[k..][i].deadline <= q[k..][j].deadline {
      assert q[k..][i] == q[k + i] && q[k..][j] == q[k + j];
    }
  }

  lemma SortedCons<K>(e: Entry<K>, q: seq<Entry<K>>)
    requires Sorted(q) && forall x :: x in q ==> e.deadline <= x.deadline
    ensures Sorted([e] + q)
  {
    var s := [e] + q;
    forall i, j | 0 <= i < j < |s| ensures s[i].deadline <= s[j].deadline {
      assert s[j] == q[j - 1] && q[j - 1] in q;
    }
  }

  /** Insertion keeps the order and is stable: it changes nothing else, puts the entry behind
      everything due no later and in front of everything due later. */
  lemma InsertIsStable<K>(q: seq<Entry<K>>, e: Entry<K>)
    requires Sorted(q)
    ensures var k := DueCount(q, e.deadline);
            && Insert(q, e) == q[..k] + [e] + q[k..]
            && AllBy(q[..k], e.deadline) && AllAfter(q[k..], e.deadline)
    ensures Sorted(Insert(q, e))
  {
    var k := DueCount(q, e.deadline);
    SortedSuffixIsLater(q, e.deadline);
    InsertSplits(q[..k], q[k..], e);
    assert q == q[..k] + q[k..];
    SortedSlices(q, k);
    SortedMiddle(q[..k], q[k..], e);
  }

  lemma {:induction false} DueOfSplit<K>(a: seq<Entry<K>>, b: seq<Entry<K>>, now: nat)
    requires AllBy(a, now) && AllAfter(b, now)
    ensures Due(a + b, now) == a
    ensures Later(a + b, now) == b
  {
    if a != [] {
      assert a[0] in a;
      assert (a + b)[1..] == a[1..] + b;
      DueOfSplit(a[1..], b, now);
    } else if b != [] {
      assert a + b == b;
      assert b[0] in b;
      assert b[1..] == [] + b[1..];
      DueOfSplit([], b[1..], now);
    }
  }

  /** Taking from a sorted queue takes a prefix: nothing is lost, invented or reordered, and an
      entry is taken just when it is due. */
  lemma TakeIsPrefix<K>(q: seq<Entry<K>>, now: nat)
    requires Sorted(q)
    ensures Due(q, now) + Later(q, now) == q
    ensures AllBy(Due(q, now), now) && AllAfter(Later(q, now), now)
    ensures Sorted(Due(q, now)) && Sorted(Later(q, now))
  {
    var k := DueCount(q, now);
    SortedSuffixIsLater(q, now);
    DueOfSplit(q[..k], q[k..], now);
    assert q == q[..k] + q[k..];
    SortedSlices(q, k);
  }

  lemma {:induction false} WithoutConcat<K>(a: seq<Entry<K>>, b: seq<Entry<K>>, k: K)
    ensures Without(a + b, k) == Without(a, k) + Without(b, k)
  {
    if a == [] {
      assert a + b == b;
    } else {
      assert (a + b)[1..] == a[1..] + b;
      WithoutConcat(a[1..], b, k);
    }
  }

  lemma {:induction false} WithoutMember<K>(q: seq<Entry<K>>, k: K, e: Entry<K>)
    ensures e in Without(q, k) <==> e in q && e.key != k
  {
    if q != [] {
      WithoutMember(q[1..], k, e);
      assert q == [q[0]] + q[1..];
    }
  }

  lemma {:induction false} WithoutAbsent<K>(q: seq<Entry<K>>, k: K)
    requires forall e :: e in q ==> e.key != k
    ensures Without(q, k) == q
  {
    if q != [] {
      assert q[0] in q;
      WithoutAbsent(q[1..], k);
    }
  }
}
