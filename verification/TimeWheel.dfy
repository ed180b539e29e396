/** The time wheel as the program keeps it: slot headers in a vector, a start time and a cursor. */
module TimeWheels {
  import opened DeadlineQueue
  import opened WheelModel
  import opened IntrusiveLists
  import opened Sequences

  /** The numbers of a list of nodes. */
  ghost function Ids(s: seq<TimeItem>): (r: seq<nat>)
    ensures |r| == |s| && forall i :: 0 <= i < |s| ==> r[i] == s[i].item.id
  {
    seq(|s|, i requires 0 <= i < |s| => s[i].item.id)
  }

  lemma IdsConcat(a: seq<TimeItem>, b: seq<TimeItem>)
    ensures Ids(a + b) == Ids(a) + Ids(b)
  {
  }

  lemma IdsTail(a: seq<TimeItem>)
    requires a != []
    ensures Ids([a[0]]) == [a[0].item.id] && Ids(a) == [a[0].item.id] + Ids(a[1..]) && Ids(a[1..]) == Ids(a)[1..]
  {
  }

  lemma IdsMembers(s: seq<TimeItem>)
    ensures forall x :: x in s ==> x.item.id in Ids(s)
  {
    forall x | x in s ensures x.item.id in Ids(s) {
      var k :| 0 <= k < |s| && s[k] == x;
      assert Ids(s)[k] == x.item.id;
    }
  }

  /** The queue entries a list of nodes stands for. */
  ghost function Entries(s: seq<TimeItem>): (r: seq<Entry<nat>>)
    ensures |r| == |s| && forall i :: 0 <= i < |s| ==> r[i] == EntryOf(s[i])
  {
    seq(|s|, i requires 0 <= i < |s| => EntryOf(s[i]))
  }

  ghost function EntryOf(x: TimeItem): Entry<nat> {
    Entry(x.item.id, x.expire)
  }

  /** Taking a node out of a list is taking the entries of its number out. */
  lemma {:induction false} EntriesMinus(s: seq<TimeItem>, x: TimeItem)
    requires forall y :: y in s && y.item.id == x.item.id ==> y == x
    ensures Entries(Minus(s, x)) == Without(Entries(s), x.item.id)
  {
    if s != [] {
      EntriesMinus(s[1..], x);
      assert Entries(s)[1..] == Entries(s[1..]);
      assert Entries(s)[0] == EntryOf(s[0]);
      assert s[0] in s;
    }
  }

  lemma EntriesConcat(a: seq<TimeItem>, b: seq<TimeItem>)
    ensures Entries(a + b) == Entries(a) + Entries(b)
  {
  }

  class TimeWheel {
    const slots: seq<TimeLink>
    const isms: bool
    var start: nat
    var index: nat

    /** Every slot list is well formed, with nodes from `nodes` only. */
    ghost predicate SlotsIn(nodes: set<TimeItem>)
      reads slots, nodes
    {
      && |slots| > 0 && Distinct(slots)
      && (forall l, x :: l in slots && x in l.items ==> x in nodes)
      && (forall l :: l in slots ==> l.Valid())
    }

    ghost predicate Valid(nodes: set<TimeItem>)
      reads this, slots, nodes
    {
      && |slots| < TWO31 && start < TWO63 && index < TWO64
      && SlotsIn(nodes)
    }

    /** Node x is in the list it names, a slot or `ret`. */
    ghost predicate Home(x: TimeItem, ret: TimeLink)
      reads x, slots, ret
    {
      && x.link != null && (x.link in slots || x.link == ret)
      && x in x.link.items
    }

    /** The slots and `ret` are well formed and hold just the nodes `nodes`. */
    ghost predicate Sound(ret: TimeLink, nodes: set<TimeItem>)
      reads slots, ret, nodes
    {
      && SlotsIn(nodes) && ret !in slots
      && (forall x :: x in ret.items ==> x in nodes) && ret.Valid()
      && (forall x :: x in nodes ==> Home(x, ret))
    }

    /** The entries slot by slot. */
    ghost function Lists(): (ss: seq<seq<Entry<nat>>>)
      reads slots
      ensures |ss| == |slots| && forall j :: 0 <= j < |slots| ==> ss[j] == Entries(slots[j].items)
    {
      seq(|slots|, j requires 0 <= j < |slots| reads slots => Entries(slots[j].items))
    }

    ghost function Model(): Wheel<nat>
      reads this, slots
    {
      Wheel(start, index, Lists(), isms)
    }

    constructor (size: nat, isms: bool, now: nat)
      requires 0 < size < TWO31 && now < TWO63
      ensures Valid({}) && |slots| == size && start == now && index == 0 && this.isms == isms
      ensures (forall l :: l in slots ==> l.items == []) && Flat(Model()) == []
      ensures if isms then Exact(Model()) else Coarse(Model())
      ensures forall l :: l in slots ==> fresh(l)
    {
      var v: seq<TimeLink> := [];
      while |v| < size
        invariant |v| <= size && Distinct(v)
        invariant forall l :: l in v ==> fresh(l) && l.Valid() && l.items == []
      {
        var l := new TimeLink();
        v := v + [l];
      }
      slots := v;
      this.isms := isms;
      start, index := now, 0;
      new;
      assert forall r :: 0 <= r < size ==> Rotated(Model())[r] == [];
      ConcatEmpty(Rotated(Model()));
    }

    /** The slot header add_timeout appends to. */
    ghost function Target(deadline: nat): (l: TimeLink)
      requires 0 < |slots| && start < TWO63 && deadline < TWO63
      reads this
      ensures l in slots
    {
      slots[SlotIndex(index, Diff(start, isms, deadline), |slots|)]
    }

    /** The list work of add_timeout. */
    method AppendTo(j: nat, x: TimeItem, ghost nodes: set<TimeItem>)
      requires SlotsIn(nodes) && j < |slots| && x.link == null
      modifies slots[j], slots[j].items`next, slots[j].items`prev, slots[j].items`link
      modifies x`next, x`prev, x`link
      ensures SlotsIn(nodes + {x})
      ensures slots[j].items == old(slots[j].items) + [x]
      ensures Lists() == old(Lists())[j := old(Lists()[j]) + [EntryOf(x)]]
      ensures x.link == slots[j] && forall y :: y in old(slots[j].items) ==> y.link == old(y.link)
    {
      var t := slots[j];
      forall l | l in slots && l != t ensures Apart(l.items, t.items) {
        DifferentListsApart(l, t);
      }
      t.Append(x);
      EntriesConcat(old(t.items), [x]);
      assert Entries([x]) == [EntryOf(x)];
      assert t.items[|t.items| - 1].link == t;
      forall y | y in old(t.items) ensures y.link == old(y.link) {
        t.NamesIt(y);
      }
    }

    /** The 64-bit difference of add_timeout, in slots. */
    method SlotsAhead(deadline: nat) returns (diff: nat)
      requires start < TWO63 && deadline < TWO63
      ensures diff == Diff(start, isms, deadline)
    {
      diff := (deadline - start) % TWO64;
      if !isms {
        diff := diff / 1000;
      }
    }

    /** add_timeout. The 64-bit difference of a deadline in the past wraps and is refused as too big. */
    method AddTimeout(x: TimeItem, ghost nodes: set<TimeItem>) returns (r: int)
      requires Valid(nodes) && x.link == null && x.expire < TWO63
      modifies Target(x.expire), Target(x.expire).items`next, Target(x.expire).items`prev, Target(x.expire).items`link
      modifies x`next, x`prev, x`link
      ensures Valid(nodes + {x})
      ensures Model() == AfterAdd(old(Model()), EntryOf(x))
      ensures r == if Accepts(old(Model()), x.expire) then 0 else -1
      ensures x.link == if r == 0 then Target(x.expire) else null
      ensures Target(x.expire) == old(Target(x.expire))
      ensures Target(x.expire).items == old(Target(x.expire).items) + if r == 0 then [x] else []
      ensures forall y :: y in old(Target(x.expire).items) ==> y.link == old(y.link)
    {
      var diff := SlotsAhead(x.expire);
      if diff > |slots| {
        return -1;
      }
      AppendTo(SlotIndex(index, diff, |slots|), x, nodes);
      r := 0;
    }

    /** The C++ arithmetic of a take is defined: `count++` does not overflow. */
    predicate TakeDefined(now: nat)
      reads this
    {
      now < TWO63 && (isms && start <= now ==> (now - start) % TWO32 != TWO31 - 1)
    }

    /** take_all_timeout: splices the slots from the cursor on, as many as the clock advanced, behind
        the caller's list. */
    method TakeAllTimeout(now: nat, ret: TimeLink, ghost nodes: set<TimeItem>)
      requires Valid(nodes) && TakeDefined(now)
      requires Sound(ret, nodes)
      modifies this, slots, ret, nodes`next, nodes`prev, nodes`link
      ensures Valid(nodes) && Sound(ret, nodes)
      ensures Model() == AfterTake(old(Model()), now).0
      ensures Entries(ret.items) == old(Entries(ret.items)) + AfterTake(old(Model()), now).1
    {
      if now < start {
        return;
      }
      var count := SlotCount(now);
      if count < 0 {
        return;
      }
      TakeAndMove(now, count, ret, nodes);
    }

    method TakeAndMove(now: nat, count: nat, ret: TimeLink, ghost nodes: set<TimeItem>)
      requires Valid(nodes) && start <= now < TWO63 && count <= |slots|
      requires Sound(ret, nodes)
      modifies this, slots, ret, nodes`next, nodes`prev, nodes`link
      ensures Valid(nodes) && Sound(ret, nodes)
      ensures start == now && index == Moved(old(index), count)
      ensures Took(old(Model()), count, old(Entries(ret.items)), ret)
    {
      TakeSlots(count, ret, nodes);
      MoveCursor(now, count);
    }

    method MoveCursor(now: nat, count: nat)
      requires index < TWO64 && count < TWO31
      modifies this`start, this`index
      ensures start == now && index == Moved(old(index), count)
    {
      start := now;
      index := (index + TWO64 + count - 1) % TWO64;
    }

    /** The `int count` of take_all_timeout. */
    method CountSlots(now: nat) returns (count: int)
      requires |slots| > 0 && start <= now && (isms ==> (now - start) % TWO32 != TWO31 - 1)
      ensures count == Count(now - start, |slots|, isms)
    {
      count := ToInt32(now - start);
      if !isms {
        count := TruncDiv(count, 1000) + 1;
      } else {
        CountDefined(now - start);
        count := count + 1;
      }
      if count > |slots| {
        count := |slots|;
      }
    }

    /** The count, and the take it stands for. */
    method SlotCount(now: nat) returns (count: int)
      requires |slots| > 0 && start <= now && TakeDefined(now)
      ensures count <= |slots|
      ensures count < 0 ==> AfterTake(Model(), now) == (Model(), [])
      ensures count >= 0 ==>
                AfterTake(Model(), now) == (Wheel(now, Moved(index, count), Emptied(Model(), count), isms),
                                            Concat(Found(Model(), count)))
    {
      count := CountSlots(now);
    }

    /** The list kept so far: the slots are emptied up to i and their entries follow `before`. */
    ghost predicate Took(w0: Wheel<nat>, i: nat, before: seq<Entry<nat>>, ret: TimeLink)
      requires |w0.slots| == |slots| > 0 && i <= |slots|
      reads slots, ret
    {
      && Lists() == Emptied(w0, i)
      && Entries(ret.items) == before + Concat(Found(w0, i))
    }

    lemma TookNothing(ret: TimeLink)
      requires |slots| > 0
      ensures Took(Model(), 0, Entries(ret.items), ret)
    {
      assert Entries(ret.items) + Concat(Found(Model(), 0)) == Entries(ret.items);
    }

    lemma TookNext(w0: Wheel<nat>, i: nat, before: seq<Entry<nat>>, j: nat,
                   lists: seq<seq<Entry<nat>>>, got: seq<Entry<nat>>)
      requires i < |w0.slots| && j == SlotIndex(w0.index, i, |w0.slots|)
      requires lists == Emptied(w0, i) && got == before + Concat(Found(w0, i))
      ensures lists[j := []] == Emptied(w0, i + 1)
      ensures got + lists[j] == before + Concat(Found(w0, i + 1))
    {
      assert Found(w0, i + 1)[..i] == Found(w0, i) && Found(w0, i + 1)[..i + 1] == Found(w0, i + 1);
      ConcatUpTo(Found(w0, i + 1), i);
    }

    method TakeSlots(count: nat, ret: TimeLink, ghost nodes: set<TimeItem>)
      requires Sound(ret, nodes) && count <= |slots|
      modifies slots, ret, nodes`next, nodes`prev, nodes`link
      ensures Sound(ret, nodes)
      ensures Took(old(Model()), count, old(Entries(ret.items)), ret)
    {
      ghost var w0, before := Model(), Entries(ret.items);
      TookNothing(ret);
      for i := 0 to count
        invariant Sound(ret, nodes)
        invariant Took(w0, i, before, ret)
      {
        TakeRound(i, ret, w0, before, nodes);
      }
    }

    /** One round of the loop, with what was taken so far. */
    method TakeRound(i: nat, ret: TimeLink, ghost w0: Wheel<nat>, ghost before: seq<Entry<nat>>,
                     ghost nodes: set<TimeItem>)
      requires |w0.slots| == |slots| && w0.index == index && i < |slots|
      requires Sound(ret, nodes)
      requires Took(w0, i, before, ret)
      modifies slots, ret, nodes`next, nodes`prev, nodes`link
      ensures Sound(ret, nodes)
      ensures Took(w0, i + 1, before, ret)
    {
      var j := SlotIndex(index, i, |slots|);
      TookNext(w0, i, before, j, Lists(), Entries(ret.items));
      TakeSlot(j, ret, nodes);
    }

    /** Slot j moves behind `ret`. */
    method TakeSlot(j: nat, ret: TimeLink, ghost nodes: set<TimeItem>)
      requires Sound(ret, nodes) && j < |slots|
      modifies slots, ret, nodes`next, nodes`prev, nodes`link
      ensures Sound(ret, nodes)
      ensures Lists() == old(Lists())[j := []]
      ensures Entries(ret.items) == old(Entries(ret.items)) + old(Lists()[j])
    {
      SpliceSlot(j, ret, nodes);
      EntriesConcat(old(ret.items), old(slots[j].items));
      forall x | x in nodes ensures Home(x, ret) {
        var l := old(x.link);
        if l == slots[j] || l == ret {
          assert x in old(ret.items) || x in old(slots[j].items);
          assert x in ret.items;
          ret.NamesIt(x);
        } else {
          l.NamesIt(x);
        }
      }
    }

    method SpliceSlot(j: nat, ret: TimeLink, ghost nodes: set<TimeItem>)
      requires SlotsIn(nodes) && j < |slots|
      requires ret !in slots && ret.Valid() && (forall x :: x in ret.items ==> x in nodes)
      modifies slots, ret, nodes`next, nodes`prev, nodes`link
      ensures SlotsIn(nodes) && ret.Valid()
      ensures ret.items == old(ret.items) + old(slots[j].items) && slots[j].items == []
      ensures forall l :: l in slots && l != slots[j] ==> l.items == old(l.items)
    {
      var t := slots[j];
      forall l | l in slots && l != t ensures Apart(l.items, t.items) && Apart(l.items, ret.items) {
        DifferentListsApart(l, t);
        DifferentListsApart(l, ret);
      }
      ret.Splice(t);
    }

    /** removeitem on a node of this wheel. */
    method Remove(x: TimeItem, ghost nodes: set<TimeItem>)
      requires Valid(nodes) && x.link != null && x.link in slots && x in x.link.items
      requires forall y :: y in nodes && y.item.id == x.item.id ==> y == x
      modifies x.link, x.link.items`next, x.link.items`prev, x.link.items`link
      ensures Valid(nodes)
      ensures Model() == AfterRemove(old(Model()), x.item.id)
      ensures x.link == null
      ensures forall y :: y in old(x.link.items) && y != x ==> y.link == old(y.link) && y in old(x.link).items
    {
      RemoveNode(x, nodes);
      forall y | y in old(x.link.items) && y != x ensures y in old(x.link).items {
        MinusMember(old(x.link.items), x, y);
      }
      forall j | 0 <= j < |slots| ensures Lists()[j] == Without(old(Lists())[j], x.item.id) {
        EntriesMinus(old(slots[j].items), x);
        if slots[j] != old(x.link) {
          if x in slots[j].items { slots[j].NamesIt(x); }
          MinusAbsent(slots[j].items, x);
        }
      }
      assert Lists() == AfterRemove(old(Model()), x.item.id).slots;
    }

    method RemoveNode(x: TimeItem, ghost nodes: set<TimeItem>)
      requires SlotsIn(nodes) && x.link != null && x.link in slots && x in x.link.items
      modifies x.link, x.link.items`next, x.link.items`prev, x.link.items`link
      ensures SlotsIn(nodes) && x.link == null
      ensures old(x.link).items == Minus(old(x.link.items), x)
      ensures forall y :: y in old(x.link.items) && y != x ==> y.link == old(y.link)
    {
      var t := x.link;
      forall l | l in slots && l != t ensures Apart(l.items, t.items) {
        DifferentListsApart(l, t);
      }
      RemoveItem(x);
      forall y | y in t.items ensures y in nodes {
        MinusMember(old(t.items), x, y);
      }
      forall y | y in old(t.items) && y != x ensures y.link == old(y.link) {
        MinusMember(old(t.items), x, y);
        t.NamesIt(y);
      }
    }
  }
}
