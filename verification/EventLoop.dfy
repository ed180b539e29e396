/** The list work of one round of the event loop, on the linked structures themselves. */
module EventLoops {
  import opened DeadlineQueue
  import opened WheelModel
  import opened Sequences
  import opened IntrusiveLists
  import opened TimeWheels

  class EventLoop {
    const wheel: TimeWheel
    const active: TimeLink
    const timeout: TimeLink
    var itemMap: map<int, CoEpollItem>
    /** What the kernel watches: descriptors and the records it reports for them. */
    ghost var interest: map<int, CoEpollItem>
    /** The waits that have begun and not ended, and the number of the next. */
    ghost var pool: set<TimeItem>
    ghost var next: nat
    /** The nodes of the pool by number. */
    ghost var nodes: map<nat, TimeItem>

    /** Every list is well formed, and every linked node of the pool is in exactly one list: the one
        its link names. */
    ghost predicate Valid()
      reads this, wheel, wheel.slots, active, timeout, pool
    {
      Formed() && forall x :: x in pool ==> AtHome(x)
    }

    ghost predicate Formed()
      reads this, wheel, wheel.slots, active, timeout, pool
    {
      && active != timeout && active !in wheel.slots && timeout !in wheel.slots
      && (forall x :: x in active.items ==> x in pool)
      && (forall x :: x in timeout.items ==> x in pool)
      && wheel.Valid(pool) && active.Valid() && timeout.Valid()
    }

    /** The books are in order: every node of the pool is found under its number, and the kernel watches
        what the map holds. */
    ghost predicate Accounted()
      reads this
    {
      && interest == itemMap
      && (forall x :: x in pool ==> x.item.id in nodes && nodes[x.item.id] == x)
      && (forall i :: i in nodes ==> i < next && nodes[i] in pool && nodes[i].item.id == i)
    }

    ghost predicate AtHome(x: TimeItem)
      reads x, wheel.slots, active, timeout
    {
      x.link != null ==>
        && (x.link == active || x.link == timeout || x.link in wheel.slots)
        && x in x.link.items
    }

    constructor (size: nat, now: nat)
      requires 0 < size < TWO31 && now < TWO63
      ensures Valid() && Accounted()
      ensures fresh(active) && fresh(timeout) && fresh(wheel) && forall l :: l in wheel.slots ==> fresh(l)
      ensures active.items == [] && timeout.items == [] && pool == {} && itemMap == map[] && next == 0 && nodes == map[]
      ensures |wheel.slots| == size && wheel.start == now && wheel.index == 0 && wheel.isms
      ensures forall l :: l in wheel.slots ==> l.items == []
    {
      active := new TimeLink();
      timeout := new TimeLink();
      wheel := new TimeWheel(size, true, now);
      itemMap, interest, pool, next, nodes := map[], map[], {}, 0, map[];
    }

    /** What the ready loop finds of an item epoll reports: in the wheel if it has a deadline, else
        in no list. */
    ghost predicate Ready(x: TimeItem)
      reads this, x
    {
      && x in pool
      && if x.expire > 0 then x.link != null && x.link in wheel.slots else x.link == null
    }

    /** One round of the ready loop. */
    method ReadyOne(x: TimeItem)
      requires Valid() && Accounted() && Ready(x)
      modifies active, wheel.slots, pool`next, pool`prev, pool`link
      ensures Valid() && active.items == old(active.items) + [x]
      ensures wheel.Model() == AfterRemove(old(wheel.Model()), x.item.id)
      ensures timeout.items == old(timeout.items)
      ensures forall y :: y in pool && y != x ==> y.link == old(y.link)
    {
      if x.expire > 0 {
        Detach(x);
      } else {
        assert wheel.Model() == AfterRemove(wheel.Model(), x.item.id) by {
          UnlinkedIsAbsent(x);
        }
      }
      // the "add active error" return: never taken
      assert x.link == null;
      Attach(x);
    }

    lemma UnlinkedIsAbsent(x: TimeItem)
      requires Valid() && Accounted() && x in pool && x.link == null
      ensures wheel.Model() == AfterRemove(wheel.Model(), x.item.id)
    {
      forall j | 0 <= j < |wheel.slots| ensures Without(wheel.Lists()[j], x.item.id) == wheel.Lists()[j] {
        var l := wheel.slots[j];
        forall e | e in Entries(l.items) ensures e.key != x.item.id {
          var k :| 0 <= k < |l.items| && Entries(l.items)[k] == e;
          l.NamesIt(l.items[k]);
        }
        WithoutAbsent(Entries(l.items), x.item.id);
      }
    }

    lemma OneOfItsNumber(x: TimeItem)
      requires Accounted() && x in pool
      ensures forall y :: y in pool && y.item.id == x.item.id ==> y == x
    {
    }

    method Detach(x: TimeItem)
      requires Valid() && Accounted() && x in pool && x.link != null && x.link in wheel.slots
      modifies wheel.slots, pool`next, pool`prev, pool`link
      ensures Valid() && x.link == null
      ensures wheel.Model() == AfterRemove(old(wheel.Model()), x.item.id)
      ensures active.items == old(active.items) && timeout.items == old(timeout.items)
      ensures forall y :: y in pool && y != x ==> y.link == old(y.link)
    {
      OneOfItsNumber(x);
      LeaveWheel(x);
      forall y | y in pool && y != x ensures AtHome(y) {
        assert old(AtHome(y));
      }
    }

    /** Only the slot the node leaves changes, and no other node moves. */
    method LeaveWheel(x: TimeItem)
      requires wheel.Valid(pool) && active.Valid() && timeout.Valid()
      requires active !in wheel.slots && timeout !in wheel.slots
      requires x.link != null && x.link in wheel.slots && x in x.link.items
      requires forall y :: y in pool && y.item.id == x.item.id ==> y == x
      modifies wheel.slots, pool`next, pool`prev, pool`link
      ensures wheel.Valid(pool) && active.Valid() && timeout.Valid() && x.link == null
      ensures wheel.Model() == AfterRemove(old(wheel.Model()), x.item.id)
      ensures forall y :: y in pool && y != x ==> y.link == old(y.link)
      ensures forall l, y :: l in wheel.slots && y in old(l.items) && y != x ==> y in l.items
    {
      var t := x.link;
      DifferentListsApart(t, active);
      DifferentListsApart(t, timeout);
      wheel.Remove(x, pool);
    }

    method Attach(x: TimeItem)
      requires Valid() && x in pool && x.link == null
      modifies active, pool`next, pool`prev, pool`link
      ensures Valid() && active.items == old(active.items) + [x]
      ensures wheel.Model() == old(wheel.Model()) && timeout.items == old(timeout.items)
      ensures forall y :: y in pool && y != x ==> y.link == old(y.link)
    {
      AppendActive(x);
      forall y | y in pool && y != x ensures AtHome(y) {
        assert old(AtHome(y));
      }
    }

    method AppendActive(x: TimeItem)
      requires Formed() && x in pool && x.link == null
      modifies active, pool`next, pool`prev, pool`link
      ensures Formed() && active.items == old(active.items) + [x] && x.link == active
      ensures wheel.Model() == old(wheel.Model()) && timeout.items == old(timeout.items)
      ensures forall y :: y in pool && y != x ==> y.link == old(y.link)
    {
      DifferentListsApart(active, timeout);
      forall l | l in wheel.slots ensures Apart(active.items, l.items) {
        DifferentListsApart(active, l);
      }
      active.Append(x);
      forall y | y in old(active.items) || y == x ensures y.link == active {
        active.NamesIt(y);
      }
    }

    method ReadyAt(events: seq<TimeItem>, i: nat)
      requires Valid() && Accounted() && Distinct(events) && i < |events|
      requires forall k :: i <= k < |events| ==> Ready(events[k])
      modifies active, wheel.slots, pool`next, pool`prev, pool`link
      ensures Valid() && active.items == old(active.items) + [events[i]]
      ensures wheel.Model() == AfterRemove(old(wheel.Model()), events[i].item.id)
      ensures timeout.items == old(timeout.items)
      ensures forall k :: i < k < |events| ==> Ready(events[k])
      ensures forall y :: y in pool && y !in events ==> y.link == old(y.link)
    {
      ReadyOne(events[i]);
    }

    /** The ready loop: every reported item leaves the wheel and joins the active list, in the order
        reported. */
    method AddReady(events: seq<TimeItem>)
      requires Valid() && Accounted() && Distinct(events) && forall x :: x in events ==> Ready(x)
      modifies active, wheel.slots, pool`next, pool`prev, pool`link
      ensures Valid() && active.items == old(active.items) + events
      ensures wheel.Model() == RemoveAll(old(wheel.Model()), Ids(events))
      ensures timeout.items == old(timeout.items)
      ensures forall y :: y in pool && y !in events ==> y.link == old(y.link)
    {
      ghost var w0, a0, t0 := wheel.Model(), active.items, timeout.items;
      for i := 0 to |events|
        invariant Valid() && active.items == a0 + events[..i] && timeout.items == t0
        invariant wheel.Model() == RemoveAll(w0, Ids(events)[..i])
        invariant forall k :: i <= k < |events| ==> Ready(events[k])
        invariant forall y :: y in pool && y !in events ==> y.link == old(y.link)
      {
        RemoveAllNext(w0, Ids(events), i);
        TakeNext(a0, events, i);
        ReadyAt(events, i);
      }
      assert events[..|events|] == events && Ids(events)[..|events|] == Ids(events);
    }

    /** The loop that tells the items of the timeout list they timed out. */
    method MarkTimeouts()
      requires Valid() && Accounted()
      modifies (set x | x in pool :: x.item)`isTimeout
      ensures forall x :: x in pool ==> x.item.isTimeout == (x in timeout.items || old(x.item.isTimeout))
    {
      var ti := timeout.head;
      ghost var k := 0;
      while ti != null
        invariant 0 <= k <= |timeout.items|
        invariant ti == if k == |timeout.items| then null else timeout.items[k]
        invariant forall x :: x in pool ==> x.item.isTimeout == (x in timeout.items[..k] || old(x.item.isTimeout))
        decreases |timeout.items| - k
      {
        assert timeout.items[k] in pool;
        ti.item.isTimeout := true;
        assert timeout.items[..k + 1] == timeout.items[..k] + [ti];
        ti := ti.next;
        k := k + 1;
      }
      assert timeout.items[..k] == timeout.items;
    }

    /** The nodes the wheel and the timeout list hold. */
    ghost function OffActive(): set<TimeItem>
      reads this, pool
    {
      set x | x in pool && x.link != null && x.link != active
    }

    /** take_all_timeout into the timeout list. */
    method TakeDue(now: nat)
      requires Valid() && wheel.TakeDefined(now)
      requires timeout.items == []
      modifies wheel, wheel.slots, timeout, pool`next, pool`prev, pool`link
      ensures Valid() && active.items == old(active.items)
      ensures wheel.Model() == AfterTake(old(wheel.Model()), now).0
      ensures Entries(timeout.items) == AfterTake(old(wheel.Model()), now).1
      ensures forall y :: y in pool && old(y.link) == null ==> y.link == null
    {
      ghost var off := OffActive();
      OffActiveHoldsWheel();
      TakeOff(now, off);
      Reassemble(off);
    }

    /** The take, on the nodes it may move. */
    method TakeOff(now: nat, ghost off: set<TimeItem>)
      requires wheel.Valid(off) && wheel.Sound(timeout, off) && wheel.TakeDefined(now) && timeout.items == []
      modifies wheel, wheel.slots, timeout, off`next, off`prev, off`link
      ensures wheel.Valid(off) && wheel.Sound(timeout, off)
      ensures wheel.Model() == AfterTake(old(wheel.Model()), now).0
      ensures Entries(timeout.items) == AfterTake(old(wheel.Model()), now).1
    {
      ghost var before, due := Entries(timeout.items), AfterTake(wheel.Model(), now).1;
      wheel.TakeAllTimeout(now, timeout, off);
      AppendToNothing(before, due);
    }

    lemma OffActiveHoldsWheel()
      requires Valid()
      ensures wheel.SlotsIn(OffActive()) && OffActive() <= pool
      ensures forall x :: x in timeout.items ==> x in OffActive()
      ensures forall x :: x in active.items ==> x !in OffActive()
      ensures forall x :: x in OffActive() ==> wheel.Home(x, timeout)
    {
      forall l, x | l in wheel.slots && x in l.items ensures x in OffActive() {
        l.NamesIt(x);
      }
      forall x | x in timeout.items ensures x in OffActive() {
        timeout.NamesIt(x);
      }
      forall x | x in active.items ensures x !in OffActive() {
        active.NamesIt(x);
      }
    }

    /** The whole is well formed again once the part `nodes` of the pool is. */
    lemma Reassemble(nodes: set<TimeItem>)
      requires active != timeout && active !in wheel.slots && timeout !in wheel.slots && nodes <= pool
      requires (forall x :: x in active.items ==> x in pool) && active.Valid()
      requires (forall x :: x in timeout.items ==> x in nodes) && timeout.Valid()
      requires wheel.Valid(nodes)
      requires forall x :: x in nodes ==> wheel.Home(x, timeout)
      requires forall x :: x in pool && x !in nodes ==> AtHome(x)
      ensures Valid()
    {
      forall x | x in pool ensures AtHome(x) {
        if x in nodes {
          assert wheel.Home(x, timeout);
        }
      }
    }

    /** The splice of the timeout list into the active list. */
    method MergeLists()
      requires Valid()
      modifies active, timeout, pool`next, pool`prev, pool`link
      ensures Valid() && active.items == old(active.items) + old(timeout.items) && timeout.items == []
      ensures wheel.Model() == old(wheel.Model())
      ensures forall y :: y in pool && old(y.link) == null ==> y.link == null
    {
      SpliceActive();
      forall x | x in pool ensures AtHome(x) {
        assert old(AtHome(x));
      }
    }

    method SpliceActive()
      requires Formed()
      modifies active, timeout, pool`next, pool`prev, pool`link
      ensures Formed() && active.items == old(active.items) + old(timeout.items) && timeout.items == []
      ensures wheel.Model() == old(wheel.Model())
      ensures forall x :: x in pool ==> x.link == if x in old(timeout.items) then active else old(x.link)
    {
      forall l | l in wheel.slots ensures Apart(l.items, active.items) && Apart(l.items, timeout.items) {
        DifferentListsApart(l, active);
        DifferentListsApart(l, timeout);
      }
      active.Splice(timeout);
      forall x | x in active.items ensures x.link == active {
        active.NamesIt(x);
      }
    }

    /** The deadline half of a round: the due items are taken from the wheel in deadline order, told
        they timed out and moved behind the active list. */
    method MergeTimeouts(now: nat) returns (ghost due: seq<TimeItem>)
      requires Valid() && Accounted() && wheel.TakeDefined(now)
      requires timeout.items == []
      modifies wheel, wheel.slots, active, timeout, pool`next, pool`prev, pool`link
      modifies (set x | x in pool :: x.item)`isTimeout
      ensures Valid() && timeout.items == []
      ensures wheel.Model() == AfterTake(old(wheel.Model()), now).0
      ensures Entries(due) == AfterTake(old(wheel.Model()), now).1
      ensures active.items == old(active.items) + due
      ensures forall x :: x in pool ==> x.item.isTimeout == (x in due || old(x.item.isTimeout))
      ensures forall y :: y in pool && old(y.link) == null ==> y.link == null
    {
      TakeDue(now);
      due := timeout.items;
      MarkTimeouts();
      MergeLists();
    }

    /** One round up to its drain: the items epoll reported leave the wheel and join the active list,
        then those due among the rest follow, in deadline order, marked as timed out. */
    method PollRound(events: seq<TimeItem>, now: nat) returns (ghost due: seq<TimeItem>)
      requires Valid() && Accounted() && timeout.items == []
      requires Distinct(events) && forall x :: x in events ==> Ready(x)
      requires wheel.TakeDefined(now)
      modifies wheel, wheel.slots, active, timeout, pool`next, pool`prev, pool`link
      modifies (set x | x in pool :: x.item)`isTimeout
      ensures Valid() && timeout.items == []
      ensures active.items == old(active.items) + events + due
      ensures (wheel.Model(), Entries(due)) == AfterTake(RemoveAll(old(wheel.Model()), Ids(events)), now)
      ensures forall x :: x in pool ==> x.item.isTimeout == (x in due || old(x.item.isTimeout))
      ensures forall y :: y in pool && y !in events && old(y.link) == null ==> y.link == null
    {
      AddReady(events);
      due := MergeTimeouts(now);
    }

    /** The pop of the drain loop, before its coroutine is resumed. */
    method PopActive() returns (x: TimeItem)
      requires Valid() && active.items != []
      modifies active, pool`next, pool`prev, pool`link
      ensures Valid() && old(active.items) == [x] + active.items && x.link == null
      ensures wheel.Model() == old(wheel.Model()) && timeout.items == old(timeout.items)
      ensures forall y :: y in pool && y != x ==> y.link == old(y.link)
    {
      x := PopFormed();
      forall y | y in pool && y != x ensures AtHome(y) {
        assert old(AtHome(y));
      }
    }

    method PopFormed() returns (x: TimeItem)
      requires Formed() && active.items != []
      modifies active, pool`next, pool`prev, pool`link
      ensures Formed() && old(active.items) == [x] + active.items && x.link == null
      ensures wheel.Model() == old(wheel.Model()) && timeout.items == old(timeout.items)
      ensures forall y :: y in pool && y != x ==> y.link == old(y.link)
    {
      DifferentListsApart(active, timeout);
      forall l | l in wheel.slots ensures Apart(l.items, active.items) {
        DifferentListsApart(l, active);
      }
      x := active.PopHead();
      forall y | y in active.items ensures y.link == active {
        active.NamesIt(y);
      }
    }

    /** A new node enters the pool without entering a list. */
    ghost method Admit(x: TimeItem)
      requires Valid() && x !in pool && x.link == null && x.item.id == next
      modifies this`pool, this`next, this`nodes
      ensures Valid() && pool == old(pool) + {x} && next == old(next) + 1 && nodes == old(nodes)[x.item.id := x]
      ensures old(Accounted()) ==> Accounted()
    {
      pool, nodes, next := pool + {x}, nodes[next := x], next + 1;
    }

    /** add_timeout for a node of the pool. */
    method Enroll(x: TimeItem)
      requires Valid() && x in pool && x.link == null && x.expire < TWO63
      modifies wheel.slots, pool`next, pool`prev, pool`link
      ensures Valid() && active.items == old(active.items) && timeout.items == old(timeout.items)
      ensures wheel.Model() == AfterAdd(old(wheel.Model()), EntryOf(x))
      ensures forall y :: y in pool && y != x ==> y.link == old(y.link)
    {
      EnterWheel(x);
      forall y | y in pool && y != x ensures AtHome(y) {
        assert old(AtHome(y));
      }
    }

    /** Only the slot the node enters changes, and no other node moves. */
    method EnterWheel(x: TimeItem)
      requires Valid() && x in pool && x.link == null && x.expire < TWO63
      modifies wheel.slots, pool`next, pool`prev, pool`link
      ensures wheel.Valid(pool) && active.Valid() && timeout.Valid()
      ensures wheel.Model() == AfterAdd(old(wheel.Model()), EntryOf(x))
      ensures forall y :: y in pool && y != x ==> y.link == old(y.link)
      ensures forall l, y :: l in wheel.slots && y in old(l.items) ==> y in l.items
      ensures x.link != null ==> x.link in wheel.slots && x in x.link.items
    {
      ghost var t := wheel.Target(x.expire);
      DifferentListsApart(t, active);
      DifferentListsApart(t, timeout);
      var r := wheel.AddTimeout(x, pool);
      assert pool + {x} == pool;
    }

    /** co_epoll::add: a descriptor already there is refused. */
    method EpollAdd(fd: int, item: CoEpollItem) returns (r: int)
      requires interest == itemMap
      modifies this`itemMap, this`interest
      ensures interest == itemMap && r == if fd in old(itemMap) then -1 else 0
      ensures itemMap == if fd in old(itemMap) then old(itemMap) else old(itemMap)[fd := item]
    {
      if fd in itemMap {
        return -1;
      }
      itemMap := itemMap[fd := item];
      CtlAdd(fd, item);
      r := 0;
    }

    /** The kernel refuses to watch a descriptor twice. */
    ghost method CtlAdd(fd: int, item: CoEpollItem)
      modifies this`interest
      ensures interest == if fd in old(interest) then old(interest) else old(interest)[fd := item]
    {
      if fd !in interest {
        interest := interest[fd := item];
      }
    }

    /** co_epoll::del: a descriptor that is not there is refused. */
    method EpollDel(fd: int) returns (r: int)
      requires interest == itemMap
      modifies this`itemMap, this`interest
      ensures interest == itemMap == old(itemMap) - {fd} && r == if fd in old(itemMap) then 0 else -1
    {
      if fd !in itemMap {
        assert itemMap - {fd} == itemMap;
        return -1;
      }
      interest := interest - {fd};
      itemMap := itemMap - {fd};
      r := 0;
    }

    /** register_event up to its yield. It returns no node when it refuses: a timeout beyond the wheel
        changes nothing, a timeout of 0 or below -1 is noticed only after the descriptor was added.
        The answers of epoll add and of add_timeout are ignored. */
    method RegisterEvent(fd: int, ms: int, now: nat, co: nat) returns (x: TimeItem?, item: CoEpollItem?)
      requires Valid() && Accounted() && (ms > 0 ==> now + ms < TWO63)
      modifies this, wheel.slots, pool`next, pool`prev, pool`link
      ensures Valid() && Accounted() && active.items == old(active.items) && timeout.items == old(timeout.items)
      ensures item != null <==> ms <= |wheel.slots|
      ensures item != null ==> fresh(item) && item.fd == fd && item.co == co && !item.isTimeout
      ensures itemMap == if item == null || fd <= -1 || fd in old(itemMap) then old(itemMap)
                         else old(itemMap)[fd := item]
      ensures x != null <==> ms <= |wheel.slots| && (ms > 0 || ms == -1)
      ensures x != null ==> fresh(x) && x.item == item && x.expire == if ms > 0 then now + ms else 0
      ensures item != null ==> item.id == old(next)
      ensures pool == old(pool) + if x == null then {} else {x}
      ensures nodes == if x == null then old(nodes) else old(nodes)[old(next) := x]
      ensures next == old(next) + if x != null || (item != null && fd > -1 && fd !in old(itemMap)) then 1 else 0
      ensures wheel.Model() == if x != null && ms > 0 then AfterAdd(old(wheel.Model()), EntryOf(x))
                               else old(wheel.Model())
      ensures forall y :: y in old(pool) ==> y.link == old(y.link)
    {
      if ms > |wheel.slots| {
        return null, null;
      }
      item := new CoEpollItem(fd, co, next);
      x := RegisterItem(fd, ms, now, item);
    }

    /** The rest of it, with the new record. */
    method RegisterItem(fd: int, ms: int, now: nat, item: CoEpollItem) returns (x: TimeItem?)
      requires Valid() && Accounted() && (ms > 0 ==> now + ms < TWO63) && item.id == next
      modifies this, wheel.slots, pool`next, pool`prev, pool`link
      ensures Valid() && Accounted() && active.items == old(active.items) && timeout.items == old(timeout.items)
      ensures itemMap == if fd <= -1 || fd in old(itemMap) then old(itemMap) else old(itemMap)[fd := item]
      ensures x != null <==> ms > 0 || ms == -1
      ensures x != null ==> fresh(x) && x.item == item && x.expire == if ms > 0 then now + ms else 0
      ensures pool == old(pool) + if x == null then {} else {x}
      ensures nodes == if x == null then old(nodes) else old(nodes)[old(next) := x]
      ensures next == old(next) + if x != null || (fd > -1 && fd !in old(itemMap)) then 1 else 0
      ensures wheel.Model() == if ms > 0 then AfterAdd(old(wheel.Model()), EntryOf(x)) else old(wheel.Model())
      ensures forall y :: y in old(pool) ==> y.link == old(y.link)
    {
      Watch(fd, item);
      x := NewWait(ms, now, item);
      if x == null && fd > -1 && fd !in old(itemMap) {
        SkipNumber();
      }
    }

    /** A descriptor, if there is one, is added to epoll; the answer is ignored. */
    method Watch(fd: int, item: CoEpollItem)
      requires Valid() && Accounted()
      modifies this`itemMap, this`interest
      ensures Valid() && Accounted()
      ensures itemMap == if fd <= -1 || fd in old(itemMap) then old(itemMap) else old(itemMap)[fd := item]
    {
      if fd > -1 {
        var r := EpollAdd(fd, item);
      }
    }

    /** A number nobody waits under is used up, because the kernel may still report its record. */
    ghost method SkipNumber()
      requires Valid() && Accounted()
      modifies this`next
      ensures Valid() && Accounted() && next == old(next) + 1
    {
      next := next + 1;
    }

    /** The node of the wait, in the wheel if it has a deadline; none for the timeouts refused late. */
    method NewWait(ms: int, now: nat, item: CoEpollItem) returns (x: TimeItem?)
      requires Valid() && Accounted() && (ms > 0 ==> now + ms < TWO63) && item.id == next
      modifies this`pool, this`next, this`nodes, wheel.slots, pool`next, pool`prev, pool`link
      ensures Valid() && Accounted() && active.items == old(active.items) && timeout.items == old(timeout.items)
      ensures x != null <==> ms > 0 || ms == -1
      ensures x != null ==> fresh(x) && x.item == item && x.expire == if ms > 0 then now + ms else 0
      ensures pool == (old(pool) + if x == null then {} else {x}) && next == old(next) + if x == null then 0 else 1
      ensures nodes == if x == null then old(nodes) else old(nodes)[old(next) := x]
      ensures wheel.Model() == if ms > 0 then AfterAdd(old(wheel.Model()), EntryOf(x))
                               else old(wheel.Model())
      ensures forall y :: y in old(pool) ==> y.link == old(y.link)
    {
      if ms > 0 {
        x := NewTimed(now + ms, item);
      } else if ms == -1 {
        x := NewUntimed(item);
      } else {
        x := null;
      }
    }

    method NewUntimed(item: CoEpollItem) returns (x: TimeItem)
      requires Valid() && Accounted() && item.id == next
      modifies this`pool, this`next, this`nodes
      ensures Valid() && Accounted() && fresh(x) && x.item == item && x.expire == 0
      ensures pool == old(pool) + {x} && next == old(next) + 1 && nodes == old(nodes)[old(next) := x]
    {
      x := new TimeItem(0, item);
      Admit(x);
    }

    method NewTimed(expire: nat, item: CoEpollItem) returns (x: TimeItem)
      requires Valid() && Accounted() && expire < TWO63 && item.id == next
      modifies this`pool, this`next, this`nodes, wheel.slots, pool`next, pool`prev, pool`link
      ensures Valid() && Accounted() && active.items == old(active.items) && timeout.items == old(timeout.items)
      ensures fresh(x) && x.item == item && x.expire == expire
      ensures pool == old(pool) + {x} && next == old(next) + 1 && nodes == old(nodes)[old(next) := x]
      ensures wheel.Model() == AfterAdd(old(wheel.Model()), EntryOf(x))
      ensures forall y :: y in old(pool) ==> y.link == old(y.link)
    {
      x := new TimeItem(expire, item);
      Admit(x);
      Enroll(x);
    }

    /** register_event after its coroutine was resumed: the descriptor leaves epoll, the item is
        deleted, and the caller learns whether it timed out. */
    method RegisterDone(x: TimeItem) returns (timedOut: bool)
      requires Valid() && Accounted() && x in pool && x.link == null
      modifies this`itemMap, this`interest, this`pool, this`nodes
      ensures Valid() && Accounted() && pool == old(pool) - {x} && nodes == old(nodes) - {x.item.id}
      ensures timedOut == x.item.isTimeout
      ensures itemMap == if x.item.fd > -1 then old(itemMap) - {x.item.fd} else old(itemMap)
    {
      if x.item.fd > -1 {
        var r := EpollDel(x.item.fd);
      }
      timedOut := x.item.isTimeout;
      Release(x);
    }

    /** The deletion of a node that is in no list. */
    ghost method Release(x: TimeItem)
      requires Valid() && x in pool && x.link == null
      modifies this`pool, this`nodes
      ensures Valid() && pool == old(pool) - {x} && nodes == old(nodes) - {x.item.id}
      ensures old(Accounted()) ==> Accounted()
    {
      pool, nodes := pool - {x}, nodes - {x.item.id};
      assert wheel.SlotsIn(pool) by {
        forall l, y | l in wheel.slots && y in l.items ensures y in pool {
          l.NamesIt(y);
        }
      }
      forall y | y in active.items ensures y in pool {
        active.NamesIt(y);
      }
      forall y | y in timeout.items ensures y in pool {
        timeout.NamesIt(y);
      }
    }
  }

  /** A condition variable: the items of the coroutines waiting on it, oldest first. */
  class CoCondition {
    const loop: EventLoop
    var deque: seq<TimeItem>

    ghost predicate Valid()
      reads this, loop, loop.wheel, loop.wheel.slots, loop.active, loop.timeout, loop.pool, deque
    {
      && loop.Valid()
      && Distinct(deque)
      && forall i :: 0 <= i < |deque| ==> deque[i] in loop.pool && deque[i].link == null
    }

    constructor (loop: EventLoop)
      requires loop.Valid()
      ensures Valid() && this.loop == loop && deque == []
    {
      this.loop, deque := loop, [];
    }

    /** co_cond_wait up to its yield. */
    method Wait(co: nat) returns (x: TimeItem)
      requires Valid()
      modifies this`deque, loop`pool, loop`next, loop`nodes
      ensures Valid() && fresh(x) && deque == old(deque) + [x] && loop.pool == old(loop.pool) + {x}
      ensures x.item.id == old(loop.next) && loop.next == old(loop.next) + 1
      ensures loop.nodes == old(loop.nodes)[x.item.id := x] && (old(loop.Accounted()) ==> loop.Accounted())
      ensures x.item.co == co && x.item.fd == -1 && x.expire == 0 && !x.item.isTimeout
    {
      var item := new CoEpollItem(-1, co, loop.next);
      x := new TimeItem(0, item);
      loop.Admit(x);
      deque := deque + [x];
    }

    /** co_cond_signal: the oldest waiter moves to the end of the active list. */
    method Signal() returns (r: int)
      requires Valid()
      modifies this`deque, loop.active, loop.pool`next, loop.pool`prev, loop.pool`link
      ensures Valid()
      ensures r == if old(deque) == [] then -1 else 1
      ensures old(deque) == [] ==> deque == [] && loop.active.items == old(loop.active.items)
      ensures old(deque) != [] ==>
                deque == old(deque)[1..] && loop.active.items == old(loop.active.items) + [old(deque)[0]]
      ensures loop.wheel.Model() == old(loop.wheel.Model())
      ensures forall y :: y in loop.pool && y !in old(deque) ==> y.link == old(y.link)
    {
      if deque == [] {
        return -1;
      }
      var x := deque[0];
      deque := deque[1..];
      loop.Attach(x);
      r := 1;
    }

    /** co_cond_broadcast: all waiters move, in the order they waited. */
    method Broadcast()
      requires Valid()
      modifies this`deque, loop.active, loop.pool`next, loop.pool`prev, loop.pool`link
      ensures Valid() && deque == []
      ensures loop.active.items == old(loop.active.items) + old(deque)
      ensures loop.wheel.Model() == old(loop.wheel.Model())
      ensures forall y :: y in loop.pool && y !in old(deque) ==> y.link == old(y.link)
    {
      ghost var a0, q0 := loop.active.items, deque;
      while deque != []
        invariant Valid() && |deque| <= |q0| && deque == q0[|q0| - |deque|..]
        invariant loop.active.items == a0 + q0[..|q0| - |deque|]
        invariant loop.wheel.Model() == old(loop.wheel.Model())
        invariant forall y :: y in loop.pool && y !in q0 ==> y.link == old(y.link)
        decreases |deque|
      {
        TakeNext(a0, q0, |q0| - |deque|);
        MoveOne(q0);
      }
      assert q0[..|q0|] == q0;
    }

    method MoveOne(ghost q0: seq<TimeItem>)
      requires Valid() && deque != [] && forall x :: x in deque ==> x in q0
      modifies this`deque, loop.active, loop.pool`next, loop.pool`prev, loop.pool`link
      ensures Valid() && deque == old(deque)[1..]
      ensures loop.active.items == old(loop.active.items) + [old(deque)[0]]
      ensures loop.wheel.Model() == old(loop.wheel.Model())
      ensures forall y :: y in loop.pool && y !in q0 ==> y.link == old(y.link)
    {
      var r := Signal();
    }
  }
}
