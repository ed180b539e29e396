/** Everything a coroutine can wait on, linked as the program links it, against the lists of the
    scheduler's transition system. */
module WaitLists {
  import opened DeadlineQueue
  import opened WheelModel
  import opened Sequences
  import opened IntrusiveLists
  import opened TimeWheels
  import opened EventLoops
  import opened Runtime
  import opened RuntimeInvariant
  import RuntimeTheorems

  /** Both always true. The definitions of `Shows` and `Linked` are behind them, so that they stay folded in
      proofs that need not look inside; those that do say `assert Open(0)` or `assert Deep(0)`. */
  predicate Open(k: nat) {
    true
  }

  predicate Deep(k: nat) {
    true
  }

  class WaitLists {
    const loop: EventLoop
    var conds: map<nat, CoCondition>

    /** The linked structures are well formed, those of the loop and the deques. */
    ghost predicate Linked()
      reads this, loop, loop.wheel, loop.wheel.slots, loop.active, loop.timeout, loop.pool, conds.Values
    {
      forall k {:trigger Deep(k)} :: Deep(k) ==>
        && loop.Valid() && loop.timeout.items == []
        && (forall c, d :: c in conds && d in conds && c != d ==> conds[c] != conds[d])
        && (forall c :: c in conds ==> conds[c].loop == loop && Distinct(conds[c].deque) && Idle(conds[c].deque))
    }

    /** Nodes of the pool that are in no list. */
    ghost predicate Idle(q: seq<TimeItem>)
      reads loop, loop.pool
    {
      forall x :: x in q ==> x in loop.pool && x.link == null
    }

    /** The linked structures hold what the state says. */
    ghost predicate Shows(s: State)
      reads this, loop, loop.wheel, loop.wheel.slots, loop.active, loop.timeout, loop.pool
      reads set x | x in loop.pool :: x.item
      reads conds.Values
    {
      forall k {:trigger Open(k)} :: Open(k) ==>
        && Linked() && loop.Accounted()
        && s.wheel == loop.wheel.Model() && s.active == Ids(loop.active.items)
        && ItemsShow(s) && EpollShows(s) && DequesShow(s)
    }

    ghost predicate ItemsShow(s: State)
      reads loop, set x | x in loop.pool :: x.item
    {
      s.next == loop.next && NodesShow(loop.nodes, s)
    }

    ghost predicate NodesShow(nodes: map<nat, TimeItem>, s: State)
      reads loop, set x | x in loop.pool :: x.item
    {
      && s.items.Keys == nodes.Keys
      && forall i :: i in nodes ==> nodes[i] in loop.pool && ItemShows(nodes[i], s.items[i], i in s.timedOut)
    }

    /** The node and the record of a wait. */
    static ghost predicate ItemShows(x: TimeItem, it: Item, timedOut: bool)
      reads x.item
    {
      && x.item.co == it.co && x.item.isTimeout == timedOut
      && match it.wait
         case OnCond(_) => x.item.fd == -1 && x.expire == 0
         case OnEvent(fd, d) => x.item.fd == fd && x.expire == d
    }

    ghost predicate EpollShows(s: State)
      reads loop
    {
      MapShows(loop.nodes, s)
    }

    ghost predicate MapShows(nodes: map<nat, TimeItem>, s: State)
      reads loop
    {
      EpollIs(loop.itemMap, nodes, s)
    }

    /** The map leads every descriptor to the record of its item. */
    static ghost predicate EpollIs(itemMap: map<int, CoEpollItem>, nodes: map<nat, TimeItem>, s: State) {
      && s.epoll.Keys == itemMap.Keys
      && forall fd :: fd in itemMap ==>
           && s.epoll[fd] == itemMap[fd].id
           && s.epoll[fd] in nodes && nodes[s.epoll[fd]].item == itemMap[fd]
    }

    ghost predicate DequesShow(s: State)
      reads this, conds.Values
    {
      s.conds.Keys <= conds.Keys && forall c :: c in conds ==> Ids(conds[c].deque) == Deque(s, c)
    }

    constructor (size: nat, now: nat)
      requires 0 < size < TWO31 && now < TWO63
      ensures Shows(RuntimeTheorems.Initial(size, now))
    {
      loop := new EventLoop(size, now);
      conds := map[];
      new;
      EmptyShown(size, now);
    }

    lemma EmptyShown(size: nat, now: nat)
      requires loop.Valid() && loop.Accounted() && conds == map[]
      requires loop.active.items == [] && loop.timeout.items == [] && loop.pool == {} && loop.itemMap == map[]
      requires loop.next == 0 && loop.nodes == map[]
      requires |loop.wheel.slots| == size && loop.wheel.start == now && loop.wheel.index == 0 && loop.wheel.isms
      requires forall l :: l in loop.wheel.slots ==> l.items == []
      ensures Shows(RuntimeTheorems.Initial(size, now))
    {
      assert Deep(0);
      var w := RuntimeTheorems.Initial(size, now).wheel;
      assert forall j :: 0 <= j < size ==> loop.wheel.Lists()[j] == w.slots[j];
      assert loop.wheel.Lists() == w.slots;
    }

    /** Nothing that happens elsewhere matters. */
    twostate lemma Untouched(s: State)
      requires old(Shows(s))
      requires unchanged(this, loop, loop.wheel, loop.wheel.slots, loop.active, loop.timeout)
      requires unchanged(old(loop.pool)) && unchanged(old(set x | x in loop.pool :: x.item))
      requires unchanged(old(conds.Values))
      ensures Shows(s)
    {
      assert Open(0);
    }

    /** Steps that concern the call stack only. */
    lemma ShowsSame(s: State, s': State)
      requires Shows(s)
      requires s'.items == s.items && s'.next == s.next && s'.epoll == s.epoll && s'.wheel == s.wheel
      requires s'.conds == s.conds && s'.active == s.active && s'.timedOut == s.timedOut
      ensures Shows(s')
    {
      assert Open(0);
    }

    lemma InDeque(s: State, c: nat, x: TimeItem)
      requires Shows(s) && Inv(s) && c in conds && x in conds[c].deque
      ensures x.item.id in s.items && s.items[x.item.id].wait == OnCond(c) && x.item.id !in s.active
      ensures x.item.id in loop.nodes && loop.nodes[x.item.id] == x
    {
      assert Open(0) && Deep(0);
      var q := conds[c].deque;
      var k :| 0 <= k < |q| && q[k] == x;
      assert Ids(q)[k] == x.item.id;
      assert x.item.id in s.conds[c];
    }

    /** The deques of two conditions have no node in common. */
    lemma DequesApart(s: State, c: nat, d: nat)
      requires Shows(s) && Inv(s) && c in conds && d in conds && c != d
      ensures forall x :: x in conds[c].deque ==> x !in conds[d].deque
    {
      assert Open(0);
      forall x | x in conds[c].deque ensures x !in conds[d].deque {
        InDeque(s, c, x);
        if x in conds[d].deque { InDeque(s, d, x); }
      }
    }

    /** co_cond_signal. */
    method Signal(c: nat, ghost s: State) returns (r: int)
      requires Shows(s) && c in conds && Alone(c)
      modifies {conds[c]}`deque, loop.active, loop.pool`next, loop.pool`prev, loop.pool`link
      ensures Shows(SignalOne(s, c)) && r == if Deque(s, c) == [] then -1 else 1
    {
      assert Open(0);
      ghost var q, a := conds[c].deque, loop.active.items;
      r := MoveFirst(c);
      SignalShown(c, s, q, a);
    }

    lemma SignalShown(c: nat, s: State, q: seq<TimeItem>, a: seq<TimeItem>)
      requires Linked() && loop.Accounted() && c in conds && s.conds.Keys <= conds.Keys
      requires s.wheel == loop.wheel.Model() && ItemsShow(s) && EpollShows(s)
      requires forall d :: d in conds && d != c ==> Ids(conds[d].deque) == Deque(s, d)
      requires Ids(q) == Deque(s, c) && Ids(a) == s.active
      requires if q == [] then conds[c].deque == [] && loop.active.items == a
               else conds[c].deque == q[1..] && loop.active.items == a + [q[0]]
      ensures Shows(SignalOne(s, c))
    {
      if q != [] {
        IdsTail(q);
        IdsConcat(a, [q[0]]);
      }
    }

    lemma OthersApart(s: State, c: nat)
      requires Shows(s) && RuntimeTheorems.Reached(s) && c in conds
      ensures Alone(c)
    {
      assert Open(0);
      RuntimeTheorems.ReachedInv(s);
      forall d | d in conds && d != c ensures forall x :: x in conds[d].deque ==> x !in conds[c].deque {
        DequesApart(s, d, c);
      }
    }

    /** No other deque has a node of this one. */
    ghost predicate Alone(c: nat)
      requires c in conds
      reads this, conds.Values
    {
      forall d :: d in conds && d != c ==> forall x :: x in conds[d].deque ==> x !in conds[c].deque
    }

    method MoveFirst(c: nat) returns (r: int)
      requires Linked() && c in conds && Alone(c)
      modifies {conds[c]}`deque, loop.active, loop.pool`next, loop.pool`prev, loop.pool`link
      ensures Linked() && r == if old(conds[c].deque) == [] then -1 else 1
      ensures r == -1 ==> conds[c].deque == [] && loop.active.items == old(loop.active.items)
      ensures r == 1 ==>
                && conds[c].deque == old(conds[c].deque)[1..]
                && loop.active.items == old(loop.active.items) + [old(conds[c].deque)[0]]
      ensures loop.wheel.Model() == old(loop.wheel.Model())
      ensures forall d :: d in conds && d != c ==> conds[d].deque == old(conds[d].deque)
    {
      assert Deep(0);
      r := conds[c].Signal();
    }

    /** co_cond_broadcast. */
    method Broadcast(c: nat, ghost s: State)
      requires Shows(s) && c in conds && Alone(c)
      modifies {conds[c]}`deque, loop.active, loop.pool`next, loop.pool`prev, loop.pool`link
      ensures Shows(SignalAll(s, c))
    {
      assert Open(0);
      ghost var q, a := conds[c].deque, loop.active.items;
      MoveAll(c);
      BroadcastShown(c, s, q, a);
    }

    method MoveAll(c: nat)
      requires Linked() && c in conds && Alone(c)
      modifies {conds[c]}`deque, loop.active, loop.pool`next, loop.pool`prev, loop.pool`link
      ensures Linked() && conds[c].deque == []
      ensures loop.active.items == old(loop.active.items) + old(conds[c].deque)
      ensures loop.wheel.Model() == old(loop.wheel.Model())
      ensures forall d :: d in conds && d != c ==> conds[d].deque == old(conds[d].deque)
    {
      assert Deep(0);
      conds[c].Broadcast();
    }

    lemma BroadcastShown(c: nat, s: State, q: seq<TimeItem>, a: seq<TimeItem>)
      requires Linked() && loop.Accounted() && c in conds && s.conds.Keys <= conds.Keys
      requires s.wheel == loop.wheel.Model() && ItemsShow(s) && EpollShows(s)
      requires forall d :: d in conds && d != c ==> Ids(conds[d].deque) == Deque(s, d)
      requires Ids(q) == Deque(s, c) && Ids(a) == s.active
      requires conds[c].deque == [] && loop.active.items == a + q
      ensures Shows(SignalAll(s, c))
    {
      IdsConcat(a, q);
    }

    // ----- a new wait

    lemma NextIsNew(s: State)
      requires RuntimeTheorems.Reached(s)
      ensures s.next !in s.items && s.next !in s.timedOut
    {
      RuntimeTheorems.ReachedInv(s);
    }

    /** co_cond_wait up to its yield. */
    method CondWait(c: nat, co: nat, ghost s: State)
      requires Shows(s) && c in conds && |s.stack| > 1 && co == Top(s)
      requires s.next !in s.items && s.next !in s.timedOut
      modifies {conds[c]}`deque, loop`pool, loop`next, loop`nodes
      ensures Shows(WaitOnCond(s, c)) && fresh(loop.pool - old(loop.pool))
    {
      assert Open(0);
      ghost var q, nodes := conds[c].deque, loop.nodes;
      var x := AddWaiter(c, co);
      CondWaitShown(c, co, s, x, q, nodes);
    }

    method AddWaiter(c: nat, co: nat) returns (x: TimeItem)
      requires Linked() && loop.Accounted() && c in conds
      modifies {conds[c]}`deque, loop`pool, loop`next, loop`nodes
      ensures Linked() && loop.Accounted() && conds[c].deque == old(conds[c].deque) + [x]
      ensures x.item.id == old(loop.next) && loop.next == old(loop.next) + 1
      ensures fresh(x) && loop.pool == old(loop.pool) + {x} && loop.nodes == old(loop.nodes)[x.item.id := x]
      ensures x.item.co == co && x.item.fd == -1 && x.expire == 0 && !x.item.isTimeout
      ensures forall d :: d in conds && d != c ==> conds[d].deque == old(conds[d].deque)
    {
      assert Deep(0);
      x := conds[c].Wait(co);
    }

    lemma CondWaitShown(c: nat, co: nat, s: State, x: TimeItem, q: seq<TimeItem>, nodes: map<nat, TimeItem>)
      requires Linked() && loop.Accounted() && c in conds && s.conds.Keys <= conds.Keys
      requires s.wheel == loop.wheel.Model() && s.active == Ids(loop.active.items)
      requires |s.stack| > 1 && co == Top(s) && s.next !in s.items && s.next !in s.timedOut
      requires ItemShows(x, Item(co, OnCond(c)), false) && x.item.id == s.next && loop.next == s.next + 1
      requires loop.nodes == nodes[s.next := x] && NodesShow(nodes, s) && MapShows(nodes, s)
      requires forall d :: d in conds && d != c ==> Ids(conds[d].deque) == Deque(s, d)
      requires Ids(q) == Deque(s, c) && conds[c].deque == q + [x]
      ensures Shows(WaitOnCond(s, c))
    {
      IdsConcat(q, [x]);
      assert Ids([x]) == [s.next];
      var s' := WaitOnCond(s, c);
      assert ItemsShow(s') && EpollShows(s') && DequesShow(s');
    }

    /** register_event up to its yield; it says whether it is going to yield. */
    method Register(fd: int, ms: int, now: nat, co: nat, ghost s: State) returns (waits: bool)
      requires Shows(s) && Allowed(s, Step.Register(fd, ms, now)) && co == Top(s)
      requires s.next !in s.items && s.next !in s.timedOut
      modifies loop, loop.wheel.slots, loop.pool`next, loop.pool`prev, loop.pool`link
      ensures Shows(RegisterEvent(s, fd, ms, now)) && fresh(loop.pool - old(loop.pool))
      ensures waits <==> Blocks(s, ms)
    {
      assert Open(0);
      RegisterCases(s, fd, ms, now);
      waits := ms <= |loop.wheel.slots| && (ms > 0 || ms == -1);
      if waits {
        RegisterAccepted(fd, ms, now, co, s);
      } else {
        RegisterRefused(fd, ms, now, co, s);
      }
    }

    method RegisterAccepted(fd: int, ms: int, now: nat, co: nat, ghost s: State)
      requires Shows(s) && s.stack != [] && co == Top(s) && Blocks(s, ms) && (ms > 0 ==> now + ms < TWO63)
      requires 0 < |s.wheel.slots| && s.wheel.start < TWO63
      requires s.next !in s.items && s.next !in s.timedOut && (fd <= -1 || fd !in s.epoll)
      modifies loop, loop.wheel.slots, loop.pool`next, loop.pool`prev, loop.pool`link
      ensures fresh(loop.pool - old(loop.pool))
      ensures ms > 0 ==> Shows(Registered(s, fd, now + ms, AfterAdd(s.wheel, Entry(s.next, now + ms))))
      ensures ms == -1 ==> Shows(Registered(s, fd, 0, s.wheel))
    {
      assert Open(0);
      ghost var nodes, map0 := loop.nodes, loop.itemMap;
      var x := AddEvent(fd, ms, now, co);
      EventShown(fd, s, x, nodes, map0);
    }

    /** A refusal that leaves no descriptor behind changes nothing. */
    method RegisterRefused(fd: int, ms: int, now: nat, co: nat, ghost s: State)
      requires Shows(s) && !Blocks(s, ms) && (ms > 0 ==> now + ms < TWO63)
      requires 0 < |s.wheel.slots| && s.wheel.start < TWO63
      requires ms > |s.wheel.slots| || fd <= -1 || fd in s.epoll
      modifies loop, loop.wheel.slots, loop.pool`next, loop.pool`prev, loop.pool`link
      ensures Shows(s) && loop.pool == old(loop.pool)
    {
      assert Open(0);
      ghost var nodes, map0 := loop.nodes, loop.itemMap;
      var x := AddEvent(fd, ms, now, co);
      RefusalShown(s, nodes, map0);
    }

    lemma RefusalShown(s: State, nodes: map<nat, TimeItem>, map0: map<int, CoEpollItem>)
      requires Linked() && loop.Accounted() && s.active == Ids(loop.active.items) && DequesShow(s)
      requires s.wheel == loop.wheel.Model() && s.next == loop.next && loop.nodes == nodes && loop.itemMap == map0
      requires NodesShow(nodes, s) && EpollIs(map0, nodes, s)
      ensures Shows(s)
    {
    }

    method AddEvent(fd: int, ms: int, now: nat, co: nat) returns (x: TimeItem?)
      requires Linked() && loop.Accounted() && (ms > 0 ==> now + ms < TWO63)
      requires |loop.wheel.slots| > 0 && loop.wheel.start < TWO63
      modifies loop, loop.wheel.slots, loop.pool`next, loop.pool`prev, loop.pool`link
      ensures Linked() && loop.Accounted() && loop.active.items == old(loop.active.items)
      ensures x != null <==> ms <= |loop.wheel.slots| && (ms > 0 || ms == -1)
      ensures x != null ==>
                && fresh(x) && x.item.id == old(loop.next) && loop.next == old(loop.next) + 1
                && loop.pool == old(loop.pool) + {x} && loop.nodes == old(loop.nodes)[old(loop.next) := x]
                && x.item.fd == fd && x.item.co == co && !x.item.isTimeout
                && x.expire == (if ms > 0 then now + ms else 0)
                && loop.itemMap == if fd <= -1 || fd in old(loop.itemMap) then old(loop.itemMap)
                                   else old(loop.itemMap)[fd := x.item]
      ensures x == null ==> loop.pool == old(loop.pool) && loop.nodes == old(loop.nodes)
      ensures x == null && (ms > |loop.wheel.slots| || fd <= -1 || fd in old(loop.itemMap)) ==>
                loop.itemMap == old(loop.itemMap) && loop.next == old(loop.next)
      ensures loop.wheel.Model() == if x != null && ms > 0 then AfterAdd(old(loop.wheel.Model()), EntryOf(x))
                                    else old(loop.wheel.Model())
      ensures forall c :: c in conds ==> conds[c].deque == old(conds[c].deque)
    {
      assert Deep(0);
      x := EventBesideConditions(fd, ms, now, co);
    }

    method EventBesideConditions(fd: int, ms: int, now: nat, co: nat) returns (x: TimeItem?)
      requires loop.Valid() && loop.Accounted() && loop.timeout.items == [] && (ms > 0 ==> now + ms < TWO63)
      modifies loop, loop.wheel.slots, loop.pool`next, loop.pool`prev, loop.pool`link
      ensures loop.Valid() && loop.Accounted() && loop.timeout.items == []
      ensures loop.active.items == old(loop.active.items)
      ensures x != null <==> ms <= |loop.wheel.slots| && (ms > 0 || ms == -1)
      ensures x != null ==>
                && fresh(x) && x.item.id == old(loop.next) && loop.next == old(loop.next) + 1
                && loop.pool == old(loop.pool) + {x} && loop.nodes == old(loop.nodes)[old(loop.next) := x]
                && x.item.fd == fd && x.item.co == co && !x.item.isTimeout
                && x.expire == (if ms > 0 then now + ms else 0)
                && loop.itemMap == if fd <= -1 || fd in old(loop.itemMap) then old(loop.itemMap)
                                   else old(loop.itemMap)[fd := x.item]
      ensures x == null ==> loop.pool == old(loop.pool) && loop.nodes == old(loop.nodes)
      ensures x == null && (ms > |loop.wheel.slots| || fd <= -1 || fd in old(loop.itemMap)) ==>
                loop.itemMap == old(loop.itemMap) && loop.next == old(loop.next)
      ensures loop.wheel.Model() == if x != null && ms > 0 then AfterAdd(old(loop.wheel.Model()), EntryOf(x))
                                    else old(loop.wheel.Model())
      ensures forall c :: c in conds ==> conds[c].deque == old(conds[c].deque)
      ensures forall y :: y in old(loop.pool) ==> y.link == old(y.link)
    {
      var item;
      x, item := loop.RegisterEvent(fd, ms, now, co);
    }

    lemma EventShown(fd: int, s: State, x: TimeItem, nodes: map<nat, TimeItem>, map0: map<int, CoEpollItem>)
      requires Linked() && loop.Accounted() && s.active == Ids(loop.active.items) && DequesShow(s)
      requires s.stack != [] && s.next !in s.items && s.next !in s.timedOut && (fd <= -1 || fd !in s.epoll)
      requires ItemShows(x, Item(Top(s), OnEvent(fd, x.expire)), false)
      requires x.item.id == s.next && loop.next == s.next + 1
      requires loop.nodes == nodes[s.next := x] && NodesShow(nodes, s) && EpollIs(map0, nodes, s)
      requires loop.itemMap == if fd <= -1 then map0 else map0[fd := x.item]
      ensures Shows(Registered(s, fd, x.expire, loop.wheel.Model()))
    {
      var s' := Registered(s, fd, x.expire, loop.wheel.Model());
      assert EpollIs(loop.itemMap, loop.nodes, s');
      assert NodesShow(loop.nodes, s');
    }

    // ----- poll

    /** The kernel watches record r. */
    ghost predicate Watched(r: CoEpollItem)
      reads loop
    {
      exists fd :: fd in loop.interest && loop.interest[fd] == r
    }

    /** Every record the kernel watches is that of a wait that has not ended. */
    lemma WatchedHasNode(s: State, r: CoEpollItem)
      requires Shows(s) && Watched(r)
      ensures r.id in loop.nodes && loop.nodes[r.id].item == r && Reported(s, r.id)
    {
      assert Open(0);
      var fd :| fd in loop.interest && loop.interest[fd] == r;
      assert s.epoll[fd] == r.id;
    }

    /** A node in a slot is pending. */
    lemma SlottedIsPending(s: State, l: TimeLink, x: TimeItem)
      requires Shows(s) && Ranged(s.wheel) && l in loop.wheel.slots && x in l.items
      ensures EntryOf(x) in Flat(s.wheel)
    {
      assert Open(0) && Deep(0);
      var j :| 0 <= j < |loop.wheel.slots| && loop.wheel.slots[j] == l;
      var k :| 0 <= k < |l.items| && l.items[k] == x;
      assert Entries(l.items)[k] == EntryOf(x);
      SlotIsPending(s.wheel, j, EntryOf(x));
    }

    /** A pending node is in a slot. */
    lemma PendingIsSlotted(s: State, x: TimeItem)
      requires Shows(s) && |s.wheel.slots| > 0 && x in loop.pool && EntryOf(x) in Flat(s.wheel)
      ensures x.link != null && x.link in loop.wheel.slots
    {
      assert Open(0) && Deep(0);
      ConcatMember(Rotated(s.wheel), EntryOf(x));
      var r :| 0 <= r < |s.wheel.slots| && EntryOf(x) in Rotated(s.wheel)[r];
      var l := loop.wheel.slots[SlotIndex(s.wheel.index, r, |s.wheel.slots|)];
      var k :| 0 <= k < |l.items| && Entries(l.items)[k] == EntryOf(x);
      assert l.items[k].item.id == x.item.id;
      loop.OneOfItsNumber(x);
      l.NamesIt(x);
    }

    /** So the ready loop finds every node it meets where it expects it: its error return is dead code,
        and removeitem never meets a node without a list. */
    lemma WatchedIsReady(s: State, x: TimeItem)
      requires Shows(s) && RuntimeTheorems.Reached(s) && s.phase == AtPoll && x in loop.pool && Watched(x.item)
      ensures loop.Ready(x)
    {
      assert Open(0);
      RuntimeTheorems.ReachedInv(s);
      var i := x.item.id;
      WatchedHasNode(s, x.item);
      assert loop.nodes[i] == x;
      RuntimeTheorems.ReadyItemsAreLinkedRight(s, i);
      if x.expire > 0 {
        PendingIsSlotted(s, x);
      } else if x.link != null {
        UnpendingIsUnlinked(s, x);
      }
    }

    lemma UnpendingIsUnlinked(s: State, x: TimeItem)
      requires Shows(s) && Ranged(s.wheel) && x in loop.pool && x.item.id !in s.active
      requires forall e :: e in Flat(s.wheel) ==> e.key != x.item.id
      ensures x.link == null
    {
      assert Open(0) && Deep(0);
      IdsMembers(loop.active.items);
      forall l | l in loop.wheel.slots ensures x !in l.items {
        NotSlotted(s, l, x);
      }
      assert loop.AtHome(x);
    }

    lemma NotSlotted(s: State, l: TimeLink, x: TimeItem)
      requires Shows(s) && Ranged(s.wheel) && l in loop.wheel.slots && EntryOf(x) !in Flat(s.wheel)
      ensures x !in l.items
    {
      assert Open(0) && Deep(0);
      forall y | y in l.items ensures EntryOf(y) in Flat(s.wheel) {
        SlottedIsPending(s, l, y);
      }
    }

    lemma EventsAreReady(s: State, events: seq<TimeItem>)
      requires Shows(s) && RuntimeTheorems.Reached(s) && s.phase == AtPoll && Distinct(Ids(events))
      requires forall x :: x in events ==> x in loop.pool && Watched(x.item)
      ensures AllReady(events)
      ensures forall x :: x in events ==> Reported(s, x.item.id)
    {
      assert Open(0);
      RuntimeTheorems.ReachedInv(s);
      forall i, j | 0 <= i < j < |events| ensures events[i] != events[j] {
        assert Ids(events)[i] != Ids(events)[j];
      }
      forall x | x in events ensures loop.Ready(x) && Reported(s, x.item.id) {
        WatchedIsReady(s, x);
        WatchedHasNode(s, x.item);
      }
      forall c, x | c in conds && x in conds[c].deque ensures x !in events {
        InDeque(s, c, x);
        if x in events {
          RuntimeTheorems.ReadyItemsAreLinkedRight(s, x.item.id);
        }
      }
    }

    lemma PollDefined(s: State, now: nat)
      requires Shows(s) && RuntimeTheorems.Reached(s) && now < TWO63
      requires s.wheel.start <= now ==> CountReaches(now - s.wheel.start, |s.wheel.slots|)
      ensures 0 < |s.wheel.slots| && loop.wheel.TakeDefined(now)
    {
      assert Open(0) && Deep(0);
      MillisecondWheel(s);
      if s.wheel.start <= now {
        ReachingCount(now - s.wheel.start, |s.wheel.slots|);
      }
    }

    lemma MillisecondWheel(s: State)
      requires RuntimeTheorems.Reached(s)
      ensures 0 < |s.wheel.slots| < TWO31 && s.wheel.ms
    {
      RuntimeTheorems.ReachedInv(s);
    }

    /** What the kernel may report, and when. */
    ghost predicate CanPoll(events: seq<TimeItem>, now: nat, s: State)
      reads loop
    {
      && LoopTurn(s, AtPoll) && Distinct(Ids(events))
      && (forall x :: x in events ==> x in loop.pool && Watched(x.item))
      && now < TWO63 && (s.wheel.start <= now ==> CountReaches(now - s.wheel.start, |s.wheel.slots|))
    }

    lemma PollEnabled(events: seq<TimeItem>, now: nat, s: State)
      requires Shows(s) && RuntimeTheorems.Reached(s) && CanPoll(events, now, s)
      ensures Enabled(s, Step.Poll(Ids(events), now))
      ensures AllReady(events) && loop.wheel.TakeDefined(now)
    {
      assert Open(0);
      EventsAreReady(s, events);
      IdsReported(s, events);
      PollDefined(s, now);
    }

    lemma IdsReported(s: State, events: seq<TimeItem>)
      requires forall x :: x in events ==> Reported(s, x.item.id)
      ensures forall i :: i in Ids(events) ==> Reported(s, i)
    {
      forall i | i in Ids(events) ensures Reported(s, i) {
        var k :| 0 <= k < |events| && Ids(events)[k] == i;
        assert events[k] in events;
      }
    }

    /** The nodes are where the ready loop expects them, and no condition holds one. */
    ghost predicate AllReady(events: seq<TimeItem>)
      reads this, conds.Values, loop, events
    {
      && Distinct(events) && (forall x :: x in events ==> loop.Ready(x))
      && (forall c, x :: c in conds && x in conds[c].deque ==> x !in events)
    }

    /** A round of the event loop up to its drain. */
    method Poll(events: seq<TimeItem>, now: nat, ghost s: State)
      requires Shows(s) && AllReady(events) && loop.wheel.TakeDefined(now) && 0 < |s.wheel.slots|
      modifies loop.wheel, loop.wheel.slots, loop.active, loop.timeout
      modifies loop.pool`next, loop.pool`prev, loop.pool`link
      modifies (set x | x in loop.pool :: x.item)`isTimeout
      ensures Shows(MergeTimeouts(AddReady(s, Ids(events)), now))
    {
      assert Open(0);
      ghost var a := loop.active.items;
      ghost var due := RoundOfLoop(events, now);
      PollShown(events, now, s, a, due);
    }

    method RoundOfLoop(events: seq<TimeItem>, now: nat) returns (ghost due: seq<TimeItem>)
      requires Linked() && loop.Accounted() && Distinct(events) && loop.wheel.TakeDefined(now)
      requires forall x :: x in events ==> loop.Ready(x)
      requires forall c, x :: c in conds && x in conds[c].deque ==> x !in events
      requires |loop.wheel.slots| > 0
      modifies loop.wheel, loop.wheel.slots, loop.active, loop.timeout
      modifies loop.pool`next, loop.pool`prev, loop.pool`link
      modifies (set x | x in loop.pool :: x.item)`isTimeout
      ensures Linked() && loop.Accounted() && loop.active.items == old(loop.active.items) + events + due
      ensures (loop.wheel.Model(), Entries(due)) ==
              AfterTake(RemoveAll(old(loop.wheel.Model()), Ids(events)), now)
      ensures forall x :: x in loop.pool ==> x.item.isTimeout == (x in due || old(x.item.isTimeout))
      ensures forall x :: x in due ==> x in loop.pool
    {
      assert Deep(0);
      due := RoundBesideConditions(events, now);
    }

    method RoundBesideConditions(events: seq<TimeItem>, now: nat) returns (ghost due: seq<TimeItem>)
      requires loop.Valid() && loop.Accounted() && loop.timeout.items == []
      requires Distinct(events) && loop.wheel.TakeDefined(now) && forall x :: x in events ==> loop.Ready(x)
      modifies loop.wheel, loop.wheel.slots, loop.active, loop.timeout
      modifies loop.pool`next, loop.pool`prev, loop.pool`link
      modifies (set x | x in loop.pool :: x.item)`isTimeout
      ensures loop.Valid() && loop.timeout.items == []
      ensures loop.active.items == old(loop.active.items) + events + due
      ensures (loop.wheel.Model(), Entries(due)) ==
              AfterTake(RemoveAll(old(loop.wheel.Model()), Ids(events)), now)
      ensures forall x :: x in loop.pool ==> x.item.isTimeout == (x in due || old(x.item.isTimeout))
      ensures forall y :: y in loop.pool && y !in events && old(y.link) == null ==> y.link == null
      ensures loop.Accounted() && forall c :: c in conds ==> conds[c].deque == old(conds[c].deque)
    {
      due := loop.PollRound(events, now);
    }

    lemma PollShown(events: seq<TimeItem>, now: nat, s: State, a: seq<TimeItem>, due: seq<TimeItem>)
      requires Linked() && loop.Accounted() && EpollShows(s) && DequesShow(s) && 0 < |s.wheel.slots|
      requires s.active == Ids(a) && loop.active.items == a + events + due
      requires (loop.wheel.Model(), Entries(due)) == AfterTake(RemoveAll(s.wheel, Ids(events)), now)
      requires s.next == loop.next && s.items.Keys == loop.nodes.Keys
      requires forall i :: i in loop.nodes ==>
                 ItemShows(loop.nodes[i], s.items[i], i in s.timedOut || loop.nodes[i] in due)
      requires forall x :: x in due ==> x in loop.pool
      ensures Shows(Runtime.MergeTimeouts(Runtime.AddReady(s, Ids(events)), now))
    {
      IdsConcat(a + events, due);
      IdsConcat(a, events);
      assert Keys(Entries(due)) == Ids(due);
      forall i | i in loop.nodes ensures i in KeySet(Entries(due)) <==> loop.nodes[i] in due {
        DueByNumber(due, i);
      }
    }

    lemma DueByNumber(due: seq<TimeItem>, i: nat)
      requires loop.Accounted() && i in loop.nodes && forall x :: x in due ==> x in loop.pool
      ensures i in KeySet(Entries(due)) <==> loop.nodes[i] in due
    {
      if i in KeySet(Entries(due)) {
        var k :| 0 <= k < |due| && Entries(due)[k].key == i;
        assert due[k] in due;
      }
      if loop.nodes[i] in due {
        var k :| 0 <= k < |due| && due[k] == loop.nodes[i];
        assert Entries(due)[k].key == i && Entries(due)[k] in Entries(due);
      }
    }

    // ----- the drain

    /** What the drain does to the head of the active list: popped first, then its wait ends. */
    ghost predicate HeadGone(s: State, s1: State, s': State) {
      && s.active != [] && s1 == s.(active := s.active[1..])
      && OwnDescriptor(s1, s.active[0]) && Ended(s1, s.active[0], s')
    }

    lemma HeadEnds(s: State, s1: State)
      requires RuntimeTheorems.Reached(s) && s.active != [] && s.active[0] in s.items
      requires s1 == s.(active := s.active[1..])
      ensures HeadGone(s, s1, ResumeHead(s))
    {
      RuntimeTheorems.ReachedInv(s);
    }

    /** The head of the active list is popped, and its coroutine, resumed inside the wait, gives its
        resources back. A condition's wait has no descriptor. */
    method ResumeFirst(ghost s: State, ghost s1: State, ghost s': State) returns (co: nat, timedOut: bool)
      requires Shows(s) && HeadGone(s, s1, s')
      modifies loop`itemMap, loop`interest, loop`pool, loop`nodes
      modifies loop.active, loop.pool`next, loop.pool`prev, loop.pool`link
      ensures Shows(s') && loop.pool <= old(loop.pool)
      ensures co == s.items[s.active[0]].co && timedOut == (s.active[0] in s.timedOut)
    {
      assert Open(0);
      var x := PopFirst(s, s1);
      co, timedOut := EndWait(x, s1, s');
    }

    /** Only its own descriptor leads to item i. */
    ghost predicate OwnDescriptor(s: State, i: nat) {
      forall fd :: fd in s.epoll && s.epoll[fd] == i ==>
        i in s.items && s.items[i].wait.OnEvent? && s.items[i].wait.fd == fd && fd > -1
    }

    method PopFirst(ghost s: State, ghost s1: State) returns (x: TimeItem)
      requires Shows(s) && s.active != [] && s1 == s.(active := s.active[1..])
      modifies loop.active, loop.pool`next, loop.pool`prev, loop.pool`link
      ensures Shows(s1)
      ensures x in loop.pool && x.link == null && x.item.id == s.active[0]
      ensures forall c :: c in conds ==> x !in conds[c].deque
    {
      assert Open(0);
      ghost var a := loop.active.items;
      x := PopLinked();
      PopShown(s, s1, x, a);
    }

    lemma PopShown(s: State, s1: State, x: TimeItem, a: seq<TimeItem>)
      requires Linked() && loop.Accounted() && s.wheel == loop.wheel.Model()
      requires ItemsShow(s) && EpollShows(s) && DequesShow(s)
      requires s.active == Ids(a) && a == [x] + loop.active.items && s1 == s.(active := s.active[1..])
      ensures Shows(s1) && x.item.id == s.active[0]
    {
      IdsTail(a);
    }

    method PopLinked() returns (x: TimeItem)
      requires Linked() && loop.active.items != []
      modifies loop.active, loop.pool`next, loop.pool`prev, loop.pool`link
      ensures Linked() && old(loop.active.items) == [x] + loop.active.items
      ensures x in loop.pool && x.link == null && forall c :: c in conds ==> x !in conds[c].deque
      ensures loop.wheel.Model() == old(loop.wheel.Model())
      ensures forall c :: c in conds ==> conds[c].deque == old(conds[c].deque)
    {
      assert Deep(0);
      PoppedIsBusy();
      x := loop.PopActive();
    }

    lemma PoppedIsBusy()
      requires Linked() && loop.active.items != []
      ensures loop.active.items[0] in loop.pool
      ensures forall c :: c in conds ==> loop.active.items[0] !in conds[c].deque
    {
      assert Deep(0);
      loop.active.NamesIt(loop.active.items[0]);
    }

    /** State s' is s without item i, whose wait has ended. */
    ghost predicate Ended(s: State, i: nat, s': State) {
      && i in s.items && s'.items == s.items - {i} && s'.timedOut == s.timedOut - {i}
      && s'.epoll == (if s.items[i].wait.OnEvent? && s.items[i].wait.fd > -1 then s.epoll - {s.items[i].wait.fd}
                      else s.epoll)
      && s'.next == s.next && s'.wheel == s.wheel && s'.conds == s.conds && s'.active == s.active
    }

    method EndWait(x: TimeItem, ghost s: State, ghost s': State) returns (co: nat, timedOut: bool)
      requires Shows(s) && x in loop.pool && x.link == null && Ended(s, x.item.id, s')
      requires OwnDescriptor(s, x.item.id) && forall c :: c in conds ==> x !in conds[c].deque
      modifies loop`itemMap, loop`interest, loop`pool, loop`nodes
      ensures Shows(s') && loop.pool <= old(loop.pool)
      ensures co == s.items[x.item.id].co && timedOut == (x.item.id in s.timedOut)
    {
      assert Open(0);
      ghost var nodes, map0 := loop.nodes, loop.itemMap;
      assert nodes[x.item.id] == x;
      co := x.item.co;
      timedOut := ReleaseLinked(x);
      EndShown(s, x, nodes, map0, s');
    }

    method ReleaseLinked(x: TimeItem) returns (timedOut: bool)
      requires Linked() && loop.Accounted() && x in loop.pool && x.link == null
      requires forall c :: c in conds ==> x !in conds[c].deque
      modifies loop`itemMap, loop`interest, loop`pool, loop`nodes
      ensures Linked() && loop.Accounted()
      ensures loop.pool == old(loop.pool) - {x} && loop.nodes == old(loop.nodes) - {x.item.id}
      ensures loop.itemMap == if x.item.fd > -1 then old(loop.itemMap) - {x.item.fd} else old(loop.itemMap)
      ensures timedOut == x.item.isTimeout
    {
      assert Deep(0);
      timedOut := loop.RegisterDone(x);
    }

    lemma EndShown(s: State, x: TimeItem, nodes: map<nat, TimeItem>, map0: map<int, CoEpollItem>, s': State)
      requires Linked() && loop.Accounted() && DequesShow(s)
      requires s.next == loop.next && s.wheel == loop.wheel.Model() && s.active == Ids(loop.active.items)
      requires Ended(s, x.item.id, s') && OwnDescriptor(s, x.item.id)
      requires loop.nodes == nodes - {x.item.id} && nodes.Keys == s.items.Keys && nodes[x.item.id] == x
      requires forall i :: i in nodes ==> ItemShows(nodes[i], s.items[i], i in s.timedOut)
      requires EpollIs(map0, nodes, s)
      requires loop.itemMap == if x.item.fd > -1 then map0 - {x.item.fd} else map0
      ensures Shows(s')
    {
      assert s'.items.Keys == loop.nodes.Keys;
    }

    /** The constructor of a condition variable. */
    method NewCondition(c: nat, ghost s: State)
      requires Shows(s) && c !in conds
      modifies this
      ensures Shows(s) && conds.Keys == old(conds.Keys) + {c}
    {
      assert Open(0);
      var cond := CreateCondition(s);
      AddCondition(c, cond, s);
    }

    method AddCondition(c: nat, cond: CoCondition, ghost s: State)
      requires Shows(s) && c !in conds && cond !in conds.Values && cond.loop == loop && cond.deque == []
      modifies this
      ensures Shows(s) && conds.Keys == old(conds.Keys) + {c}
    {
      assert Open(0) && Deep(0);
      ghost var before := conds;
      assert CondsIn(before, s);
      conds := conds[c := cond];
      ConditionShown(c, s, before);
    }

    /** The conditions of the map hold what the state says. */
    ghost predicate CondsIn(m: map<nat, CoCondition>, s: State)
      reads loop, loop.pool, m.Values
    {
      && s.conds.Keys <= m.Keys
      && (forall d, e :: d in m && e in m && d != e ==> m[d] != m[e])
      && (forall d :: d in m ==> m[d].loop == loop && Distinct(m[d].deque) && Idle(m[d].deque)
                                 && Ids(m[d].deque) == Deque(s, d))
    }

    method CreateCondition(ghost s: State) returns (cond: CoCondition)
      requires Shows(s)
      ensures Shows(s) && fresh(cond) && cond.loop == loop && cond.deque == []
    {
      assert Open(0) && Deep(0);
      cond := new CoCondition(loop);
    }

    lemma ConditionShown(c: nat, s: State, before: map<nat, CoCondition>)
      requires loop.Valid() && loop.timeout.items == [] && loop.Accounted()
      requires s.wheel == loop.wheel.Model() && s.active == Ids(loop.active.items) && ItemsShow(s) && EpollShows(s)
      requires c !in before && c in conds && conds == before[c := conds[c]] && conds[c] !in before.Values
      requires conds[c].loop == loop && conds[c].deque == [] && CondsIn(before, s)
      ensures Shows(s)
    {
      ConditionLinked(c, s, before);
    }

    lemma ConditionLinked(c: nat, s: State, before: map<nat, CoCondition>)
      requires loop.Valid() && loop.timeout.items == []
      requires c in conds && conds == before[c := conds[c]] && conds[c] !in before.Values
      requires conds[c].loop == loop && conds[c].deque == [] && CondsIn(before, s)
      ensures Linked()
    {
    }
  }
}
