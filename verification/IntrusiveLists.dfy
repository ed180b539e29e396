/** The intrusive doubly linked lists that carry waiting coroutines: time_item nodes and the
    time_link headers of wheel slots, of the active list and of the timeout list. */
module IntrusiveLists {
  import opened Sequences

  /** What a coroutine waits with: the record epoll reports, and its node in the lists. */
  class CoEpollItem {
    const fd: int
    const co: nat
    var isTimeout: bool
    /** Its number among all waits ever begun. */
    ghost const id: nat

    constructor (fd: int, co: nat, ghost id: nat)
      ensures this.fd == fd && this.co == co && !isTimeout && this.id == id
    {
      this.fd, this.co, isTimeout := fd, co, false;
      this.id := id;
    }
  }

  class TimeItem {
    var next: TimeItem?
    var prev: TimeItem?
    var link: TimeLink?
    const expire: nat
    const item: CoEpollItem

    constructor (expire: nat, item: CoEpollItem)
      ensures next == null && prev == null && link == null
      ensures this.expire == expire && this.item == item
    {
      next, prev, link := null, null, null;
      this.expire, this.item := expire, item;
    }
  }

  class TimeLink {
    var head: TimeItem?
    var tail: TimeItem?
    ghost var items: seq<TimeItem>

    constructor ()
      ensures Valid() && items == []
    {
      head, tail, items := null, null, [];
    }

    /** Forward and backward traversal from the header give `s`, and every node names this list as
        its own. */
    ghost predicate Chains(s: seq<TimeItem>)
      reads this`head, this`tail, s
    {
      && head == (if s == [] then null else s[0])
      && tail == (if s == [] then null else s[|s| - 1])
      && (forall i {:trigger s[i].link} :: 0 <= i < |s| ==> s[i].link == this)
      && (forall i {:trigger s[i].prev} :: 0 <= i < |s| ==> s[i].prev == if i == 0 then null else s[i - 1])
      && (forall i {:trigger s[i].next} :: 0 <= i < |s| ==>
            s[i].next == if i == |s| - 1 then null else s[i + 1])
      && Distinct(s)
    }

    ghost predicate Valid()
      reads this, items
    {
      Chains(items)
    }

    lemma NamesIt(x: TimeItem)
      requires Valid() && x in items
      ensures x.link == this
    {
      var k :| 0 <= k < |items| && items[k] == x;
      assert items[k].link == this;
    }

    /** The append written out in add_timeout, co_cond_signal and the ready loop. */
    method Append(x: TimeItem)
      requires Valid() && x.link == null
      modifies this, x`next, x`prev, x`link, items`next, items`prev, items`link
      ensures Valid() && items == old(items) + [x]
    {
      assert x !in items;
      if tail != null {
        tail.next := x;
        x.prev := tail;
        x.next := null;
        tail := x;
      } else {
        head := x;
        tail := x;
        x.next := null;
        x.prev := null;
      }
      x.link := this;
      items := items + [x];
    }

    /** The head pop of the drain loop. */
    method PopHead() returns (x: TimeItem)
      requires Valid() && head != null
      modifies this, items`next, items`prev, items`link
      ensures Valid() && old(items) == [x] + items
      ensures x.link == null && x.next == null && x.prev == null
    {
      x := head;
      if head == tail {
        assert |items| == 1;
        head, tail := null, null;
      } else {
        head := head.next;
      }
      x.next, x.prev := null, null;
      x.link := null;
      if head != null {
        head.prev := null;
      }
      items := items[1..];
    }

    /** The relabelling loop and the splice of a whole list, as in take_all_timeout and in the
        merge of the timeout list into the active list. */
    method Splice(src: TimeLink)
      requires Valid() && src.Valid() && src != this
      modifies this, src, items`next, items`prev, items`link, src.items`next, src.items`prev, src.items`link
      ensures Valid() && src.Valid()
      ensures items == old(items) + old(src.items) && src.items == []
    {
      if src.head == null {
        assert src.items == [];
        assert items == old(items) + old(src.items);
        return;
      }
      Join(src);
      ListFromParts(items, src.items);
      src.head, src.tail := null, null;
      items, src.items := items + src.items, [];
    }

    /** The pointer writes of the splice; the ghost sequences still show the two parts. */
    method Join(src: TimeLink)
      requires Valid() && src.Valid() && src != this && src.items != []
      modifies this`head, this`tail, items`next, src.items`prev, src.items`link
      ensures Parts(items, src.items)
    {
      DifferentListsApart(this, src);
      Relabel(src, this);
      LinkBehind(src);
    }

    /** The nodes of a list that already name this header as theirs. */
    ghost predicate Loose(moved: seq<TimeItem>)
      reads moved
    {
      && (forall i {:trigger moved[i].link} :: 0 <= i < |moved| ==> moved[i].link == this)
      && (forall i {:trigger moved[i].prev} :: 0 <= i < |moved| ==>
            moved[i].prev == if i == 0 then null else moved[i - 1])
      && (forall i {:trigger moved[i].next} :: 0 <= i < |moved| ==>
            moved[i].next == if i == |moved| - 1 then null else moved[i + 1])
      && Distinct(moved)
    }

    method LinkBehind(src: TimeLink)
      requires Valid() && src != this && src.items != [] && Loose(src.items) && Apart(items, src.items)
      requires src.head == src.items[0] && src.tail == src.items[|src.items| - 1]
      modifies this`head, this`tail, items`next, src.items`prev
      ensures Parts(items, src.items)
    {
      var first := src.head;
      if tail != null {
        first.prev := tail;
        tail.next := first;
        tail := src.tail;
      } else {
        tail := src.tail;
        head := src.head;
      }
    }

    /** The two parts are chained one after the other under this header. */
    ghost predicate Parts(kept: seq<TimeItem>, moved: seq<TimeItem>)
      reads this`head, this`tail, kept, moved
    {
      && moved != []
      && head == (if kept == [] then moved[0] else kept[0])
      && tail == moved[|moved| - 1]
      && (forall i {:trigger kept[i].link} :: 0 <= i < |kept| ==> kept[i].link == this)
      && (forall i {:trigger moved[i].link} :: 0 <= i < |moved| ==> moved[i].link == this)
      && (forall i {:trigger kept[i].prev} :: 0 <= i < |kept| ==>
            kept[i].prev == if i == 0 then null else kept[i - 1])
      && (forall i {:trigger moved[i].prev} :: 0 <= i < |moved| ==>
            moved[i].prev == if i > 0 then moved[i - 1] else if kept == [] then null else kept[|kept| - 1])
      && (forall i {:trigger kept[i].next} :: 0 <= i < |kept| ==>
            kept[i].next == if i == |kept| - 1 then moved[0] else kept[i + 1])
      && (forall i {:trigger moved[i].next} :: 0 <= i < |moved| ==>
            moved[i].next == if i == |moved| - 1 then null else moved[i + 1])
      && Distinct(kept) && Distinct(moved) && Apart(kept, moved)
    }

    lemma ListFromParts(kept: seq<TimeItem>, moved: seq<TimeItem>)
      requires Parts(kept, moved)
      ensures Chains(kept + moved)
    {
      var s, k := kept + moved, |kept|;
      forall i | 0 <= i < |s|
        ensures s[i].link == this
        ensures s[i].prev == if i == 0 then null else s[i - 1]
        ensures s[i].next == if i == |s| - 1 then null else s[i + 1]
      {
        if i < k { assert s[i] == kept[i]; } else { assert s[i] == moved[i - k]; }
      }
    }

    /** The list with the node at position k bridged over. */
    ghost predicate Bridged(s: seq<TimeItem>, k: nat)
      requires k < |s|
      reads this`head, this`tail, s
    {
      var n := |s|;
      && head == (if n == 1 then null else if k == 0 then s[1] else s[0])
      && tail == (if n == 1 then null else if k == n - 1 then s[n - 2] else s[n - 1])
      && (forall i {:trigger s[i].link} :: 0 <= i < n && i != k ==> s[i].link == this)
      && (forall i {:trigger s[i].prev} :: 0 <= i < n && i != k ==>
            s[i].prev == if i == k + 1 then (if k == 0 then null else s[k - 1])
                         else if i == 0 then null else s[i - 1])
      && (forall i {:trigger s[i].next} :: 0 <= i < n && i != k ==>
            s[i].next == if i + 1 == k then (if k == n - 1 then null else s[k + 1])
                         else if i == n - 1 then null else s[i + 1])
      && Distinct(s)
    }

    lemma ListFromBridge(s: seq<TimeItem>, k: nat)
      requires k < |s| && Bridged(s, k)
      ensures Chains(s[..k] + s[k + 1..])
    {
      var t := s[..k] + s[k + 1..];
      forall i | 0 <= i < |t|
        ensures t[i].link == this
        ensures t[i].prev == if i == 0 then null else t[i - 1]
        ensures t[i].next == if i == |t| - 1 then null else t[i + 1]
      {
        if i < k { assert t[i] == s[i]; } else { assert t[i] == s[i + 1]; }
      }
    }
  }

  /** A node is in one list only, the one it names. */
  lemma DifferentListsApart(a: TimeLink, b: TimeLink)
    requires a.Valid() && b.Valid() && a != b
    ensures Apart(a.items, b.items)
  {
    forall i, j | 0 <= i < |a.items| && 0 <= j < |b.items| ensures a.items[i] != b.items[j] {
      assert a.items[i].link == a && b.items[j].link == b;
    }
  }

  /** Walks the list and names `owner` as the list of each node. */
  method Relabel(src: TimeLink, owner: TimeLink)
    requires src.Valid()
    modifies src.items`link
    ensures forall i :: 0 <= i < |src.items| ==> src.items[i].link == owner
  {
    var node := src.head;
    ghost var k := 0;
    while node != null
      invariant 0 <= k <= |src.items|
      invariant node == if k == |src.items| then null else src.items[k]
      invariant forall i :: 0 <= i < k ==> src.items[i].link == owner
      decreases |src.items| - k
    {
      node.link := owner;
      node := node.next;
      k := k + 1;
    }
  }

  /** removeitem: unlinks a node from the list it names, in constant time. */
  method RemoveItem(x: TimeItem)
    requires x.link != null && x.link.Valid() && x in x.link.items
    modifies x.link, x.link.items`next, x.link.items`prev, x.link.items`link
    ensures old(x.link).Valid()
    ensures old(x.link).items == Minus(old(x.link.items), x)
    ensures x.link == null && x.next == null && x.prev == null
  {
    var link := x.link;
    ghost var k :| 0 <= k < |link.items| && link.items[k] == x;
    MinusAt(link.items, k);
    Bridge(x, k);
    link.ListFromBridge(link.items, k);
    link.items := link.items[..k] + link.items[k + 1..];
  }

  /** The pointer writes of removeitem; the ghost sequence still shows the node. */
  method Bridge(x: TimeItem, ghost k: nat)
    requires x.link != null && x.link.Valid() && k < |x.link.items| && x.link.items[k] == x
    modifies x.link`head, x.link`tail, x.link.items`next, x.link.items`prev, x`link
    ensures old(x.link).Bridged(old(x.link).items, k)
    ensures x.link == null && x.next == null && x.prev == null
  {
    var link := x.link;
    if x == link.head {
      link.head := x.next;
      if link.head != null {
        link.head.prev := null;
      }
    } else if x.prev != null {
      x.prev.next := x.next;
    }
    if x == link.tail {
      link.tail := x.prev;
      if link.tail != null {
        link.tail.next := null;
      }
    } else {
      x.next.prev := x.prev;
    }
    x.next, x.prev := null, null;
    x.link := null;
  }
}
