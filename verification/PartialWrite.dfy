/** co_write and co_send: loops over a kernel that accepts as much as it likes. */
module PartialWrite {
  import opened Sequences

  type Byte = b: int | 0 <= b < 256

  const TIME_OUT := -10086

  /** A write of `data` and the count the kernel accepted, or -1; or a wait in register_event, where any
      answer but 0 is taken for a timeout. */
  datatype Event = Wrote(data: seq<Byte>, answer: int) | Waited(answer: int)

  /** The kernel takes at most what it is offered. */
  predicate Honest(ev: seq<Event>) {
    forall k :: 0 <= k < |ev| && ev[k].Wrote? ==> -1 <= ev[k].answer <= |ev[k].data|
  }

  /** What a write leaves of what it offered. */
  function Left(e: Event): seq<Byte>
    requires e.Wrote? && e.answer <= |e.data|
  {
    if e.answer > 0 then e.data[e.answer..] else e.data
  }

  /** The kernel and the scheduler, free to answer as they like, with a record of what was asked. */
  class Kernel {
    ghost var log: seq<Event>

    method Write(data: seq<Byte>) returns (w: int)
      modifies this
      ensures -1 <= w <= |data| && log == old(log) + [Wrote(data, w)]
    {
      w :| -1 <= w <= |data|;
      log := log + [Wrote(data, w)];
    }

    method Wait() returns (r: int)
      modifies this
      ensures log == old(log) + [Waited(r)]
    {
      r := *;
      log := log + [Waited(r)];
    }
  }

  // ----- what a call does

  /** What event k offers is what the write before it left. */
  predicate Continues(ev: seq<Event>, k: nat)
    requires 2 <= k < |ev| && Honest(ev)
  {
    ev[k].Wrote? && ev[k - 2].Wrote? ==> ev[k].data == Left(ev[k - 2])
  }

  /** Writes and waits in turn, and each write offers what the one before left. */
  ghost predicate InTurn(ev: seq<Event>, buf: seq<Byte>) {
    && ev != [] && ev[0].Wrote? && ev[0].data == buf && Honest(ev)
    && (forall k :: 0 <= k < |ev| ==> (ev[k].Wrote? <==> k % 2 == 0))
    && (forall k :: 2 <= k < |ev| ==> Continues(ev, k))
  }

  /** The event calls for another: of what was offered some is taken but not all, or, where that is
      allowed, the write failed with bytes to send; or the wait was answered with 0. */
  predicate CallsForMore(e: Event, again: bool) {
    if e.Wrote? then 0 < e.answer < |e.data| || (again && e.answer == -1 && e.data != []) else e.answer == 0
  }

  /** The call went on after every event but perhaps the last. */
  ghost predicate WentOn(ev: seq<Event>, again: bool) {
    forall k :: 0 <= k < |ev| - 1 ==> CallsForMore(ev[k], again && k == 0)
  }

  /** Always true. What is behind it stays folded unless a proof says `assert Told(0)`. */
  predicate Told(k: nat) {
    true
  }

  /** A call that has just written, got the answer w and has `rest` left to send. */
  ghost predicate Sending(log0: seq<Event>, log: seq<Event>, ev: seq<Event>, buf: seq<Byte>, again: bool,
                          rest: seq<Byte>, w: int) {
    forall k {:trigger Told(k)} :: Told(k) ==>
      && log == log0 + ev && InTurn(ev, buf) && WentOn(ev, again)
      && ev[|ev| - 1].Wrote? && ev[|ev| - 1].answer == w && Left(ev[|ev| - 1]) == rest
  }

  /** A call that is over, and its result. */
  ghost predicate Over(log0: seq<Event>, log: seq<Event>, ev: seq<Event>, buf: seq<Byte>, again: bool, r: int) {
    && log == log0 + ev && InTurn(ev, buf)
    && (forall k :: 0 <= k < |ev| ==> (k < |ev| - 1 <==> CallsForMore(ev[k], again && k == 0)))
    && r == Result(ev, buf)
  }

  function Result(ev: seq<Event>, buf: seq<Byte>): int
    requires ev != [] && Honest(ev)
  {
    var last := ev[|ev| - 1];
    if last.Waited? then TIME_OUT else if |Left(last)| < |buf| then |buf| - |Left(last)| else last.answer
  }

  lemma Begins(log0: seq<Event>, buf: seq<Byte>, again: bool, w: int)
    requires -1 <= w <= |buf|
    ensures Sending(log0, log0 + [Wrote(buf, w)], [Wrote(buf, w)], buf, again, if w > 0 then buf[w..] else buf, w)
  {
  }

  lemma OneMore(ev: seq<Event>, e: Event, buf: seq<Byte>, again: bool)
    requires InTurn(ev, buf) && WentOn(ev, again) && CallsForMore(ev[|ev| - 1], again && |ev| == 1)
    requires e.Wrote? <==> ev[|ev| - 1].Waited?
    requires e.Wrote? ==> |ev| >= 2 && ev[|ev| - 2].Wrote? && e.data == Left(ev[|ev| - 2]) && -1 <= e.answer <= |e.data|
    ensures InTurn(ev + [e], buf) && WentOn(ev + [e], again)
  {
    forall k | 2 <= k < |ev| + 1 ensures Continues(ev + [e], k) {
      assert k < |ev| ==> Continues(ev, k);
    }
  }

  lemma GoesOn(log0: seq<Event>, log: seq<Event>, ev: seq<Event>, buf: seq<Byte>, again: bool,
               rest: seq<Byte>, w: int, w': int)
    requires Sending(log0, log, ev, buf, again, rest, w) && rest != [] && -1 <= w' <= |rest|
    requires w > 0 || (again && w == -1 && |ev| == 1)
    ensures Sending(log0, log + [Waited(0)] + [Wrote(rest, w')], ev + [Waited(0), Wrote(rest, w')], buf, again,
                    if w' > 0 then rest[w'..] else rest, w')
  {
    assert Told(0);
    OneMore(ev, Waited(0), buf, again);
    OneMore(ev + [Waited(0)], Wrote(rest, w'), buf, again);
    assert ev + [Waited(0)] + [Wrote(rest, w')] == ev + [Waited(0), Wrote(rest, w')];
  }

  lemma TimesOut(log0: seq<Event>, log: seq<Event>, ev: seq<Event>, buf: seq<Byte>, again: bool,
                 rest: seq<Byte>, w: int, ret: int)
    requires Sending(log0, log, ev, buf, again, rest, w) && rest != [] && ret != 0
    requires w > 0 || (again && w == -1 && |ev| == 1)
    ensures Over(log0, log + [Waited(ret)], ev + [Waited(ret)], buf, again, TIME_OUT)
  {
    assert Told(0);
    OneMore(ev, Waited(ret), buf, again);
  }

  lemma Ends(log0: seq<Event>, log: seq<Event>, ev: seq<Event>, buf: seq<Byte>, again: bool,
             rest: seq<Byte>, w: int)
    requires Sending(log0, log, ev, buf, again, rest, w) && |rest| <= |buf|
    requires if w > 0 then rest == [] else !again || w == 0 || |ev| > 1 || rest == []
    ensures Over(log0, log, ev, buf, again, if |rest| < |buf| then |buf| - |rest| else w)
  {
    assert Told(0);
  }

  /** co_write: one write at once, then a wait before every retry. The events ev of a call are a write and
      then waits and writes in turn, each write offering what the one before left. Another event follows
      just when the last write took some but not all, or the last wait was answered with 0. It answers
      TIME_OUT when it ends with a wait, else how much was sent, or what the only write answered. */
  method CoWrite(kernel: Kernel, buf: seq<Byte>) returns (r: int, ghost ev: seq<Event>)
    modifies kernel
    ensures Over(old(kernel.log), kernel.log, ev, buf, false, r)
  {
    ghost var log0 := kernel.log;
    var size := 0;
    var w := kernel.Write(buf);
    ev := [Wrote(buf, w)];
    Begins(log0, buf, false, w);
    if w <= 0 {
      Ends(log0, kernel.log, ev, buf, false, buf, w);
      return w, ev;
    }
    size := size + w;
    while size < |buf|
      invariant 0 < size <= |buf| && w > 0
      invariant Sending(log0, kernel.log, ev, buf, false, buf[size..], w)
      decreases |buf| - size
    {
      label Turn:
      var ret := kernel.Wait();
      if ret != 0 {
        TimesOut(log0, old@Turn(kernel.log), ev, buf, false, buf[size..], w, ret);
        return TIME_OUT, ev + [Waited(ret)];
      }
      ghost var w0, log := w, old@Turn(kernel.log);
      w := kernel.Write(buf[size..]);
      GoesOn(log0, log, ev, buf, false, buf[size..], w0, w);
      ev := ev + [Waited(0), Wrote(buf[size..], w)];
      if w <= 0 {
        break;
      }
      assert buf[size..][w..] == buf[size + w..];
      size := size + w;
    }
    Ends(log0, kernel.log, ev, buf, false, buf[size..], w);
    return size, ev;
  }

  /** co_send: like co_write, but a first send that fails with bytes to send is followed by a wait and
      another send, too. */
  method CoSend(kernel: Kernel, buf: seq<Byte>) returns (r: int, ghost ev: seq<Event>)
    modifies kernel
    ensures Over(old(kernel.log), kernel.log, ev, buf, true, r)
  {
    ghost var log0 := kernel.log;
    var size := 0;
    var w := kernel.Write(buf);
    ev := [Wrote(buf, w)];
    Begins(log0, buf, true, w);
    if w == 0 {
      Ends(log0, kernel.log, ev, buf, true, buf, w);
      return w, ev;
    }
    if w > 0 {
      size := size + w;
    }
    while size < |buf|
      invariant 0 <= size <= |buf| && (if size == 0 then w == -1 && |ev| == 1 else w > 0)
      invariant Sending(log0, kernel.log, ev, buf, true, buf[size..], w)
      decreases |buf| - size
    {
      label Turn:
      var ret := kernel.Wait();
      if ret != 0 {
        TimesOut(log0, old@Turn(kernel.log), ev, buf, true, buf[size..], w, ret);
        return TIME_OUT, ev + [Waited(ret)];
      }
      ghost var w0, log := w, old@Turn(kernel.log);
      w := kernel.Write(buf[size..]);
      GoesOn(log0, log, ev, buf, true, buf[size..], w0, w);
      ev := ev + [Waited(0), Wrote(buf[size..], w)];
      if w <= 0 {
        break;
      }
      assert buf[size..][w..] == buf[size + w..];
      size := size + w;
    }
    Ends(log0, kernel.log, ev, buf, true, buf[size..], w);
    if w <= 0 && size == 0 {
      return w, ev;
    }
    return size, ev;
  }

  // ----- what that means

  /** Writes and waits alternate. A failed wait is reported at once; a write that took nothing ends the call,
      for co_send unless it is the first and failed with bytes to send; and so does one that took all. The
      answer is TIME_OUT just when the last wait failed, and then bytes were left. */
  lemma HowItEnds(log0: seq<Event>, log: seq<Event>, ev: seq<Event>, buf: seq<Byte>, again: bool, r: int)
    requires Over(log0, log, ev, buf, again, r)
    ensures log == log0 + ev && ev != [] && forall k :: 0 <= k < |ev| ==> (ev[k].Wrote? <==> k % 2 == 0)
    ensures forall k :: 0 <= k < |ev| && ev[k].Waited? ==> (k == |ev| - 1 <==> ev[k].answer != 0)
    ensures forall k :: 0 < k < |ev| && ev[k].Wrote? ==>
              (k == |ev| - 1 <==> ev[k].answer <= 0 || ev[k].answer == |ev[k].data|)
    ensures |ev| == 1 <==> ev[0].answer == |buf| || ev[0].answer == 0 || (ev[0].answer == -1 && (!again || buf == []))
    ensures r == TIME_OUT <==> ev[|ev| - 1].Waited?
    ensures r == TIME_OUT ==> |ev| >= 2 && ev[|ev| - 1].answer != 0 && Left(ev[|ev| - 2]) != []
    ensures r != TIME_OUT ==> r == if |Left(ev[|ev| - 1])| < |buf| then |buf| - |Left(ev[|ev| - 1])|
                                   else ev[|ev| - 1].answer
  {
    if ev[|ev| - 1].Waited? {
      assert CallsForMore(ev[|ev| - 2], again && |ev| == 2);
    }
  }

  /** The bytes the kernel took in the first n events, in the order it took them. */
  function Received(ev: seq<Event>, n: nat): seq<Byte>
    requires n <= |ev| && Honest(ev)
  {
    if n == 0 then []
    else
      var e := ev[n - 1];
      if e.Wrote? && e.answer > 0 then Received(ev, n - 1) + e.data[..e.answer] else Received(ev, n - 1)
  }

  lemma TakenThenLeft(got: seq<Byte>, e: Event)
    requires e.Wrote? && e.answer <= |e.data|
    ensures (if e.answer > 0 then got + e.data[..e.answer] else got) + Left(e) == got + e.data
  {
  }

  /** What one event adds. */
  lemma ReceivedByEvent(ev: seq<Event>, k: nat)
    requires k < |ev| && Honest(ev)
    ensures ev[k].Waited? ==> Received(ev, k + 1) == Received(ev, k)
    ensures ev[k].Wrote? ==> Received(ev, k + 1) + Left(ev[k]) == Received(ev, k) + ev[k].data
  {
    if ev[k].Wrote? {
      TakenThenLeft(Received(ev, k), ev[k]);
    }
  }

  lemma WriteBefore(ev: seq<Event>, buf: seq<Byte>, k: nat)
    requires InTurn(ev, buf) && 0 < k < |ev| && ev[k].Wrote?
    ensures k >= 2 && ev[k - 1].Waited? && ev[k - 2].Wrote? && ev[k].data == Left(ev[k - 2])
  {
    assert k >= 2 && Continues(ev, k);
  }

  lemma {:induction false} ReceivedThenLeft(ev: seq<Event>, buf: seq<Byte>, k: nat)
    requires InTurn(ev, buf) && k < |ev| && ev[k].Wrote?
    ensures Received(ev, k) + ev[k].data == buf && Received(ev, k + 1) + Left(ev[k]) == buf
  {
    ReceivedByEvent(ev, k);
    if k == 0 {
      AppendToNothing(Received(ev, 0), buf);
    } else {
      WriteBefore(ev, buf, k);
      ReceivedThenLeft(ev, buf, k - 2);
      ReceivedByEvent(ev, k - 1);
    }
  }

  /** Each write offers just what the kernel has not got. It gets a prefix of the buffer, without gaps or
      repeats, and a count is its length; -1 means that it got nothing, a timeout that it did not get all. */
  lemma CountIsReceived(log0: seq<Event>, log: seq<Event>, ev: seq<Event>, buf: seq<Byte>, again: bool, r: int)
    requires Over(log0, log, ev, buf, again, r)
    ensures var got := Received(ev, |ev|);
            && got <= buf && (r == TIME_OUT || -1 <= r <= |buf|)
            && (r >= 0 ==> |got| == r) && (r == -1 ==> got == []) && (r == TIME_OUT ==> |got| < |buf|)
    ensures forall k :: 0 <= k < |ev| && ev[k].Wrote? ==> Received(ev, k) + ev[k].data == buf
  {
    forall k | 0 <= k < |ev| && ev[k].Wrote? ensures Received(ev, k) + ev[k].data == buf {
      ReceivedThenLeft(ev, buf, k);
    }
    var k := if ev[|ev| - 1].Wrote? then |ev| - 1 else |ev| - 2;
    ReceivedThenLeft(ev, buf, k);
    HowItEnds(log0, log, ev, buf, again, r);
    assert Received(ev, |ev|) == Received(ev, k + 1);
  }

  lemma {:induction false} SameSoFar(ev: seq<Event>, ev': seq<Event>, buf: seq<Byte>, k: nat)
    requires InTurn(ev, buf) && InTurn(ev', buf) && k < |ev| && k < |ev'|
    requires forall i :: 0 <= i < |ev| && i < |ev'| ==> ev[i].answer == ev'[i].answer
    ensures ev[k] == ev'[k]
  {
    if k >= 2 && ev[k].Wrote? {
      SameSoFar(ev, ev', buf, k - 2);
      assert Continues(ev, k) && Continues(ev', k);
    }
  }

  /** The contract leaves the call no choice: as long as kernel and scheduler answer the same, it does the
      same, and comes to the same result. */
  lemma AnswersDecide(log0: seq<Event>, log: seq<Event>, ev: seq<Event>, r: int,
                      log0': seq<Event>, log': seq<Event>, ev': seq<Event>, r': int, buf: seq<Byte>, again: bool)
    requires Over(log0, log, ev, buf, again, r) && Over(log0', log', ev', buf, again, r')
    requires forall i :: 0 <= i < |ev| && i < |ev'| ==> ev[i].answer == ev'[i].answer
    ensures ev == ev' && r == r'
  {
    forall k | 0 <= k < |ev| && k < |ev'| ensures ev[k] == ev'[k] {
      SameSoFar(ev, ev', buf, k);
    }
    var k := (if |ev| < |ev'| then |ev| else |ev'|) - 1;
    assert CallsForMore(ev[k], again && k == 0) == CallsForMore(ev'[k], again && k == 0);
  }
}
