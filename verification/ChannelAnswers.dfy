/** What the puts and gets of a run are answered, next to what they asked. The record is kept from the moves
    and their outcomes alone; the variables of the channel are compared with it. */
module ChannelAnswers {
  import opened Sequences
  import opened ChannelModel
  import opened ChannelSteps
  import R = Runtime

  datatype Call<T> = PutCall(val: T) | GetCall

  /** Coroutine co made a call and came to an outcome: at its return, or at a wait in between. */
  datatype Answer<T> = Answer(co: nat, call: Call<T>, outcome: Outcome<T>)

  predicate IsCall<T>(m: Move<T>) {
    m.CallPut? || m.CallGet? || m.Resumed?
  }

  /** Which call a move makes or continues. It is known from `pending`, the calls that wait, and not from the
      variables of the channel. */
  function CallOf<T>(s: R.State, pending: map<nat, Call<T>>, m: Move<T>): Call<T> {
    match m
    case CallPut(x) => PutCall(x)
    case Resumed => var co := Caller(s, m); if co in pending then pending[co] else GetCall
    case _ => GetCall
  }

  function Caller<T>(s: R.State, m: Move<T>): nat {
    if m.Resumed? then if s.active != [] && s.active[0] in s.items then s.items[s.active[0]].co else 0
    else if s.stack == [] then 0 else R.Top(s)
  }

  function AnswerOf<T(==)>(v: Vars<T>, s: R.State, pending: map<nat, Call<T>>, m: Move<T>): Answer<T>
    requires Can(v, s, m) && IsCall(m)
  {
    Answer(Caller(s, m), CallOf(s, pending, m),
           if m.CallPut? then PutMove(v, s, m.x).2 else if m.CallGet? then GetMove(v, s).2 else ResumeMove(v, s).2)
  }

  /** A call that waits is pending until it goes on and does not wait again. */
  function StillPending<T>(pending: map<nat, Call<T>>, a: Answer<T>): map<nat, Call<T>> {
    if a.outcome.Waits? then pending[a.co := a.call] else pending - {a.co}
  }

  /** The answers of a run, in order, and the calls that wait at its end. */
  function Record<T(==)>(v: Vars<T>, s: R.State, pending: map<nat, Call<T>>, ms: seq<Move<T>>)
    : (r: (seq<Answer<T>>, map<nat, Call<T>>))
    requires Moves(v, s, ms)
    decreases |ms|
  {
    if ms == [] then ([], pending)
    else
      var (v', s') := Next(v, s, ms[0]);
      if IsCall(ms[0]) then
        var a := AnswerOf(v, s, pending, ms[0]);
        var (rest, p) := Record(v', s', StillPending(pending, a), ms[1..]);
        ([a] + rest, p)
      else
        Record(v', s', pending, ms[1..])
  }

  /** The arguments of the puts that were accepted. */
  function Stored<T>(answers: seq<Answer<T>>): seq<T> {
    if answers == [] then []
    else
      var a := answers[0];
      (if a.outcome.Accepted? && a.call.PutCall? then [a.call.val] else []) + Stored(answers[1..])
  }

  /** What the gets returned. */
  function Returned<T>(answers: seq<Answer<T>>): seq<T> {
    if answers == [] then []
    else
      var a := answers[0];
      (if a.outcome.Delivered? && a.call.GetCall? then [a.outcome.val] else []) + Returned(answers[1..])
  }

  function Held<T>(co: nat, call: Call<T>): Waiter<T> {
    match call
    case PutCall(x) => Putter(co, x)
    case GetCall => Getter(co)
  }

  /** What the stack of a suspended coroutine holds is its pending call. */
  ghost predicate Pends<T>(v: Vars<T>, pending: map<nat, Call<T>>) {
    forall k {:trigger Seen(k)} :: Seen(k) ==>
      v.frames.Keys == pending.Keys && forall co :: co in pending ==> v.frames[co] == Held(co, pending[co])
  }

  /** What a put or get comes to, in the variables of the channel before and after: refused just when the
      channel is closed, and waiting just when an open one has no room or no value. A put that is accepted
      has its argument behind the queue, a get that is answered has the head of the queue. */
  ghost predicate Answered<T>(v: Vars<T>, a: Answer<T>, v': Vars<T>) {
    && (a.outcome == Refused <==> v.closed)
    && (a.outcome == Waits <==> !v.closed && v.size == if a.call.PutCall? then v.cap else 0)
    && (!v.closed && a.outcome != Waits ==> if a.call.PutCall? then a.outcome == Accepted else a.outcome.Delivered?)
    && v'.closed == v.closed && v'.cap == v.cap && v'.size == |v'.queue|
    && match a.outcome
       case Accepted => v'.queue == v.queue + [a.call.val]
       case Delivered(x) => v.queue == [x] + v'.queue
       case _ => v'.queue == v.queue
  }

  /** It answers as it should, the histories grow with its answer, and the stacks hold it while it waits. */
  ghost predicate Tells<T>(v: Vars<T>, a: Answer<T>, v': Vars<T>) {
    && Answered(v, a, v')
    && v'.accepted == v.accepted + (if a.outcome.Accepted? then [a.call.val] else [])
    && v'.delivered == v.delivered + (if a.outcome.Delivered? then [a.outcome.val] else [])
    && v'.frames == if a.outcome.Waits? then v.frames[a.co := Held(a.co, a.call)] else v.frames - {a.co}
  }

  lemma PutTells<T>(v: Vars<T>, s: R.State, x: T)
    requires s.stack != [] && v.size == |v.queue| && R.Top(s) !in v.frames
    ensures var (v', _, o) := PutMove(v, s, x); Tells(v, Answer(R.Top(s), PutCall(x), o), v')
  {
  }

  lemma GetTells<T>(v: Vars<T>, s: R.State)
    requires s.stack != [] && v.size == |v.queue| && R.Top(s) !in v.frames
    ensures var (v', _, o) := GetMove(v, s); Tells(v, Answer(R.Top(s), GetCall, o), v')
  {
  }

  lemma ResumeTells<T>(v: Vars<T>, s: R.State, pending: map<nat, Call<T>>)
    requires HeadInside(v, s) && v.size == |v.queue| && Pends(v, pending)
    ensures var co := s.items[s.active[0]].co;
            var (v', _, o) := ResumeMove(v, s);
            co in pending && Tells(v, Answer(co, pending[co], o), v')
  {
    assert Seen(0);
    var co := s.items[s.active[0]].co;
    var v1, s1 := v.(frames := v.frames - {co}), R.ResumeHead(s);
    assert R.Top(s1) == co;
    match pending[co]
    case PutCall(x) => PutTells(v1, s1, x);
    case GetCall => GetTells(v1, s1);
  }

  lemma StillPends<T>(v: Vars<T>, pending: map<nat, Call<T>>, a: Answer<T>, v': Vars<T>)
    requires Pends(v, pending) && Tells(v, a, v')
    ensures Pends(v', StillPending(pending, a))
  {
    assert Seen(0);
  }

  lemma MoveTells<T>(v: Vars<T>, s: R.State, pending: map<nat, Call<T>>, m: Move<T>)
    requires Sound(v, s) && Can(v, s, m) && Pends(v, pending) && IsCall(m)
    ensures m.Resumed? ==> Caller(s, m) in pending
    ensures Tells(v, AnswerOf(v, s, pending, m), Next(v, s, m).0)
  {
    match m
    case CallPut(x) =>
      CallerIsFree(v, s);
      PutTells(v, s, x);
    case CallGet =>
      CallerIsFree(v, s);
      GetTells(v, s);
    case Resumed =>
      ResumeTells(v, s, pending);
  }

  /** The running coroutine is not in the middle of a call. */
  lemma CallerIsFree<T>(v: Vars<T>, s: R.State)
    requires Sound(v, s) && s.stack != []
    ensures R.Top(s) !in v.frames
  {
    assert Seen(0);
    RunningIsNotWaiting(s);
  }

  lemma {:induction false} RecordTells<T>(v: Vars<T>, s: R.State, pending: map<nat, Call<T>>, ms: seq<Move<T>>)
    requires Sound(v, s) && Pends(v, pending) && Moves(v, s, ms)
    ensures var (v', s') := After(v, s, ms);
            var (answers, p) := Record(v, s, pending, ms);
            && Sound(v', s') && Pends(v', p)
            && v'.accepted == v.accepted + Stored(answers) && v'.delivered == v.delivered + Returned(answers)
    decreases |ms|
  {
    if ms != [] {
      var (v1, s1) := Next(v, s, ms[0]);
      MoveIsSound(v, s, ms[0]);
      if IsCall(ms[0]) {
        var a := AnswerOf(v, s, pending, ms[0]);
        MoveTells(v, s, pending, ms[0]);
        StillPends(v, pending, a, v1);
        RecordTells(v1, s1, StillPending(pending, a), ms[1..]);
        FirstAnswer(v, a, v1, Record(v1, s1, StillPending(pending, a), ms[1..]).0);
      } else {
        RecordTells(v1, s1, pending, ms[1..]);
      }
    }
  }

  lemma StoredFirst<T>(a: Answer<T>, rest: seq<Answer<T>>)
    ensures Stored([a] + rest) == (if a.outcome.Accepted? && a.call.PutCall? then [a.call.val] else []) + Stored(rest)
  {
    assert ([a] + rest)[1..] == rest;
  }

  lemma ReturnedFirst<T>(a: Answer<T>, rest: seq<Answer<T>>)
    ensures Returned([a] + rest) ==
            (if a.outcome.Delivered? && a.call.GetCall? then [a.outcome.val] else []) + Returned(rest)
  {
    assert ([a] + rest)[1..] == rest;
  }

  lemma FirstAnswer<T>(v: Vars<T>, a: Answer<T>, v1: Vars<T>, rest: seq<Answer<T>>)
    requires Tells(v, a, v1)
    ensures v1.accepted + Stored(rest) == v.accepted + Stored([a] + rest)
    ensures v1.delivered + Returned(rest) == v.delivered + Returned([a] + rest)
  {
    StoredFirst(a, rest);
    ReturnedFirst(a, rest);
    AppendTwice(v.accepted, if a.outcome.Accepted? then [a.call.val] else [], Stored(rest));
    AppendTwice(v.delivered, if a.outcome.Delivered? then [a.outcome.val] else [], Returned(rest));
  }

  lemma RecordOfNew<T>(cap: int, empty: nat, full: nat, s: R.State, ms: seq<Move<T>>)
    requires R.Inv(s) && empty != full && R.Deque(s, empty) == [] && R.Deque(s, full) == []
    requires Moves(NewVars<T>(cap, empty, full), s, ms)
    ensures var (v, t) := After(NewVars<T>(cap, empty, full), s, ms);
            var (answers, pending) := Record(NewVars<T>(cap, empty, full), s, map[], ms);
            Sound(v, t) && Pends(v, pending) && v.accepted == Stored(answers) && v.delivered == Returned(answers)
  {
    NewIsSound<T>(cap, empty, full, s);
    RecordTells(NewVars<T>(cap, empty, full), s, map[], ms);
    var answers := Record(NewVars<T>(cap, empty, full), s, map[], ms).0;
    AppendToNothing([], Stored(answers));
    AppendToNothing([], Returned(answers));
  }

  lemma PutComesTo<T>(v: Vars<T>, s: R.State, x: T)
    requires s.stack != []
    ensures var (v', s', o) := PutMove(v, s, x);
            && (o.Refused? <==> v.closed) && (o.Waits? <==> !v.closed && v.size == v.cap)
            && (o.Accepted? <==> !v.closed && v.size != v.cap)
            && v'.queue == (if o.Accepted? then v.queue + [x] else v.queue) && v'.closed == v.closed
            && s' == if o.Refused? then s else if o.Waits? then R.WaitOnCond(s, v.full) else R.SignalOne(s, v.empty)
  {
  }

  lemma GetComesTo<T>(v: Vars<T>, s: R.State)
    requires s.stack != [] && v.size == |v.queue|
    ensures var (v', s', o) := GetMove(v, s);
            && (o.Refused? <==> v.closed) && (o.Waits? <==> !v.closed && v.size == 0)
            && (o.Delivered? <==> !v.closed && v.size != 0)
            && v.queue == (if o.Delivered? then [o.val] + v'.queue else v'.queue) && v'.closed == v.closed
            && s' == if o.Refused? then s else if o.Waits? then R.WaitOnCond(s, v.empty) else R.SignalOne(s, v.full)
  {
  }

  lemma ResumeComesTo<T>(v: Vars<T>, s: R.State)
    requires HeadInside(v, s) && v.size == |v.queue| && !v.frames[s.items[s.active[0]].co].Other?
    ensures var co := s.items[s.active[0]].co;
            var (v', _, o) := ResumeMove(v, s);
            Answered(v, Answer(co, if v.frames[co].Putter? then PutCall(v.frames[co].val) else GetCall, o), v')
  {
  }

  /** What a call does to the scheduler, once its coroutine runs: one that waits is queued behind the others
      on its condition, a put that is accepted signals a getter, a get that is answered signals a putter. */
  ghost predicate Schedules<T>(v: Vars<T>, s: R.State, a: Answer<T>, s': R.State) {
    && s.stack != [] && R.Top(s) == a.co
    && s' == match a.outcome
             case Waits => R.WaitOnCond(s, if a.call.PutCall? then v.full else v.empty)
             case Accepted => R.SignalOne(s, v.empty)
             case Delivered(_) => R.SignalOne(s, v.full)
             case _ => s
  }

  lemma ResumeSchedules<T>(v: Vars<T>, s: R.State, pending: map<nat, Call<T>>)
    requires HeadInside(v, s) && v.size == |v.queue| && Pends(v, pending)
    ensures var co := s.items[s.active[0]].co;
            var (_, s', o) := ResumeMove(v, s);
            co in pending && Schedules(v, R.ResumeHead(s), Answer(co, pending[co], o), s')
  {
    assert Seen(0);
    var co := s.items[s.active[0]].co;
    var v1, s1 := v.(frames := v.frames - {co}), R.ResumeHead(s);
    assert R.Top(s1) == co;
    match pending[co]
    case PutCall(x) => PutComesTo(v1, s1, x);
    case GetCall => GetComesTo(v1, s1);
  }

  lemma MoveSchedules<T>(v: Vars<T>, s: R.State, pending: map<nat, Call<T>>, m: Move<T>)
    requires Can(v, s, m) && Pends(v, pending) && IsCall(m)
    ensures var s1 := if m.Resumed? then R.ResumeHead(s) else s;
            Schedules(v, s1, AnswerOf(v, s, pending, m), Next(v, s, m).1)
  {
    match m
    case CallPut(x) => PutComesTo(v, s, x);
    case CallGet => GetComesTo(v, s);
    case Resumed => ResumeSchedules(v, s, pending);
  }

  /** Over every run of the scheduler with the calls of the channel and everybody else's steps: the arguments
      of the puts that were accepted are, in the order of their acceptance, the values the gets returned, in
      the order they returned, and then the queue. */
  lemma ReturnedWasStored<T>(cap: int, empty: nat, full: nat, s: R.State, ms: seq<Move<T>>)
    requires R.Inv(s) && empty != full && R.Deque(s, empty) == [] && R.Deque(s, full) == []
    requires Moves(NewVars<T>(cap, empty, full), s, ms)
    ensures var (v, _) := After(NewVars<T>(cap, empty, full), s, ms);
            var (answers, _) := Record(NewVars<T>(cap, empty, full), s, map[], ms);
            && Stored(answers) == Returned(answers) + v.queue
            && v.accepted == Stored(answers) && v.delivered == Returned(answers)
  {
    assert Seen(0);
    RecordOfNew(cap, empty, full, s, ms);
  }

  /** After every such run, what a put or get that is made or goes on comes to, for the channel and for the
      scheduler; and whoever goes on had made a call that waited. */
  lemma EveryCallIsAnswered<T>(cap: int, empty: nat, full: nat, s: R.State, ms: seq<Move<T>>, m: Move<T>)
    requires R.Inv(s) && empty != full && R.Deque(s, empty) == [] && R.Deque(s, full) == []
    requires Moves(NewVars<T>(cap, empty, full), s, ms)
    requires var (v, t) := After(NewVars<T>(cap, empty, full), s, ms); Can(v, t, m) && IsCall(m)
    ensures var (v, t) := After(NewVars<T>(cap, empty, full), s, ms);
            var (_, pending) := Record(NewVars<T>(cap, empty, full), s, map[], ms);
            && (m.Resumed? ==> Caller(t, m) in pending)
            && Answered(v, AnswerOf(v, t, pending, m), Next(v, t, m).0)
            && Schedules(v, if m.Resumed? then R.ResumeHead(t) else t, AnswerOf(v, t, pending, m), Next(v, t, m).1)
  {
    RecordOfNew(cap, empty, full, s, ms);
    var (v, t) := After(NewVars<T>(cap, empty, full), s, ms);
    var pending := Record(NewVars<T>(cap, empty, full), s, map[], ms).1;
    MoveTells(v, t, pending, m);
    MoveSchedules(v, t, pending, m);
  }
}
