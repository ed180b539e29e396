/** Runs of many coroutines over one machine. */
module ContextRuns {
  import opened ContextSwitch

  /** Where a context keeps its register block and its stack [lo, hi). */
  datatype Home = Home(block: int, lo: int, hi: int)

  type Layout = map<nat, Home>

  /** Register blocks are aligned words; no two blocks or stacks overlap. */
  ghost predicate Separate(l: Layout) {
    && (forall i :: i in l ==> l[i].block % 8 == 0)
    && (forall i, j :: i in l && j in l && i != j ==>
          Apart(l[i].block, l[j].block) && (l[i].hi <= l[j].lo || l[j].hi <= l[i].lo))
    && (forall i, j :: i in l && j in l ==> l[i].block + BLOCK <= l[j].lo || l[j].hi <= l[i].block)
  }

  /** What a coroutine saw when it left: its registers at the call of context_swap, the return address
      on top of its stack, and memory. */
  datatype Frame = Frame(left: Regs, ret: int, mem: map<int, int>)

  datatype Sys = Sys(m: Machine, running: nat, frames: map<nat, Frame>)

  /** Memory suspended context j relies on: its block, and its stack from the return address up. */
  predicate Claims(h: Home, f: Frame, a: int) {
    InBlock(h.block, a) || f.left.rsp <= a < h.hi
  }

  /** Any code of the running coroutine: it may do what it likes with registers and with memory no
      suspended context relies on. */
  ghost predicate Computes(l: Layout, s: Sys, s': Sys) {
    && s'.running == s.running && s'.frames == s.frames
    && forall j, a :: j in s.frames && j in l && Claims(l[j], s.frames[j], a) ==>
         Read(s'.m.mem, a) == Read(s.m.mem, a)
  }

  /** The running coroutine calls context_swap to go to context j. */
  ghost predicate SwapsTo(l: Layout, s: Sys, s': Sys, j: nat) {
    && s.running in l && j in l && j != s.running && j in s.frames
    && s.m.regs.rdi == l[s.running].block && s.m.regs.rsi == l[j].block
    && l[s.running].lo <= s.m.regs.rsp && s.m.regs.rsp + 8 <= l[s.running].hi && s.m.regs.rsp % 8 == 0
    && Switches(s.m, s'.m)
    && s'.running == j
    && s'.frames == (s.frames - {j})[s.running := Frame(s.m.regs, Read(s.m.mem, s.m.regs.rsp), s.m.mem)]
  }

  /** The running coroutine prepares the fresh context j with context_make. */
  ghost predicate Makes(l: Layout, s: Sys, s': Sys, j: nat, func: int, s1: int, s2: int) {
    && j in l && j != s.running && j !in s.frames && 0 <= l[j].lo && l[j].lo + 23 <= l[j].hi
    && var sp := StackTop(l[j].lo, l[j].hi - l[j].lo);
    && Holds(s'.m.mem, l[j].block, FirstRegs(sp, s1, s2), func) && Read(s'.m.mem, sp) == func
    && (forall a :: !InBlock(l[j].block, a) && a != sp ==> Read(s'.m.mem, a) == Read(s.m.mem, a))
    && s'.running == s.running
    && s'.frames == s.frames[j := Frame(FirstRegs(sp, s1, s2), func, s'.m.mem)]
  }

  ghost predicate Steps(l: Layout, s: Sys, s': Sys) {
    || Computes(l, s, s')
    || (exists j :: SwapsTo(l, s, s', j))
    || (exists j, func, s1, s2 :: Makes(l, s, s', j, func, s1, s2))
  }

  /** What a suspended context left is still there: its registers in its block, its stack from the
      return address up. */
  ghost predicate Kept(mem: map<int, int>, h: Home, f: Frame) {
    && h.lo <= f.left.rsp < h.hi
    && Holds(mem, h.block, f.left, f.ret)
    && Read(f.mem, f.left.rsp) == f.ret
    && forall a :: f.left.rsp <= a < h.hi ==> Read(mem, a) == Read(f.mem, a)
  }

  ghost predicate Inv(l: Layout, s: Sys) {
    && Separate(l) && s.running in l && s.running !in s.frames
    && forall j :: j in s.frames ==> j in l && Kept(s.m.mem, l[j], s.frames[j])
  }

  lemma KeptFramed(mem: map<int, int>, mem': map<int, int>, h: Home, f: Frame)
    requires Kept(mem, h, f)
    requires forall a :: Claims(h, f, a) ==> Read(mem', a) == Read(mem, a)
    ensures Kept(mem', h, f)
  {
  }

  lemma ComputesKeeps(l: Layout, s: Sys, s': Sys)
    requires Inv(l, s) && Computes(l, s, s')
    ensures Inv(l, s')
  {
    forall j | j in s.frames ensures Kept(s'.m.mem, l[j], s.frames[j]) {
      KeptFramed(s.m.mem, s'.m.mem, l[j], s.frames[j]);
    }
  }

  /** Loading the registers a block holds. */
  lemma HeldRegs(mem: map<int, int>, base: int, r: Regs, ret: int, now: Regs)
    requires Holds(mem, base, r, ret) && Reentered(now, RegsIn(mem, base), Read(mem, base + 72))
    ensures Reentered(now, r, ret) && RegsIn(mem, base).rsp == r.rsp && Read(mem, base + 72) == ret
  {
  }

  /** A switch changes memory only in the block of the coroutine that leaves: the word pushed on the
      entered stack is the one already there. */
  lemma SwapMemory(l: Layout, s: Sys, s': Sys, j: nat)
    requires Inv(l, s) && SwapsTo(l, s, s', j)
    ensures Reentered(s'.m.regs, s.frames[j].left, s.frames[j].ret)
    ensures forall a :: !InBlock(l[s.running].block, a) ==> Read(s'.m.mem, a) == Read(s.m.mem, a)
  {
    var f := s.frames[j];
    assert Kept(s.m.mem, l[j], f);
    HeldRegs(s.m.mem, l[j].block, f.left, f.ret, s'.m.regs);
    assert Read(s.m.mem, f.left.rsp) == Read(f.mem, f.left.rsp);
  }

  /** The coroutine that leaves is itself kept. */
  lemma LeaverKept(l: Layout, s: Sys, s': Sys, j: nat)
    requires Inv(l, s) && SwapsTo(l, s, s', j)
    ensures Kept(s'.m.mem, l[s.running], s'.frames[s.running])
  {
    SwapMemory(l, s, s', j);
    var i := s.running;
    assert s'.frames[i] == Frame(s.m.regs, Read(s.m.mem, s.m.regs.rsp), s.m.mem);
    assert Holds(s'.m.mem, l[i].block, s.m.regs, Read(s.m.mem, s.m.regs.rsp));
    assert l[i].block + BLOCK <= l[i].lo || l[i].hi <= l[i].block;
  }

  /** Writing in the block and the stack of context i disturbs no suspended other. */
  lemma OthersKept(l: Layout, s: Sys, mem': map<int, int>, i: nat, sp: int)
    requires Inv(l, s) && i in l && l[i].lo <= sp < l[i].hi
    requires forall a :: !InBlock(l[i].block, a) && a != sp ==> Read(mem', a) == Read(s.m.mem, a)
    ensures forall k :: k in s.frames && k != i ==> Kept(mem', l[k], s.frames[k])
  {
    forall k | k in s.frames && k != i ensures Kept(mem', l[k], s.frames[k]) {
      BlockApart(l, i, k, s.frames[k]);
      KeptFramed(s.m.mem, mem', l[k], s.frames[k]);
    }
  }

  lemma SwapKeeps(l: Layout, s: Sys, s': Sys, j: nat)
    requires Inv(l, s) && SwapsTo(l, s, s', j)
    ensures Inv(l, s')
  {
    SwapMemory(l, s, s', j);
    LeaverKept(l, s, s', j);
    AllKept(l, s, s', s.running, s.m.regs.rsp);
  }

  lemma AllKept(l: Layout, s: Sys, s': Sys, i: nat, sp: int)
    requires Inv(l, s) && i in l && l[i].lo <= sp < l[i].hi
    requires forall a :: !InBlock(l[i].block, a) && a != sp ==> Read(s'.m.mem, a) == Read(s.m.mem, a)
    requires s'.running in l && s'.running !in s'.frames && i in s'.frames && Kept(s'.m.mem, l[i], s'.frames[i])
    requires forall k :: k in s'.frames && k != i ==> k in s.frames && s'.frames[k] == s.frames[k]
    ensures Inv(l, s')
  {
    OthersKept(l, s, s'.m.mem, i, sp);
  }

  lemma BlockApart(l: Layout, i: nat, k: nat, f: Frame)
    requires Separate(l) && i in l && k in l && i != k && l[k].lo <= f.left.rsp
    ensures forall a :: Claims(l[k], f, a) ==> !InBlock(l[i].block, a)
  {
  }

  lemma StackTopFits(base: nat, size: nat)
    requires size >= 23
    ensures var sp := StackTop(base, size); base <= sp && sp + 8 <= base + size < sp + 24 && (sp + 16) % 16 == 0
  {
  }

  lemma MadeKept(l: Layout, s: Sys, s': Sys, j: nat, func: int, s1: int, s2: int)
    requires Makes(l, s, s', j, func, s1, s2)
    ensures Kept(s'.m.mem, l[j], s'.frames[j])
    ensures var sp := StackTop(l[j].lo, l[j].hi - l[j].lo); l[j].lo <= sp < l[j].hi
  {
    StackTopFits(l[j].lo, l[j].hi - l[j].lo);
  }

  lemma MakeKeeps(l: Layout, s: Sys, s': Sys, j: nat, func: int, s1: int, s2: int)
    requires Inv(l, s) && Makes(l, s, s', j, func, s1, s2)
    ensures Inv(l, s')
  {
    MadeKept(l, s, s', j, func, s1, s2);
    AllKept(l, s, s', j, StackTop(l[j].lo, l[j].hi - l[j].lo));
  }

  lemma StepKeeps(l: Layout, s: Sys, s': Sys)
    requires Inv(l, s) && Steps(l, s, s')
    ensures Inv(l, s')
  {
    if j :| SwapsTo(l, s, s', j) {
      SwapKeeps(l, s, s', j);
    } else if j, func, s1, s2 :| Makes(l, s, s', j, func, s1, s2) {
      MakeKeeps(l, s, s', j, func, s1, s2);
    } else {
      ComputesKeeps(l, s, s');
    }
  }

  ghost predicate StepAt(l: Layout, t: seq<Sys>, k: nat)
    requires k + 1 < |t|
  {
    Steps(l, t[k], t[k + 1])
  }

  ghost predicate Trace(l: Layout, t: seq<Sys>) {
    && t != [] && Inv(l, t[0])
    && forall k :: 0 <= k < |t| - 1 ==> StepAt(l, t, k)
  }

  lemma {:induction false} TraceInv(l: Layout, t: seq<Sys>, k: nat)
    requires Trace(l, t) && k < |t|
    ensures Inv(l, t[k])
  {
    if k > 0 {
      TraceInv(l, t, k - 1);
      assert StepAt(l, t, k - 1);
      StepKeeps(l, t[k - 1], t[k]);
    }
  }

  lemma SwapRecord(l: Layout, s: Sys, s': Sys, j: nat, i: nat)
    requires SwapsTo(l, s, s', j) && i in s.frames && i != j && i != s.running
    ensures i in s'.frames && s'.frames[i] == s.frames[i]
  {
    assert i in s.frames - {j};
  }

  lemma MakeRecord(l: Layout, s: Sys, s': Sys, j: nat, func: int, s1: int, s2: int, i: nat)
    requires Makes(l, s, s', j, func, s1, s2) && i in s.frames
    ensures i in s'.frames && s'.frames[i] == s.frames[i]
  {
  }

  /** A step of others leaves the record of i alone; only a switch changes who runs. */
  lemma RecordStays(l: Layout, s: Sys, s': Sys, i: nat)
    requires Inv(l, s) && Steps(l, s, s') && i in s.frames && s'.running != i
    ensures i in s'.frames && s'.frames[i] == s.frames[i]
  {
    if j :| SwapsTo(l, s, s', j) {
      SwapRecord(l, s, s', j, i);
    } else if j, func, s1, s2 :| Makes(l, s, s', j, func, s1, s2) {
      MakeRecord(l, s, s', j, func, s1, s2, i);
    }
  }

  /** Only a switch changes who runs, and it records what the leaver saw. */
  lemma Departure(l: Layout, s: Sys, s': Sys)
    requires Steps(l, s, s') && s'.running != s.running
    ensures s.running in s'.frames
    ensures s'.frames[s.running] == Frame(s.m.regs, Read(s.m.mem, s.m.regs.rsp), s.m.mem)
  {
    var j :| SwapsTo(l, s, s', j);
  }

  /** While coroutine i is away, what it left stays on record. */
  lemma {:induction false} FramePersists(l: Layout, t: seq<Sys>, i: nat, a: nat, b: nat)
    requires Trace(l, t) && a <= b < |t| && i in t[a].frames
    requires forall k :: a <= k <= b ==> t[k].running != i
    ensures i in t[b].frames && t[b].frames[i] == t[a].frames[i]
  {
    if a < b {
      FramePersists(l, t, i, a, b - 1);
      TraceInv(l, t, b - 1);
      assert StepAt(l, t, b - 1);
      RecordStays(l, t[b - 1], t[b], i);
    }
  }

  /** What a context finds when it is entered, given what it left. */
  ghost predicate Resumes(m: Machine, h: Home, f: Frame) {
    && Reentered(m.regs, f.left, f.ret)
    && forall x :: f.left.rsp <= x < h.hi ==> Read(m.mem, x) == Read(f.mem, x)
  }

  lemma SwapResumes(l: Layout, s: Sys, s': Sys, i: nat)
    requires Inv(l, s) && SwapsTo(l, s, s', i)
    ensures Resumes(s'.m, l[i], s.frames[i])
  {
    SwapMemory(l, s, s', i);
    BlockApart(l, s.running, i, s.frames[i]);
    KeptFramed(s.m.mem, s'.m.mem, l[i], s.frames[i]);
  }

  lemma Arrival(l: Layout, s: Sys, s': Sys)
    requires Inv(l, s) && Steps(l, s, s') && s'.running != s.running
    ensures s'.running in l && s'.running in s.frames
    ensures Resumes(s'.m, l[s'.running], s.frames[s'.running])
  {
    var j :| SwapsTo(l, s, s', j);
    SwapResumes(l, s, s', j);
  }

  lemma MadeRecord(l: Layout, s: Sys, s': Sys, j: nat, func: int, s1: int, s2: int)
    requires Makes(l, s, s', j, func, s1, s2)
    ensures j in l && 0 <= l[j].lo && l[j].lo + 23 <= l[j].hi && j in s'.frames
    ensures var sp := StackTop(l[j].lo, l[j].hi - l[j].lo);
            s'.frames[j].left == FirstRegs(sp, s1, s2) && s'.frames[j].ret == func
  {
  }

  lemma DepartureAt(l: Layout, t: seq<Sys>, a: nat)
    requires Trace(l, t) && a + 1 < |t| && t[a + 1].running != t[a].running
    ensures var (s, s') := (t[a], t[a + 1]);
            && s.running in s'.frames
            && s'.frames[s.running] == Frame(s.m.regs, Read(s.m.mem, s.m.regs.rsp), s.m.mem)
  {
    assert StepAt(l, t, a);
    Departure(l, t[a], t[a + 1]);
  }

  lemma ArrivalAt(l: Layout, t: seq<Sys>, b: nat)
    requires Trace(l, t) && b + 1 < |t| && t[b + 1].running != t[b].running
    ensures var (s, s') := (t[b], t[b + 1]);
            && s'.running in l && s'.running in s.frames
            && Resumes(s'.m, l[s'.running], s.frames[s'.running])
  {
    TraceInv(l, t, b);
    assert StepAt(l, t, b);
    Arrival(l, t[b], t[b + 1]);
  }

  /** Switches are invisible. In any run of any number of coroutines with separate blocks and stacks,
      take the moment a at which coroutine i calls context_swap and the moment b + 1 at which it next
      runs: its general registers are those of moment a, the next instruction is the return address
      of its call, rsp has moved up by the popped return address, and its stack is as it left it. */
  lemma SwitchesAreInvisible(l: Layout, t: seq<Sys>, a: nat, b: nat)
    requires Trace(l, t) && a < b < |t| - 1
    requires var i := t[a].running;
             t[b + 1].running == i && forall k :: a < k <= b ==> t[k].running != i
    ensures var (m, m') := (t[a].m, t[b + 1].m);
            && m'.regs == m.regs.(rax := m'.regs.rax, rip := Read(m.mem, m.regs.rsp), rsp := m.regs.rsp + 8)
            && t[a].running in l
            && forall x :: m.regs.rsp <= x < l[t[a].running].hi ==> Read(m'.mem, x) == Read(m.mem, x)
  {
    DepartureAt(l, t, a);
    FramePersists(l, t, t[a].running, a + 1, b);
    ArrivalAt(l, t, b);
  }

  /** The first entry of a made context: whatever happened since context_make, it starts at its
      function, with its arguments, all other registers 0, at the top of an aligned stack: all of the
      stack but 15 bytes at most lies below rsp. */
  lemma MadeContextStarts(l: Layout, t: seq<Sys>, j: nat, a: nat, b: nat, func: int, s1: int, s2: int)
    requires Trace(l, t) && a < b < |t| - 1 && Makes(l, t[a], t[a + 1], j, func, s1, s2)
    requires t[b + 1].running == j && forall k :: a < k <= b ==> t[k].running != j
    ensures var r := t[b + 1].m.regs;
            && r.rip == func && r.rdi == s1 && r.rsi == s2
            && r.rbx == r.rcx == r.rdx == r.rbp == r.r8 == r.r9 == r.r12 == r.r13 == r.r14 == r.r15 == 0
            && (r.rsp + 8) % 16 == 0 && j in l && l[j].lo < r.rsp <= l[j].hi < r.rsp + 16
  {
    MadeRecord(l, t[a], t[a + 1], j, func, s1, s2);
    FramePersists(l, t, j, a + 1, b);
    StackTopFits(l[j].lo, l[j].hi - l[j].lo);
    ArrivalAt(l, t, b);
  }
}
