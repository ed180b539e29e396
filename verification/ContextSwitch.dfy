/** The stack switch: a register and memory machine, the straight-line code of context_swap and
    context_make on it, and the proof that switches are invisible to the coroutines. Memory is seen as
    64-bit words at addresses that are multiples of 8. */
module ContextSwitch {

  datatype Regs = Regs(rax: int, rbx: int, rcx: int, rdx: int, rsi: int, rdi: int, rbp: int, rsp: int,
                       r8: int, r9: int, r12: int, r13: int, r14: int, r15: int, rip: int)

  datatype Machine = Machine(regs: Regs, mem: map<int, int>)

  function Read(mem: map<int, int>, a: int): int {
    if a in mem then mem[a] else 0
  }

  const BLOCK: nat := 112

  /** The block at `base` holds the registers `r` and the return address, slot by slot. */
  predicate Holds(mem: map<int, int>, base: int, r: Regs, ret: int) {
    && Read(mem, base) == r.r15
    && Read(mem, base + 8) == r.r14
    && Read(mem, base + 16) == r.r13
    && Read(mem, base + 24) == r.r12
    && Read(mem, base + 32) == r.r9
    && Read(mem, base + 40) == r.r8
    && Read(mem, base + 48) == r.rbp
    && Read(mem, base + 56) == r.rdi
    && Read(mem, base + 64) == r.rsi
    && Read(mem, base + 72) == ret
    && Read(mem, base + 80) == r.rdx
    && Read(mem, base + 88) == r.rcx
    && Read(mem, base + 96) == r.rbx
    && Read(mem, base + 104) == r.rsp
  }

  predicate InBlock(base: int, a: int) {
    base <= a < base + BLOCK
  }

  predicate Apart(x: int, y: int) {
    x + BLOCK <= y || y + BLOCK <= x
  }

  /** The registers a context shows once it runs again: those it left with, the return address as the
      next instruction, and the return address popped off the stack. */
  ghost predicate Reentered(r: Regs, left: Regs, ret: int) {
    && r.rip == ret && r.rsp == left.rsp + 8
    && r.rbx == left.rbx && r.rcx == left.rcx && r.rdx == left.rdx
    && r.rsi == left.rsi && r.rdi == left.rdi && r.rbp == left.rbp
    && r.r8 == left.r8 && r.r9 == left.r9
    && r.r12 == left.r12 && r.r13 == left.r13 && r.r14 == left.r14 && r.r15 == left.r15
  }

  /** The registers the block at `base` holds. */
  function RegsIn(mem: map<int, int>, base: int): (r: Regs)
    ensures Holds(mem, base, r, Read(mem, base + 72))
  {
    Regs(0, Read(mem, base + 96), Read(mem, base + 88), Read(mem, base + 80), Read(mem, base + 64),
         Read(mem, base + 56), Read(mem, base + 48), Read(mem, base + 104), Read(mem, base + 40),
         Read(mem, base + 32), Read(mem, base + 24), Read(mem, base + 16), Read(mem, base + 8),
         Read(mem, base), 0)
  }

  /** What context_swap does, from the machine at its first instruction to the machine after its ret:
      the caller's registers and return address are saved in the block at rdi, the registers in the
      block at rsi are loaded, its return address is pushed on its stack and returned to. */
  ghost predicate Switches(m: Machine, m': Machine) {
    var left, ret := RegsIn(m.mem, m.regs.rsi), Read(m.mem, m.regs.rsi + 72);
    && Holds(m'.mem, m.regs.rdi, m.regs, Read(m.mem, m.regs.rsp))
    && Reentered(m'.regs, left, ret)
    && (forall a :: !InBlock(m.regs.rdi, a) ==>
          Read(m'.mem, a) == if a == left.rsp then ret else Read(m.mem, a))
  }

  class Cpu {
    var rax: int
    var rbx: int
    var rcx: int
    var rdx: int
    var rsi: int
    var rdi: int
    var rbp: int
    var rsp: int
    var r8: int
    var r9: int
    var r12: int
    var r13: int
    var r14: int
    var r15: int
    var rip: int
    var mem: map<int, int>

    ghost function State(): Machine
      reads this
    {
      Machine(Regs(rax, rbx, rcx, rdx, rsi, rdi, rbp, rsp, r8, r9, r12, r13, r14, r15, rip), mem)
    }

    /** The save half, in three stretches of stores. */
    method Save()
      requires !InBlock(rdi, rsp)
      modifies this`mem, this`rax
      ensures Holds(mem, rdi, old(State().regs), Read(old(mem), rsp))
      ensures forall a :: !InBlock(rdi, a) ==> Read(mem, a) == Read(old(mem), a)
    {
      SaveHigh();
      SaveMiddle();
      SaveLow();
      rax := 0;
    }

    method SaveHigh()
      requires !InBlock(rdi, rsp)
      modifies this`mem, this`rax
      ensures Read(mem, rdi + 104) == rsp && Read(mem, rdi + 96) == rbx
      ensures Read(mem, rdi + 88) == rcx && Read(mem, rdi + 80) == rdx
      ensures forall a :: !(rdi + 80 <= a < rdi + 112) ==> Read(mem, a) == Read(old(mem), a)
      ensures rax == Read(old(mem), rsp)
    {
      rax := rsp;
      mem := mem[rdi + 104 := rax];
      mem := mem[rdi + 96 := rbx];
      mem := mem[rdi + 88 := rcx];
      mem := mem[rdi + 80 := rdx];
      rax := Read(mem, rax);
    }

    method SaveMiddle()
      modifies this`mem
      ensures Read(mem, rdi + 72) == rax && Read(mem, rdi + 64) == rsi
      ensures Read(mem, rdi + 56) == rdi && Read(mem, rdi + 48) == rbp
      ensures forall a :: !(rdi + 48 <= a < rdi + 80) ==> Read(mem, a) == Read(old(mem), a)
    {
      mem := mem[rdi + 72 := rax];
      mem := mem[rdi + 64 := rsi];
      mem := mem[rdi + 56 := rdi];
      mem := mem[rdi + 48 := rbp];
    }

    method SaveLow()
      modifies this`mem
      ensures Read(mem, rdi + 40) == r8 && Read(mem, rdi + 32) == r9 && Read(mem, rdi + 24) == r12
      ensures Read(mem, rdi + 16) == r13 && Read(mem, rdi + 8) == r14 && Read(mem, rdi) == r15
      ensures forall a :: !(rdi <= a < rdi + 48) ==> Read(mem, a) == Read(old(mem), a)
    {
      mem := mem[rdi + 40 := r8];
      mem := mem[rdi + 32 := r9];
      mem := mem[rdi + 24 := r12];
      mem := mem[rdi + 16 := r13];
      mem := mem[rdi + 8 := r14];
      mem := mem[rdi := r15];
    }

    /** The restore half: the return address is pushed where it was and ret pops it. */
    method Restore(ghost left: Regs, ghost ret: int)
      requires Holds(mem, rsi, left, ret) && !InBlock(rsi, left.rsp)
      modifies this
      ensures Reentered(State().regs, left, ret)
      ensures forall a :: Read(mem, a) == if a == left.rsp then ret else Read(old(mem), a)
    {
      LoadLow(left, ret);
      LoadHigh(left, ret);
      rsp := rsp + 8;
      Push(Read(mem, rsi + 72));
      rsi := Read(mem, rsi + 64);
      rip := Read(mem, rsp);
      rsp := rsp + 8;
    }

    method LoadLow(ghost left: Regs, ghost ret: int)
      requires Holds(mem, rsi, left, ret)
      modifies this`rbp, this`rsp, this`r15, this`r14, this`r13, this`r12
      ensures rbp == left.rbp && rsp == left.rsp
      ensures r12 == left.r12 && r13 == left.r13 && r14 == left.r14 && r15 == left.r15
    {
      rbp := Read(mem, rsi + 48);
      rsp := Read(mem, rsi + 104);
      r15 := Read(mem, rsi);
      r14 := Read(mem, rsi + 8);
      r13 := Read(mem, rsi + 16);
      r12 := Read(mem, rsi + 24);
    }

    method LoadHigh(ghost left: Regs, ghost ret: int)
      requires Holds(mem, rsi, left, ret)
      modifies this`r9, this`r8, this`rdi, this`rdx, this`rcx, this`rbx
      ensures rdi == left.rdi && rdx == left.rdx && rcx == left.rcx && rbx == left.rbx
      ensures r8 == left.r8 && r9 == left.r9
    {
      r9 := Read(mem, rsi + 32);
      r8 := Read(mem, rsi + 40);
      rdi := Read(mem, rsi + 56);
      rdx := Read(mem, rsi + 80);
      rcx := Read(mem, rsi + 88);
      rbx := Read(mem, rsi + 96);
    }

    method Push(v: int)
      modifies this`rsp, this`mem
      ensures rsp == old(rsp) - 8 && Read(mem, rsp) == v
      ensures forall a :: a != rsp ==> Read(mem, a) == Read(old(mem), a)
    {
      rsp := rsp - 8;
      mem := mem[rsp := v];
    }

    /** context_swap, called with two separate blocks and stacks outside them. */
    method ContextSwap()
      requires Apart(rdi, rsi) && !InBlock(rdi, rsp)
      requires var sp := Read(mem, rsi + 104); !InBlock(rdi, sp) && !InBlock(rsi, sp)
      modifies this
      ensures Switches(old(State()), State())
    {
      ghost var left, ret := RegsIn(mem, rsi), Read(mem, rsi + 72);
      Save();
      Restore(left, ret);
    }

    /** The memset of the register slots. */
    method ZeroBlock(ctx: int)
      modifies this`mem
      ensures forall a :: Read(mem, a) == if InBlock(ctx, a) then 0 else Read(old(mem), a)
    {
      mem := map a | a in mem && !InBlock(ctx, a) :: mem[a];
    }

    /** context_make: zeroes the block at `ctx` and lays out the first entry of `func` on the stack
        of `size` bytes at `base`. */
    method ContextMake(ctx: int, base: int, size: nat, func: int, s1: int, s2: int) returns (sp: int)
      requires base >= 0 && size >= 8
      requires !InBlock(ctx, StackTop(base, size))
      modifies this`mem
      ensures sp == StackTop(base, size) && sp % 16 == 0 && sp + 8 <= base + size < sp + 24
      ensures Read(mem, sp) == func && Read(mem, ctx + 104) == sp && Read(mem, ctx + 72) == func
      ensures Read(mem, ctx + 56) == s1 && Read(mem, ctx + 64) == s2
      ensures Holds(mem, ctx, FirstRegs(sp, s1, s2), func)
      ensures forall a :: !InBlock(ctx, a) && a != sp ==> Read(mem, a) == Read(old(mem), a)
    {
      sp := base + size - 8;
      sp := sp - sp % 16;
      ZeroBlock(ctx);
      Store(sp, func);
      Store(ctx + 104, sp);
      Store(ctx + 72, func);
      Store(ctx + 56, s1);
      Store(ctx + 64, s2);
    }

    method Store(a: int, v: int)
      modifies this`mem
      ensures forall x :: Read(mem, x) == if x == a then v else Read(old(mem), x)
    {
      mem := mem[a := v];
    }
  }

  // ----- the initial stack image

  /** The top word of a fresh stack: the last word inside it, rounded down to a multiple of 16. */
  function StackTop(base: int, size: int): int {
    (base + size - 8) - (base + size - 8) % 16
  }

  function FirstRegs(sp: int, s1: int, s2: int): Regs {
    Regs(0, 0, 0, 0, s2, s1, 0, sp, 0, 0, 0, 0, 0, 0, 0)
  }

  /** It is the highest aligned word that ends inside the stack: all of the stack but 15 bytes at most lies
      below its end. */
  lemma StackTopIsHighest(base: nat, size: nat, a: int)
    requires a % 16 == 0 && a + 8 <= base + size
    ensures var sp := StackTop(base, size); a <= sp && sp % 16 == 0 && sp + 8 <= base + size < sp + 24
  {
    var top := base + size - 8;
    assert top == 16 * (top / 16) + top % 16 && a == 16 * (a / 16);
    assert StackTop(base, size) == 16 * (top / 16);
  }

  /** The word context_make writes lies inside the stack for every base just when the size is at
      least 23 bytes. */
  lemma MakeStaysInside(size: nat)
    ensures (forall base: nat :: base <= StackTop(base, size) && StackTop(base, size) + 8 <= base + size)
            <==> size >= 23
  {
    if size < 23 {
      var base := 16 + (23 - size);
      assert StackTop(base, size) < base;
    }
  }
}
