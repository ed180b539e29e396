/** Coroutines and the call stack of the scheduler: resume, yield, the end of a coroutine function and
    the destroy queue. Coroutines are known by number; 0 is main. */
module CallStacks {
  import opened Sequences

  /** The two flags of a coroutine. */
  datatype Coroutine = Coroutine(started: bool, ended: bool)

  class CallStack {
    var stack: seq<nat>
    var destroyCo: seq<nat>
    /** Every coroutine ever created, and those deleted since. */
    var cos: map<nat, Coroutine>
    ghost var freed: set<nat>

    /** main is at the bottom of a stack without repetitions; what has ended is in the destroy queue,
        once, or deleted, and nothing else is. */
    ghost predicate Valid()
      reads this
    {
      && 0 in cos && stack != [] && stack[0] == 0 && freed <= cos.Keys
      && Distinct(stack) && Distinct(destroyCo)
      && (forall c :: c in stack ==> c in cos && !cos[c].ended && (c != 0 ==> cos[c].started))
      && (forall c :: c in destroyCo ==> c in cos && cos[c].ended && c !in freed)
      && (forall c :: c in freed ==> cos[c].ended)
      && (forall c :: c in cos && cos[c].ended ==> c in freed || c in destroyCo)
    }

    /** The coroutines that were never resumed. */
    ghost function Newborn(): set<nat>
      reads this
    {
      set c | c in cos && c != 0 && !cos[c].started
    }

    constructor ()
      ensures Valid() && stack == [0] && destroyCo == [] && freed == {} && Newborn() == {} && cos.Keys == {0}
    {
      stack, destroyCo, cos, freed := [0], [], map[0 := Coroutine(false, false)], {};
    }

    method Create(c: nat)
      requires Valid() && c !in cos
      modifies this`cos
      ensures Valid() && cos == old(cos)[c := Coroutine(false, false)] && Newborn() == old(Newborn()) + {c}
    {
      cos := cos[c := Coroutine(false, false)];
    }

    /** resume up to the switch: the coroutine becomes the running one. */
    method Resume(c: nat)
      requires Valid() && c in cos && c !in stack && !cos[c].ended
      modifies this`stack, this`cos
      ensures Valid() && stack == old(stack) + [c] && cos == old(cos)[c := Coroutine(true, false)]
      ensures Newborn() == old(Newborn()) - {c}
    {
      if !cos[c].started {
        cos := cos[c := cos[c].(started := true)];
      }
      stack := stack + [c];
    }

    /** yield up to the switch: whoever resumed the running coroutine runs again. */
    method Yield() returns (curr: nat, last: nat)
      requires Valid() && |stack| > 1
      modifies this`stack
      ensures Valid() && old(stack) == stack + [curr] && last == stack[|stack| - 1]
      ensures curr != 0 && curr !in stack
    {
      curr := stack[|stack| - 1];
      stack := stack[..|stack| - 1];
      last := stack[|stack| - 1];
    }

    /** The end of the coroutine function: marked, queued for destruction, never on the stack again. */
    method FinishRunning() returns (c: nat)
      requires Valid() && |stack| > 1
      modifies this`stack, this`destroyCo, this`cos
      ensures Valid() && old(stack) == stack + [c] && destroyCo == old(destroyCo) + [c]
      ensures c in old(cos) && cos == old(cos)[c := old(cos)[c].(ended := true)] && Newborn() == old(Newborn())
    {
      c := stack[|stack| - 1];
      assert c !in destroyCo;
      cos := cos[c := cos[c].(ended := true)];
      destroyCo := destroyCo + [c];
      stack := stack[..|stack| - 1];
    }

    /** The first of the queue is deleted. */
    method DeleteFirst()
      requires Valid() && destroyCo != []
      modifies this`destroyCo, this`freed
      ensures Valid() && destroyCo == old(destroyCo)[1..] && freed == old(freed) + {old(destroyCo)[0]}
      ensures old(destroyCo)[0] !in old(freed) && old(destroyCo)[0] !in destroyCo
    {
      var c := destroyCo[0];
      DistinctTail(destroyCo);
      destroyCo := destroyCo[1..];
      freed := freed + {c};
    }

    /** clear_co: every queued coroutine is freed, once, and none of them is on the stack. */
    method ClearCo()
      requires Valid()
      modifies this`destroyCo, this`freed
      ensures Valid() && destroyCo == [] && freed == old(freed) + set c | c in old(destroyCo)
      ensures forall c :: c in old(destroyCo) ==> cos[c].ended && c !in stack && c !in old(freed)
    {
      ghost var k := 0;
      while destroyCo != []
        invariant Valid() && k <= |old(destroyCo)| && destroyCo == old(destroyCo)[k..]
        invariant freed == old(freed) + set c | c in old(destroyCo)[..k]
        decreases |destroyCo|
      {
        DeleteFirst();
        k := k + 1;
      }
    }
  }
}
