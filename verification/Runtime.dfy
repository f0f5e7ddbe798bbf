/** The coroutine kernel of the source with its objects and its memory updated in place (coroutine.cpp).
    The ghost field state is always what the objects amount to as a state of module Pool, whose lemmas say what
    every call keeps and that no coroutine can tell that its stack is shared. */
module Runtime {
  import opened Common
  import opened Context
  import opened Scheduler
  import opened Stacks
  import RQ = RunQueue
  import P = Pool

  /** Different stacks of the same size. */
  predicate Slots(pool: seq<CoStack>, slotSize: nat) {
    NoDuplicates(pool) && forall i :: 0 <= i < |pool| ==> pool[i].bytes.Length == slotSize
  }

  lemma OneMoreSlot(pool: seq<CoStack>, slot: CoStack)
    requires Slots(pool, slot.bytes.Length) && slot !in pool
    ensures Slots(pool + [slot], slot.bytes.Length)
  {
    NoDuplicatesConcat(pool, [slot]);
  }

  class Runtime {
    const root: Coroutine
    const sched: RoundRobin<Coroutine>
    const heap: Heap
    var current: Coroutine
    var pool: seq<CoStack>
    var allocCount: nat
    var cpu: Context  // the registers of the processor
    ghost var state: P.Pool<Coroutine, CoStack, nat>
    ghost var Repr: set<object>

    ghost predicate CoroutineIs(c: Coroutine, v: P.Coroutine<CoStack, nat>)
      reads c
    {
      c.ctx == v.ctx && c.shared == v.shared && c.stack == v.stack && c.copy == v.copy
    }

    ghost predicate StackIs(s: CoStack, v: P.Stack<Coroutine>)
      reads s, s.bytes
    {
      s.bytes[..] == v.bytes && s.madeFor == v.madeFor && s.usedBy == v.usedBy
    }

    /** The objects are what state says, and every array belongs to one stack. */
    ghost predicate Linked()
      reads this, Repr
    {
      && {this, sched, heap} <= Repr
      && heap.Valid()
      && state == P.Pool(RQ.Queue(root, current, sched.queue, state.queue.live), state.cos, state.stacks,
                         pool, allocCount, heap.blocks, cpu, state.awake)
      && (forall c {:trigger state.cos[c]} :: c in state.cos ==> c in Repr && CoroutineIs(c, state.cos[c]))
      && (forall s {:trigger state.stacks[s]} :: s in state.stacks ==>
            s in Repr && s.bytes in Repr && StackIs(s, state.stacks[s]))
      && (forall s, t :: s in state.stacks && t in state.stacks && s != t ==> s.bytes != t.bytes)
    }

    /** Between calls. */
    ghost predicate Valid()
      reads this, Repr
    {
      Linked() && P.Closed(state)
    }

    /** co_init: the running thread becomes the root coroutine, on the stack the system gave it. */
    constructor (slots: nat, slotSize: nat, rootStack: nat, regs: Context)
      requires slots >= 1 && slotSize >= 8 && 8 <= rootStack && regs.rsp <= rootStack
      ensures Valid() && P.Good(state) && P.Initial(state)
      ensures cpu == regs && |pool| == slots && allocCount == 0 && Slots(pool, slotSize)
    {
      var h := new Heap();
      var stack := new CoStack(rootStack);
      var main := new Coroutine(false, stack, h);
      stack.usedBy := Some(main);
      var queue := new RoundRobin();
      root, current, sched, heap := main, main, queue, h;
      pool, allocCount := [], 0;
      cpu := regs;
      state := P.Booted(main, main.ctx, stack, stack.bytes[..], regs);
      P.BootedInitial<Coroutine, CoStack, nat>(main, main.ctx, stack, stack.bytes[..], regs);
      Repr := {h, main, stack, stack.bytes, queue, this};
      new;
      AddSlots(slots, slotSize);
      P.InitialGood(state);
    }

    /** The loop of co_init. */
    method AddSlots(slots: nat, slotSize: nat)
      requires Linked() && P.Initial(state) && |pool| == 0 && slotSize >= 8
      modifies this`pool, this`state, this`Repr
      ensures Linked() && P.Initial(state) && |pool| == slots && Slots(pool, slotSize)
    {
      for i := 0 to slots
        invariant Linked() && P.Initial(state) && |pool| == i && Slots(pool, slotSize)
      {
        AddSlot(slotSize);
      }
    }

    /** One new co_stack for the pool. */
    method AddSlot(slotSize: nat)
      requires Linked() && P.Initial(state) && slotSize >= 8 && Slots(pool, slotSize)
      modifies this`pool, this`state, this`Repr
      ensures Linked() && P.Initial(state)
      ensures |pool| == old(|pool|) + 1 && Slots(pool, slotSize)
    {
      var slot := new CoStack(slotSize);
      P.InitialSlot(state, slot, slot.bytes[..]);
      OneMoreSlot(pool, slot);
      pool := pool + [slot];
      state := state.(stacks := state.stacks[slot := P.Stack(slot.bytes[..], None, None)], slots := pool);
      Repr := Repr + {slot, slot.bytes};
    }

    /** save_context as the kernel uses it; from here on the scheduler's own stack is in use. */
    method SaveContext()
      requires Linked() && current in state.cos
      modifies current, this`state
      ensures Linked() && Repr == old(Repr)
      ensures state == P.SaveContext(old(state))
    {
      state := P.SaveContext(state);
      current.ctx := cpu.(rip := RETADDR);
    }

    method LoadContext()
      requires Linked() && current in state.cos
      modifies this`cpu, this`state
      ensures Linked() && Repr == old(Repr)
      ensures state == P.LoadContext(old(state))
    {
      state := P.LoadContext(state);
      cpu := current.ctx;
    }

    /** save_stack of a suspended coroutine. */
    method Save(owner: Coroutine)
      requires Linked() && owner in state.cos && owner.stack in state.stacks
      requires owner.ctx.rsp <= owner.stack.bytes.Length
      modifies owner, heap, this`state
      ensures Linked() && Repr == old(Repr)
      ensures state == P.SaveStack(old(state), owner, old(heap.next))
    {
      state := P.SaveStack(state, owner, heap.next);
      owner.SaveStack(heap);
    }

    /** restore_stack of a suspended coroutine. */
    method Restore(co: Coroutine)
      requires Linked() && co in state.cos && co.stack in state.stacks
      requires co.copy.Some? && co.copy.value.id in heap.blocks
      requires |co.copy.value.bytes| <= co.stack.bytes.Length
      modifies co, co.stack, co.stack.bytes, heap, this`state
      ensures Linked() && Repr == old(Repr)
      ensures state == P.RestoreStack(old(state), co)
    {
      ghost var q := P.RestoreStack(state, co);
      co.RestoreStack(heap);
      assert StackIs(co.stack, q.stacks[co.stack]);
      forall s | s in q.stacks
        ensures StackIs(s, q.stacks[s])
      {
        assert s == co.stack || s.bytes != co.stack.bytes;
      }
      forall c | c in q.cos
        ensures CoroutineIs(c, q.cos[c])
      {
        assert c == co || CoroutineIs(c, old(state).cos[c]);
      }
      state := q;
    }

    /** co_swap_in */
    method SwapIn(co: Coroutine)
      requires Linked() && P.Wired(state) && !state.awake && co in state.cos
      modifies Repr
      ensures Linked() && Repr == old(Repr)
      ensures state == P.SwapIn(old(state), co, old(heap.next))
    {
      ghost var p := state;
      assert P.CoroutineOk(p, co) && P.StackOk(p, co.stack);
      if !co.InStack() {
        if co.stack.usedBy.Some? {
          assert P.CoroutineOk(p, co.stack.usedBy.value);
          Save(co.stack.usedBy.value);
        }
        Restore(co);
      }
    }

    method Dispatch()
      requires Linked() && sched.queue != []
      modifies this`current, this`state, sched
      ensures Linked() && Repr == old(Repr)
      ensures state == old(state).(queue := RQ.Dispatch(old(state).queue))
    {
      state := state.(queue := RQ.Dispatch(state.queue));
      current := sched.Dequeue();
    }

    /** co_sched */
    method CoSched()
      requires Linked() && P.Dispatchable(state)
      modifies Repr
      ensures Linked() && Repr == old(Repr)
      ensures state == P.Sched(old(state), old(heap.next))
    {
      ghost var p := state;
      Dispatch();
      P.SameWiring(p, state);
      if current.shared {
        SwapIn(current);
      }
      LoadContext();
    }

    /** The destructor of a coroutine; one that destroys itself does so on the scheduler's stack. */
    method Delete(co: Coroutine)
      requires Linked() && co in state.cos && P.CoroutineOk(state, co)
      modifies this`state, co.stack, heap
      ensures Linked() && Repr == old(Repr)
      ensures state == P.Delete(old(state), co) && heap.next == old(heap.next)
    {
      ghost var q := P.Delete(state, co);
      ghost var s := co.stack;
      co.Delete(heap);
      forall t | t in q.stacks
        ensures StackIs(t, q.stacks[t])
      {
        assert t == s || StackIs(t, old(state).stacks[t]);
      }
      forall c | c in q.cos
        ensures CoroutineIs(c, q.cos[c])
      {
        assert CoroutineIs(c, old(state).cos[c]);
      }
      state := q;
    }

    method Enqueue(co: Coroutine)
      requires Linked()
      modifies sched, this`state
      ensures Linked() && Repr == old(Repr)
      ensures state == old(state).(queue := old(state).queue.(ready := old(state).queue.ready + [co]))
    {
      state := state.(queue := state.queue.(ready := state.queue.ready + [co]));
      sched.Enqueue(co);
    }

    // ---------- the interface ----------

    /** co_resched */
    method CoResched()
      requires Valid()
      modifies Repr
      ensures Valid() && Repr == old(Repr)
      ensures state == P.CoResched(old(state), old(heap.next))
    {
      ghost var p := state;
      ghost var q := P.Requeue(p);
      SaveContext();
      Enqueue(current);
      assert state == q;
      P.RequeueDispatchable(p);
      P.ReschedClosed(p, heap.next);
      CoSched();
    }

    /** co_yield; the caller stores the result where co_post will find it. */
    method CoYield() returns (co: Coroutine)
      requires Valid() && current != root
      modifies Repr
      ensures Valid() && Repr == old(Repr)
      ensures co == old(current)
      ensures state == P.CoYield(old(state), old(heap.next))
    {
      P.YieldClosed(state, heap.next);
      co := current;
      SaveContext();
      CoSched();
    }

    /** co_exit */
    method CoExit()
      requires Valid() && current != root
      modifies Repr
      ensures Valid() && Repr == old(Repr)
      ensures state == P.CoExit(old(state), old(heap.next))
    {
      P.ExitClosed(state, heap.next);
      Delete(current);
      CoSched();
    }

    /** The ret at the end of a routine that is back in its outermost frame. */
    method CoReturn()
      requires Valid() && current != root && cpu.rsp + 8 <= current.stack.bytes.Length
      modifies Repr
      ensures Valid() && Repr == old(Repr)
      ensures P.CoroutineOk(old(state), old(current)) && state == P.CoReturn(old(state), old(heap.next))
    {
      assert P.CoroutineOk(state, current);
      var slot := current.stack.bytes[cpu.rsp..cpu.rsp + 8];
      assert slot == P.ReturnSlot(state);
      if slot == EXIT_GUARD {
        CoExit();
      }
    }

    /** co_post */
    method CoPost(co: Coroutine)
      requires Valid() && RQ.Parked(state.queue, co)
      modifies Repr
      ensures Valid() && Repr == old(Repr)
      ensures state == P.CoPost(old(state), co)
    {
      P.PostClosed(state, co);
      Enqueue(co);
    }

    /** co_destroy, of a coroutine that is not running. */
    method CoDestroy(co: Coroutine)
      requires Valid() && RQ.Parked(state.queue, co) && co != root
      modifies Repr
      ensures Valid() && Repr == old(Repr)
      ensures P.CoroutineOk(old(state), co) && state == P.Delete(old(state), co)
    {
      P.DeleteClosed(state, co);
      Delete(co);
    }

    /** co_alloc_shared_stack */
    method CoAllocSharedStack() returns (stack: CoStack)
      requires Linked() && pool != []
      modifies this`allocCount, this`state
      ensures Linked() && Repr == old(Repr)
      ensures stack == P.NextSlot(old(state)) && state == old(state).(allocCount := old(allocCount) + 1)
    {
      stack := pool[allocCount % |pool|];
      allocCount := allocCount + 1;
      state := state.(allocCount := allocCount);
    }

    /** The objects of co_create. */
    method NewPrivate(size: nat) returns (co: Coroutine, ghost mem: seq<byte>)
      requires Linked() && size >= 8
      modifies heap, this`state, this`Repr
      ensures Linked() && fresh(Repr - old(Repr)) && fresh(co)
      ensures co !in old(state).cos && co.stack !in old(state).stacks && |mem| == size
      ensures state == P.CoCreate(old(state), co, co.stack, mem)
    {
      var stack := new CoStack(size);
      mem := stack.bytes[..];
      co := new Coroutine(false, stack, heap);
      ghost var q := P.CoCreate(state, co, stack, mem);
      forall t | t in q.stacks
        ensures StackIs(t, q.stacks[t])
      {
        assert t == stack || StackIs(t, old(state).stacks[t]);
      }
      state := q;
      Repr := Repr + {co, stack, stack.bytes};
    }

    /** co_create; the new stack holds whatever malloc returned, mem. */
    method CoCreate(size: nat) returns (co: Coroutine, ghost mem: seq<byte>)
      requires Valid() && size >= 8
      modifies heap, this`state, this`Repr
      ensures Valid() && fresh(Repr - old(Repr)) && fresh(co)
      ensures co !in old(state).cos && co.stack !in old(state).stacks
      ensures |mem| == size && state == P.CoCreate(old(state), co, co.stack, mem)
    {
      ghost var p := state;
      co, mem := NewPrivate(size);
      P.CreateClosed(p, co, co.stack, mem);
    }

    /** The object of co_create_shared. */
    method NewShared(stack: CoStack) returns (co: Coroutine)
      requires Linked() && stack in state.stacks && stack.bytes.Length >= 8 && stack.madeFor == None
      modifies heap, this`state, this`Repr, stack`madeFor, stack.bytes
      ensures Linked() && Repr == old(Repr) + {co} && fresh(co) && co !in old(state).cos
      ensures var v := P.Coroutine(FreshContext(stack.bytes.Length), true, stack,
                                   Some(P.Block(old(heap.next), EXIT_GUARD)));
              state == old(state).(cos := old(state).cos[co := v],
                                   blocks := old(state).blocks[old(heap.next) := co],
                                   queue := old(state).queue.(live := old(state).queue.live + {co}))
    {
      ghost var b := heap.next;
      co := new Coroutine(true, stack, heap);
      ghost var v := P.Coroutine(co.ctx, true, stack, co.copy);
      assert CoroutineIs(co, v);
      forall t | t in state.stacks
        ensures StackIs(t, state.stacks[t])
      {
        assert t == stack || t.bytes != stack.bytes;
      }
      state := state.(cos := state.cos[co := v], blocks := state.blocks[b := co],
                      queue := state.queue.(live := state.queue.live + {co}));
      Repr := Repr + {co};
    }

    /** co_create_shared */
    method CoCreateShared() returns (co: Coroutine)
      requires Valid()
      modifies Repr
      ensures Valid() && fresh(Repr - old(Repr)) && fresh(co) && co !in old(state).cos
      ensures state == P.CoCreateShared(old(state), co, old(heap.next))
    {
      ghost var p, b := state, heap.next;
      var stack := CoAllocSharedStack();
      co := NewShared(stack);
      P.CreateSharedClosed(p, co, b);
      assert state == P.CoCreateShared(p, co, b);
    }

    /** What the running coroutine leaves in its stack. */
    method WriteStack(mem: seq<byte>)
      requires Linked() && current in state.cos && current.stack in state.stacks
      requires |mem| == current.stack.bytes.Length
      modifies this`state, current.stack.bytes
      ensures Linked() && Repr == old(Repr)
      ensures state == P.OwnStep(old(state), cpu, mem)
    {
      ghost var q := P.OwnStep(state, cpu, mem);
      CoMemcpy(current.stack.bytes, 0, mem);
      assert StackIs(current.stack, q.stacks[current.stack]);
      state := q;
    }

    /** What it leaves in its registers and in its stack. */
    method Overwrite(regs: Context, mem: seq<byte>)
      requires Linked() && current in state.cos && current.stack in state.stacks
      requires |mem| == current.stack.bytes.Length
      modifies this`cpu, this`state, current.stack.bytes
      ensures Linked() && Repr == old(Repr)
      ensures state == P.OwnStep(old(state), regs, mem)
    {
      WriteStack(mem);
      state := state.(cpu := regs);
      cpu := regs;
    }

    /** The running coroutine computes with its registers and its own stack. */
    method Compute(regs: Context, mem: seq<byte>)
      requires Valid() && |mem| == current.stack.bytes.Length && regs.rsp <= |mem|
      modifies Repr
      ensures Valid() && Repr == old(Repr)
      ensures old(state).queue.current in old(state).cos && P.CoroutineOk(old(state), old(state).queue.current)
      ensures state == P.OwnStep(old(state), regs, mem)
    {
      ghost var p := state;
      assert P.CoroutineOk(p, current);
      P.OwnClosed(p, regs, mem);
      Overwrite(regs, mem);
    }

    /** co_num_ready */
    method CoNumReady() returns (n: nat)
      requires Valid()
      ensures n == |state.queue.ready|
    {
      n := sched.Num();
    }
  }
}
