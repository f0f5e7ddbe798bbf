/** The coroutine kernel of the source as a state machine (coroutine.cpp, coroutine.h): coroutines (C) on a
    pool of shared stacks (S), each holding a heap copy (B names the block) of its stack while it does not own
    it. The main result is that this machine behaves like module Kernel's, where stacks are private. */
module Pool {
  import opened Common
  import opened Context
  import RQ = RunQueue
  import K = Kernel

  /** co_stack: all bytes from stack_bottom to stack_top, and for a private stack the coroutine it was made for. */
  datatype Stack<C> = Stack(bytes: seq<byte>, madeFor: Option<C>, usedBy: Option<C>) {
    predicate Shared() {
      madeFor == None
    }
  }

  datatype Block<B> = Block(id: B, bytes: seq<byte>)

  datatype Coroutine<S, B> = Coroutine(ctx: Context, shared: bool, stack: S, copy: Option<Block<B>>)

  /** awake is false while the scheduler runs on its own stack; cpu holds the registers of the processor,
      blocks the stack copies allocated and not freed, each with the coroutine it was allocated for. */
  datatype Pool<C(==), S(==), B(==)> = Pool(
    queue: RQ.Queue<C>, cos: map<C, Coroutine<S, B>>, stacks: map<S, Stack<C>>,
    slots: seq<S>, allocCount: nat, blocks: map<B, C>, cpu: Context, awake: bool)

  function Registers<C, S, B>(p: Pool<C, S, B>, c: C): Context
    requires c in p.cos
  {
    if p.awake && c == p.queue.current then p.cpu else p.cos[c].ctx
  }

  /** in_stack */
  predicate Owns<C, S, B>(p: Pool<C, S, B>, c: C)
    requires c in p.cos
  {
    !p.cos[c].shared || (p.cos[c].stack in p.stacks && p.stacks[p.cos[c].stack].usedBy == Some(c))
  }

  /** A coroutine's stack is in its place exactly when it has no copy, and a copy has the size of what is live. */
  predicate CoroutineOk<C, S, B>(p: Pool<C, S, B>, c: C)
    requires c in p.cos
  {
    var co := p.cos[c];
    && co.stack in p.stacks
    && p.stacks[co.stack].madeFor == (if co.shared then None else Some(c))
    && 8 <= |p.stacks[co.stack].bytes|
    && Registers(p, c).rsp <= |p.stacks[co.stack].bytes|
    && (co.copy == None <==> Owns(p, c))
    && (co.copy.Some? ==>
          && co.copy.value.id in p.blocks && p.blocks[co.copy.value.id] == c
          && |co.copy.value.bytes| == |p.stacks[co.stack].bytes| - Registers(p, c).rsp)
  }

  predicate StackOk<C, S, B>(p: Pool<C, S, B>, s: S)
    requires s in p.stacks
  {
    p.stacks[s].Shared() && p.stacks[s].usedBy.Some? ==>
      var c := p.stacks[s].usedBy.value;
      c in p.cos && p.cos[c].stack == s && p.cos[c].shared
  }

  predicate BlockOk<C, S, B>(p: Pool<C, S, B>, b: B)
    requires b in p.blocks
  {
    var c := p.blocks[b];
    c in p.cos && p.cos[c].copy.Some? && p.cos[c].copy.value.id == b
  }

  predicate Wired<C, S, B>(p: Pool<C, S, B>) {
    && p.slots != []
    && (forall s :: s in p.slots ==> s in p.stacks && p.stacks[s].Shared() && 8 <= |p.stacks[s].bytes|)
    && (forall s {:trigger StackOk(p, s)} :: s in p.stacks ==> StackOk(p, s))
    && (forall c {:trigger CoroutineOk(p, c)} :: c in p.cos ==> CoroutineOk(p, c))
    && (forall b {:trigger BlockOk(p, b)} :: b in p.blocks ==> BlockOk(p, b))
    && (p.awake ==> p.queue.current in p.cos && Owns(p, p.queue.current))
  }

  /** The bytes of a coroutine's stack from RSP to the top, wherever they are kept. */
  function VirtualStack<C, S, B>(p: Pool<C, S, B>, c: C): seq<byte>
    requires c in p.cos && CoroutineOk(p, c)
  {
    if p.cos[c].copy.Some? then p.cos[c].copy.value.bytes
    else p.stacks[p.cos[c].stack].bytes[Registers(p, c).rsp..]
  }

  function ThreadOf<C, S, B>(p: Pool<C, S, B>, c: C): K.Thread
    requires c in p.cos && CoroutineOk(p, c)
  {
    K.Thread(Registers(p, c), VirtualStack(p, c), |p.stacks[p.cos[c].stack].bytes|)
  }

  function Threads<C, S, B>(p: Pool<C, S, B>): map<C, K.Thread>
    requires Wired(p)
  {
    map c | c in p.cos :: ThreadOf(p, c)
  }

  /** What the pooled machine stands for: the same coroutines, each with its own stack. */
  function Abs<C, S, B>(p: Pool<C, S, B>): K.Kernel<C>
    requires Wired(p)
  {
    K.Kernel(p.queue, Threads(p))
  }

  // ---------- the operations of the source ----------

  /** save_context, called by the running coroutine: from here on the scheduler's stack is in use. */
  function SaveContext<C, S, B>(p: Pool<C, S, B>): Pool<C, S, B>
    requires p.queue.current in p.cos
  {
    var me := p.queue.current;
    p.(cos := p.cos[me := p.cos[me].(ctx := p.cpu.(rip := RETADDR))], awake := false)
  }

  function LoadContext<C, S, B>(p: Pool<C, S, B>): Pool<C, S, B>
    requires p.queue.current in p.cos
  {
    p.(cpu := p.cos[p.queue.current].ctx, awake := true)
  }

  /** coroutine::save_stack, into a new block b. */
  function SaveStack<C, S, B>(p: Pool<C, S, B>, c: C, b: B): Pool<C, S, B>
    requires c in p.cos && p.cos[c].stack in p.stacks
    requires p.cos[c].ctx.rsp <= |p.stacks[p.cos[c].stack].bytes|
  {
    var co := p.cos[c];
    p.(cos := p.cos[c := co.(copy := Some(Block(b, p.stacks[co.stack].bytes[co.ctx.rsp..])))],
       blocks := p.blocks[b := c])
  }

  /** coroutine::restore_stack */
  function RestoreStack<C, S, B>(p: Pool<C, S, B>, c: C): Pool<C, S, B>
    requires c in p.cos && p.cos[c].stack in p.stacks && p.cos[c].copy.Some?
    requires |p.cos[c].copy.value.bytes| <= |p.stacks[p.cos[c].stack].bytes|
  {
    var co := p.cos[c];
    var s := p.stacks[co.stack];
    var live := co.copy.value.bytes;
    p.(cos := p.cos[c := co.(copy := None)],
       stacks := p.stacks[co.stack := s.(bytes := Splice(s.bytes, |s.bytes| - |live|, live), usedBy := Some(c))],
       blocks := p.blocks - {co.copy.value.id})
  }

  /** co_swap_in; b is the block that malloc returns if the current owner has to be saved. */
  function SwapIn<C, S, B>(p: Pool<C, S, B>, c: C, b: B): Pool<C, S, B>
    requires Wired(p) && !p.awake && c in p.cos
  {
    if Owns(p, c) then p
    else
      assert CoroutineOk(p, c) && StackOk(p, p.cos[c].stack);
      var owner := p.stacks[p.cos[c].stack].usedBy;
      assert owner.Some? ==> CoroutineOk(p, owner.value);
      RestoreStack(if owner.Some? then SaveStack(p, owner.value, b) else p, c)
  }

  /** Saving the owner of a stack, seen as leaving the stack to nobody. */
  function Evict<C, S, B>(p: Pool<C, S, B>, s: S, b: B): Pool<C, S, B>
    requires Wired(p) && !p.awake && s in p.stacks && p.stacks[s].Shared() && p.stacks[s].usedBy.Some?
  {
    assert StackOk(p, s) && CoroutineOk(p, p.stacks[s].usedBy.value);
    var q := SaveStack(p, p.stacks[s].usedBy.value, b);
    q.(stacks := q.stacks[s := q.stacks[s].(usedBy := None)])
  }

  lemma EvictInvisibleAt<C, S, B>(p: Pool<C, S, B>, s: S, b: B, d: C)
    requires Wired(p) && !p.awake && s in p.stacks && p.stacks[s].Shared() && p.stacks[s].usedBy.Some?
    requires b !in p.blocks && d in p.cos
    ensures CoroutineOk(p, d)
    ensures var q := Evict(p, s, b);
            CoroutineOk(q, d) && ThreadOf(q, d) == ThreadOf(p, d)
  {
    assert StackOk(p, s);
    assert CoroutineOk(p, d);
  }

  /** Stacks are linked as they should be, and nobody's thread is another: that is all there is to show while the
      scheduler runs. */
  lemma SameThreads<C, S, B>(p: Pool<C, S, B>, q: Pool<C, S, B>)
    requires Wired(p) && q.slots == p.slots && !q.awake && q.cos.Keys == p.cos.Keys
    requires forall t :: t in q.slots ==> t in q.stacks && q.stacks[t].Shared() && 8 <= |q.stacks[t].bytes|
    requires forall t :: t in q.stacks ==> StackOk(q, t)
    requires forall x :: x in q.blocks ==> BlockOk(q, x)
    requires forall d :: d in p.cos ==> CoroutineOk(p, d) && CoroutineOk(q, d) && ThreadOf(q, d) == ThreadOf(p, d)
    ensures Wired(q) && Threads(q) == Threads(p)
  {}

  lemma EvictLinks<C, S, B>(p: Pool<C, S, B>, s: S, b: B)
    requires Wired(p) && !p.awake && s in p.stacks && p.stacks[s].Shared() && p.stacks[s].usedBy.Some?
    requires b !in p.blocks
    ensures forall t :: t in Evict(p, s, b).stacks ==> StackOk(Evict(p, s, b), t)
    ensures forall x :: x in Evict(p, s, b).blocks ==> BlockOk(Evict(p, s, b), x)
    ensures var q := Evict(p, s, b);
      && q.slots == p.slots && q.awake == p.awake && q.cos.Keys == p.cos.Keys
      && forall t :: t in q.slots ==> t in q.stacks && q.stacks[t].Shared() && 8 <= |q.stacks[t].bytes|
  {
    var q := Evict(p, s, b);
    assert StackOk(p, s) && CoroutineOk(p, p.stacks[s].usedBy.value);
    forall t | t in q.stacks
      ensures StackOk(q, t)
    {
      assert StackOk(p, t);
    }
    forall x | x in q.blocks
      ensures BlockOk(q, x)
    {
      assert x in p.blocks ==> BlockOk(p, x);
    }
  }

  lemma EvictInvisible<C, S, B>(p: Pool<C, S, B>, s: S, b: B)
    requires Wired(p) && !p.awake && s in p.stacks && p.stacks[s].Shared() && p.stacks[s].usedBy.Some?
    requires b !in p.blocks
    ensures Wired(Evict(p, s, b)) && Threads(Evict(p, s, b)) == Threads(p)
  {
    var q := Evict(p, s, b);
    EvictLinks(p, s, b);
    EvictThreads(p, s, b);
    SameThreads(p, q);
  }

  lemma EvictThreads<C, S, B>(p: Pool<C, S, B>, s: S, b: B)
    requires Wired(p) && !p.awake && s in p.stacks && p.stacks[s].Shared() && p.stacks[s].usedBy.Some?
    requires b !in p.blocks
    ensures var q := Evict(p, s, b);
      forall d :: d in p.cos ==>
        d in q.cos && CoroutineOk(p, d) && CoroutineOk(q, d) && ThreadOf(q, d) == ThreadOf(p, d)
  {
    var q := Evict(p, s, b);
    forall d | d in p.cos
      ensures d in q.cos && CoroutineOk(p, d) && CoroutineOk(q, d) && ThreadOf(q, d) == ThreadOf(p, d)
    {
      EvictInvisibleAt(p, s, b, d);
    }
  }

  lemma RestoreInvisibleAt<C, S, B>(p: Pool<C, S, B>, c: C, d: C)
    requires Wired(p) && !p.awake && c in p.cos && d in p.cos && CoroutineOk(p, c)
    requires !Owns(p, c) && p.stacks[p.cos[c].stack].usedBy == None
    ensures CoroutineOk(p, d)
    ensures var q := RestoreStack(p, c);
            CoroutineOk(q, d) && ThreadOf(q, d) == ThreadOf(p, d)
  {
    assert CoroutineOk(p, d);
  }

  lemma RestoreLinks<C, S, B>(p: Pool<C, S, B>, c: C)
    requires Wired(p) && !p.awake && c in p.cos && CoroutineOk(p, c)
    requires !Owns(p, c) && p.stacks[p.cos[c].stack].usedBy == None
    ensures CoroutineOk(p, c)
    ensures forall t :: t in RestoreStack(p, c).stacks ==> StackOk(RestoreStack(p, c), t)
    ensures forall x :: x in RestoreStack(p, c).blocks ==> BlockOk(RestoreStack(p, c), x)
  {
    assert CoroutineOk(p, c);
    var q := RestoreStack(p, c);
    forall t | t in q.stacks
      ensures StackOk(q, t)
    {
      assert StackOk(p, t);
    }
    forall x | x in q.blocks
      ensures BlockOk(q, x)
    {
      assert x in p.blocks ==> BlockOk(p, x);
    }
  }

  lemma RestoreInvisible<C, S, B>(p: Pool<C, S, B>, c: C)
    requires Wired(p) && !p.awake && c in p.cos && CoroutineOk(p, c)
    requires !Owns(p, c) && p.stacks[p.cos[c].stack].usedBy == None
    ensures CoroutineOk(p, c)
    ensures var q := RestoreStack(p, c); Wired(q) && Threads(q) == Threads(p) && Owns(q, c)
  {
    RestoreLinks(p, c);
    var q := RestoreStack(p, c);
    forall d | d in p.cos
      ensures CoroutineOk(q, d)
      ensures ThreadOf(q, d) == ThreadOf(p, d)
    {
      RestoreInvisibleAt(p, c, d);
    }
  }

  lemma SwapIsEvictThenRestore<C, S, B>(p: Pool<C, S, B>, c: C, b: B)
    requires Wired(p) && !p.awake && c in p.cos && !Owns(p, c)
    requires p.cos[c].stack in p.stacks && p.stacks[p.cos[c].stack].usedBy.Some?
    ensures p.stacks[p.cos[c].stack].Shared()
    ensures var e := Evict(p, p.cos[c].stack, b);
            && c in e.cos && e.cos[c] == p.cos[c] && e.cos[c].stack in e.stacks && e.cos[c].copy.Some?
            && |e.cos[c].copy.value.bytes| <= |e.stacks[e.cos[c].stack].bytes|
            && SwapIn(p, c, b) == RestoreStack(e, c)
            && e.stacks[e.cos[c].stack].usedBy == None
  {
    var s := p.cos[c].stack;
    assert CoroutineOk(p, c) && StackOk(p, s) && CoroutineOk(p, p.stacks[s].usedBy.value);
    var e := Evict(p, s, b);
    var saved := SaveStack(p, p.stacks[p.cos[c].stack].usedBy.value, b);
    assert RestoreStack(e, c).stacks == RestoreStack(saved, c).stacks;
  }

  /** Swapping a coroutine in moves stacks around, but no coroutine can tell. */
  lemma SwapInInvisible<C, S, B>(p: Pool<C, S, B>, c: C, b: B)
    requires Wired(p) && !p.awake && c in p.cos && b !in p.blocks
    ensures var q := SwapIn(p, c, b);
            && Wired(q) && !q.awake && q.queue == p.queue && Owns(q, c) && Threads(q) == Threads(p)
  {
    var s := p.cos[c].stack;
    assert CoroutineOk(p, c) && StackOk(p, s);
    if !Owns(p, c) {
      if p.stacks[s].usedBy.Some? {
        EvictInvisible(p, s, b);
        SwapIsEvictThenRestore(p, c, b);
        RestoreInvisible(Evict(p, s, b), c);
      } else {
        RestoreInvisible(p, c);
      }
    }
  }

  /** The destructor of coroutine, with the co_stack it deletes; a coroutine that deletes itself (co_exit) has
      already left its stack. */
  function Delete<C, S, B>(p: Pool<C, S, B>, c: C): Pool<C, S, B>
    requires c in p.cos && p.cos[c].stack in p.stacks
  {
    var co := p.cos[c];
    var s := p.stacks[co.stack];
    p.(cos := p.cos - {c},
       queue := p.queue.(live := p.queue.live - {c}),
       stacks := if !co.shared then p.stacks - {co.stack}
                 else if s.usedBy == Some(c) then p.stacks[co.stack := s.(usedBy := None)] else p.stacks,
       blocks := if co.copy.Some? then p.blocks - {co.copy.value.id} else p.blocks,
       awake := p.awake && c != p.queue.current)
  }

  /** co_sched */
  function Sched<C, S, B>(p: Pool<C, S, B>, b: B): Pool<C, S, B>
    requires Wired(p) && !p.awake && p.queue.ready != [] && p.queue.ready[0] in p.cos && b !in p.blocks
  {
    var q := p.(queue := RQ.Dispatch(p.queue));
    SameWiring(p, q);
    SwapInInvisible(q, q.queue.current, b);
    LoadContext(SwapIn(q, q.queue.current, b))
  }

  lemma SameWiring<C, S, B>(p: Pool<C, S, B>, q: Pool<C, S, B>)
    requires Wired(p) && q.cos == p.cos && q.stacks == p.stacks && q.slots == p.slots && q.blocks == p.blocks
    requires forall c :: c in p.cos ==> Registers(q, c) == Registers(p, c)
    requires q.awake ==> q.queue.current in q.cos && Owns(p, q.queue.current)
    ensures Wired(q) && Threads(q) == Threads(p)
  {
    forall c | c in p.cos
      ensures CoroutineOk(q, c) && ThreadOf(q, c) == ThreadOf(p, c)
    {
      assert CoroutineOk(p, c);
    }
    forall t | t in q.stacks
      ensures StackOk(q, t)
    {
      assert StackOk(p, t);
    }
    forall x | x in q.blocks
      ensures BlockOk(q, x)
    {
      assert BlockOk(p, x);
    }
  }

  /** co_sched hands the processor to the front of the queue and disturbs nobody's registers or stack. */
  lemma SchedInvisible<C, S, B>(p: Pool<C, S, B>, b: B)
    requires Wired(p) && !p.awake && p.queue.ready != [] && p.queue.ready[0] in p.cos && b !in p.blocks
    ensures var q := Sched(p, b);
            Wired(q) && q.awake && q.queue == RQ.Dispatch(p.queue) && Threads(q) == Threads(p)
  {
    var q := p.(queue := RQ.Dispatch(p.queue));
    SameWiring(p, q);
    SwapInInvisible(q, q.queue.current, b);
    var r := SwapIn(q, q.queue.current, b);
    SameWiring(r, LoadContext(r));
  }

  lemma SaveLinks<C, S, B>(p: Pool<C, S, B>)
    requires Wired(p) && p.awake
    ensures forall t :: t in p.stacks ==> StackOk(SaveContext(p), t)
    ensures forall x :: x in p.blocks ==> BlockOk(SaveContext(p), x)
  {
    assert forall t :: t in p.stacks ==> StackOk(p, t);
    assert forall x :: x in p.blocks ==> BlockOk(p, x);
  }

  /** save_context changes nothing but where the running coroutine will continue. */
  lemma SaveRecords<C, S, B>(p: Pool<C, S, B>)
    requires Wired(p) && p.awake
    ensures var q := SaveContext(p);
            Wired(q) && Threads(q) == Threads(p)[p.queue.current := K.Saved(Threads(p)[p.queue.current])]
  {
    var q := SaveContext(p);
    SaveLinks(p);
    forall c | c in p.cos
      ensures CoroutineOk(q, c)
      ensures ThreadOf(q, c) == if c == p.queue.current then K.Saved(ThreadOf(p, c)) else ThreadOf(p, c)
    {
      assert CoroutineOk(p, c);
    }
  }

  lemma DeleteLeavesOther<C, S, B>(p: Pool<C, S, B>, c: C, d: C)
    requires Wired(p) && c in p.cos && d in p.cos && d != c && CoroutineOk(p, c)
    ensures CoroutineOk(p, d) && CoroutineOk(Delete(p, c), d)
    ensures ThreadOf(Delete(p, c), d) == ThreadOf(p, d)
  {
    assert CoroutineOk(p, d);
  }

  lemma DeleteLinks<C, S, B>(p: Pool<C, S, B>, c: C)
    requires Wired(p) && c in p.cos
    ensures CoroutineOk(p, c)
    ensures forall s :: s in Delete(p, c).stacks ==> StackOk(Delete(p, c), s)
    ensures forall x :: x in Delete(p, c).blocks ==> BlockOk(Delete(p, c), x)
  {
    assert CoroutineOk(p, c);
    var q := Delete(p, c);
    forall s | s in q.stacks
      ensures StackOk(q, s)
    {
      assert StackOk(p, s);
    }
    forall x | x in q.blocks
      ensures BlockOk(q, x)
    {
      assert x in p.blocks ==> BlockOk(p, x);
    }
  }

  /** Deleting a coroutine takes its stack or its copy with it and nothing of anybody else. */
  lemma DeleteLeavesOthers<C, S, B>(p: Pool<C, S, B>, c: C)
    requires Wired(p) && c in p.cos
    ensures CoroutineOk(p, c)
    ensures var q := Delete(p, c);
            Wired(q) && Threads(q) == Threads(p) - {c}
  {
    DeleteLinks(p, c);
    var q := Delete(p, c);
    forall d | d in q.cos
      ensures CoroutineOk(q, d) && ThreadOf(q, d) == ThreadOf(p, d)
    {
      DeleteLeavesOther(p, c, d);
    }
    assert forall s :: s in p.slots ==> s in q.stacks && q.stacks[s].Shared();
  }

  /** co_create; mem is whatever malloc returned for the new stack. */
  function CoCreate<C, S, B>(p: Pool<C, S, B>, c: C, s: S, mem: seq<byte>): Pool<C, S, B>
    requires 8 <= |mem|
  {
    p.(cos := p.cos[c := Coroutine(FreshContext(|mem|), false, s, None)],
       stacks := p.stacks[s := Stack(Splice(mem, |mem| - 8, EXIT_GUARD), Some(c), None)],
       queue := p.queue.(live := p.queue.live + {c}))
  }

  /** co_alloc_shared_stack */
  function NextSlot<C, S, B>(p: Pool<C, S, B>): (s: S)
    requires p.slots != []
    ensures s in p.slots
  {
    p.slots[p.allocCount % |p.slots|]
  }

  /** co_create_shared; the return guard is the whole of its first copy. */
  function CoCreateShared<C, S, B>(p: Pool<C, S, B>, c: C, b: B): Pool<C, S, B>
    requires Wired(p)
  {
    var s := NextSlot(p);
    p.(cos := p.cos[c := Coroutine(FreshContext(|p.stacks[s].bytes|), true, s, Some(Block(b, EXIT_GUARD)))],
       blocks := p.blocks[b := c], allocCount := p.allocCount + 1,
       queue := p.queue.(live := p.queue.live + {c}))
  }

  /** The running coroutine computes: any registers, and any bytes in its own stack, live or below RSP. */
  function OwnStep<C, S, B>(p: Pool<C, S, B>, ctx: Context, mem: seq<byte>): Pool<C, S, B>
    requires p.queue.current in p.cos && p.cos[p.queue.current].stack in p.stacks
  {
    var s := p.cos[p.queue.current].stack;
    p.(stacks := p.stacks[s := p.stacks[s].(bytes := mem)], cpu := ctx)
  }

  lemma CreateOkAt<C, S, B>(p: Pool<C, S, B>, c: C, s: S, mem: seq<byte>, d: C)
    requires Wired(p) && p.awake && c !in p.cos && s !in p.stacks && 8 <= |mem| && (d in p.cos || d == c)
    ensures var q := CoCreate(p, c, s, mem);
            CoroutineOk(q, d) &&
            ThreadOf(q, d) ==
              if d == c then K.Thread(FreshContext(|mem|), EXIT_GUARD, |mem|) else Threads(p)[d]
  {
    assert d in p.cos ==> CoroutineOk(p, d);
    assert CoCreate(p, c, s, mem).stacks[s].bytes[|mem| - 8..] == EXIT_GUARD;
  }

  lemma CreateLinks<C, S, B>(p: Pool<C, S, B>, c: C, s: S, mem: seq<byte>)
    requires Wired(p) && p.awake && c !in p.cos && s !in p.stacks && 8 <= |mem|
    ensures forall t :: t in CoCreate(p, c, s, mem).stacks ==> StackOk(CoCreate(p, c, s, mem), t)
    ensures forall x :: x in CoCreate(p, c, s, mem).blocks ==> BlockOk(CoCreate(p, c, s, mem), x)
  {
    var q := CoCreate(p, c, s, mem);
    forall t | t in q.stacks
      ensures StackOk(q, t)
    {
      assert t != s ==> StackOk(p, t);
    }
    forall x | x in q.blocks
      ensures BlockOk(q, x)
    {
      assert BlockOk(p, x);
    }
  }

  lemma CreateOk<C, S, B>(p: Pool<C, S, B>, c: C, s: S, mem: seq<byte>)
    requires Wired(p) && p.awake && c !in p.cos && s !in p.stacks && 8 <= |mem|
    ensures var q := CoCreate(p, c, s, mem);
            Wired(q) && Threads(q) == Threads(p)[c := K.Thread(FreshContext(|mem|), EXIT_GUARD, |mem|)]
  {
    var q := CoCreate(p, c, s, mem);
    var threads := Threads(p)[c := K.Thread(FreshContext(|mem|), EXIT_GUARD, |mem|)];
    forall d | d in q.cos
      ensures CoroutineOk(q, d) && ThreadOf(q, d) == threads[d]
    {
      CreateOkAt(p, c, s, mem, d);
    }
    CreateLinks(p, c, s, mem);
  }

  lemma CreateSharedOkAt<C, S, B>(p: Pool<C, S, B>, c: C, b: B, d: C)
    requires Wired(p) && p.awake && c !in p.cos && b !in p.blocks && (d in p.cos || d == c)
    ensures var q := CoCreateShared(p, c, b);
            var size := |p.stacks[NextSlot(p)].bytes|;
            CoroutineOk(q, d) &&
            ThreadOf(q, d) == if d == c then K.Thread(FreshContext(size), EXIT_GUARD, size) else Threads(p)[d]
  {
    assert StackOk(p, NextSlot(p));
    assert d in p.cos ==> CoroutineOk(p, d);
  }

  lemma CreateSharedLinks<C, S, B>(p: Pool<C, S, B>, c: C, b: B)
    requires Wired(p) && p.awake && c !in p.cos && b !in p.blocks
    ensures forall t :: t in CoCreateShared(p, c, b).stacks ==> StackOk(CoCreateShared(p, c, b), t)
    ensures forall x :: x in CoCreateShared(p, c, b).blocks ==> BlockOk(CoCreateShared(p, c, b), x)
  {
    var q := CoCreateShared(p, c, b);
    forall t | t in q.stacks
      ensures StackOk(q, t)
    {
      assert StackOk(p, t);
    }
    forall x | x in q.blocks
      ensures BlockOk(q, x)
    {
      assert x in p.blocks ==> BlockOk(p, x);
    }
  }

  lemma CreateSharedOk<C, S, B>(p: Pool<C, S, B>, c: C, b: B)
    requires Wired(p) && p.awake && c !in p.cos && b !in p.blocks
    ensures var q := CoCreateShared(p, c, b);
            var size := |p.stacks[NextSlot(p)].bytes|;
            Wired(q) && Threads(q) == Threads(p)[c := K.Thread(FreshContext(size), EXIT_GUARD, size)]
  {
    var q := CoCreateShared(p, c, b);
    var size := |p.stacks[NextSlot(p)].bytes|;
    var threads := Threads(p)[c := K.Thread(FreshContext(size), EXIT_GUARD, size)];
    forall d | d in q.cos
      ensures CoroutineOk(q, d) && ThreadOf(q, d) == threads[d]
    {
      CreateSharedOkAt(p, c, b, d);
    }
    CreateSharedLinks(p, c, b);
  }

  lemma OwnOkAt<C, S, B>(p: Pool<C, S, B>, ctx: Context, mem: seq<byte>, d: C)
    requires Wired(p) && p.awake && d in p.cos && CoroutineOk(p, p.queue.current)
    requires |mem| == |p.stacks[p.cos[p.queue.current].stack].bytes| && ctx.rsp <= |mem|
    ensures var q := OwnStep(p, ctx, mem);
            CoroutineOk(q, d) &&
            ThreadOf(q, d) == if d == p.queue.current then K.Thread(ctx, mem[ctx.rsp..], |mem|) else Threads(p)[d]
  {
    assert CoroutineOk(p, d);
  }

  lemma OwnOk<C, S, B>(p: Pool<C, S, B>, ctx: Context, mem: seq<byte>)
    requires Wired(p) && p.awake && CoroutineOk(p, p.queue.current)
    requires |mem| == |p.stacks[p.cos[p.queue.current].stack].bytes| && ctx.rsp <= |mem|
    ensures var q := OwnStep(p, ctx, mem);
            Wired(q) && Threads(q) == Threads(p)[p.queue.current := K.Thread(ctx, mem[ctx.rsp..], |mem|)]
  {
    var q := OwnStep(p, ctx, mem);
    forall d | d in p.cos
      ensures CoroutineOk(q, d)
      ensures ThreadOf(q, d) == if d == p.queue.current then K.Thread(ctx, mem[ctx.rsp..], |mem|) else Threads(p)[d]
    {
      OwnOkAt(p, ctx, mem, d);
    }
    OwnLinks(p, ctx, mem);
  }

  lemma OwnLinks<C, S, B>(p: Pool<C, S, B>, ctx: Context, mem: seq<byte>)
    requires Wired(p) && p.awake && CoroutineOk(p, p.queue.current)
    requires |mem| == |p.stacks[p.cos[p.queue.current].stack].bytes|
    ensures var q := OwnStep(p, ctx, mem);
            && (forall t :: t in q.stacks ==> StackOk(q, t))
            && (forall x :: x in q.blocks ==> BlockOk(q, x))
            && (forall s :: s in q.slots ==> s in q.stacks && q.stacks[s].Shared() && 8 <= |q.stacks[s].bytes|)
            && Owns(q, q.queue.current)
  {
    var q := OwnStep(p, ctx, mem);
    forall t | t in q.stacks
      ensures StackOk(q, t)
    {
      assert StackOk(p, t);
    }
    forall x | x in q.blocks
      ensures BlockOk(q, x)
    {
      assert BlockOk(p, x);
    }
    assert Owns(p, p.queue.current);
  }

  // ---------- the simulation ----------

  datatype Op<C, S> =
    | Own(ctx: Context, mem: seq<byte>)
    | Create(c: C, s: S, mem: seq<byte>) | CreateShared(c: C) | Destroy(c: C) | Post(c: C)
    | Resched | Yield | Exit | Return

  /** The step of the private-stack machine that an operation stands for. */
  function Spec<C, S, B>(p: Pool<C, S, B>, op: Op<C, S>): K.Op<C>
    requires Wired(p)
  {
    match op
    case Own(ctx, mem) => K.Own(ctx, if ctx.rsp <= |mem| then mem[ctx.rsp..] else [])
    case Create(c, _, mem) => K.Create(c, |mem|)
    case CreateShared(c) => K.Create(c, |p.stacks[NextSlot(p)].bytes|)
    case Destroy(c) => K.Destroy(c)
    case Post(c) => K.Post(c)
    case Resched => K.Resched
    case Yield => K.Yield
    case Exit => K.Exit
    case Return => K.Return
  }

  /** Between operations a coroutine is running. */
  predicate Good<C, S, B>(p: Pool<C, S, B>) {
    Wired(p) && p.awake && K.WellFormed(Abs(p))
  }

  /** The clients' promises are those of the private-stack machine; s and b are what malloc may return. */
  predicate Legal<C, S, B>(p: Pool<C, S, B>, op: Op<C, S>, b: B)
    requires Good(p)
  {
    && K.Legal(Abs(p), Spec(p, op))
    && b !in p.blocks
    && (op.Create? ==> op.s !in p.stacks)
    && (op.Own? ==> op.ctx.rsp <= |op.mem| && |op.mem| == K.Running(Abs(p)).size)
  }

  lemma ReturnSpec<C, S, B>(p: Pool<C, S, B>)
    requires Wired(p)
    ensures Spec(p, Return) == K.Return
  {}

  lemma ReschedLegal<C, S, B>(p: Pool<C, S, B>, b: B)
    requires Good(p) && b !in p.blocks
    ensures Legal(p, Resched, b) && K.Legal(Abs(p), K.Resched)
  {
    assert Spec(p, Resched) == K.Resched;
  }

  lemma YieldLegal<C, S, B>(p: Pool<C, S, B>, b: B)
    requires Good(p) && K.Legal(Abs(p), K.Yield) && b !in p.blocks
    ensures Legal(p, Yield, b)
  {
    assert Spec(p, Yield) == K.Yield;
  }

  lemma ExitLegal<C, S, B>(p: Pool<C, S, B>, b: B)
    requires Good(p) && K.Legal(Abs(p), K.Exit) && b !in p.blocks
    ensures Legal(p, Exit, b)
  {
    assert Spec(p, Exit) == K.Exit;
  }

  lemma ReturnLegal<C, S, B>(p: Pool<C, S, B>, b: B)
    requires Good(p) && K.Legal(Abs(p), K.Return) && b !in p.blocks
    ensures Legal(p, Return, b)
  {
    ReturnSpec(p);
  }

  /** The queue names coroutines that exist, and all of them. */
  predicate Closed<C, S, B>(p: Pool<C, S, B>) {
    Wired(p) && p.awake && RQ.WellFormed(p.queue) && p.queue.live == p.cos.Keys
  }

  /** What co_sched needs. */
  predicate Dispatchable<C, S, B>(p: Pool<C, S, B>) {
    Wired(p) && !p.awake && p.queue.ready != [] && p.queue.ready[0] in p.cos
  }

  /** The running coroutine saves itself and goes to the back of the queue. */
  function Requeue<C, S, B>(p: Pool<C, S, B>): Pool<C, S, B>
    requires Closed(p)
  {
    SaveContext(p).(queue := p.queue.(ready := p.queue.ready + [p.queue.current]))
  }

  lemma RequeueDispatchable<C, S, B>(p: Pool<C, S, B>)
    requires Closed(p)
    ensures Dispatchable(Requeue(p))
  {
    SaveRecords(p);
    SameWiring(SaveContext(p), Requeue(p));
    var front := Requeue(p).queue.ready[0];
    assert front in p.queue.ready || front == p.queue.current;
  }

  /** co_post */
  function CoPost<C, S, B>(p: Pool<C, S, B>, c: C): Pool<C, S, B> {
    p.(queue := p.queue.(ready := p.queue.ready + [c]))
  }

  function CoResched<C, S, B>(p: Pool<C, S, B>, b: B): Pool<C, S, B>
    requires Closed(p) && b !in p.blocks
  {
    RequeueDispatchable(p);
    Sched(Requeue(p), b)
  }

  function CoYield<C, S, B>(p: Pool<C, S, B>, b: B): Pool<C, S, B>
    requires Closed(p) && b !in p.blocks && p.queue.current != p.queue.root
  {
    SaveRecords(p);
    assert p.queue.ready[0] in p.queue.ready;
    Sched(SaveContext(p), b)
  }

  function CoExit<C, S, B>(p: Pool<C, S, B>, b: B): Pool<C, S, B>
    requires Closed(p) && b !in p.blocks && p.queue.current != p.queue.root
  {
    DeleteLeavesOthers(p, p.queue.current);
    assert p.queue.ready[0] in p.queue.ready;
    Sched(Delete(p, p.queue.current), b)
  }

  /** Bytes and copies may have moved, but not the coroutines among the stacks. */
  predicate SamePlaces<C, S, B>(p: Pool<C, S, B>, q: Pool<C, S, B>) {
    && q.slots == p.slots && q.allocCount == p.allocCount
    && q.stacks.Keys == p.stacks.Keys && (forall s :: s in p.stacks ==> q.stacks[s].madeFor == p.stacks[s].madeFor)
    && q.cos.Keys == p.cos.Keys && (forall c :: c in p.cos ==> q.cos[c].stack == p.cos[c].stack)
  }

  lemma SwapInPlaces<C, S, B>(p: Pool<C, S, B>, c: C, b: B)
    requires Wired(p) && !p.awake && c in p.cos
    ensures SamePlaces(p, SwapIn(p, c, b))
  {
    assert CoroutineOk(p, c) && StackOk(p, p.cos[c].stack);
  }

  lemma SchedPlaces<C, S, B>(p: Pool<C, S, B>, b: B)
    requires Dispatchable(p) && b !in p.blocks
    ensures SamePlaces(p, Sched(p, b))
  {
    var q := p.(queue := RQ.Dispatch(p.queue));
    SameWiring(p, q);
    SwapInPlaces(q, q.queue.current, b);
  }

  lemma ThreadsKeys<C, S, B>(p: Pool<C, S, B>)
    requires Wired(p)
    ensures Threads(p).Keys == p.cos.Keys
  {}

  lemma FrontIsThere<C, S, B>(p: Pool<C, S, B>)
    requires Closed(p) && p.queue.current != p.queue.root
    ensures p.queue.ready != [] && p.queue.ready[0] in p.cos && p.queue.ready[0] != p.queue.current
  {
    assert p.queue.ready[0] in p.queue.ready;
  }

  lemma ReschedThreads<C, S, B>(p: Pool<C, S, B>, b: B)
    requires Closed(p) && b !in p.blocks
    ensures var q := CoResched(p, b);
            && Wired(q) && q.awake && q.queue == RQ.Step(p.queue, RQ.Resched)
            && Threads(q) == Threads(p)[p.queue.current := K.Saved(Threads(p)[p.queue.current])]
  {
    SaveRecords(p);
    RequeueDispatchable(p);
    SameWiring(SaveContext(p), Requeue(p));
    SchedInvisible(Requeue(p), b);
  }

  lemma YieldThreads<C, S, B>(p: Pool<C, S, B>, b: B)
    requires Closed(p) && b !in p.blocks && p.queue.current != p.queue.root
    ensures var q := CoYield(p, b);
            && Wired(q) && q.awake && q.queue == RQ.Step(p.queue, RQ.Yield)
            && Threads(q) == Threads(p)[p.queue.current := K.Saved(Threads(p)[p.queue.current])]
  {
    FrontIsThere(p);
    SaveRecords(p);
    SchedInvisible(SaveContext(p), b);
  }

  lemma ExitThreads<C, S, B>(p: Pool<C, S, B>, b: B)
    requires Closed(p) && b !in p.blocks && p.queue.current != p.queue.root
    ensures var q := CoExit(p, b);
            && Wired(q) && q.awake && q.queue == RQ.Step(p.queue, RQ.Exit)
            && Threads(q) == Threads(p) - {p.queue.current}
  {
    FrontIsThere(p);
    DeleteLeavesOthers(p, p.queue.current);
    SchedInvisible(Delete(p, p.queue.current), b);
  }

  /** Every coroutine that lives on keeps the stack it was given. */
  predicate KeepsStacks<C, S, B>(p: Pool<C, S, B>, q: Pool<C, S, B>) {
    forall c :: c in p.cos && c in q.cos ==> q.cos[c].stack == p.cos[c].stack
  }

  lemma SwitchesKeepStacks<C, S, B>(p: Pool<C, S, B>, b: B)
    requires Closed(p) && b !in p.blocks
    ensures KeepsStacks(p, CoResched(p, b))
    ensures p.queue.current != p.queue.root ==> KeepsStacks(p, CoYield(p, b)) && KeepsStacks(p, CoExit(p, b))
  {
    RequeueDispatchable(p);
    SchedPlaces(Requeue(p), b);
    if p.queue.current != p.queue.root {
      FrontIsThere(p);
      SaveRecords(p);
      SchedPlaces(SaveContext(p), b);
      DeleteLeavesOthers(p, p.queue.current);
      SchedPlaces(Delete(p, p.queue.current), b);
    }
  }

  /** The eight bytes that a ret of the running coroutine takes from the memory of its stack. */
  function ReturnSlot<C, S, B>(p: Pool<C, S, B>): seq<byte>
    requires p.queue.current in p.cos && p.cos[p.queue.current].stack in p.stacks
    requires p.cpu.rsp + 8 <= |p.stacks[p.cos[p.queue.current].stack].bytes|
  {
    p.stacks[p.cos[p.queue.current].stack].bytes[p.cpu.rsp..p.cpu.rsp + 8]
  }

  lemma RunningIsGuarded<C, S, B>(p: Pool<C, S, B>)
    requires Good(p) && p.queue.current != p.queue.root
    ensures p.queue.current in p.cos && CoroutineOk(p, p.queue.current)
    ensures var mem := p.stacks[p.cos[p.queue.current].stack].bytes;
      K.Running(Abs(p)).live == mem[p.cpu.rsp..] && K.Guarded(mem[p.cpu.rsp..])
  {
    var me := p.queue.current;
    assert CoroutineOk(p, me);
    assert K.ThreadOk(Abs(p).threads[me], false) && Abs(p).threads[me] == ThreadOf(p, me);
  }

  /** A routine that has come back to its outermost frame finds co_exit at RSP, in the memory of whatever stack it
      is on. */
  lemma ReturnFindsExit<C, S, B>(p: Pool<C, S, B>)
    requires Good(p) && p.queue.current != p.queue.root && |K.Running(Abs(p)).live| == 8
    ensures p.queue.current in p.cos && CoroutineOk(p, p.queue.current)
    ensures p.cpu.rsp + 8 <= |p.stacks[p.cos[p.queue.current].stack].bytes|
    ensures ReturnSlot(p) == EXIT_GUARD
  {
    RunningIsGuarded(p);
    GuardAt(p.stacks[p.cos[p.queue.current].stack].bytes, p.cpu.rsp);
  }

  lemma GuardAt(mem: seq<byte>, rsp: nat)
    requires rsp + 8 <= |mem| && K.Guarded(mem[rsp..])
    ensures mem[|mem| - 8..] == EXIT_GUARD
    ensures rsp + 8 == |mem| ==> mem[rsp..rsp + 8] == EXIT_GUARD
  {
    K.GuardedFrom(mem, rsp);
  }

  /** The ret at the end of a routine: the processor goes where the stack says. */
  function CoReturn<C, S, B>(p: Pool<C, S, B>, b: B): Pool<C, S, B>
    requires Closed(p) && p.queue.current != p.queue.root && b !in p.blocks
    requires p.cos[p.queue.current].stack in p.stacks
    requires p.cpu.rsp + 8 <= |p.stacks[p.cos[p.queue.current].stack].bytes|
  {
    if ReturnSlot(p) == EXIT_GUARD then CoExit(p, b) else p
  }

  lemma GoodIsClosed<C, S, B>(p: Pool<C, S, B>)
    requires Good(p)
    ensures Closed(p)
  {
    ThreadsKeys(p);
  }

  lemma ReturnExits<C, S, B>(p: Pool<C, S, B>, b: B)
    requires Closed(p) && p.queue.current != p.queue.root && b !in p.blocks
    requires p.cos[p.queue.current].stack in p.stacks
    requires p.cpu.rsp + 8 <= |p.stacks[p.cos[p.queue.current].stack].bytes|
    requires ReturnSlot(p) == EXIT_GUARD
    ensures CoReturn(p, b) == CoExit(p, b)
  {}

  /** What q is to p if the private-stack machine does op meanwhile. */
  predicate StepsTo<C, S, B>(p: Pool<C, S, B>, q: Pool<C, S, B>, op: K.Op<C>)
    requires Good(p) && K.Legal(Abs(p), op)
  {
    Good(q) && Abs(q) == K.Step(Abs(p), op) && KeepsStacks(p, q)
  }

  /** What there is to show of q. */
  lemma Stepped<C, S, B>(p: Pool<C, S, B>, q: Pool<C, S, B>, op: K.Op<C>)
    requires Good(p) && K.Legal(Abs(p), op) && Wired(q) && q.awake && KeepsStacks(p, q)
    requires !op.Return? && q.queue == K.NextQueue(Abs(p), op) && Threads(q) == K.NextThreads(Abs(p), op)
    ensures StepsTo(p, q, op)
  {
    var k := K.Step(Abs(p), op);
    assert Abs(q) == k;
  }

  lemma ReschedSimulates<C, S, B>(p: Pool<C, S, B>, b: B)
    requires Good(p) && Closed(p) && K.Legal(Abs(p), K.Resched) && b !in p.blocks
    ensures StepsTo(p, CoResched(p, b), K.Resched)
  {
    ReschedThreads(p, b);
    SwitchesKeepStacks(p, b);
    Stepped(p, CoResched(p, b), K.Resched);
  }

  lemma YieldSimulates<C, S, B>(p: Pool<C, S, B>, b: B)
    requires Good(p) && Closed(p) && K.Legal(Abs(p), K.Yield) && b !in p.blocks
    ensures StepsTo(p, CoYield(p, b), K.Yield)
  {
    YieldThreads(p, b);
    SwitchesKeepStacks(p, b);
    Stepped(p, CoYield(p, b), K.Yield);
  }

  lemma ExitSimulates<C, S, B>(p: Pool<C, S, B>, b: B)
    requires Good(p) && Closed(p) && K.Legal(Abs(p), K.Exit) && b !in p.blocks
    ensures StepsTo(p, CoExit(p, b), K.Exit)
  {
    ExitThreads(p, b);
    SwitchesKeepStacks(p, b);
    Stepped(p, CoExit(p, b), K.Exit);
  }

  /** A returning routine enters co_exit, which destroys it, as in the machine of private stacks. */
  lemma ReturnSimulates<C, S, B>(p: Pool<C, S, B>, b: B)
    requires Good(p) && K.Legal(Abs(p), K.Return) && b !in p.blocks
    ensures Closed(p) && CoroutineOk(p, p.queue.current)
    ensures p.cpu.rsp + 8 <= |p.stacks[p.cos[p.queue.current].stack].bytes|
    ensures ReturnSlot(p) == EXIT_GUARD && CoReturn(p, b) == CoExit(p, b)
    ensures StepsTo(p, CoReturn(p, b), K.Return)
  {
    GoodIsClosed(p);
    K.ReturnFrame(Abs(p));
    ReturnFindsExit(p);
    ReturnExits(p, b);
    K.ReturnIsExit(Abs(p));
    ExitSimulates(p, b);
  }

  lemma OwnSimulates<C, S, B>(p: Pool<C, S, B>, ctx: Context, mem: seq<byte>)
    requires Good(p) && ctx.rsp <= |mem| && |mem| == K.Running(Abs(p)).size
    requires K.Legal(Abs(p), K.Own(ctx, mem[ctx.rsp..]))
    ensures p.queue.current in p.cos && CoroutineOk(p, p.queue.current)
    ensures StepsTo(p, OwnStep(p, ctx, mem), K.Own(ctx, mem[ctx.rsp..]))
  {
    assert CoroutineOk(p, p.queue.current);
    OwnOk(p, ctx, mem);
    Stepped(p, OwnStep(p, ctx, mem), K.Own(ctx, mem[ctx.rsp..]));
  }

  lemma CreateSimulates<C, S, B>(p: Pool<C, S, B>, c: C, s: S, mem: seq<byte>)
    requires Good(p) && K.Legal(Abs(p), K.Create(c, |mem|)) && s !in p.stacks
    ensures StepsTo(p, CoCreate(p, c, s, mem), K.Create(c, |mem|))
  {
    GoodIsClosed(p);
    CreateOk(p, c, s, mem);
    Stepped(p, CoCreate(p, c, s, mem), K.Create(c, |mem|));
  }

  lemma CreateSharedSimulates<C, S, B>(p: Pool<C, S, B>, c: C, b: B)
    requires Good(p) && K.Legal(Abs(p), K.Create(c, |p.stacks[NextSlot(p)].bytes|)) && b !in p.blocks
    ensures StepsTo(p, CoCreateShared(p, c, b), K.Create(c, |p.stacks[NextSlot(p)].bytes|))
  {
    GoodIsClosed(p);
    CreateSharedOk(p, c, b);
    Stepped(p, CoCreateShared(p, c, b), K.Create(c, |p.stacks[NextSlot(p)].bytes|));
  }

  lemma DestroySimulates<C, S, B>(p: Pool<C, S, B>, c: C)
    requires Good(p) && K.Legal(Abs(p), K.Destroy(c))
    ensures c in p.cos && CoroutineOk(p, c)
    ensures StepsTo(p, Delete(p, c), K.Destroy(c))
  {
    GoodIsClosed(p);
    DeleteLeavesOthers(p, c);
    Stepped(p, Delete(p, c), K.Destroy(c));
  }

  lemma PostSimulates<C, S, B>(p: Pool<C, S, B>, c: C)
    requires Good(p) && K.Legal(Abs(p), K.Post(c))
    ensures StepsTo(p, CoPost(p, c), K.Post(c))
  {
    SameWiring(p, CoPost(p, c));
    Stepped(p, CoPost(p, c), K.Post(c));
  }

  /** One call of the coroutine interface; b is the block that malloc returns if one is needed. */
  function Step<C, S, B>(p: Pool<C, S, B>, op: Op<C, S>, b: B): Pool<C, S, B>
    requires Good(p) && Legal(p, op, b)
  {
    GoodIsClosed(p);
    match op
    case Own(ctx, mem) => assert CoroutineOk(p, p.queue.current); OwnStep(p, ctx, mem)
    case Create(c, s, mem) => CoCreate(p, c, s, mem)
    case CreateShared(c) => CoCreateShared(p, c, b)
    case Destroy(c) => assert CoroutineOk(p, c); Delete(p, c)
    case Post(c) => CoPost(p, c)
    case Resched => CoResched(p, b)
    case Yield => CoYield(p, b)
    case Exit => CoExit(p, b)
    case Return => K.ReturnFrame(Abs(p)); ReturnFindsExit(p); CoReturn(p, b)
  }

  // The switches as steps, each by its name in both machines.

  lemma ReschedStep<C, S, B>(p: Pool<C, S, B>, b: B)
    requires Good(p) && Closed(p) && Legal(p, Resched, b)
    ensures Step(p, Resched, b) == CoResched(p, b)
  {}

  lemma ReschedSpec<C, S, B>(p: Pool<C, S, B>, b: B)
    requires Good(p) && Legal(p, Resched, b)
    ensures Spec(p, Resched) == K.Resched && K.Legal(Abs(p), K.Resched) && b !in p.blocks
  {}

  lemma ReschedTakes<C, S, B>(p: Pool<C, S, B>, b: B)
    requires Good(p) && Legal(p, Resched, b)
    ensures Good(Step(p, Resched, b)) && KeepsStacks(p, Step(p, Resched, b))
    ensures Abs(Step(p, Resched, b)) == K.Step(Abs(p), Spec(p, Resched))
  {
    GoodIsClosed(p);
    ReschedSpec(p, b);
    ReschedStep(p, b);
    ReschedSimulates(p, b);
  }

  lemma YieldStep<C, S, B>(p: Pool<C, S, B>, b: B)
    requires Good(p) && Closed(p) && Legal(p, Yield, b) && p.queue.current != p.queue.root
    ensures Step(p, Yield, b) == CoYield(p, b)
  {}

  lemma YieldSpec<C, S, B>(p: Pool<C, S, B>, b: B)
    requires Good(p) && Legal(p, Yield, b)
    ensures Spec(p, Yield) == K.Yield && K.Legal(Abs(p), K.Yield) && b !in p.blocks && p.queue.current != p.queue.root
  {}

  lemma YieldTakes<C, S, B>(p: Pool<C, S, B>, b: B)
    requires Good(p) && Legal(p, Yield, b)
    ensures Good(Step(p, Yield, b)) && KeepsStacks(p, Step(p, Yield, b))
    ensures Abs(Step(p, Yield, b)) == K.Step(Abs(p), Spec(p, Yield))
  {
    GoodIsClosed(p);
    YieldSpec(p, b);
    YieldStep(p, b);
    YieldSimulates(p, b);
  }

  lemma ExitStep<C, S, B>(p: Pool<C, S, B>, b: B)
    requires Good(p) && Closed(p) && Legal(p, Exit, b) && p.queue.current != p.queue.root
    ensures Step(p, Exit, b) == CoExit(p, b)
  {}

  lemma ExitSpec<C, S, B>(p: Pool<C, S, B>, b: B)
    requires Good(p) && Legal(p, Exit, b)
    ensures Spec(p, Exit) == K.Exit && K.Legal(Abs(p), K.Exit) && b !in p.blocks && p.queue.current != p.queue.root
  {}

  lemma ExitTakes<C, S, B>(p: Pool<C, S, B>, b: B)
    requires Good(p) && Legal(p, Exit, b)
    ensures Good(Step(p, Exit, b)) && KeepsStacks(p, Step(p, Exit, b))
    ensures Abs(Step(p, Exit, b)) == K.Step(Abs(p), Spec(p, Exit))
  {
    GoodIsClosed(p);
    ExitSpec(p, b);
    ExitStep(p, b);
    ExitSimulates(p, b);
  }

  lemma ReturnInBounds<C, S, B>(p: Pool<C, S, B>)
    requires Good(p) && p.queue.current != p.queue.root && |K.Running(Abs(p)).live| == 8
    ensures p.queue.current in p.cos && CoroutineOk(p, p.queue.current)
    ensures p.cpu.rsp + 8 <= |p.stacks[p.cos[p.queue.current].stack].bytes|
  {
    ReturnFindsExit(p);
  }

  lemma ReturnStep<C, S, B>(p: Pool<C, S, B>, b: B)
    requires Good(p) && Legal(p, Return, b)
    ensures Closed(p) && p.queue.current != p.queue.root && CoroutineOk(p, p.queue.current)
    ensures p.cpu.rsp + 8 <= |p.stacks[p.cos[p.queue.current].stack].bytes|
    ensures Step(p, Return, b) == CoReturn(p, b)
  {
    GoodIsClosed(p);
    ReturnSpec(p);
    K.ReturnFrame(Abs(p));
    ReturnInBounds(p);
  }

  lemma ReturnTakes<C, S, B>(p: Pool<C, S, B>, b: B)
    requires Good(p) && Legal(p, Return, b)
    ensures Good(Step(p, Return, b)) && KeepsStacks(p, Step(p, Return, b))
    ensures Abs(Step(p, Return, b)) == K.Step(Abs(p), Spec(p, Return))
    ensures Closed(p) && p.queue.current != p.queue.root && Step(p, Return, b) == CoExit(p, b)
  {
    ReturnSpec(p);
    ReturnStep(p, b);
    ReturnSimulates(p, b);
  }

  /** The pooled machine takes the step of the private-stack machine, whatever the operation. */
  lemma StepSimulates<C, S, B>(p: Pool<C, S, B>, op: Op<C, S>, b: B)
    requires Good(p) && Legal(p, op, b)
    ensures Good(Step(p, op, b))
    ensures Abs(Step(p, op, b)) == K.Step(Abs(p), Spec(p, op))
    ensures KeepsStacks(p, Step(p, op, b))
    ensures op.Return? ==> Closed(p) && p.queue.current != p.queue.root && Step(p, op, b) == CoExit(p, b)
  {
    match op
    case Own(ctx, mem) => OwnSimulates(p, ctx, mem);
    case Create(c, s, mem) => CreateSimulates(p, c, s, mem);
    case CreateShared(c) => CreateSharedSimulates(p, c, b);
    case Destroy(c) => DestroySimulates(p, c);
    case Post(c) => PostSimulates(p, c);
    case Resched => ReschedTakes(p, b);
    case Yield => YieldTakes(p, b);
    case Exit => ExitTakes(p, b);
    case Return => ReturnTakes(p, b);
  }

  /** Every switch leaves the queue closed, whatever the coroutines made of their stacks. */
  lemma ReschedClosed<C, S, B>(p: Pool<C, S, B>, b: B)
    requires Closed(p) && b !in p.blocks
    ensures Closed(CoResched(p, b))
  {
    ReschedThreads(p, b);
    StillClosed(p, CoResched(p, b));
  }

  lemma StillClosed<C, S, B>(p: Pool<C, S, B>, q: Pool<C, S, B>)
    requires Closed(p) && Wired(q) && q.awake && q.queue == RQ.Step(p.queue, RQ.Resched)
    requires Threads(q) == Threads(p)[p.queue.current := K.Saved(Threads(p)[p.queue.current])]
    ensures Closed(q)
  {
    ThreadsKeys(p);
    ThreadsKeys(q);
  }

  lemma YieldClosed<C, S, B>(p: Pool<C, S, B>, b: B)
    requires Closed(p) && b !in p.blocks && p.queue.current != p.queue.root
    ensures Dispatchable(SaveContext(p)) && Closed(CoYield(p, b))
  {
    SaveRecords(p);
    assert p.queue.ready[0] in p.queue.ready;
    YieldThreads(p, b);
    ThreadsKeys(CoYield(p, b));
  }

  lemma ExitClosed<C, S, B>(p: Pool<C, S, B>, b: B)
    requires Closed(p) && b !in p.blocks && p.queue.current != p.queue.root
    ensures CoroutineOk(p, p.queue.current)
    ensures Dispatchable(Delete(p, p.queue.current)) && Closed(CoExit(p, b))
  {
    DeleteLeavesOthers(p, p.queue.current);
    assert p.queue.ready[0] in p.queue.ready;
    ExitThreads(p, b);
    ThreadsKeys(CoExit(p, b));
  }

  lemma PostClosed<C, S, B>(p: Pool<C, S, B>, c: C)
    requires Closed(p) && RQ.Parked(p.queue, c)
    ensures Closed(CoPost(p, c)) && CoPost(p, c).queue == RQ.Step(p.queue, RQ.Post(c))
  {
    SameWiring(p, CoPost(p, c));
    assert CoPost(p, c).queue == RQ.Step(p.queue, RQ.Post(c));
  }

  lemma DeleteClosed<C, S, B>(p: Pool<C, S, B>, c: C)
    requires Closed(p) && RQ.Parked(p.queue, c) && c != p.queue.root
    ensures CoroutineOk(p, c) && Closed(Delete(p, c))
  {
    DeleteLeavesOthers(p, c);
    assert Delete(p, c).queue == RQ.Step(p.queue, RQ.Remove(c));
  }

  lemma CreateClosed<C, S, B>(p: Pool<C, S, B>, c: C, s: S, mem: seq<byte>)
    requires Closed(p) && c !in p.cos && s !in p.stacks && 8 <= |mem|
    ensures Closed(CoCreate(p, c, s, mem))
  {
    CreateOk(p, c, s, mem);
    assert CoCreate(p, c, s, mem).queue == RQ.Step(p.queue, RQ.Add(c));
  }

  lemma CreateSharedClosed<C, S, B>(p: Pool<C, S, B>, c: C, b: B)
    requires Closed(p) && c !in p.cos && b !in p.blocks
    ensures Closed(CoCreateShared(p, c, b))
  {
    CreateSharedOk(p, c, b);
    assert CoCreateShared(p, c, b).queue == RQ.Step(p.queue, RQ.Add(c));
  }

  lemma OwnClosed<C, S, B>(p: Pool<C, S, B>, ctx: Context, mem: seq<byte>)
    requires Closed(p) && CoroutineOk(p, p.queue.current)
    requires |mem| == |p.stacks[p.cos[p.queue.current].stack].bytes| && ctx.rsp <= |mem|
    ensures Closed(OwnStep(p, ctx, mem))
  {
    OwnOk(p, ctx, mem);
  }

  /** After co_init: the root runs on its own stack, and every stack of the pool is free. */
  predicate Initial<C, S, B>(p: Pool<C, S, B>) {
    var root := p.queue.root;
    && p.queue == RQ.Queue(root, root, [], {root}) && p.awake && p.blocks == map[]
    && p.cos.Keys == {root} && !p.cos[root].shared && p.cos[root].copy == None
    && p.cos[root].stack in p.stacks && p.stacks[p.cos[root].stack].madeFor == Some(root)
    && 8 <= |p.stacks[p.cos[root].stack].bytes| && p.cpu.rsp <= |p.stacks[p.cos[root].stack].bytes|
    && (forall s :: s in p.slots ==> s in p.stacks && p.stacks[s].Shared() && 8 <= |p.stacks[s].bytes|)
    && (forall s :: s in p.stacks ==> if p.stacks[s].Shared() then s in p.slots && p.stacks[s].usedBy == None
                                      else s == p.cos[root].stack)
  }

  /** co_init before it makes the pool: only the root, on a stack of its own. */
  function Booted<C, S, B>(root: C, ctx: Context, s: S, mem: seq<byte>, regs: Context): Pool<C, S, B> {
    Pool(RQ.Queue(root, root, [], {root}), map[root := Coroutine(ctx, false, s, None)],
         map[s := Stack(mem, Some(root), Some(root))], [], 0, map[], regs, true)
  }

  lemma BootedInitial<C, S, B>(root: C, ctx: Context, s: S, mem: seq<byte>, regs: Context)
    requires 8 <= |mem| && regs.rsp <= |mem|
    ensures Initial<C, S, B>(Booted(root, ctx, s, mem, regs))
  {}

  lemma InitialSlot<C, S, B>(p: Pool<C, S, B>, s: S, mem: seq<byte>)
    requires Initial(p) && s !in p.stacks && 8 <= |mem|
    ensures Initial(p.(stacks := p.stacks[s := Stack(mem, None, None)], slots := p.slots + [s]))
  {}

  lemma InitialGood<C, S, B>(p: Pool<C, S, B>)
    requires Initial(p) && p.slots != []
    ensures Good(p) && Closed(p)
  {
    assert CoroutineOk(p, p.queue.root);
  }

  // ---------- whole runs ----------

  datatype Call<C, S, B> = Call(op: Op<C, S>, block: B)

  predicate LegalRun<C, S, B>(p: Pool<C, S, B>, calls: seq<Call<C, S, B>>)
    requires Good(p)
    decreases calls
  {
    calls == [] ||
    (&& Legal(p, calls[0].op, calls[0].block)
     && (StepSimulates(p, calls[0].op, calls[0].block);
         LegalRun(Step(p, calls[0].op, calls[0].block), calls[1..])))
  }

  function Run<C, S, B>(p: Pool<C, S, B>, calls: seq<Call<C, S, B>>): (q: Pool<C, S, B>)
    requires Good(p) && LegalRun(p, calls)
    ensures Good(q)
    decreases calls
  {
    if calls == [] then p
    else
      StepSimulates(p, calls[0].op, calls[0].block);
      Run(Step(p, calls[0].op, calls[0].block), calls[1..])
  }

  /** One more call at the beginning of a run. */
  lemma RunCons<C, S, B>(p: Pool<C, S, B>, call: Call<C, S, B>, q: Pool<C, S, B>, calls: seq<Call<C, S, B>>)
    requires Good(p) && Legal(p, call.op, call.block) && q == Step(p, call.op, call.block)
    requires Good(q) && LegalRun(q, calls)
    ensures LegalRun(p, [call] + calls) && Run(p, [call] + calls) == Run(q, calls)
  {
    assert ([call] + calls)[1..] == calls;
  }

  function Specs<C, S, B>(p: Pool<C, S, B>, calls: seq<Call<C, S, B>>): seq<K.Op<C>>
    requires Good(p) && LegalRun(p, calls)
    decreases calls
  {
    if calls == [] then []
    else
      StepSimulates(p, calls[0].op, calls[0].block);
      [Spec(p, calls[0].op)] + Specs(Step(p, calls[0].op, calls[0].block), calls[1..])
  }

  /** Every run of the pooled machine is, thread by thread and byte by byte, a run of the machine in which
      every coroutine has a stack of its own. */
  lemma {:induction false} RunSimulates<C, S, B>(p: Pool<C, S, B>, calls: seq<Call<C, S, B>>)
    requires Good(p) && LegalRun(p, calls)
    ensures K.LegalRun(Abs(p), Specs(p, calls))
    ensures Abs(Run(p, calls)) == K.Run(Abs(p), Specs(p, calls))
    decreases calls
  {
    if calls != [] {
      var q := Step(p, calls[0].op, calls[0].block);
      StepSimulates(p, calls[0].op, calls[0].block);
      RunSimulates(q, calls[1..]);
      var specs := Specs(p, calls);
      assert specs[0] == Spec(p, calls[0].op) && specs[1..] == Specs(q, calls[1..]);
    }
  }

  lemma {:induction false} AwayKeepsStack<C, S, B>(p: Pool<C, S, B>, calls: seq<Call<C, S, B>>, c: C)
    requires Good(p) && LegalRun(p, calls) && c in p.cos
    requires K.LegalRun(Abs(p), Specs(p, calls)) && K.Away(Abs(p), Specs(p, calls), c)
    ensures c in Run(p, calls).cos && Run(p, calls).cos[c].stack == p.cos[c].stack
    decreases calls
  {
    if calls != [] {
      var op, b := calls[0].op, calls[0].block;
      var q := Step(p, op, b);
      StepSimulates(p, op, b);
      var specs := Specs(p, calls);
      assert specs[0] == Spec(p, op) && specs[1..] == Specs(q, calls[1..]);
      RunSimulates(q, calls[1..]);
      K.AwayStep(Abs(p), Spec(p, op), c);
      assert c in Abs(q).threads;
      AwayKeepsStack(q, calls[1..], c);
    }
  }

  lemma SameThreadSameBytes<C, S, B>(p: Pool<C, S, B>, r: Pool<C, S, B>, me: C)
    requires Good(p) && Good(r) && p.queue.current == r.queue.current == me && me in p.cos && me in r.cos
    requires CoroutineOk(p, me) && CoroutineOk(r, me) && r.cos[me].stack == p.cos[me].stack
    requires ThreadOf(r, me) == K.Saved(ThreadOf(p, me))
    ensures r.cpu == p.cpu.(rip := RETADDR)
    ensures |r.stacks[r.cos[me].stack].bytes| == |p.stacks[p.cos[me].stack].bytes|
    ensures r.stacks[r.cos[me].stack].bytes[p.cpu.rsp..] == p.stacks[p.cos[me].stack].bytes[p.cpu.rsp..]
  {}

  /** The running coroutine reschedules or yields, and runs again after the calls; nobody destroys it meanwhile. */
  predicate RunsAgain<C, S, B>(p: Pool<C, S, B>, op: Op<C, S>, b: B, calls: seq<Call<C, S, B>>) {
    && Good(p) && (op.Resched? || op.Yield?) && Legal(p, op, b)
    && Good(Step(p, op, b)) && LegalRun(Step(p, op, b), calls)
    && (var q := Step(p, op, b);
        && K.LegalRun(Abs(q), Specs(q, calls))
        && K.Away(Abs(q), Specs(q, calls), p.queue.current))
    && Run(Step(p, op, b), calls).queue.current == p.queue.current
  }

  lemma SavedThread<C, S, B>(p: Pool<C, S, B>, q: Pool<C, S, B>)
    requires Wired(p) && Wired(q) && p.queue.current in p.cos
    requires Threads(q) == Threads(p)[p.queue.current := K.Saved(Threads(p)[p.queue.current])]
    ensures var me := p.queue.current;
            && me in q.cos && CoroutineOk(p, me) && CoroutineOk(q, me)
            && ThreadOf(q, me) == K.Saved(ThreadOf(p, me))
  {
    assert CoroutineOk(p, p.queue.current) && p.queue.current in Threads(q);
    assert CoroutineOk(q, p.queue.current);
  }

  lemma PassingSaves<C, S, B>(p: Pool<C, S, B>, op: Op<C, S>, b: B)
    requires Good(p) && (op.Resched? || op.Yield?) && Legal(p, op, b) && Good(Step(p, op, b))
    ensures var me := p.queue.current;
            var q := Step(p, op, b);
            && me in p.cos && me in q.cos && CoroutineOk(p, me) && CoroutineOk(q, me)
            && ThreadOf(q, me) == K.Saved(ThreadOf(p, me))
  {
    GoodIsClosed(p);
    if op.Resched? {
      ReschedSpec(p, b);
      ReschedStep(p, b);
      ReschedThreads(p, b);
      SavedThread(p, CoResched(p, b));
    } else {
      YieldSpec(p, b);
      YieldStep(p, b);
      YieldThreads(p, b);
      SavedThread(p, CoYield(p, b));
    }
  }

  lemma AwayKeepsThread<C, S, B>(q: Pool<C, S, B>, calls: seq<Call<C, S, B>>, c: C)
    requires Good(q) && LegalRun(q, calls) && c in q.cos
    requires K.LegalRun(Abs(q), Specs(q, calls)) && K.Away(Abs(q), Specs(q, calls), c)
    ensures var r := Run(q, calls);
            c in r.cos && CoroutineOk(q, c) && CoroutineOk(r, c) && ThreadOf(r, c) == ThreadOf(q, c)
  {
    var r := Run(q, calls);
    RunSimulates(q, calls);
    K.AwayKeeps(Abs(q), Specs(q, calls), c);
    assert CoroutineOk(q, c) && c in Abs(r).threads;
    assert CoroutineOk(r, c);
  }

  lemma RunsAgainOnItsThread<C, S, B>(p: Pool<C, S, B>, op: Op<C, S>, b: B, calls: seq<Call<C, S, B>>)
    requires RunsAgain(p, op, b, calls)
    ensures var me := p.queue.current;
            var r := Run(Step(p, op, b), calls);
            && me in p.cos && me in r.cos && CoroutineOk(p, me) && CoroutineOk(r, me)
            && ThreadOf(r, me) == K.Saved(ThreadOf(p, me))
  {
    PassingSaves(p, op, b);
    AwayKeepsThread(Step(p, op, b), calls, p.queue.current);
  }

  lemma PassingKeepsStack<C, S, B>(p: Pool<C, S, B>, op: Op<C, S>, b: B)
    requires Good(p) && (op.Resched? || op.Yield?) && Legal(p, op, b) && Good(Step(p, op, b))
    ensures var me := p.queue.current;
            var q := Step(p, op, b);
            me in p.cos && me in q.cos && q.cos[me].stack == p.cos[me].stack
  {
    if op.Resched? {
      ReschedTakes(p, b);
    } else {
      YieldTakes(p, b);
    }
    PassingSaves(p, op, b);
  }

  lemma RunsAgainOnItsStack<C, S, B>(p: Pool<C, S, B>, op: Op<C, S>, b: B, calls: seq<Call<C, S, B>>)
    requires RunsAgain(p, op, b, calls)
    ensures var me := p.queue.current;
            var r := Run(Step(p, op, b), calls);
            me in p.cos && me in r.cos && r.cos[me].stack == p.cos[me].stack
  {
    PassingKeepsStack(p, op, b);
    AwayKeepsStack(Step(p, op, b), calls, p.queue.current);
  }

  /** Suspension in the pooled machine: when a coroutine that rescheduled or yielded runs again, whatever
      happened to its stack meanwhile, the processor holds its registers and the very addresses it had in use
      hold the bytes it left there. */
  lemma SuspensionRestores<C, S, B>(p: Pool<C, S, B>, op: Op<C, S>, b: B, calls: seq<Call<C, S, B>>)
    requires RunsAgain(p, op, b, calls)
    ensures var me := p.queue.current;
            var r := Run(Step(p, op, b), calls);
            && r.cpu == p.cpu.(rip := RETADDR)
            && me in p.cos && me in r.cos && r.cos[me].stack == p.cos[me].stack
            && CoroutineOk(p, me) && CoroutineOk(r, me)
            && |r.stacks[r.cos[me].stack].bytes| == |p.stacks[p.cos[me].stack].bytes|
            && r.stacks[r.cos[me].stack].bytes[p.cpu.rsp..] == p.stacks[p.cos[me].stack].bytes[p.cpu.rsp..]
  {
    RunsAgainOnItsThread(p, op, b, calls);
    RunsAgainOnItsStack(p, op, b, calls);
    SameThreadSameBytes(p, Run(Step(p, op, b), calls), p.queue.current);
  }

  // ---------- the first turn of a new coroutine ----------

  /** A new coroutine gets the stack it is given, or the next slot, ... */
  function Birthplace<C, S, B>(p: Pool<C, S, B>, op: Op<C, S>): S
    requires p.slots != [] && (op.Create? || op.CreateShared?)
  {
    if op.Create? then op.s else p.slots[p.allocCount % |p.slots|]
  }

  /** ... of this size. */
  function Birthsize<C, S, B>(p: Pool<C, S, B>, op: Op<C, S>): nat
    requires Wired(p) && (op.Create? || op.CreateShared?)
  {
    if op.Create? then |op.mem| else |p.stacks[Birthplace(p, op)].bytes|
  }

  lemma BornPrivate<C, S, B>(p: Pool<C, S, B>, c: C, s: S, mem: seq<byte>, b: B)
    requires Good(p) && Legal(p, Create(c, s, mem), b)
    ensures var q := Step(p, Create(c, s, mem), b);
      && Good(q) && c in q.cos && CoroutineOk(q, c) && q.cos[c].stack == s
      && ThreadOf(q, c) == K.Thread(FreshContext(|mem|), EXIT_GUARD, |mem|)
  {
    GoodIsClosed(p);
    CreateSimulates(p, c, s, mem);
    CreateOkAt(p, c, s, mem, c);
  }

  lemma BornShared<C, S, B>(p: Pool<C, S, B>, c: C, b: B)
    requires Good(p) && Legal(p, CreateShared(c), b)
    ensures var q := Step(p, CreateShared(c), b);
      var size := Birthsize(p, CreateShared(c));
      && Good(q) && c in q.cos && CoroutineOk(q, c) && q.cos[c].stack == Birthplace(p, CreateShared(c))
      && ThreadOf(q, c) == K.Thread(FreshContext(size), EXIT_GUARD, size)
  {
    GoodIsClosed(p);
    CreateSharedSimulates(p, c, b);
    CreateSharedOkAt(p, c, b, c);
  }

  lemma Born<C, S, B>(p: Pool<C, S, B>, op: Op<C, S>, b: B)
    requires Good(p) && (op.Create? || op.CreateShared?) && Legal(p, op, b)
    ensures var q := Step(p, op, b);
      && Good(q) && op.c in q.cos && CoroutineOk(q, op.c) && q.cos[op.c].stack == Birthplace(p, op)
      && ThreadOf(q, op.c) == K.Thread(FreshContext(Birthsize(p, op)), EXIT_GUARD, Birthsize(p, op))
  {
    match op
    case Create(c, s, mem) => BornPrivate(p, c, s, mem, b);
    case CreateShared(c) => BornShared(p, c, b);
    case _ =>
  }

  /** The calls bring c to the processor, and it does not run before. */
  predicate Reaches<C, S, B>(q: Pool<C, S, B>, calls: seq<Call<C, S, B>>, c: C) {
    && Good(q) && LegalRun(q, calls) && Run(q, calls).queue.current == c
    && K.LegalRun(Abs(q), Specs(q, calls)) && K.Away(Abs(q), Specs(q, calls), c)
  }

  /** Somebody creates a coroutine, and after the calls it has the processor for the first time. */
  predicate FirstTurn<C, S, B>(p: Pool<C, S, B>, op: Op<C, S>, b: B, calls: seq<Call<C, S, B>>) {
    && Good(p) && (op.Create? || op.CreateShared?) && Legal(p, op, b)
    && Reaches(Step(p, op, b), calls, op.c)
  }

  /** The processor is about to run coroutine c for the first time, on stack s of the given size: co_launch with
      clean registers and the default control words, and nothing but co_exit at the top of the stack. */
  predicate Launched<C, S, B>(r: Pool<C, S, B>, c: C, s: S, size: nat) {
    && r.queue.current == c && r.cpu.rip == CO_LAUNCH && r.cpu.mxcsr == 0x1f80 && r.cpu.x87 == 0x37f
    && 0 == r.cpu.rbx == r.cpu.rbp == r.cpu.r12 == r.cpu.r13 == r.cpu.r14 == r.cpu.r15
    && c in r.cos && r.cos[c].stack == s && s in r.stacks && |r.stacks[s].bytes| == size
    && r.cpu.rsp + 8 == size && ReturnSlot(r) == EXIT_GUARD && r.stacks[s].bytes[r.cpu.rsp..] == EXIT_GUARD
  }

  lemma FreshIsLaunched<C, S, B>(r: Pool<C, S, B>, c: C, s: S, size: nat)
    requires Wired(r) && r.awake && c in r.cos && CoroutineOk(r, c) && r.queue.current == c && r.cos[c].stack == s
    requires size >= 8 && ThreadOf(r, c) == K.Thread(FreshContext(size), EXIT_GUARD, size)
    ensures Launched(r, c, s, size)
  {
    assert r.stacks[s].bytes[r.cpu.rsp..] == ReturnSlot(r);
  }

  /** Whatever happened to its stack between its creation and its first turn. */
  lemma FirstRun<C, S, B>(p: Pool<C, S, B>, op: Op<C, S>, b: B, calls: seq<Call<C, S, B>>)
    requires FirstTurn(p, op, b, calls)
    ensures Launched(Run(Step(p, op, b), calls), op.c, Birthplace(p, op), Birthsize(p, op))
  {
    var q := Step(p, op, b);
    Born(p, op, b);
    AwayKeepsThread(q, calls, op.c);
    AwayKeepsStack(q, calls, op.c);
    FreshIsLaunched(Run(q, calls), op.c, Birthplace(p, op), Birthsize(p, op));
  }

  lemma SpecsCons<C, S, B>(p: Pool<C, S, B>, call: Call<C, S, B>, q: Pool<C, S, B>, calls: seq<Call<C, S, B>>)
    requires Good(p) && Legal(p, call.op, call.block) && q == Step(p, call.op, call.block)
    requires Good(q) && LegalRun(q, calls) && LegalRun(p, [call] + calls)
    ensures Specs(p, [call] + calls) == [Spec(p, call.op)] + Specs(q, calls)
  {
    assert ([call] + calls)[1..] == calls;
  }

  /** One more call before a coroutine's turn. */
  lemma ReachesCons<C, S, B>(p: Pool<C, S, B>, call: Call<C, S, B>, q: Pool<C, S, B>, calls: seq<Call<C, S, B>>, c: C)
    requires Good(p) && Legal(p, call.op, call.block) && q == Step(p, call.op, call.block) && Reaches(q, calls, c)
    requires p.queue.current != c && call.op != Destroy(c)
    ensures Reaches(p, [call] + calls, c)
  {
    RunCons(p, call, q, calls);
    SpecsCons(p, call, q, calls);
    StepSimulates(p, call.op, call.block);
    RunSimulates(p, [call] + calls);
    AwayConsSpec(Abs(p), Spec(p, call.op), Specs(q, calls), c);
  }

  lemma AwayConsSpec<C>(k: K.Kernel<C>, op: K.Op<C>, ops: seq<K.Op<C>>, c: C)
    requires K.WellFormed(k) && K.Legal(k, op) && K.LegalRun(k, [op] + ops)
    requires K.LegalRun(K.Step(k, op), ops) && K.Away(K.Step(k, op), ops, c)
    requires k.queue.current != c && op != K.Destroy(c)
    ensures K.Away(k, [op] + ops, c)
  {
    assert ([op] + ops)[1..] == ops;
  }

  lemma BornParked<C, S, B>(p: Pool<C, S, B>, op: Op<C, S>, b: B)
    requires Good(p) && (op.Create? || op.CreateShared?) && Legal(p, op, b)
    ensures var q := Step(p, op, b);
      Good(q) && q.queue == p.queue.(live := p.queue.live + {op.c}) && RQ.Parked(q.queue, op.c)
  {
    StepSimulates(p, op, b);
  }

  lemma PostTaken<C, S, B>(q: Pool<C, S, B>, c: C, b: B)
    requires Good(q) && RQ.Parked(q.queue, c) && b !in q.blocks
    ensures Legal(q, Post(c), b)
    ensures var t := Step(q, Post(c), b);
      Good(t) && t.queue == q.queue.(ready := q.queue.ready + [c]) && b !in t.blocks
  {
    StepSimulates(q, Post(c), b);
  }

  lemma ReschedTaken<C, S, B>(q: Pool<C, S, B>, b: B)
    requires Good(q) && b !in q.blocks
    ensures Legal(q, Resched, b)
    ensures var t := Step(q, Resched, b); Good(t) && t.queue == RQ.Step(q.queue, RQ.Resched)
  {
    GoodIsClosed(q);
    ReschedLegal(q, b);
    ReschedStep(q, b);
    ReschedThreads(q, b);
    ReschedSimulates(q, b);
  }

  lemma NoCalls<C, S, B>(q: Pool<C, S, B>) returns (calls: seq<Call<C, S, B>>)
    requires Good(q)
    ensures calls == [] && Reaches(q, calls, q.queue.current)
  {
    calls := [];
  }

  lemma PassReaches<C, S, B>(q: Pool<C, S, B>, c: C, b: B) returns (calls: seq<Call<C, S, B>>)
    requires Good(q) && b !in q.blocks && q.queue.current != c && q.queue.ready == [c]
    ensures Reaches(q, calls, c)
    ensures |calls| == 1 && calls[0] == Call(Resched, b)
  {
    var pass := Call(Resched, b);
    ReschedTaken(q, b);
    var none := NoCalls(Step(q, Resched, b));
    ReachesCons(q, pass, Step(q, Resched, b), none, c);
    calls := [pass] + none;
  }

  lemma PostReaches<C, S, B>(q: Pool<C, S, B>, c: C, b: B) returns (calls: seq<Call<C, S, B>>)
    requires Good(q) && RQ.Parked(q.queue, c) && b !in q.blocks && q.queue.ready == []
    ensures Reaches(q, calls, c)
    ensures |calls| == 2 && calls[0] == Call(Post(c), b) && calls[1] == Call(Resched, b)
  {
    var post := Call(Post(c), b);
    PostTaken(q, c, b);
    var rest := PassReaches(Step(q, Post(c), b), c, b);
    ReachesCons(q, post, Step(q, Post(c), b), rest, c);
    calls := [post] + rest;
  }

  /** Somebody creates a coroutine while nobody is ready; it is posted and the processor passed on: its first turn. */
  lemma FirstRunReached<C, S, B>(p: Pool<C, S, B>, op: Op<C, S>, b: B, next: B) returns (calls: seq<Call<C, S, B>>)
    requires Good(p) && (op.Create? || op.CreateShared?) && Legal(p, op, b)
    requires p.queue.ready == [] && next !in Step(p, op, b).blocks
    ensures FirstTurn(p, op, b, calls) 
    ensures |calls| == 2 && calls[0] == Call(Post(op.c), next) && calls[1] == Call(Resched, next)
  {
    BornParked(p, op, b);
    calls := PostReaches(Step(p, op, b), op.c, next);
  }

  lemma RunningGuard<C, S, B>(p: Pool<C, S, B>)
    requires Good(p) && p.queue.current != p.queue.root
    requires CoroutineOk(p, p.queue.current)
    ensures var mem := p.stacks[p.cos[p.queue.current].stack].bytes; mem[|mem| - 8..] == EXIT_GUARD
  {
    RunningIsGuarded(p);
    GuardAt(p.stacks[p.cos[p.queue.current].stack].bytes, p.cpu.rsp);
  }

  /** In every reachable state every coroutine but the root, running, ready or parked, in its stack or in its copy,
      has co_exit as the outermost word of what it keeps. */
  lemma GuardEverywhere<C, S, B>(p: Pool<C, S, B>, calls: seq<Call<C, S, B>>, c: C)
    requires Good(p) && LegalRun(p, calls)
    requires c in Run(p, calls).cos && c != Run(p, calls).queue.root
    ensures var r := Run(p, calls);
            && CoroutineOk(r, c) && |VirtualStack(r, c)| >= 8
            && VirtualStack(r, c)[|VirtualStack(r, c)| - 8..] == EXIT_GUARD
  {
    var r := Run(p, calls);
    assert CoroutineOk(r, c);
    assert Abs(r).threads[c] == ThreadOf(r, c) && K.ThreadOk(Abs(r).threads[c], false);
    K.GuardedTop(VirtualStack(r, c));
  }

  lemma TopNamesExit(mem: seq<byte>)
    requires |mem| >= 8 && mem[|mem| - 8..] == EXIT_GUARD
    ensures FromLittleEndian(mem[|mem| - 8..]) == CO_EXIT
  {
    GuardNamesExit(EXIT_GUARD);
  }

  /** In every reachable state the word at the top of the running coroutine's own stack memory is co_exit,
      shared stack or not, however often it has been moved. */
  lemma GuardInPlace<C, S, B>(p: Pool<C, S, B>, calls: seq<Call<C, S, B>>)
    requires Good(p) && LegalRun(p, calls)
    requires Run(p, calls).queue.current != Run(p, calls).queue.root
    ensures var r := Run(p, calls);
            var me := r.queue.current;
            && me in r.cos && CoroutineOk(r, me)
            && (var mem := r.stacks[r.cos[me].stack].bytes;
                FromLittleEndian(mem[|mem| - 8..]) == CO_EXIT)
  {
    var r := Run(p, calls);
    assert CoroutineOk(r, r.queue.current);
    RunningGuard(r);
    TopNamesExit(r.stacks[r.cos[r.queue.current].stack].bytes);
  }

  // ---------- which stacks there are ----------

  /** Every stack is a slot of the pool or the private stack of a live coroutine. */
  predicate Placed<C, S, B>(p: Pool<C, S, B>, s: S)
    requires s in p.stacks
  {
    match p.stacks[s].madeFor
    case None => s in p.slots
    case Some(c) => c in p.cos && p.cos[c].stack == s
  }

  predicate Tidy<C, S, B>(p: Pool<C, S, B>) {
    forall s {:trigger Placed(p, s)} :: s in p.stacks ==> Placed(p, s)
  }

  lemma SamePlacesTidy<C, S, B>(p: Pool<C, S, B>, q: Pool<C, S, B>)
    requires Tidy(p) && SamePlaces(p, q)
    ensures Tidy(q)
  {
    forall s | s in q.stacks
      ensures Placed(q, s)
    {
      assert Placed(p, s);
    }
  }

  lemma ReschedPlaces<C, S, B>(p: Pool<C, S, B>, b: B)
    requires Closed(p) && b !in p.blocks
    ensures SamePlaces(p, CoResched(p, b))
  {
    RequeueDispatchable(p);
    SchedPlaces(Requeue(p), b);
  }

  lemma YieldPlaces<C, S, B>(p: Pool<C, S, B>, b: B)
    requires Closed(p) && b !in p.blocks && p.queue.current != p.queue.root
    ensures SamePlaces(p, CoYield(p, b))
  {
    FrontIsThere(p);
    SaveRecords(p);
    SchedPlaces(SaveContext(p), b);
  }

  lemma ExitPlaces<C, S, B>(p: Pool<C, S, B>, b: B)
    requires Closed(p) && b !in p.blocks && p.queue.current != p.queue.root
    ensures CoroutineOk(p, p.queue.current)
    ensures SamePlaces(Delete(p, p.queue.current), CoExit(p, b))
  {
    FrontIsThere(p);
    DeleteLeavesOthers(p, p.queue.current);
    SchedPlaces(Delete(p, p.queue.current), b);
  }

  lemma DeleteTidy<C, S, B>(p: Pool<C, S, B>, c: C)
    requires Wired(p) && Tidy(p) && c in p.cos && CoroutineOk(p, c)
    ensures Tidy(Delete(p, c))
  {
    var q := Delete(p, c);
    forall s | s in q.stacks
      ensures Placed(q, s)
    {
      assert Placed(p, s);
    }
  }

  lemma CreateTidy<C, S, B>(p: Pool<C, S, B>, c: C, s: S, mem: seq<byte>)
    requires Tidy(p) && c !in p.cos && s !in p.stacks && 8 <= |mem|
    ensures Tidy(CoCreate(p, c, s, mem))
  {
    var q := CoCreate(p, c, s, mem);
    forall t | t in q.stacks
      ensures Placed(q, t)
    {
      assert t != s ==> Placed(p, t);
    }
  }

  lemma CreateSharedTidy<C, S, B>(p: Pool<C, S, B>, c: C, b: B)
    requires Wired(p) && Tidy(p) && c !in p.cos
    ensures Tidy(CoCreateShared(p, c, b))
  {
    var q := CoCreateShared(p, c, b);
    forall t | t in q.stacks
      ensures Placed(q, t)
    {
      assert Placed(p, t);
    }
  }

  lemma OwnTidy<C, S, B>(p: Pool<C, S, B>, ctx: Context, mem: seq<byte>)
    requires Wired(p) && Tidy(p) && p.queue.current in p.cos && CoroutineOk(p, p.queue.current)
    ensures Tidy(OwnStep(p, ctx, mem))
  {
    SamePlacesTidy(p, OwnStep(p, ctx, mem));
  }

  lemma PassPlaces<C, S, B>(p: Pool<C, S, B>, op: Op<C, S>, b: B)
    requires Good(p) && Closed(p) && Legal(p, op, b) && (op.Resched? || op.Yield?)
    ensures SamePlaces(p, Step(p, op, b))
  {
    if op.Resched? {
      ReschedStep(p, b);
      ReschedPlaces(p, b);
    } else {
      YieldSpec(p, b);
      YieldStep(p, b);
      YieldPlaces(p, b);
    }
  }

  lemma LeavePlaces<C, S, B>(p: Pool<C, S, B>, op: Op<C, S>, b: B)
    requires Good(p) && Closed(p) && Legal(p, op, b) && (op.Exit? || op.Return?)
    ensures CoroutineOk(p, p.queue.current)
    ensures SamePlaces(Delete(p, p.queue.current), Step(p, op, b))
  {
    if op.Exit? {
      ExitSpec(p, b);
      ExitStep(p, b);
      ExitPlaces(p, b);
    } else {
      ReturnTakes(p, b);
      ExitPlaces(p, b);
    }
  }

  lemma PassTidy<C, S, B>(p: Pool<C, S, B>, op: Op<C, S>, b: B)
    requires Good(p) && Closed(p) && Tidy(p) && Legal(p, op, b) && (op.Resched? || op.Yield?)
    ensures Tidy(Step(p, op, b))
  {
    PassPlaces(p, op, b);
    SamePlacesTidy(p, Step(p, op, b));
  }

  lemma LeaveTidy<C, S, B>(p: Pool<C, S, B>, op: Op<C, S>, b: B)
    requires Good(p) && Closed(p) && Tidy(p) && Legal(p, op, b) && (op.Exit? || op.Return?)
    ensures Tidy(Step(p, op, b))
  {
    LeavePlaces(p, op, b);
    DeleteTidy(p, p.queue.current);
    SamePlacesTidy(Delete(p, p.queue.current), Step(p, op, b));
  }

  lemma StepTidy<C, S, B>(p: Pool<C, S, B>, op: Op<C, S>, b: B)
    requires Good(p) && Closed(p) && Tidy(p) && Legal(p, op, b)
    ensures Tidy(Step(p, op, b))
  {
    match op
    case Own(ctx, mem) =>
      assert CoroutineOk(p, p.queue.current);
      OwnTidy(p, ctx, mem);
    case Create(c, s, mem) => CreateTidy(p, c, s, mem);
    case CreateShared(c) => CreateSharedTidy(p, c, b);
    case Destroy(c) =>
      assert CoroutineOk(p, c);
      DeleteTidy(p, c);
    case Post(c) => SamePlacesTidy(p, CoPost(p, c));
    case Resched => PassTidy(p, op, b);
    case Yield => PassTidy(p, op, b);
    case Exit => LeaveTidy(p, op, b);
    case Return => LeaveTidy(p, op, b);
  }

  lemma {:induction false} RunTidy<C, S, B>(p: Pool<C, S, B>, calls: seq<Call<C, S, B>>)
    requires Good(p) && Tidy(p) && LegalRun(p, calls)
    ensures Tidy(Run(p, calls))
    decreases calls
  {
    if calls != [] {
      GoodIsClosed(p);
      StepSimulates(p, calls[0].op, calls[0].block);
      StepTidy(p, calls[0].op, calls[0].block);
      RunTidy(Step(p, calls[0].op, calls[0].block), calls[1..]);
    }
  }

  lemma InitialTidy<C, S, B>(p: Pool<C, S, B>)
    requires Initial(p)
    ensures Tidy(p)
  {}

  function PrivateStacks<C, S, B>(p: Pool<C, S, B>): set<S> {
    set s | s in p.stacks && !p.stacks[s].Shared()
  }

  lemma TidyPrivate<C, S, B>(r: Pool<C, S, B>)
    requires Wired(r) && Tidy(r)
    ensures PrivateStacks(r) == set c | c in r.cos && !r.cos[c].shared :: r.cos[c].stack
  {
    forall s | s in PrivateStacks(r)
      ensures exists c :: c in r.cos && !r.cos[c].shared && r.cos[c].stack == s
    {
      assert Placed(r, s) && CoroutineOk(r, r.stacks[s].madeFor.value);
    }
    forall c | c in r.cos && !r.cos[c].shared
      ensures r.cos[c].stack in PrivateStacks(r)
    {
      assert CoroutineOk(r, c);
    }
  }

  lemma TidySlots<C, S, B>(r: Pool<C, S, B>)
    requires Wired(r) && Tidy(r)
    ensures r.stacks.Keys - PrivateStacks(r) == set s | s in r.slots
  {
    forall s | s in r.stacks.Keys - PrivateStacks(r)
      ensures s in r.slots
    {
      assert Placed(r, s);
    }
  }

  lemma PrivateAlone<C, S, B>(r: Pool<C, S, B>, c: C, d: C)
    requires Wired(r) && c in r.cos && d in r.cos && !r.cos[c].shared && r.cos[c].stack == r.cos[d].stack
    ensures c == d
  {
    assert CoroutineOk(r, c) && CoroutineOk(r, d);
  }

  /** No stack is leaked or shared by mistake: in every reachable state the private stacks are those of the live
      private coroutines, no two of which have the same, and all other stacks are the slots of the pool. */
  lemma StacksInUse<C, S, B>(p: Pool<C, S, B>, calls: seq<Call<C, S, B>>)
    requires Initial(p) && Good(p) && LegalRun(p, calls)
    ensures var r := Run(p, calls);
      && PrivateStacks(r) == (set c | c in r.cos && !r.cos[c].shared :: r.cos[c].stack)
      && (forall c, d :: c in r.cos && d in r.cos && !r.cos[c].shared && r.cos[c].stack == r.cos[d].stack ==> c == d)
      && r.stacks.Keys - PrivateStacks(r) == set s | s in r.slots
  {
    var r := Run(p, calls);
    InitialTidy(p);
    RunTidy(p, calls);
    TidyPrivate(r);
    TidySlots(r);
    forall c, d | c in r.cos && d in r.cos && !r.cos[c].shared && r.cos[c].stack == r.cos[d].stack
      ensures c == d
    {
      PrivateAlone(r, c, d);
    }
  }

  // ---------- the slots go round ----------

  /** How many of the calls create a coroutine on a shared stack. */
  function SharedIn<C, S, B>(calls: seq<Call<C, S, B>>): nat {
    if calls == [] then 0 else (if calls[0].op.CreateShared? then 1 else 0) + SharedIn(calls[1..])
  }

  lemma StepSlots<C, S, B>(p: Pool<C, S, B>, op: Op<C, S>, b: B)
    requires Good(p) && Closed(p) && Legal(p, op, b)
    ensures var q := Step(p, op, b);
      q.slots == p.slots && q.allocCount == p.allocCount + if op.CreateShared? then 1 else 0
  {
    if op.Resched? || op.Yield? {
      PassPlaces(p, op, b);
    } else if op.Exit? || op.Return? {
      LeavePlaces(p, op, b);
    }
  }

  lemma {:induction false} RunSlots<C, S, B>(p: Pool<C, S, B>, calls: seq<Call<C, S, B>>)
    requires Good(p) && LegalRun(p, calls)
    ensures var q := Run(p, calls);
      q.slots == p.slots && q.allocCount == p.allocCount + SharedIn(calls)
    decreases calls
  {
    if calls != [] {
      GoodIsClosed(p);
      StepSimulates(p, calls[0].op, calls[0].block);
      StepSlots(p, calls[0].op, calls[0].block);
      RunSlots(Step(p, calls[0].op, calls[0].block), calls[1..]);
    }
  }

  lemma NextInTurn<C, S, B>(p: Pool<C, S, B>, r: Pool<C, S, B>, c: C, n: nat)
    requires p.slots != [] && r.slots == p.slots && r.allocCount == n
    ensures Birthplace(r, CreateShared(c)) == p.slots[n % |p.slots|]
  {}

  lemma SharedBirthplace<C, S, B>(r: Pool<C, S, B>, c: C, b: B, s: S)
    requires Good(r) && Legal(r, CreateShared(c), b) && Birthplace(r, CreateShared(c)) == s
    ensures c in Step(r, CreateShared(c), b).cos && Step(r, CreateShared(c), b).cos[c].stack == s
  {
    BornShared(r, c, b);
  }

  /** Over whole runs the slots are handed out in turn, whatever else happens: the n-th coroutine on a shared stack,
      counted from 0 at co_init, is on slot n modulo their number. */
  lemma SlotsInTurn<C, S, B>(p: Pool<C, S, B>, calls: seq<Call<C, S, B>>, c: C, b: B)
    requires Good(p) && p.allocCount == 0 && LegalRun(p, calls) && Legal(Run(p, calls), CreateShared(c), b)
    ensures c in Step(Run(p, calls), CreateShared(c), b).cos
    ensures Step(Run(p, calls), CreateShared(c), b).cos[c].stack == p.slots[SharedIn(calls) % |p.slots|]
  {
    RunSlots(p, calls);
    NextInTurn(p, Run(p, calls), c, SharedIn(calls));
    SharedBirthplace(Run(p, calls), c, b, p.slots[SharedIn(calls) % |p.slots|]);
  }

  // ---------- conservation of the copies ----------

  function SharedCoroutines<C, S, B>(p: Pool<C, S, B>): set<C> {
    set c | c in p.cos && p.cos[c].shared
  }

  function OccupiedStacks<C, S, B>(p: Pool<C, S, B>): set<S> {
    set s | s in p.stacks && p.stacks[s].Shared() && p.stacks[s].usedBy.Some?
  }

  function Holders<C, S, B>(p: Pool<C, S, B>): set<C> {
    set c | c in p.cos && p.cos[c].copy.Some?
  }

  lemma OwnersOccupy<C, S, B>(p: Pool<C, S, B>)
    requires Wired(p)
    ensures |SharedCoroutines(p) - Holders(p)| == |OccupiedStacks(p)|
  {
    var owners := map s | s in OccupiedStacks(p) :: p.stacks[s].usedBy.value;
    forall c | c in SharedCoroutines(p) - Holders(p)
      ensures c in owners.Values
    {
      assert CoroutineOk(p, c) && p.cos[c].stack in owners && owners[p.cos[c].stack] == c;
    }
    forall s | s in owners
      ensures owners[s] in SharedCoroutines(p) - Holders(p) && p.cos[owners[s]].stack == s
    {
      assert StackOk(p, s) && CoroutineOk(p, owners[s]);
    }
    InjectiveSize(owners, SharedCoroutines(p) - Holders(p));
    assert owners.Keys == OccupiedStacks(p);
  }

  lemma HoldersHoldBlocks<C, S, B>(p: Pool<C, S, B>)
    requires Wired(p)
    ensures |p.blocks| == |Holders(p)| && Holders(p) <= SharedCoroutines(p)
  {
    forall c | c in Holders(p)
      ensures c in p.blocks.Values && c in SharedCoroutines(p)
    {
      assert CoroutineOk(p, c) && p.blocks[p.cos[c].copy.value.id] == c;
    }
    forall b | b in p.blocks
      ensures p.blocks[b] in Holders(p) && p.cos[p.blocks[b]].copy.value.id == b
    {
      assert BlockOk(p, b);
    }
    InjectiveSize(p.blocks, Holders(p));
  }

  /** Nothing is leaked: in every reachable state the copies allocated and not freed are as many as the live
      shared coroutines that do not occupy a stack. */
  lemma Conservation<C, S, B>(p: Pool<C, S, B>, calls: seq<Call<C, S, B>>)
    requires Good(p) && LegalRun(p, calls)
    ensures var r := Run(p, calls);
            |r.blocks| == |SharedCoroutines(r)| - |OccupiedStacks(r)|
  {
    var r := Run(p, calls);
    OwnersOccupy(r);
    HoldersHoldBlocks(r);
    Less(SharedCoroutines(r), Holders(r));
  }

  lemma Less<C>(all: set<C>, some: set<C>)
    requires some <= all
    ensures |all - some| == |all| - |some|
  {
    assert (all - some) + some == all;
  }

  lemma {:induction false} InjectiveSize<A, V>(m: map<A, V>, values: set<V>)
    requires m.Values == values
    requires forall a, b :: a in m && b in m && m[a] == m[b] ==> a == b
    ensures |m| == |values|
    decreases |m|
  {
    if m != map[] {
      var a :| a in m;
      var rest := m - {a};
      assert m == rest[a := m[a]];
      assert rest.Values == values - {m[a]} by {
        forall v | v in values - {m[a]} ensures v in rest.Values {
          var k :| k in m && m[k] == v;
          assert k in rest && rest[k] == v;
        }
      }
      InjectiveSize(rest, values - {m[a]});
    }
  }
}
