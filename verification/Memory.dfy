/** The pooled machine in the memory of the processor: every context_t and every stack has its address. The
    instructions of swapper.s then do to memory and registers what saving and loading do in the pooled machine, and
    suspension is transparent from the caller's registers down to the bytes at its addresses. */
module Memory {
  import opened Common
  import opened Context
  import opened Swapper
  import P = Pool

  /** Where the saved contexts and the bottoms of the stacks are. */
  datatype Layout<!C, !S> = Layout(contexts: map<C, nat>, stacks: map<S, nat>)

  /** A context whose RSP is an address instead of a distance from the bottom of the stack. */
  function Placed(c: Context, bottom: nat): Context {
    c.(rsp := bottom + c.rsp)
  }

  predicate Apart(a: nat, n: nat, b: nat, m: nat) {
    a + n <= b || b + m <= a
  }

  predicate HoldsContext<C, S, B>(p: P.Pool<C, S, B>, mem: seq<byte>, l: Layout<C, S>, c: C)
    requires c in p.cos
  {
    && c in l.contexts && p.cos[c].stack in l.stacks
    && l.contexts[c] + IMAGE_SIZE <= |mem|
    && Decode(mem, l.contexts[c]) == Placed(p.cos[c].ctx, l.stacks[p.cos[c].stack])
  }

  predicate HoldsStack<C, S, B>(p: P.Pool<C, S, B>, mem: seq<byte>, l: Layout<C, S>, s: S)
    requires s in p.stacks
  {
    && s in l.stacks && l.stacks[s] + |p.stacks[s].bytes| <= |mem|
    && mem[l.stacks[s]..l.stacks[s] + |p.stacks[s].bytes|] == p.stacks[s].bytes
  }

  function Sizes<C, S, B>(p: P.Pool<C, S, B>): map<S, nat> {
    map s | s in p.stacks :: |p.stacks[s].bytes|
  }

  /** No context overlaps another or a stack. */
  predicate LaidOut<C, S>(cos: set<C>, sizes: map<S, nat>, l: Layout<C, S>) {
    && cos <= l.contexts.Keys && sizes.Keys <= l.stacks.Keys
    && (forall c, d :: c in cos && d in cos && c != d ==>
          Apart(l.contexts[c], IMAGE_SIZE, l.contexts[d], IMAGE_SIZE))
    && (forall c, s :: c in cos && s in sizes ==> Apart(l.contexts[c], IMAGE_SIZE, l.stacks[s], sizes[s]))
  }

  /** The memory holds the contexts and the stacks of the pool. */
  predicate Holds<C, S, B>(p: P.Pool<C, S, B>, mem: seq<byte>, l: Layout<C, S>) {
    && LaidOut(p.cos.Keys, Sizes(p), l)
    && (forall c {:trigger HoldsContext(p, mem, l, c)} :: c in p.cos ==> HoldsContext(p, mem, l, c))
    && (forall s {:trigger HoldsStack(p, mem, l, s)} :: s in p.stacks ==> HoldsStack(p, mem, l, s))
  }

  /** The registers are those of the running coroutine. */
  predicate Runs<C, S, B>(p: P.Pool<C, S, B>, regs: Context, l: Layout<C, S>) {
    && p.awake && p.queue.current in p.cos && p.cos[p.queue.current].stack in l.stacks
    && regs == Placed(p.cpu, l.stacks[p.cos[p.queue.current].stack])
  }

  lemma RetaddrFits(regs: Context)
    requires Fits(regs)
    ensures Fits(regs.(rip := RETADDR))
  {
    assert Power256(8) == 0x1_0000_0000_0000_0000;
  }

  lemma SameBytesSameContext(mem: seq<byte>, after: seq<byte>, at: nat)
    requires at + IMAGE_SIZE <= |mem| && |after| == |mem|
    requires after[at..at + IMAGE_SIZE] == mem[at..at + IMAGE_SIZE]
    ensures Decode(after, at) == Decode(mem, at)
  {
    SameBytesSameWord(mem, after, at, 0, 8);
    SameBytesSameWord(mem, after, at, 8, 8);
    SameBytesSameWord(mem, after, at, 16, 8);
    SameBytesSameWord(mem, after, at, 24, 8);
    SameBytesSameWord(mem, after, at, 32, 8);
    SameBytesSameWord(mem, after, at, 40, 8);
    SameBytesSameWord(mem, after, at, 48, 8);
    SameBytesSameWord(mem, after, at, 56, 8);
    SameBytesSameWord(mem, after, at, 64, 4);
    SameBytesSameWord(mem, after, at, 68, 2);
  }

  lemma SameBytesSameWord(mem: seq<byte>, after: seq<byte>, at: nat, i: nat, n: nat)
    requires at + IMAGE_SIZE <= |mem| && |after| == |mem| && i + n <= IMAGE_SIZE
    requires after[at..at + IMAGE_SIZE] == mem[at..at + IMAGE_SIZE]
    ensures Word(after, at + i, n) == Word(mem, at + i, n)
  {
    SliceOfSlice(mem, at, at + IMAGE_SIZE, i, i + n);
    SliceOfSlice(after, at, at + IMAGE_SIZE, i, i + n);
  }

  /** What save_context stores, at the running coroutine's context. */
  function Stored<C, S, B>(p: P.Pool<C, S, B>, mem: seq<byte>, regs: Context, l: Layout<C, S>): (r: seq<byte>)
    requires p.queue.current in l.contexts && l.contexts[p.queue.current] + IMAGE_SIZE <= |mem|
    ensures |r| == |mem|
  {
    Splice(mem, l.contexts[p.queue.current], Image(regs.(rip := RETADDR)))
  }

  lemma SavedOwn<C, S, B>(p: P.Pool<C, S, B>, mem: seq<byte>, regs: Context, l: Layout<C, S>)
    requires Runs(p, regs, l) && Fits(regs) && HoldsContext(p, mem, l, p.queue.current)
    ensures HoldsContext(P.SaveContext(p), Stored(p, mem, regs, l), l, p.queue.current)
  {
    var at := l.contexts[p.queue.current];
    var image := Image(regs.(rip := RETADDR));
    RetaddrFits(regs);
    SpliceInside(mem, at, image);
    ImageDecodes(regs.(rip := RETADDR), Stored(p, mem, regs, l), at);
  }

  lemma SavedOther<C, S, B>(p: P.Pool<C, S, B>, mem: seq<byte>, regs: Context, l: Layout<C, S>, c: C)
    requires c in p.cos && HoldsContext(p, mem, l, c) && c != p.queue.current
    requires p.queue.current in p.cos && HoldsContext(p, mem, l, p.queue.current)
    requires Apart(l.contexts[c], IMAGE_SIZE, l.contexts[p.queue.current], IMAGE_SIZE)
    ensures HoldsContext(P.SaveContext(p), Stored(p, mem, regs, l), l, c)
  {
    var at := l.contexts[p.queue.current];
    SpliceOutside(mem, at, Image(regs.(rip := RETADDR)), l.contexts[c], l.contexts[c] + IMAGE_SIZE);
    SameBytesSameContext(mem, Stored(p, mem, regs, l), l.contexts[c]);
  }

  lemma SavedStack<C, S, B>(p: P.Pool<C, S, B>, mem: seq<byte>, regs: Context, l: Layout<C, S>, s: S)
    requires s in p.stacks && HoldsStack(p, mem, l, s)
    requires p.queue.current in p.cos && HoldsContext(p, mem, l, p.queue.current)
    requires Apart(l.contexts[p.queue.current], IMAGE_SIZE, l.stacks[s], |p.stacks[s].bytes|)
    ensures HoldsStack(P.SaveContext(p), Stored(p, mem, regs, l), l, s)
  {
    var at := l.contexts[p.queue.current];
    SpliceOutside(mem, at, Image(regs.(rip := RETADDR)), l.stacks[s], l.stacks[s] + |p.stacks[s].bytes|);
  }

  /** save_context in memory is save_context in the pool. */
  lemma SaveInMemory<C, S, B>(p: P.Pool<C, S, B>, mem: seq<byte>, regs: Context, l: Layout<C, S>)
    requires Holds(p, mem, l) && Runs(p, regs, l) && Fits(regs)
    ensures HoldsContext(p, mem, l, p.queue.current)
    ensures Holds(P.SaveContext(p), Stored(p, mem, regs, l), l)
  {
    var me := p.queue.current;
    assert HoldsContext(p, mem, l, me);
    var q, after := P.SaveContext(p), Stored(p, mem, regs, l);
    forall c | c in q.cos
      ensures HoldsContext(q, after, l, c)
    {
      assert HoldsContext(p, mem, l, c);
      if c == me {
        SavedOwn(p, mem, regs, l);
      } else {
        SavedOther(p, mem, regs, l, c);
      }
    }
    forall s | s in q.stacks
      ensures HoldsStack(q, after, l, s)
    {
      assert HoldsStack(p, mem, l, s) && s in Sizes(p);
      SavedStack(p, mem, regs, l, s);
    }
    assert q.cos.Keys == p.cos.Keys && Sizes(q) == Sizes(p);
  }

  /** The running coroutine calls save_context with its own context. */
  method Suspend<C, S, B>(cpu: Cpu, ghost p: P.Pool<C, S, B>, ghost l: Layout<C, S>)
    requires Holds(p, cpu.mem[..], l) && Runs(p, cpu.regs, l) && Fits(cpu.regs)
    requires p.queue.current in l.contexts && cpu.rdi == l.contexts[p.queue.current]
    modifies cpu, cpu.mem
    ensures Holds(P.SaveContext(p), cpu.mem[..], l)
    ensures cpu.regs == old(cpu.regs).(rsp := old(cpu.rsi), rip := old(cpu.rdx))
  {
    SaveInMemory(p, cpu.mem[..], cpu.regs, l);
    cpu.SaveContext();
  }

  /** The scheduler calls load_context with the context of the coroutine it has made current. */
  method Resume<C, S, B>(cpu: Cpu, ghost p: P.Pool<C, S, B>, ghost l: Layout<C, S>)
    requires Holds(p, cpu.mem[..], l) && p.queue.current in p.cos
    requires p.queue.current in l.contexts && cpu.rdi == l.contexts[p.queue.current]
    modifies cpu
    ensures Holds(P.LoadContext(p), cpu.mem[..], l) && Runs(P.LoadContext(p), cpu.regs, l)
  {
    assert HoldsContext(p, cpu.mem[..], l, p.queue.current);
    cpu.LoadContext();
    LoadKeeps(p, cpu.mem[..], l);
  }

  lemma LoadKeeps<C, S, B>(p: P.Pool<C, S, B>, mem: seq<byte>, l: Layout<C, S>)
    requires Holds(p, mem, l) && p.queue.current in p.cos
    ensures Holds(P.LoadContext(p), mem, l)
  {
    var q := P.LoadContext(p);
    forall c | c in q.cos
      ensures HoldsContext(q, mem, l, c)
    {
      assert HoldsContext(p, mem, l, c);
    }
    forall s | s in q.stacks
      ensures HoldsStack(q, mem, l, s)
    {
      assert HoldsStack(p, mem, l, s);
    }
    assert Sizes(q) == Sizes(p);
  }

  lemma SameLive(mem: seq<byte>, later: seq<byte>, at: nat, was: seq<byte>, now: seq<byte>, rsp: nat)
    requires |was| == |now| && rsp + 8 <= |was| && at + |was| <= |mem| && at + |was| <= |later|
    requires mem[at..at + |was|] == was && later[at..at + |was|] == now && now[rsp..] == was[rsp..]
    ensures later[at + rsp..at + |was|] == mem[at + rsp..at + |was|]
    ensures Word(later, at + rsp, 8) == Word(mem, at + rsp, 8)
  {
    SliceOfSlice(mem, at, at + |was|, rsp, |was|);
    SliceOfSlice(later, at, at + |was|, rsp, |was|);
    SliceOfSlice(mem, at + rsp, at + |was|, 0, 8);
    SliceOfSlice(later, at + rsp, at + |was|, 0, 8);
  }

  lemma HeldStack<C, S, B>(p: P.Pool<C, S, B>, mem: seq<byte>, l: Layout<C, S>, s: S)
    requires Holds(p, mem, l) && s in p.stacks
    ensures s in l.stacks && l.stacks[s] + |p.stacks[s].bytes| <= |mem|
    ensures mem[l.stacks[s]..l.stacks[s] + |p.stacks[s].bytes|] == p.stacks[s].bytes
  {
    assert HoldsStack(p, mem, l, s);
  }

  lemma ReturnsBehind(mem: seq<byte>, later: seq<byte>, cpu: Context, at: nat, size: nat)
    requires cpu.rsp + 8 <= size && at + size <= |mem| && at + size <= |later|
    requires Word(later, at + cpu.rsp, 8) == Word(mem, at + cpu.rsp, 8)
    ensures var regs, regs' := Placed(cpu, at), Placed(cpu.(rip := RETADDR), at);
            Returned(later, regs') == regs.(rip := Word(mem, regs.rsp, 8), rsp := regs.rsp + 8)
  {}

  lemma BehindCallAt(mem: seq<byte>, later: seq<byte>, cpu: Context, at: nat, was: seq<byte>, now: seq<byte>)
    requires |was| == |now| && cpu.rsp + 8 <= |was| && at + |was| <= |mem| && at + |was| <= |later|
    requires mem[at..at + |was|] == was && later[at..at + |was|] == now && now[cpu.rsp..] == was[cpu.rsp..]
    ensures var regs, regs' := Placed(cpu, at), Placed(cpu.(rip := RETADDR), at);
            && Returned(later, regs') == regs.(rip := Word(mem, regs.rsp, 8), rsp := regs.rsp + 8)
            && later[regs.rsp..at + |was|] == mem[regs.rsp..at + |was|]
  {
    SameLive(mem, later, at, was, now, cpu.rsp);
    ReturnsBehind(mem, later, cpu, at, |was|);
  }

  /** Suspension, end to end. A coroutine that reschedules or yields has called save_context, so its return address
      is at RSP. When it runs again after any legal run of all coroutines, in whatever memory then holds the pool
      with its stack at the same place, the ret at retaddr takes it behind its call: every register is as it was,
      and so is every byte of its live stack, at the same addresses. */
  lemma ResumesCaller<C, S, B>(p: P.Pool<C, S, B>, op: P.Op<C, S>, b: B, calls: seq<P.Call<C, S, B>>,
                               mem: seq<byte>, regs: Context, l: Layout<C, S>,
                               later: seq<byte>, regs': Context, l': Layout<C, S>)
    requires P.RunsAgain(p, op, b, calls)
    requires Holds(p, mem, l) && Runs(p, regs, l)
    requires Holds(P.Run(P.Step(p, op, b), calls), later, l') && Runs(P.Run(P.Step(p, op, b), calls), regs', l')
    requires P.CoroutineOk(p, p.queue.current)
    requires p.cpu.rsp + 8 <= |p.stacks[p.cos[p.queue.current].stack].bytes|
    requires p.cos[p.queue.current].stack in l'.stacks
    requires l'.stacks[p.cos[p.queue.current].stack] == l.stacks[p.cos[p.queue.current].stack]
    ensures var stack := p.cos[p.queue.current].stack;
            var top := l.stacks[stack] + |p.stacks[stack].bytes|;
            && regs.rsp + 8 <= top <= |mem| && top <= |later| && regs'.rsp == regs.rsp
            && Returned(later, regs') == regs.(rip := Word(mem, regs.rsp, 8), rsp := regs.rsp + 8)
            && later[regs.rsp..top] == mem[regs.rsp..top]
  {
    P.SuspensionRestores(p, op, b, calls);
    RunsBehind(p, mem, regs, l, P.Run(P.Step(p, op, b), calls), later, regs', l');
  }

  lemma RunsBehind<C, S, B>(p: P.Pool<C, S, B>, mem: seq<byte>, regs: Context, l: Layout<C, S>,
                            r: P.Pool<C, S, B>, later: seq<byte>, regs': Context, l': Layout<C, S>)
    requires Holds(p, mem, l) && Runs(p, regs, l) && Holds(r, later, l') && Runs(r, regs', l')
    requires p.queue.current == r.queue.current && r.cpu == p.cpu.(rip := RETADDR)
    requires var stack := p.cos[p.queue.current].stack;
             && stack == r.cos[p.queue.current].stack && stack in p.stacks && stack in r.stacks
             && l'.stacks[stack] == l.stacks[stack]
             && p.cpu.rsp + 8 <= |p.stacks[stack].bytes| == |r.stacks[stack].bytes|
             && r.stacks[stack].bytes[p.cpu.rsp..] == p.stacks[stack].bytes[p.cpu.rsp..]
    ensures var stack := p.cos[p.queue.current].stack;
            var top := l.stacks[stack] + |p.stacks[stack].bytes|;
            && regs.rsp + 8 <= top <= |mem| && top <= |later| && regs'.rsp == regs.rsp
            && Returned(later, regs') == regs.(rip := Word(mem, regs.rsp, 8), rsp := regs.rsp + 8)
            && later[regs.rsp..top] == mem[regs.rsp..top]
  {
    var stack := p.cos[p.queue.current].stack;
    HeldStack(p, mem, l, stack);
    HeldStack(r, later, l', stack);
    BehindCallAt(mem, later, p.cpu, l.stacks[stack], p.stacks[stack].bytes, r.stacks[stack].bytes);
  }
}
