/** The specification machine: every coroutine has a stack of its own that nobody else can touch. */
module Kernel {
  import opened Common
  import opened Context
  import RQ = RunQueue

  /** live: the bytes from RSP up to the top of a stack of the given size. */
  datatype Thread = Thread(ctx: Context, live: seq<byte>, size: nat)

  datatype Kernel<C(==)> = Kernel(queue: RQ.Queue<C>, threads: map<C, Thread>)

  /** Own is any computation of the running coroutine on its registers and its own stack;
      Return is the ret at the end of its routine. */
  datatype Op<C> =
    | Own(ctx: Context, live: seq<byte>)
    | Create(c: C, size: nat) | Destroy(c: C) | Post(c: C)
    | Resched | Yield | Exit | Return

  /** The outermost word is the guard. */
  predicate Guarded(live: seq<byte>) {
    if |live| <= 8 then live == EXIT_GUARD else Guarded(live[1..])
  }

  lemma {:induction false} GuardedFrom(mem: seq<byte>, rsp: nat)
    requires rsp + 8 <= |mem|
    ensures Guarded(mem[rsp..]) <==> mem[|mem| - 8..] == EXIT_GUARD
    decreases |mem| - rsp
  {
    if rsp + 8 < |mem| {
      assert mem[rsp..][1..] == mem[rsp + 1..];
      GuardedFrom(mem, rsp + 1);
    }
  }

  lemma GuardedTop(live: seq<byte>)
    requires |live| >= 8
    ensures Guarded(live) <==> live[|live| - 8..] == EXIT_GUARD
  {
    assert live[0..] == live;
    GuardedFrom(live, 0);
  }

  predicate ThreadOk(t: Thread, isRoot: bool) {
    t.ctx.rsp + |t.live| == t.size && (isRoot || Guarded(t.live))
  }

  predicate WellFormed<C>(k: Kernel<C>) {
    && RQ.WellFormed(k.queue)
    && k.threads.Keys == k.queue.live
    && (forall c :: c in k.threads ==> ThreadOk(k.threads[c], c == k.queue.root))
  }

  function Running<C>(k: Kernel<C>): Thread
    requires WellFormed(k)
  {
    k.threads[k.queue.current]
  }

  /** The step as the ready queue sees it; Own is invisible to it. */
  function ControlOp<C>(op: Op<C>): RQ.Op<C>
    requires !op.Own?
  {
    match op
    case Create(c, _) => RQ.Add(c)
    case Destroy(c) => RQ.Remove(c)
    case Post(c) => RQ.Post(c)
    case Resched => RQ.Resched
    case Yield => RQ.Yield
    case Exit => RQ.Exit
    case Return => RQ.Exit
  }

  function Control<C>(op: Op<C>): seq<RQ.Op<C>> {
    if op.Own? then [] else [ControlOp(op)]
  }

  /** The clients' promises: those of the ready queue; compiled code stays inside its own stack and never
      overwrites the return slot of its outermost frame; a routine returns from its outermost frame. */
  predicate Legal<C>(k: Kernel<C>, op: Op<C>)
    requires WellFormed(k)
  {
    && (!op.Own? ==> RQ.Legal(k.queue, ControlOp(op)))
    && match op
       case Own(ctx, live) =>
         && ctx.rsp + |live| == Running(k).size
         && (k.queue.current != k.queue.root ==> Guarded(live))
       case Create(_, size) => size >= 8
       case Return => |Running(k).live| == 8
       case _ => true
  }

  /** What a ret of the running coroutine takes from its stack, ... */
  function ReturnWord<C>(k: Kernel<C>): Quadword
    requires WellFormed(k) && |Running(k).live| >= 8
  {
    Running(k).live[..8]
  }

  /** ... and where it would continue. */
  function ReturnTarget<C>(k: Kernel<C>): nat
    requires WellFormed(k) && |Running(k).live| >= 8
  {
    FromLittleEndian(ReturnWord(k))
  }

  /** What save_context records: everything as it is, to continue at its own last instruction. */
  function Saved(t: Thread): Thread {
    t.(ctx := t.ctx.(rip := RETADDR))
  }

  function NextThreads<C>(k: Kernel<C>, op: Op<C>): map<C, Thread>
    requires WellFormed(k)
  {
    var me := k.queue.current;
    match op
    case Own(ctx, live) => k.threads[me := Thread(ctx, live, Running(k).size)]
    case Create(c, size) => if size < 8 then k.threads else k.threads[c := Thread(FreshContext(size), EXIT_GUARD, size)]
    case Destroy(c) => k.threads - {c}
    case Post(c) => k.threads
    case Resched => k.threads[me := Saved(Running(k))]
    case Yield => k.threads[me := Saved(Running(k))]
    case Exit => k.threads - {me}
    case Return => k.threads - {me}
  }

  function NextQueue<C>(k: Kernel<C>, op: Op<C>): RQ.Queue<C>
    requires WellFormed(k) && Legal(k, op)
  {
    if op.Own? then k.queue else RQ.Step(k.queue, ControlOp(op))
  }

  lemma NextThreadsOk<C>(k: Kernel<C>, op: Op<C>)
    requires WellFormed(k) && Legal(k, op)
    ensures NextThreads(k, op).Keys == NextQueue(k, op).live
    ensures forall c :: c in NextThreads(k, op) ==> ThreadOk(NextThreads(k, op)[c], c == k.queue.root)
  {
    forall c | c in NextThreads(k, op)
      ensures ThreadOk(NextThreads(k, op)[c], c == k.queue.root)
    {
      assert c in k.threads ==> ThreadOk(k.threads[c], c == k.queue.root);
    }
  }

  /** One step. A Return that did not find co_exit would lose control; ReturnEntersExit shows that none does. */
  function Step<C>(k: Kernel<C>, op: Op<C>): (r: Kernel<C>)
    requires WellFormed(k) && Legal(k, op)
    ensures WellFormed(r) && r.queue.root == k.queue.root
  {
    NextThreadsOk(k, op);
    if op.Return? && ReturnWord(k) != EXIT_GUARD then k
    else Kernel(NextQueue(k, op), NextThreads(k, op))
  }

  predicate LegalRun<C>(k: Kernel<C>, ops: seq<Op<C>>)
    requires WellFormed(k)
    decreases ops
  {
    ops == [] || (Legal(k, ops[0]) && LegalRun(Step(k, ops[0]), ops[1..]))
  }

  function Run<C>(k: Kernel<C>, ops: seq<Op<C>>): (r: Kernel<C>)
    requires WellFormed(k) && LegalRun(k, ops)
    ensures WellFormed(r) && r.queue.root == k.queue.root
    decreases ops
  {
    if ops == [] then k else Run(Step(k, ops[0]), ops[1..])
  }

  lemma ReturnFrame<C>(k: Kernel<C>)
    requires WellFormed(k) && Legal(k, Return)
    ensures |Running(k).live| == 8 && k.queue.current != k.queue.root
  {}

  lemma LeaveAllowed<C>(k: Kernel<C>)
    requires WellFormed(k)
    ensures k.queue.current != k.queue.root ==> Legal(k, Yield) && Legal(k, Exit)
  {}

  lemma ReturnAllowed<C>(k: Kernel<C>)
    requires WellFormed(k)
    ensures Legal(k, Return) <==> k.queue.current != k.queue.root && |Running(k).live| == 8
  {}

  /** A ret goes on in co_exit exactly if it takes the guard. */
  lemma TargetIsExit<C>(k: Kernel<C>)
    requires WellFormed(k) && |Running(k).live| >= 8
    ensures ReturnTarget(k) == CO_EXIT <==> ReturnWord(k) == EXIT_GUARD
  {
    GuardNamesExit(ReturnWord(k));
  }

  lemma OutermostReturn<C>(k: Kernel<C>)
    requires WellFormed(k) && Legal(k, Return)
    ensures ReturnWord(k) == EXIT_GUARD
  {
    assert Guarded(Running(k).live);
  }

  lemma ReturnDestroys<C>(k: Kernel<C>)
    requires WellFormed(k) && Legal(k, Return)
    ensures var next := Step(k, Return).queue;
            && next.live == k.queue.live - {k.queue.current}
            && k.queue.current != next.current && k.queue.current !in next.ready
  {
    OutermostReturn(k);
    var next := Step(k, Return).queue;
    assert next == RQ.Step(k.queue, RQ.Exit) && k.queue.current !in next.live;
  }

  /** So returning is exiting. */
  lemma ReturnIsExit<C>(k: Kernel<C>)
    requires WellFormed(k) && Legal(k, Return)
    ensures Legal(k, Exit) && Step(k, Return) == Step(k, Exit)
  {
    OutermostReturn(k);
  }

  /** In every reachable kernel a routine that has come back to its outermost frame returns into co_exit,
      and that step destroys exactly the returning coroutine: it is no longer alive, ready or running. */
  lemma ReturnEntersExit<C>(k: Kernel<C>, ops: seq<Op<C>>)
    requires WellFormed(k) && LegalRun(k, ops)
    requires Legal(Run(k, ops), Return)
    ensures var r := Run(k, ops);
            var next := Step(r, Return);
            && ReturnTarget(r) == CO_EXIT
            && next.queue.live == r.queue.live - {r.queue.current}
            && r.queue.current != next.queue.current && r.queue.current !in next.queue.ready
  {
    var r := Run(k, ops);
    OutermostReturn(r);
    TargetIsExit(r);
    ReturnDestroys(r);
  }

  /** In every reachable kernel every coroutine but the root still has co_exit in the top word of its stack. */
  lemma GuardStays<C>(k: Kernel<C>, ops: seq<Op<C>>, c: C)
    requires WellFormed(k) && LegalRun(k, ops)
    requires c in Run(k, ops).threads && c != k.queue.root
    ensures var live := Run(k, ops).threads[c].live;
            |live| >= 8 && FromLittleEndian(live[|live| - 8..]) == CO_EXIT
  {
    GuardedTop(Run(k, ops).threads[c].live);
    GuardNamesExit(EXIT_GUARD);
  }

  /** While other coroutines run (and do not destroy it), ... */
  predicate Away<C>(k: Kernel<C>, ops: seq<Op<C>>, c: C)
    requires WellFormed(k) && LegalRun(k, ops)
    decreases ops
  {
    ops == [] ||
    (k.queue.current != c && ops[0] != Destroy(c) && Away(Step(k, ops[0]), ops[1..], c))
  }

  lemma AwayStep<C>(k: Kernel<C>, op: Op<C>, c: C)
    requires WellFormed(k) && Legal(k, op) && c in k.threads
    requires k.queue.current != c && op != Destroy(c)
    ensures c in Step(k, op).threads && Step(k, op).threads[c] == k.threads[c]
  {}

  /** ... a coroutine's registers and stack do not change. */
  lemma {:induction false} AwayKeeps<C>(k: Kernel<C>, ops: seq<Op<C>>, c: C)
    requires WellFormed(k) && LegalRun(k, ops) && Away(k, ops, c) && c in k.threads
    ensures c in Run(k, ops).threads && Run(k, ops).threads[c] == k.threads[c]
    decreases ops
  {
    if ops != [] {
      var next := Step(k, ops[0]);
      AwayStep(k, ops[0], c);
      AwayKeeps(next, ops[1..], c);
    }
  }

  /** Suspension is transparent: whatever legal steps happen between a coroutine's suspension and its return
      to the processor, it finds every register and every byte of its live stack, at the same addresses. */
  lemma SuspensionTransparent<C>(k: Kernel<C>, op: Op<C>, ops: seq<Op<C>>)
    requires WellFormed(k) && (op == Resched || op == Yield) && Legal(k, op)
    requires LegalRun(Step(k, op), ops) && Away(Step(k, op), ops, k.queue.current)
    ensures var me := k.queue.current;
            && me in Run(Step(k, op), ops).threads
            && Run(Step(k, op), ops).threads[me] == Saved(Running(k))
  {
    AwayKeeps(Step(k, op), ops, k.queue.current);
  }

  /** The control steps of a run. */
  function Controls<C>(ops: seq<Op<C>>): seq<RQ.Op<C>> {
    if ops == [] then [] else Control(ops[0]) + Controls(ops[1..])
  }

  /** Whatever the coroutines compute, the ready queue moves as its control steps alone dictate,
      so the laws of RunQueue hold of every run of the kernel. */
  lemma {:induction false} RunProjects<C>(k: Kernel<C>, ops: seq<Op<C>>)
    requires WellFormed(k) && LegalRun(k, ops)
    ensures RQ.LegalRun(k.queue, Controls(ops))
    ensures Run(k, ops).queue == RQ.Run(k.queue, Controls(ops))
    decreases ops
  {
    if ops != [] {
      var next := Step(k, ops[0]);
      RunProjects(next, ops[1..]);
      if ops[0].Return? {
        OutermostReturn(k);
      }
      if ops[0].Own? {
        assert Controls(ops) == Controls(ops[1..]);
      } else {
        var e := Control(ops[0])[0];
        assert Control(ops[0]) == [e] && RQ.Legal(k.queue, e);
        assert Controls(ops)[0] == e && Controls(ops)[1..] == Controls(ops[1..]);
        assert RQ.Step(k.queue, e) == next.queue;
      }
    }
  }
}
