/** A client of the kernel as it is in memory: it makes one call after another, as long as they are calls that the
    kernel allows, and everything it does is a run of the machine in which every coroutine has its own stack. */
module Client {
  import opened Common
  import opened Context
  import opened Stacks
  import opened Runtime
  import RQ = RunQueue
  import K = Kernel
  import P = Pool

  /** What the running coroutine does next; the coroutines it made are named by number. */
  datatype Action =
    | Compute(regs: Context, mem: seq<byte>) | Create(size: nat) | CreateShared | Destroy(i: nat) | Post(i: nat)
    | Resched | Yield | Exit | Return

  type Call = P.Call<Coroutine, CoStack, nat>

  function Births(a: Action): nat {
    if a.Create? || a.CreateShared? then 1 else 0
  }

  /** The call of the pooled machine that an action amounts to: made lists the coroutines in the order in which they
      are made, and born of them have been made before. */
  predicate Means(a: Action, born: nat, made: seq<Coroutine>, op: P.Op<Coroutine, CoStack>) {
    match a
    case Compute(regs, mem) => op == P.Own(regs, mem)
    case Create(size) => born < |made| && op.Create? && op.c == made[born] && |op.mem| == size
    case CreateShared => born < |made| && op == P.CreateShared(made[born])
    case Destroy(i) => i < born <= |made| && op == P.Destroy(made[i])
    case Post(i) => i < born <= |made| && op == P.Post(made[i])
    case Resched => op == P.Resched
    case Yield => op == P.Yield
    case Exit => op == P.Exit
    case Return => op == P.Return
  }

  /** The same for a script that makes the coroutines from made[born] on. */
  predicate Meant(script: seq<Action>, born: nat, made: seq<Coroutine>, calls: seq<Call>)
    decreases script
  {
    if script == [] then calls == [] && born == |made|
    else
      && calls != [] && Means(script[0], born, made, calls[0].op)
      && Meant(script[1..], born + Births(script[0]), made, calls[1..])
  }

  lemma MeantOn(script: seq<Action>, born: nat, now: seq<Coroutine>, call: Call,
                done: nat, made: seq<Coroutine>, calls: seq<Call>)
    requires done < |script| && now <= made && |now| == born + Births(script[0])
    requires Means(script[0], born, now, call.op) && Meant(script[1..][..done], |now|, made, calls)
    ensures Meant(script[..done + 1], born, made, [call] + calls)
  {
    assert script[..done + 1][0] == script[0] && script[..done + 1][1..] == script[1..][..done];
    assert ([call] + calls)[1..] == calls;
  }

  /** Both machines take the call. */
  ghost predicate Takes(p: P.Pool<Coroutine, CoStack, nat>, call: Call, q: P.Pool<Coroutine, CoStack, nat>) {
    && P.Good(p) && P.Legal(p, call.op, call.block) && q == P.Step(p, call.op, call.block)
    && P.Good(q) && P.Abs(q) == K.Step(P.Abs(p), P.Spec(p, call.op))
  }

  lemma LegalTaken(p: P.Pool<Coroutine, CoStack, nat>, call: Call)
    requires P.Good(p) && P.Legal(p, call.op, call.block)
    ensures Takes(p, call, P.Step(p, call.op, call.block))
    ensures call.op.Return? ==>
      P.Closed(p) && p.queue.current != p.queue.root && P.Step(p, call.op, call.block) == P.CoExit(p, call.block)
  {
    P.StepSimulates(p, call.op, call.block);
  }

  // ---- Each allowed call is legal for the pooled machine, and is its step ----

  lemma ReschedLegal(p: P.Pool<Coroutine, CoStack, nat>, b: nat)
    requires P.Good(p) && b !in p.blocks
    ensures P.Closed(p) && P.Legal(p, P.Resched, b)
  {
    P.GoodIsClosed(p);
    P.ReschedLegal(p, b);
  }

  lemma ReschedLive(p: P.Pool<Coroutine, CoStack, nat>, b: nat)
    requires P.Closed(p) && b !in p.blocks
    ensures P.CoResched(p, b).queue.live == p.queue.live
  {
    P.ReschedThreads(p, b);
  }

  lemma YieldLegal(p: P.Pool<Coroutine, CoStack, nat>, b: nat)
    requires P.Good(p) && b !in p.blocks && p.queue.current != p.queue.root
    ensures P.Closed(p) && P.Legal(p, P.Yield, b)
  {
    P.GoodIsClosed(p);
    K.LeaveAllowed(P.Abs(p));
    P.YieldLegal(p, b);
  }

  lemma YieldLive(p: P.Pool<Coroutine, CoStack, nat>, b: nat)
    requires P.Closed(p) && b !in p.blocks && p.queue.current != p.queue.root
    ensures P.CoYield(p, b).queue.live == p.queue.live
  {
    P.YieldThreads(p, b);
  }

  lemma ExitLegal(p: P.Pool<Coroutine, CoStack, nat>, b: nat)
    requires P.Good(p) && b !in p.blocks && p.queue.current != p.queue.root
    ensures P.Closed(p) && P.Legal(p, P.Exit, b)
  {
    P.GoodIsClosed(p);
    K.LeaveAllowed(P.Abs(p));
    P.ExitLegal(p, b);
  }

  lemma ExitLive(p: P.Pool<Coroutine, CoStack, nat>, b: nat)
    requires P.Closed(p) && b !in p.blocks && p.queue.current != p.queue.root
    ensures P.CoExit(p, b).queue.live == p.queue.live - {p.queue.current}
  {
    P.ExitThreads(p, b);
  }

  lemma ReturnAllowed(p: P.Pool<Coroutine, CoStack, nat>)
    requires P.Good(p) && p.queue.current != p.queue.root && P.CoroutineOk(p, p.queue.current)
    requires p.cpu.rsp + 8 == |p.stacks[p.cos[p.queue.current].stack].bytes|
    ensures K.Legal(P.Abs(p), K.Return)
  {
    RunningLive(p);
    K.ReturnAllowed(P.Abs(p));
  }

  lemma ReturnLegal(p: P.Pool<Coroutine, CoStack, nat>, b: nat)
    requires P.Good(p) && b !in p.blocks && p.queue.current != p.queue.root && P.CoroutineOk(p, p.queue.current)
    requires p.cpu.rsp + 8 == |p.stacks[p.cos[p.queue.current].stack].bytes|
    ensures P.Closed(p) && K.Legal(P.Abs(p), K.Return) && P.Legal(p, P.Return, b)
  {
    P.GoodIsClosed(p);
    ReturnAllowed(p);
    P.ReturnLegal(p, b);
  }

  lemma ReturnIs(p: P.Pool<Coroutine, CoStack, nat>, b: nat)
    requires P.Good(p) && P.Closed(p) && b !in p.blocks && p.queue.current != p.queue.root
    requires P.CoroutineOk(p, p.queue.current)
    requires p.cpu.rsp + 8 == |p.stacks[p.cos[p.queue.current].stack].bytes|
    ensures P.CoReturn(p, b) == P.CoExit(p, b)
    ensures P.CoReturn(p, b).queue.live == p.queue.live - {p.queue.current}
  {
    P.RunningIsGuarded(p);
    P.GuardAt(p.stacks[p.cos[p.queue.current].stack].bytes, p.cpu.rsp);
    P.ReturnExits(p, b);
    P.ExitThreads(p, b);
  }

  lemma PostStep(p: P.Pool<Coroutine, CoStack, nat>, c: Coroutine, b: nat)
    requires P.Good(p) && b !in p.blocks && RQ.Parked(p.queue, c)
    ensures P.Legal(p, P.Post(c), b) && P.Step(p, P.Post(c), b) == P.CoPost(p, c)
  {
    P.GoodIsClosed(p);
  }

  lemma DestroyStep(p: P.Pool<Coroutine, CoStack, nat>, c: Coroutine, b: nat)
    requires P.Good(p) && b !in p.blocks && RQ.Parked(p.queue, c) && c != p.queue.root
    ensures P.Legal(p, P.Destroy(c), b) && P.Closed(p) && P.CoroutineOk(p, c)
    ensures P.Step(p, P.Destroy(c), b) == P.Delete(p, c)
  {
    P.GoodIsClosed(p);
  }

  lemma CreateStep(p: P.Pool<Coroutine, CoStack, nat>, c: Coroutine, s: CoStack, mem: seq<byte>, b: nat)
    requires P.Good(p) && b !in p.blocks && c !in p.cos && s !in p.stacks && |mem| >= 8
    ensures P.Legal(p, P.Create(c, s, mem), b) && P.Step(p, P.Create(c, s, mem), b) == P.CoCreate(p, c, s, mem)
  {
    P.GoodIsClosed(p);
  }

  lemma CreateSharedStep(p: P.Pool<Coroutine, CoStack, nat>, c: Coroutine, b: nat)
    requires P.Good(p) && b !in p.blocks && c !in p.cos
    ensures P.Legal(p, P.CreateShared(c), b) && P.Step(p, P.CreateShared(c), b) == P.CoCreateShared(p, c, b)
  {
    P.GoodIsClosed(p);
  }

  lemma ComputeStep(p: P.Pool<Coroutine, CoStack, nat>, regs: Context, mem: seq<byte>, b: nat)
    requires P.Good(p) && b !in p.blocks && P.CoroutineOk(p, p.queue.current)
    requires regs.rsp <= |mem| == |p.stacks[p.cos[p.queue.current].stack].bytes|
    requires p.queue.current != p.queue.root ==> |mem| - regs.rsp >= 8 && mem[|mem| - 8..] == EXIT_GUARD
    ensures P.Legal(p, P.Own(regs, mem), b) && P.Step(p, P.Own(regs, mem), b) == P.OwnStep(p, regs, mem)
  {
    assert K.Running(P.Abs(p)).size == |mem|;
    if p.queue.current != p.queue.root {
      K.GuardedFrom(mem, regs.rsp);
    }
  }

  lemma RunningLive(p: P.Pool<Coroutine, CoStack, nat>)
    requires P.Good(p) && P.CoroutineOk(p, p.queue.current)
    ensures |K.Running(P.Abs(p)).live| == |p.stacks[p.cos[p.queue.current].stack].bytes| - p.cpu.rsp
  {
    assert P.Abs(p).threads[p.queue.current] == P.ThreadOf(p, p.queue.current);
  }

  lemma ComputeAllowed(p: P.Pool<Coroutine, CoStack, nat>, regs: Context, mem: seq<byte>)
    requires P.Good(p) && P.CoroutineOk(p, p.queue.current)
    ensures K.Running(P.Abs(p)).size == |p.stacks[p.cos[p.queue.current].stack].bytes|
    ensures regs.rsp <= |mem| == K.Running(P.Abs(p)).size ==>
      (K.Legal(P.Abs(p), K.Own(regs, mem[regs.rsp..])) <==>
         (p.queue.current != p.queue.root ==> |mem| - regs.rsp >= 8 && mem[|mem| - 8..] == EXIT_GUARD))
  {
    if regs.rsp + 8 <= |mem| {
      K.GuardedFrom(mem, regs.rsp);
    }
  }

  /** The kernel in memory, and the invariant that the simulation rests on. */
  ghost predicate Sound(rt: Runtime)
    reads rt, rt.Repr
  {
    rt.Valid() && P.Good(rt.state)
  }

  method Pass(rt: Runtime, yielding: bool) returns (ghost call: Call)
    requires Sound(rt) && (yielding ==> rt.current != rt.root)
    modifies rt.Repr
    ensures Sound(rt) && rt.Repr == old(rt.Repr)
    ensures call.op == (if yielding then P.Yield else P.Resched) && Takes(old(rt.state), call, rt.state)
    ensures rt.state.queue.live == old(rt.state).queue.live
  {
    ghost var p, b := rt.state, rt.heap.next;
    if yielding {
      call := P.Call(P.Yield, b);
      YieldLegal(p, b);
      P.YieldStep(p, b);
      YieldLive(p, b);
      LegalTaken(p, call);
      var _ := rt.CoYield();
    } else {
      call := P.Call(P.Resched, b);
      ReschedLegal(p, b);
      P.ReschedStep(p, b);
      ReschedLive(p, b);
      LegalTaken(p, call);
      rt.CoResched();
    }
  }

  method End(rt: Runtime, returning: bool) returns (ghost call: Call)
    requires Sound(rt) && rt.current != rt.root
    requires returning ==> rt.cpu.rsp + 8 == rt.current.stack.bytes.Length
    modifies rt.Repr
    ensures Sound(rt) && rt.Repr == old(rt.Repr)
    ensures call.op == (if returning then P.Return else P.Exit) && Takes(old(rt.state), call, rt.state)
    ensures rt.state.queue.live == old(rt.state).queue.live - {old(rt.current)}
  {
    ghost var p, b := rt.state, rt.heap.next;
    if returning {
      call := P.Call(P.Return, b);
      assert P.CoroutineOk(p, rt.current);
      ReturnLegal(p, b);
      ReturnIs(p, b);
      LegalTaken(p, call);
      rt.CoReturn();
    } else {
      call := P.Call(P.Exit, b);
      ExitLegal(p, b);
      P.ExitStep(p, b);
      ExitLive(p, b);
      LegalTaken(p, call);
      rt.CoExit();
    }
  }

  method Wake(rt: Runtime, co: Coroutine) returns (ghost call: Call)
    requires Sound(rt) && RQ.Parked(rt.state.queue, co)
    modifies rt.Repr
    ensures Sound(rt) && rt.Repr == old(rt.Repr)
    ensures call.op == P.Post(co) && Takes(old(rt.state), call, rt.state)
    ensures rt.state.queue.live == old(rt.state).queue.live
  {
    ghost var p, b := rt.state, rt.heap.next;
    call := P.Call(P.Post(co), b);
    PostStep(p, co, b);
    LegalTaken(p, call);
    rt.CoPost(co);
  }

  method Remove(rt: Runtime, co: Coroutine) returns (ghost call: Call)
    requires Sound(rt) && RQ.Parked(rt.state.queue, co) && co != rt.root
    modifies rt.Repr
    ensures Sound(rt) && rt.Repr == old(rt.Repr)
    ensures call.op == P.Destroy(co) && Takes(old(rt.state), call, rt.state)
    ensures rt.state.queue.live == old(rt.state).queue.live - {co}
  {
    ghost var p, b := rt.state, rt.heap.next;
    call := P.Call(P.Destroy(co), b);
    DestroyStep(p, co, b);
    LegalTaken(p, call);
    rt.CoDestroy(co);
  }

  method Make(rt: Runtime, private: Option<nat>) returns (co: Coroutine, ghost call: Call)
    requires Sound(rt) && (private.Some? ==> private.value >= 8)
    modifies rt.Repr
    ensures Sound(rt) && fresh(rt.Repr - old(rt.Repr)) && Takes(old(rt.state), call, rt.state)
    ensures if private.Some? then call.op.Create? && call.op.c == co && |call.op.mem| == private.value
            else call.op == P.CreateShared(co)
    ensures rt.state.queue.live == old(rt.state).queue.live + {co}
  {
    ghost var p, b := rt.state, rt.heap.next;
    if private.Some? {
      ghost var mem;
      co, mem := rt.CoCreate(private.value);
      call := P.Call(P.Create(co, co.stack, mem), b);
      CreateStep(p, co, co.stack, mem, b);
    } else {
      co := rt.CoCreateShared();
      call := P.Call(P.CreateShared(co), b);
      CreateSharedStep(p, co, b);
    }
    LegalTaken(p, call);
  }

  method Compute(rt: Runtime, regs: Context, mem: seq<byte>) returns (ghost call: Call)
    requires Sound(rt) && regs.rsp <= |mem| == rt.current.stack.bytes.Length
    requires rt.current != rt.root ==> |mem| - regs.rsp >= 8 && mem[|mem| - 8..] == EXIT_GUARD
    modifies rt.Repr
    ensures Sound(rt) && rt.Repr == old(rt.Repr)
    ensures call.op == P.Own(regs, mem) && Takes(old(rt.state), call, rt.state)
    ensures rt.state.queue.live == old(rt.state).queue.live
  {
    ghost var p, b := rt.state, rt.heap.next;
    call := P.Call(P.Own(regs, mem), b);
    assert P.CoroutineOk(p, rt.current);
    ComputeStep(p, regs, mem, b);
    LegalTaken(p, call);
    rt.Compute(regs, mem);
  }

  /** The coroutines made so far, and those alive. */
  datatype Census = Census(made: seq<Coroutine>, alive: set<Coroutine>)

  /** What a client may do now: what keeps its promises. */
  predicate Allowed(k: K.Kernel<Coroutine>, made: seq<Coroutine>, a: Action)
    requires K.WellFormed(k)
  {
    match a
    case Compute(regs, mem) => regs.rsp <= |mem| == K.Running(k).size && K.Legal(k, K.Own(regs, mem[regs.rsp..]))
    case Create(size) => size >= 8
    case CreateShared => true
    case Destroy(i) => i < |made| && RQ.Parked(k.queue, made[i]) && made[i] != k.queue.root
    case Post(i) => i < |made| && RQ.Parked(k.queue, made[i])
    case Resched => true
    case Yield => k.queue.current != k.queue.root
    case Exit => k.queue.current != k.queue.root
    case Return => K.Legal(k, K.Return)
  }

  /** The same in terms of the objects. */
  ghost predicate Ready(rt: Runtime, made: seq<Coroutine>, a: Action)
    reads rt, rt.Repr
    requires Sound(rt)
  {
    assert P.CoroutineOk(rt.state, rt.current);
    match a
    case Compute(regs, mem) =>
      && regs.rsp <= |mem| == rt.current.stack.bytes.Length
      && (rt.current != rt.root ==> |mem| - regs.rsp >= 8 && mem[|mem| - 8..] == EXIT_GUARD)
    case Create(size) => size >= 8
    case CreateShared => true
    case Destroy(i) => i < |made| && RQ.Parked(rt.state.queue, made[i]) && made[i] != rt.root
    case Post(i) => i < |made| && RQ.Parked(rt.state.queue, made[i])
    case Resched => true
    case Yield => rt.current != rt.root
    case Exit => rt.current != rt.root
    case Return => rt.current != rt.root && rt.cpu.rsp + 8 == rt.current.stack.bytes.Length
  }

  method CheckReturn(rt: Runtime) returns (ok: bool)
    requires Sound(rt)
    ensures ok == Allowed(P.Abs(rt.state), [], Return) == Ready(rt, [], Return)
  {
    assert P.CoroutineOk(rt.state, rt.current);
    RunningLive(rt.state);
    K.ReturnAllowed(P.Abs(rt.state));
    ok := rt.current != rt.root && rt.cpu.rsp + 8 == rt.current.stack.bytes.Length;
  }

  method CheckCompute(rt: Runtime, regs: Context, mem: seq<byte>) returns (ok: bool)
    requires Sound(rt)
    ensures ok == Allowed(P.Abs(rt.state), [], Action.Compute(regs, mem)) == Ready(rt, [], Action.Compute(regs, mem))
  {
    assert P.CoroutineOk(rt.state, rt.current);
    ComputeAllowed(rt.state, regs, mem);
    ok := regs.rsp <= |mem| && |mem| == rt.current.stack.bytes.Length
          && (rt.current != rt.root ==> |mem| - regs.rsp >= 8 && mem[|mem| - 8..] == EXIT_GUARD);
  }

  lemma OthersAllowed(rt: Runtime, made: seq<Coroutine>, a: Action)
    requires Sound(rt) && !a.Compute? && !a.Return?
    ensures Allowed(P.Abs(rt.state), made, a) == Ready(rt, made, a)
  {
    assert P.Abs(rt.state).queue == rt.state.queue && rt.state.queue.current == rt.current;
  }

  method CheckOther(rt: Runtime, w: Census, a: Action) returns (ok: bool)
    requires Sound(rt) && w.alive == rt.state.queue.live && (a.Post? || a.Destroy?)
    ensures ok == Ready(rt, w.made, a)
  {
    ok := a.i < |w.made| && w.made[a.i] in w.alive && w.made[a.i] != rt.current && w.made[a.i] !in rt.sched.queue
          && (a.Destroy? ==> w.made[a.i] != rt.root);
  }

  method CheckSwitch(rt: Runtime, w: Census, a: Action) returns (ok: bool)
    requires Sound(rt) && (a.Create? || a.CreateShared? || a.Resched? || a.Yield? || a.Exit?)
    ensures ok == Ready(rt, w.made, a)
  {
    ok := if a.Create? then a.size >= 8 else a.CreateShared? || a.Resched? || rt.current != rt.root;
  }

  /** What keeps the promises can be told from the objects. */
  method Check(rt: Runtime, w: Census, a: Action) returns (ok: bool)
    requires Sound(rt) && w.alive == rt.state.queue.live
    ensures ok == Allowed(P.Abs(rt.state), w.made, a) == Ready(rt, w.made, a)
  {
    if a.Compute? {
      ok := CheckCompute(rt, a.regs, a.mem);
    } else if a.Return? {
      ok := CheckReturn(rt);
    } else {
      OthersAllowed(rt, w.made, a);
      if a.Post? || a.Destroy? {
        ok := CheckOther(rt, w, a);
      } else {
        ok := CheckSwitch(rt, w, a);
      }
    }
  }

  /** An allowed action that only passes the processor on. */
  method Switch(rt: Runtime, w: Census, a: Action) returns (v: Census, ghost call: Call)
    requires Sound(rt) && w.alive == rt.state.queue.live && Ready(rt, w.made, a)
    requires a.Resched? || a.Yield? || a.Exit? || a.Return?
    modifies rt.Repr
    ensures Sound(rt) && v.alive == rt.state.queue.live && v.made == w.made && rt.Repr == old(rt.Repr)
    ensures Means(a, |w.made|, v.made, call.op) && Takes(old(rt.state), call, rt.state)
  {
    var me := rt.current;
    v := w;
    if a.Resched? || a.Yield? {
      call := Pass(rt, a.Yield?);
    } else {
      call := End(rt, a.Return?);
      v := w.(alive := w.alive - {me});
    }
  }

  /** An allowed action that makes, wakes or destroys another coroutine. */
  method Manage(rt: Runtime, w: Census, a: Action) returns (v: Census, ghost call: Call)
    requires Sound(rt) && w.alive == rt.state.queue.live && Ready(rt, w.made, a)
    requires a.Create? || a.CreateShared? || a.Destroy? || a.Post?
    modifies rt.Repr
    ensures Sound(rt) && v.alive == rt.state.queue.live && fresh(rt.Repr - old(rt.Repr))
    ensures w.made <= v.made && |v.made| == |w.made| + Births(a) && Means(a, |w.made|, v.made, call.op)
    ensures Takes(old(rt.state), call, rt.state)
  {
    v := w;
    if a.Destroy? {
      call := Remove(rt, w.made[a.i]);
      v := w.(alive := w.alive - {w.made[a.i]});
    } else if a.Post? {
      call := Wake(rt, w.made[a.i]);
    } else {
      var co;
      co, call := Make(rt, if a.Create? then Some(a.size) else None);
      v := Census(w.made + [co], w.alive + {co});
    }
  }

  /** An allowed computation. */
  method Calculate(rt: Runtime, w: Census, a: Action) returns (ghost call: Call)
    requires Sound(rt) && w.alive == rt.state.queue.live && Ready(rt, w.made, a) && a.Compute?
    modifies rt.Repr
    ensures Sound(rt) && w.alive == rt.state.queue.live && rt.Repr == old(rt.Repr)
    ensures Means(a, |w.made|, w.made, call.op) && Takes(old(rt.state), call, rt.state)
  {
    call := Compute(rt, a.regs, a.mem);
  }

  method Act(rt: Runtime, w: Census, a: Action) returns (v: Census, ghost call: Call)
    requires Sound(rt) && w.alive == rt.state.queue.live && Ready(rt, w.made, a)
    modifies rt.Repr
    ensures Sound(rt) && v.alive == rt.state.queue.live && fresh(rt.Repr - old(rt.Repr))
    ensures w.made <= v.made && |v.made| == |w.made| + Births(a) && Means(a, |w.made|, v.made, call.op)
    ensures Takes(old(rt.state), call, rt.state)
  {
    if a.Compute? {
      v := w;
      call := Calculate(rt, w, a);
    } else if a.Resched? || a.Yield? || a.Exit? || a.Return? {
      v, call := Switch(rt, w, a);
    } else {
      v, call := Manage(rt, w, a);
    }
  }

  /** The calls took the one machine from p to q, and stand for calls that take the other from p's meaning to q's. */
  ghost predicate Leads(p: P.Pool<Coroutine, CoStack, nat>, calls: seq<Call>, q: P.Pool<Coroutine, CoStack, nat>) {
    && P.Good(p) && P.LegalRun(p, calls) && q == P.Run(p, calls)
    && K.LegalRun(P.Abs(p), P.Specs(p, calls)) && P.Abs(q) == K.Run(P.Abs(p), P.Specs(p, calls))
  }

  /** The script was carried out up to an action that is not allowed, or to its end. */
  predicate StopsAt(k: K.Kernel<Coroutine>, made: seq<Coroutine>, script: seq<Action>, done: nat)
    requires K.WellFormed(k)
  {
    done <= |script| && (done < |script| ==> !Allowed(k, made, script[done]))
  }

  lemma StopsOn(k: K.Kernel<Coroutine>, made: seq<Coroutine>, script: seq<Action>, done: nat)
    requires K.WellFormed(k) && script != [] && StopsAt(k, made, script[1..], done)
    ensures StopsAt(k, made, script, done + 1)
  {}

  lemma LeadsNowhere(p: P.Pool<Coroutine, CoStack, nat>)
    requires P.Good(p)
    ensures Leads(p, [], p)
  {
    P.RunSimulates(p, []);
  }

  lemma LeadsOn(p: P.Pool<Coroutine, CoStack, nat>, call: Call, q: P.Pool<Coroutine, CoStack, nat>,
                calls: seq<Call>, r: P.Pool<Coroutine, CoStack, nat>)
    requires Takes(p, call, q) && Leads(q, calls, r)
    ensures Leads(p, [call] + calls, r)
  {
    P.RunCons(p, call, q, calls);
    P.RunSimulates(p, [call] + calls);
  }

  /** A whole script, up to the first action that is not allowed: what the objects, arrays and blocks then amount to
      is a run of the pooled machine, and stands for a run of the machine with private stacks. */
  method PerformAll(rt: Runtime, w: Census, script: seq<Action>)
    returns (v: Census, done: nat, ghost calls: seq<Call>)
    requires Sound(rt) && w.alive == rt.state.queue.live
    modifies rt.Repr
    ensures Sound(rt) && v.alive == rt.state.queue.live && w.made <= v.made
    ensures StopsAt(P.Abs(rt.state), v.made, script, done)
    ensures Meant(script[..done], |w.made|, v.made, calls)
    ensures Leads(old(rt.state), calls, rt.state)
    decreases |script|, 1
  {
    v, done, calls := w, 0, [];
    LeadsNowhere(rt.state);
    if script != [] {
      var ok := Check(rt, w, script[0]);
      if ok {
        v, done, calls := PerformOn(rt, w, script);
      }
    }
  }

  /** The same when the first action is allowed. */
  method PerformOn(rt: Runtime, w: Census, script: seq<Action>)
    returns (v: Census, done: nat, ghost calls: seq<Call>)
    requires Sound(rt) && w.alive == rt.state.queue.live && script != [] && Ready(rt, w.made, script[0])
    modifies rt.Repr
    ensures Sound(rt) && v.alive == rt.state.queue.live && w.made <= v.made
    ensures StopsAt(P.Abs(rt.state), v.made, script, done)
    ensures Meant(script[..done], |w.made|, v.made, calls)
    ensures Leads(old(rt.state), calls, rt.state)
    decreases |script|, 0
  {
    ghost var p := rt.state;
    ghost var call;
    v, call := Act(rt, w, script[0]);
    ghost var q, made := rt.state, v.made;
    v, done, calls := PerformAll(rt, v, script[1..]);
    StopsOn(P.Abs(rt.state), v.made, script, done);
    LeadsOn(p, call, q, calls, rt.state);
    MeantOn(script, |w.made|, made, call, done, v.made, calls);
    done, calls := done + 1, [call] + calls;
  }
}
