/** The cooperative kernel seen as control only: who runs, who is ready and in which order, who is alive.
    Parked coroutines are the live ones that neither run nor wait in the ready queue. */
module RunQueue {
  import opened Common

  datatype Queue<C(==)> = Queue(root: C, current: C, ready: seq<C>, live: set<C>)

  /** Add is the birth of a coroutine, which stays parked until it is posted; Remove destroys a parked one. */
  datatype Op<C> = Add(c: C) | Remove(c: C) | Post(c: C) | Resched | Yield | Exit

  predicate WellFormed<C>(q: Queue<C>) {
    && q.root in q.live
    && q.current in q.live
    && (forall c :: c in q.ready ==> c in q.live)
    && NoDuplicates(q.ready)
    && q.current !in q.ready
    && (q.current == q.root || q.root in q.ready)
  }

  predicate Parked<C>(q: Queue<C>, c: C) {
    c in q.live && c != q.current && c !in q.ready
  }

  /** What the clients promise: they post and destroy only parked coroutines (a new one is parked),
      and the root neither yields nor exits. */
  predicate Legal<C>(q: Queue<C>, op: Op<C>) {
    match op
    case Add(c) => c !in q.live
    case Remove(c) => Parked(q, c) && c != q.root
    case Post(c) => Parked(q, c)
    case Resched => true
    case Yield => q.current != q.root
    case Exit => q.current != q.root
  }

  /** co_sched: the front of the queue becomes current. The source has no answer to an empty queue. */
  function Dispatch<C>(q: Queue<C>): Queue<C>
    requires q.ready != []
  {
    q.(current := q.ready[0], ready := q.ready[1..])
  }

  /** Every legal step keeps the kernel well formed; in particular no dispatch meets an empty queue. */
  function Step<C>(q: Queue<C>, op: Op<C>): (r: Queue<C>)
    requires WellFormed(q) && Legal(q, op)
    ensures WellFormed(r) && r.root == q.root
  {
    match op
    case Add(c) => q.(live := q.live + {c})
    case Remove(c) => q.(live := q.live - {c})
    case Post(c) => q.(ready := q.ready + [c])
    case Resched =>
      var all := q.ready + [q.current];
      assert all == [all[0]] + all[1..] && all[|q.ready|] == q.current;
      assert forall c :: c in all ==> c in q.ready || c == q.current;
      assert q.root in all;
      Dispatch(q.(ready := all))
    case Yield => Dispatch(q)
    case Exit => Dispatch(q.(live := q.live - {q.current}))
  }

  /** A ready coroutine stays ready until it is dispatched; only what is added becomes ready. */
  lemma StepMoves<C>(q: Queue<C>, op: Op<C>)
    requires WellFormed(q) && Legal(q, op)
    ensures forall c :: c in q.ready ==> c == Step(q, op).current || c in Step(q, op).ready
    ensures forall c :: c in Step(q, op).ready ==> c in q.ready || c in Added(q, op)
    ensures Step(q, op).current in q.ready || Step(q, op).current == q.current
  {
    StepFifo(q, op);
    var all := q.ready + Added(q, op);
    assert forall c :: c in q.ready ==> c in all;
    assert forall c :: c in all <==> c in q.ready || c in Added(q, op);
    assert forall c :: c in all <==> c in Taken(q, op) || c in Step(q, op).ready;
  }

  predicate LegalRun<C>(q: Queue<C>, ops: seq<Op<C>>)
    requires WellFormed(q)
    decreases ops
  {
    ops == [] || (Legal(q, ops[0]) && LegalRun(Step(q, ops[0]), ops[1..]))
  }

  function Run<C>(q: Queue<C>, ops: seq<Op<C>>): (r: Queue<C>)
    requires WellFormed(q) && LegalRun(q, ops)
    ensures WellFormed(r) && r.root == q.root
    decreases ops
  {
    if ops == [] then q else Run(Step(q, ops[0]), ops[1..])
  }

  /** The coroutine that one step hands the processor to, if it is a switch. */
  function Taken<C>(q: Queue<C>, op: Op<C>): seq<C>
    requires WellFormed(q) && Legal(q, op)
  {
    if op.Resched? || op.Yield? || op.Exit? then [Step(q, op).current] else []
  }

  /** The coroutine that one step appends to the ready queue, if any. */
  function Added<C>(q: Queue<C>, op: Op<C>): seq<C> {
    match op case Post(c) => [c] case Resched => [q.current] case _ => []
  }

  /** The coroutines that a run hands the processor to, in order. */
  function Dispatched<C>(q: Queue<C>, ops: seq<Op<C>>): seq<C>
    requires WellFormed(q) && LegalRun(q, ops)
    decreases ops
  {
    if ops == [] then [] else Taken(q, ops[0]) + Dispatched(Step(q, ops[0]), ops[1..])
  }

  /** The coroutines that a run appends to the ready queue, in order. */
  function Enqueued<C>(q: Queue<C>, ops: seq<Op<C>>): seq<C>
    requires WellFormed(q) && LegalRun(q, ops)
    decreases ops
  {
    if ops == [] then [] else Added(q, ops[0]) + Enqueued(Step(q, ops[0]), ops[1..])
  }

  lemma StepFifo<C>(q: Queue<C>, op: Op<C>)
    requires WellFormed(q) && Legal(q, op)
    ensures q.ready + Added(q, op) == Taken(q, op) + Step(q, op).ready
  {}

  /** First in, first out, over whole runs: what was ready followed by what was enqueued is
      what was dispatched followed by what is still ready. */
  lemma {:induction false} Fifo<C>(q: Queue<C>, ops: seq<Op<C>>)
    requires WellFormed(q) && LegalRun(q, ops)
    ensures q.ready + Enqueued(q, ops) == Dispatched(q, ops) + Run(q, ops).ready
    decreases ops
  {
    if ops != [] {
      var next := Step(q, ops[0]);
      StepFifo(q, ops[0]);
      Fifo(next, ops[1..]);
      var a, t := Added(q, ops[0]), Taken(q, ops[0]);
      Regroup(q.ready, a, Enqueued(next, ops[1..]), t, next.ready);
      Regroup(t, next.ready, Enqueued(next, ops[1..]), t, next.ready);
      Regroup(t, Dispatched(next, ops[1..]), Run(next, ops[1..]).ready, [], []);
      assert t + (next.ready + Enqueued(next, ops[1..]))
          == t + (Dispatched(next, ops[1..]) + Run(next, ops[1..]).ready);
    }
  }

  lemma Regroup<C>(a: seq<C>, b: seq<C>, c: seq<C>, d: seq<C>, e: seq<C>)
    ensures a + (b + c) == (a + b) + c
    ensures a + b == d + e ==> (a + b) + c == (d + e) + c
  {}

  /** One more step at the end of a run. */
  lemma {:induction false} RunSnoc<C>(q: Queue<C>, ops: seq<Op<C>>, op: Op<C>)
    requires WellFormed(q) && LegalRun(q, ops) && Legal(Run(q, ops), op)
    ensures LegalRun(q, ops + [op]) && Run(q, ops + [op]) == Step(Run(q, ops), op)
    decreases ops
  {
    var all := ops + [op];
    if ops == [] {
      assert all[1..] == [] && Run(q, all) == Run(Step(q, op), []);
    } else {
      RunSnoc(Step(q, ops[0]), ops[1..], op);
      assert all[0] == ops[0] && all[1..] == ops[1..] + [op];
    }
  }

  lemma {:induction false} DispatchedSnoc<C>(q: Queue<C>, ops: seq<Op<C>>, op: Op<C>)
    requires WellFormed(q) && LegalRun(q, ops) && Legal(Run(q, ops), op) && LegalRun(q, ops + [op])
    ensures Dispatched(q, ops + [op]) == Dispatched(q, ops) + Taken(Run(q, ops), op)
    decreases ops
  {
    var all := ops + [op];
    if ops == [] {
      assert all[1..] == [] && Dispatched(q, all) == Taken(q, op) + Dispatched(Step(q, op), []);
    } else {
      var next := Step(q, ops[0]);
      assert all[0] == ops[0] && all[1..] == ops[1..] + [op];
      DispatchedSnoc(next, ops[1..], op);
      Regroup(Taken(q, ops[0]), Dispatched(next, ops[1..]), Taken(Run(q, ops), op), [], []);
    }
  }

  /** Bounded waiting: whatever is posted meanwhile, the coroutine at index k is the one dispatched by the
      (k+1)-th switch, and until then each switch moves it one place forward. */
  lemma BoundedWaiting<C>(q: Queue<C>, ops: seq<Op<C>>, k: nat)
    requires WellFormed(q) && LegalRun(q, ops) && k < |q.ready|
    ensures var n := |Dispatched(q, ops)|;
            if k < n then Dispatched(q, ops)[k] == q.ready[k]
            else k - n < |Run(q, ops).ready| && Run(q, ops).ready[k - n] == q.ready[k]
  {
    Fifo(q, ops);
    assert (q.ready + Enqueued(q, ops))[k] == q.ready[k];
    var n := |Dispatched(q, ops)|;
    if n <= k {
      assert (Dispatched(q, ops) + Run(q, ops).ready)[k] == Run(q, ops).ready[k - n];
    }
  }

  /** One co_resched of the root: by the time as many switches have happened as bring the root back,
      exactly the coroutines that were ready have run, once each and in order, and everything posted since
      is queued behind. */
  lemma RootRound<C>(q: Queue<C>, ops: seq<Op<C>>)
    requires WellFormed(q) && LegalRun(q, ops)
    requires q.current == q.root && ops != [] && ops[0].Resched?
    requires |Dispatched(q, ops)| == |q.ready| + 1
    ensures Dispatched(q, ops) == q.ready + [q.root]
    ensures q.root !in q.ready
    ensures Run(q, ops).ready == Enqueued(q, ops)[1..]
  {
    Fifo(q, ops);
    var all := q.ready + Enqueued(q, ops);
    var n := |q.ready| + 1;
    assert Enqueued(q, ops)[0] == q.root;
    assert all[..n] == q.ready + [q.root];
    assert all[n..] == Enqueued(q, ops)[1..];
    assert (Dispatched(q, ops) + Run(q, ops).ready)[..n] == Dispatched(q, ops);
    assert (Dispatched(q, ops) + Run(q, ops).ready)[n..] == Run(q, ops).ready;
  }

  /** In every reachable kernel each live coroutine is in exactly one place: running, at exactly one
      queue position, or parked; and nothing in the queue has been destroyed. */
  lemma ExactlyOnePlace<C>(q: Queue<C>, ops: seq<Op<C>>, c: C)
    requires WellFormed(q) && LegalRun(q, ops)
    ensures var r := Run(q, ops);
            && (c in r.ready ==> c in r.live)
            && (c in r.live ==>
                  || (c == r.current && multiset(r.ready)[c] == 0 && !Parked(r, c))
                  || (c != r.current && multiset(r.ready)[c] == 1 && !Parked(r, c))
                  || (c != r.current && multiset(r.ready)[c] == 0 && Parked(r, c)))
  {
    var r := Run(q, ops);
    CountOnce(r.ready, c);
  }

  lemma {:induction false} CountOnce<C>(s: seq<C>, c: C)
    requires NoDuplicates(s)
    ensures multiset(s)[c] == if c in s then 1 else 0
  {
    if s != [] {
      assert s == [s[0]] + s[1..];
      CountOnce(s[1..], c);
    }
  }
}
