/** The drain loop of poll_forever (epoll.hpp): while coroutines are ready, the root reschedules. Each coroutine
    performs finitely many kernel calls before it exits, given as its script; whether it parks in between, and
    who wakes it, is up to the scripts. */
module Drain {
  import RQ = RunQueue

  /** Spawn is co_create with co_post; a script that has ended exits. */
  datatype Action = Post(c: nat) | Resched | Park | Spawn(body: seq<Action>)

  /** Coroutine c performs scripts[c] next; the root, coroutine 0, is the loop itself. */
  datatype System = System(queue: RQ.Queue<nat>, scripts: seq<seq<Action>>)

  predicate Good(s: System) {
    && RQ.WellFormed(s.queue) && s.queue.root == 0
    && forall c :: c in s.queue.live ==> c < |s.scripts|
  }

  /** How many kernel calls a script still makes, those of the coroutines it creates included. */
  function Weight(script: seq<Action>): nat {
    if script == [] then 0
    else (match script[0] case Spawn(body) => 2 + Weight(body) case _ => 1) + Weight(script[1..])
  }

  function Budget(scripts: seq<seq<Action>>): nat {
    if scripts == [] then 0 else Weight(scripts[0]) + Budget(scripts[1..])
  }

  lemma {:induction false} BudgetUpdate(scripts: seq<seq<Action>>, c: nat, script: seq<Action>)
    requires c < |scripts|
    ensures Budget(scripts[c := script]) == Budget(scripts) - Weight(scripts[c]) + Weight(script)
  {
    var after := scripts[c := script];
    if c == 0 {
      assert after[1..] == scripts[1..];
    } else {
      assert after[1..] == scripts[1..][c - 1 := script];
      BudgetUpdate(scripts[1..], c - 1, script);
    }
  }

  lemma {:induction false} BudgetAppend(scripts: seq<seq<Action>>, script: seq<Action>)
    ensures Budget(scripts + [script]) == Budget(scripts) + Weight(script)
  {
    if scripts != [] {
      assert (scripts + [script])[1..] == scripts[1..] + [script];
      BudgetAppend(scripts[1..], script);
    }
  }

  /** Posting a coroutine that is not parked breaks the clients' promise. */
  predicate Misuse(s: System)
    requires Good(s)
  {
    var script := s.scripts[s.queue.current];
    script != [] && script[0].Post? && !RQ.Parked(s.queue, script[0].c)
  }

  /** The kernel call that the running coroutine makes next; Spawn first adds the new coroutine, then posts it. */
  function NextOp(s: System): (op: RQ.Op<nat>)
    requires Good(s) && s.queue.current != 0 && !Misuse(s)
    ensures RQ.Legal(s.queue, op)
  {
    var script := s.scripts[s.queue.current];
    if script == [] then RQ.Exit
    else match script[0]
      case Post(c) => RQ.Post(c)
      case Resched => RQ.Resched
      case Park => RQ.Yield
      case Spawn(_) => RQ.Add(|s.scripts|)
  }

  /** The running coroutine makes its next kernel call. */
  function Act(s: System): (r: System)
    requires Good(s) && s.queue.current != 0 && !Misuse(s)
    ensures Good(r)
  {
    var me := s.queue.current;
    var script := s.scripts[me];
    var queue := RQ.Step(s.queue, NextOp(s));
    if script == [] then System(queue, s.scripts)
    else if script[0].Spawn? then
      System(queue, s.scripts[me := [Post(|s.scripts|)] + script[1..]] + [script[0].body])
    else System(queue, s.scripts[me := script[1..]])
  }

  /** What each call does to the queue and the scripts: a post queues the coroutine at the back, a reschedule the
      caller itself; who parks is in no queue afterwards, and who exits is no longer alive; a new coroutine is queued
      with its script before its creator goes on. */
  lemma ActDoes(s: System)
    requires Good(s) && s.queue.current != 0 && !Misuse(s)
    ensures s.queue.ready != []
    ensures var me, front, behind, live := s.queue.current, s.queue.ready[0], s.queue.ready[1..], s.queue.live;
      var script, n := s.scripts[me], |s.scripts|;
      if script == [] then Act(s) == System(RQ.Queue(0, front, behind, live - {me}), s.scripts)
      else var scripts := s.scripts[me := script[1..]];
        match script[0]
        case Post(c) => Act(s) == System(RQ.Queue(0, me, s.queue.ready + [c], live), scripts)
        case Resched => Act(s) == System(RQ.Queue(0, front, behind + [me], live), scripts)
        case Park => Act(s) == System(RQ.Queue(0, front, behind, live), scripts) && RQ.Parked(Act(s).queue, me)
        case Spawn(body) =>
          && Act(s).queue.current == me && !Misuse(Act(s))
          && Act(Act(s)) == System(RQ.Queue(0, me, s.queue.ready + [n], live + {n}), scripts + [body])
  {
    var script := s.scripts[s.queue.current];
    if script != [] && script[0].Spawn? {
      SpawnDoes(s);
    } else if script != [] && script[0].Resched? {
      assert (s.queue.ready + [s.queue.current])[1..] == s.queue.ready[1..] + [s.queue.current];
    }
  }

  lemma SpawnDoes(s: System)
    requires Good(s) && s.queue.current != 0 && !Misuse(s)
    requires s.scripts[s.queue.current] != [] && s.scripts[s.queue.current][0].Spawn?
    ensures var me, n := s.queue.current, |s.scripts|;
      && Act(s).queue.current == me && !Misuse(Act(s))
      && Act(Act(s)) == System(RQ.Queue(0, me, s.queue.ready + [n], s.queue.live + {n}),
                               s.scripts[me := s.scripts[me][1..]] + [s.scripts[me][0].body])
  {
    var me, n := s.queue.current, |s.scripts|;
    var rest := s.scripts[me][1..];
    var once := Act(s);
    assert once.scripts[me] == [Post(n)] + rest && ([Post(n)] + rest)[1..] == rest;
    assert once.scripts[me := rest] == s.scripts[me := rest] + [s.scripts[me][0].body];
  }

  // ---- The loop as steps of one system ----

  /** Nothing is left to do, or a client has broken its promise. */
  predicate Stuck(s: System)
    requires Good(s)
  {
    if s.queue.current == 0 then s.queue.ready == [] else Misuse(s)
  }

  /** The root reschedules, and everybody else makes its next call. */
  function CallOf(s: System): RQ.Op<nat>
    requires Good(s) && !Stuck(s)
  {
    if s.queue.current == 0 then RQ.Resched else NextOp(s)
  }

  function Go(s: System): (r: System)
    requires Good(s) && !Stuck(s)
    ensures Good(r) && RQ.Legal(s.queue, CallOf(s)) && r.queue == RQ.Step(s.queue, CallOf(s))
  {
    if s.queue.current == 0 then s.(queue := RQ.Step(s.queue, RQ.Resched)) else Act(s)
  }

  /** The system gets from s to r, and these are the calls made. */
  predicate GoesTo(s: System, calls: seq<RQ.Op<nat>>, r: System)
    requires Good(s)
    decreases calls
  {
    if calls == [] then r == s else !Stuck(s) && calls[0] == CallOf(s) && GoesTo(Go(s), calls[1..], r)
  }

  lemma {:induction false} GoesFurther(s: System, calls: seq<RQ.Op<nat>>, r: System)
    requires Good(s) && Good(r) && GoesTo(s, calls, r) && !Stuck(r)
    ensures GoesTo(s, calls + [CallOf(r)], Go(r))
    decreases calls
  {
    var all := calls + [CallOf(r)];
    if calls == [] {
      assert all[1..] == [] && GoesTo(Go(s), all[1..], Go(r));
    } else {
      assert all[1..] == calls[1..] + [CallOf(r)];
      GoesFurther(Go(s), calls[1..], r);
    }
  }

  lemma ConsOf<T>(a: seq<T>, b: seq<T>)
    requires a != []
    ensures a + b != [] && (a + b)[0] == a[0] && (a + b)[1..] == a[1..] + b
  {}

  lemma {:induction false} GoesOn(s: System, a: seq<RQ.Op<nat>>, r: System, b: seq<RQ.Op<nat>>, t: System)
    requires Good(s) && Good(r) && GoesTo(s, a, r) && GoesTo(r, b, t)
    ensures GoesTo(s, a + b, t)
    decreases a
  {
    if a == [] {
      assert a + b == b;
    } else {
      ConsOf(a, b);
      GoesOn(Go(s), a[1..], r, b, t);
    }
  }

  /** There is one way to go on, and so one place to get stuck. */
  lemma {:induction false} OneWay(s: System, a: seq<RQ.Op<nat>>, r: System, b: seq<RQ.Op<nat>>, t: System)
    requires Good(s) && GoesTo(s, a, r) && GoesTo(s, b, t) && Good(r) && Stuck(r) && Good(t) && Stuck(t)
    ensures a == b && r == t
    decreases a
  {
    if a != [] {
      OneWay(Go(s), a[1..], r, b[1..], t);
      assert a == [a[0]] + a[1..] && b == [b[0]] + b[1..];
    }
  }

  /** The calls are a legal run of the ready queue. */
  lemma {:induction false} GoesLegally(s: System, calls: seq<RQ.Op<nat>>, r: System)
    requires Good(s) && GoesTo(s, calls, r)
    ensures RQ.LegalRun(s.queue, calls) && RQ.Run(s.queue, calls) == r.queue
    decreases calls
  {
    if calls != [] {
      GoesLegally(Go(s), calls[1..], r);
    }
  }

  /** Whoever is ready at the start runs before the queue is empty, in order. */
  lemma Drained(s: System, calls: seq<RQ.Op<nat>>, r: System)
    requires Good(s) && GoesTo(s, calls, r) && r.queue.ready == []
    ensures RQ.LegalRun(s.queue, calls) && s.queue.ready <= RQ.Dispatched(s.queue, calls)
  {
    GoesLegally(s, calls, r);
    RQ.Fifo(s.queue, calls);
    assert RQ.Dispatched(s.queue, calls) + r.queue.ready == RQ.Dispatched(s.queue, calls);
  }

  /** Less is left to do in r than in s. */
  predicate Less(r: System, s: System) {
    || Budget(r.scripts) < Budget(s.scripts)
    || (Budget(r.scripts) == Budget(s.scripts) && |r.queue.ready| < |s.queue.ready|)
  }

  /** Every call uses up budget, or ends a coroutine for good. */
  lemma ActDecreases(s: System)
    requires Good(s) && s.queue.current != 0 && !Misuse(s)
    ensures Less(Act(s), s)
  {
    var me := s.queue.current;
    var script := s.scripts[me];
    if script != [] {
      var rest := if script[0].Spawn? then [Post(|s.scripts|)] + script[1..] else script[1..];
      BudgetUpdate(s.scripts, me, rest);
      if script[0].Spawn? {
        assert rest[1..] == script[1..];
        BudgetAppend(s.scripts[me := rest], script[0].body);
      }
    }
  }

  /** The root has rescheduled, this is what happened since, and it has not been dispatched again before now. */
  ghost predicate Underway(q: RQ.Queue<nat>, trace: seq<RQ.Op<nat>>, r: RQ.Queue<nat>) {
    && RQ.WellFormed(q) && RQ.LegalRun(q, trace) && RQ.Run(q, trace) == r
    && trace != [] && trace[0] == RQ.Resched
    && var d := RQ.Dispatched(q, trace);
       d != [] && d[|d| - 1] == r.current && 0 !in d[..|d| - 1]
  }

  lemma Begin(q: RQ.Queue<nat>)
    requires RQ.WellFormed(q)
    ensures Underway(q, [RQ.Resched], RQ.Step(q, RQ.Resched))
  {
    RQ.RunSnoc(q, [], RQ.Resched);
    RQ.DispatchedSnoc(q, [], RQ.Resched);
    assert [] + [RQ.Op<nat>.Resched] == [RQ.Resched];
  }

  lemma Extend(q: RQ.Queue<nat>, trace: seq<RQ.Op<nat>>, r: RQ.Queue<nat>, op: RQ.Op<nat>)
    requires Underway(q, trace, r) && r.current != 0 && RQ.Legal(r, op)
    ensures Underway(q, trace + [op], RQ.Step(r, op))
  {
    RQ.RunSnoc(q, trace, op);
    RQ.DispatchedSnoc(q, trace, op);
    var d := RQ.Dispatched(q, trace);
    assert d == d[..|d| - 1] + [d[|d| - 1]];
  }

  /** The root comes back exactly when everything that was ready has run. */
  lemma RootIsBack(q: RQ.Queue<nat>, trace: seq<RQ.Op<nat>>, r: RQ.Queue<nat>)
    requires Underway(q, trace, r) && q.root == 0 && q.current == 0 && r.current == 0
    ensures RQ.Dispatched(q, trace) == q.ready + [0]
  {
    var d := RQ.Dispatched(q, trace);
    var n := |q.ready|;
    RQ.Fifo(q, trace);
    var all := d + r.ready;
    assert all == q.ready + RQ.Enqueued(q, trace) && RQ.Enqueued(q, trace)[0] == 0;
    assert all[n] == 0 && all[|d| - 1] == 0;
    assert forall i :: 0 <= i < n ==> all[i] == q.ready[i];
    assert forall i :: 0 <= i < |d| - 1 ==> all[i] == d[..|d| - 1][i];
    assert |d| - 1 == n;
    assert all[..n + 1] == d && all[..n + 1] == q.ready + [0];
  }

  /** One co_resched of the root returns. The trace is what the scripts call: the coroutines that were ready ran once
      each, in order, then the root; and there is less left to do than before. */
  method CoResched(s: System) returns (r: System, ok: bool, ghost trace: seq<RQ.Op<nat>>)
    requires Good(s) && s.queue.current == 0 && s.queue.ready != []
    ensures Good(r) && (if ok then r.queue.current == 0 else r.queue.current != 0 && Misuse(r))
    ensures GoesTo(s, trace, r)
    ensures RQ.LegalRun(s.queue, trace) && RQ.Run(s.queue, trace) == r.queue
    ensures ok ==> RQ.Dispatched(s.queue, trace) == s.queue.ready + [0]
    ensures Budget(r.scripts) <= Budget(s.scripts)
    ensures ok ==> Less(r, s)
  {
    r := s.(queue := RQ.Step(s.queue, RQ.Resched));
    trace := [RQ.Resched];
    Begin(s.queue);
    GoesFurther(s, [], s);
    assert [] + trace == trace;
    while r.queue.current != 0
      invariant Good(r) && Underway(s.queue, trace, r.queue) && GoesTo(s, trace, r)
      invariant (r.scripts == s.scripts && |r.queue.ready| == |s.queue.ready| && r.queue.current != 0) || Less(r, s)
      decreases Budget(r.scripts), |r.queue.ready|
    {
      if Misuse(r) {
        return r, false, trace;
      }
      ActDecreases(r);
      GoesFurther(s, trace, r);
      Extend(s.queue, trace, r.queue, NextOp(r));
      trace := trace + [NextOp(r)];
      r := Act(r);
    }
    RootIsBack(s.queue, trace, r.queue);
    ok := true;
  }

  /** The drain loop ends where the scripts lead, with nobody ready but the root running, unless a client broke its
      promise; and whoever was ready has run, in order. */
  method DrainLoop(s: System) returns (r: System, ok: bool, ghost trace: seq<RQ.Op<nat>>)
    requires Good(s) && s.queue.current == 0
    ensures Good(r) && Stuck(r) && ok == (r.queue.current == 0)
    ensures GoesTo(s, trace, r)
    ensures RQ.LegalRun(s.queue, trace) && RQ.Run(s.queue, trace) == r.queue
    ensures ok ==> s.queue.ready <= RQ.Dispatched(s.queue, trace)
    ensures Budget(r.scripts) <= Budget(s.scripts)
  {
    r, ok, trace := s, true, [];
    while |r.queue.ready| > 0
      invariant Good(r) && r.queue.current == 0 && ok && Budget(r.scripts) <= Budget(s.scripts)
      invariant GoesTo(s, trace, r)
      decreases Budget(r.scripts), |r.queue.ready|
    {
      ghost var before, more := r, [];
      r, ok, more := CoResched(r);
      GoesOn(s, trace, before, more, r);
      trace := trace + more;
      if !ok {
        GoesLegally(s, trace, r);
        return;
      }
    }
    Drained(s, trace, r);
    GoesLegally(s, trace, r);
  }
}
