/** The record of who waits for what on a descriptor (async_file_event in epoll.hpp), as a value. */
module Events {
  import opened Common

  datatype Flag = CanRead | CanWrite | Error

  /** event_, waited_, waited_mask_ and the three coroutine pointers. */
  datatype Event<C> = Event(event: set<Flag>, waited: set<Flag>, mask: set<Flag>,
                            coRead: Option<C>, coWrite: Option<C>, coWait: Option<C>)

  function Waiter<C>(e: Event<C>, dir: Flag): Option<C> {
    if dir == CanRead then e.coRead else if dir == CanWrite then e.coWrite else None
  }

  function SetWaiter<C>(e: Event<C>, dir: Flag, c: Option<C>): Event<C> {
    if dir == CanRead then e.(coRead := c) else if dir == CanWrite then e.(coWrite := c) else e
  }

  function Listed<C>(c: Option<C>): seq<C> {
    if c.Some? then [c.value] else []
  }

  /** The coroutines that trigger posts once event_ has been updated. */
  function Posted<C>(e: Event<C>): seq<C> {
    (if CanWrite in e.waited * e.event then Listed(e.coWrite) else [])
    + (if CanRead in e.waited * e.event then Listed(e.coRead) else [])
    + (if e.mask * e.event != {} then Listed(e.coWait) else [])
  }

  /** No null pointer is posted. */
  predicate WaitersKnown<C>(e: Event<C>) {
    && (CanRead in e.waited ==> e.coRead.Some?)
    && (CanWrite in e.waited ==> e.coWrite.Some?)
    && (e.mask != {} ==> e.coWait.Some?)
  }

  /** poll_forever reports readable and writable whatever the kernel said. */
  const REPORTED: set<Flag> := {CanRead, CanWrite}
}

/** The edge-triggered event loop (poll_forever, trigger and the retry loops of epoll.hpp) and the kernel beside
    it, as a protocol: the kernel may step at any time between the steps of the coroutines. */
module EventLoop {
  import opened Common
  import opened Events
  import RQ = RunQueue

  /** The kernel's side of a descriptor: bytes to read, room to write, an error or a hang-up, and an edge not yet
      reported. */
  datatype Channel = Channel(data: nat, room: nat, failed: bool, edge: bool)

  /** Where a coroutine is in a retry loop: about to call read or write; told EAGAIN and about to yield; yielded;
      or yielded in async_wait. */
  datatype Pc =
    | Idle | Trying(fd: nat, dir: Flag) | Refused(fd: nat, dir: Flag) | Parked(fd: nat, dir: Flag)
    | Waiting(fd: nat, mask: set<Flag>)

  /** Where the root is in poll_forever; rest is the unprocessed part of the current batch. */
  datatype Phase = Draining | Polling | Dispatching(rest: seq<nat>)

  /** users says which coroutine is inside a read, a write or an async_wait (Error) on a descriptor. */
  datatype State = State(q: RQ.Queue<nat>, phase: Phase, pcs: map<nat, Pc>,
                         events: map<nat, Event<nat>>, channels: map<nat, Channel>, users: map<(nat, Flag), nat>)

  datatype Label =
    | Arrive(fd: nat, n: nat) | Free(fd: nat, n: nat) | Fail(fd: nat) | Discard(fd: nat)
    | LoopResched | LoopPoll | EpollWait(batch: seq<nat>) | Trigger | BatchDone
    | Spawn(c: nat) | Post(c: nat) | CoResched | CoYield | CoExit
    | Begin(fd: nat, dir: Flag) | Transfer(n: nat) | Finish | Again | Park | Unpark
    | AsyncWait(fd: nat, mask: set<Flag>) | WaitDone

  const MAX_EVENTS := 10

  /** A call of read or write would not be told EAGAIN: there is something to move, or an error to return. */
  predicate Ready(ch: Channel, dir: Flag) {
    (dir == CanRead && (ch.data > 0 || ch.failed)) || (dir == CanWrite && (ch.room > 0 || ch.failed))
  }

  predicate Offers(ch: Channel) {
    Ready(ch, CanRead) || Ready(ch, CanWrite)
  }

  function Rest(s: State): seq<nat> {
    if s.phase.Dispatching? then s.phase.rest else []
  }

  /** What the running coroutine is doing; the root is in poll_forever instead. */
  function Pc0(s: State): Pc {
    if s.q.current != s.q.root && s.q.current in s.pcs then s.pcs[s.q.current] else Idle
  }

  /** One coroutine at a time is inside a read, a write or an async_wait on a descriptor, and a batch lists
      distinct descriptors with an unreported edge; an edge may also be dropped while its descriptor offers nothing.
      Outside of I/O a coroutine may yield, and post whoever has yielded, also a coroutine that waits for I/O.
      The rest is what the source does. */
  predicate Enabled(s: State, l: Label) {
    var isRoot := s.q.current == s.q.root;
    var pc := Pc0(s);
    match l
    case Arrive(fd, _) => fd in s.channels
    case Free(fd, _) => fd in s.channels
    case Fail(fd) => fd in s.channels
    case Discard(fd) => fd in s.channels && !Offers(s.channels[fd])
    case LoopResched => isRoot && s.phase.Draining? && s.q.ready != []
    case LoopPoll => isRoot && s.phase.Draining? && s.q.ready == []
    case EpollWait(batch) =>
      && isRoot && s.phase.Polling? && NoDuplicates(batch) && |batch| <= MAX_EVENTS
      && forall fd :: fd in batch ==> fd in s.channels && s.channels[fd].edge
    case Trigger => isRoot && s.phase.Dispatching? && s.phase.rest != []
    case BatchDone => isRoot && s.phase.Dispatching? && s.phase.rest == []
    case Spawn(c) => c !in s.q.live && s.phase.Draining?
    case Post(c) => RQ.Parked(s.q, c) && s.phase.Draining? && pc.Idle?
    case CoResched => !isRoot && pc.Idle?
    case CoYield => !isRoot && pc.Idle?
    case CoExit => !isRoot && pc.Idle?
    case Begin(fd, dir) => !isRoot && pc.Idle? && fd in s.events && dir in REPORTED && (fd, dir) !in s.users
    case Transfer(n) =>
      && !isRoot && pc.Trying? && pc.fd in s.channels && Ready(s.channels[pc.fd], pc.dir)
      && 0 < n <= if pc.dir == CanRead then s.channels[pc.fd].data else s.channels[pc.fd].room
    case Finish => !isRoot && pc.Trying?
    case Again => !isRoot && pc.Trying? && pc.fd in s.channels && !Ready(s.channels[pc.fd], pc.dir)
    case Park => !isRoot && pc.Refused?
    case Unpark => !isRoot && pc.Parked?
    case AsyncWait(fd, _) => !isRoot && pc.Idle? && fd in s.events && (fd, Error) !in s.users
    case WaitDone => !isRoot && pc.Waiting?
  }

  function SetPc(s: State, pc: Pc): State {
    s.(pcs := s.pcs[s.q.current := pc])
  }

  function Next(s: State, l: Label): State
    requires Inv(s) && Enabled(s, l)
  {
    var me := s.q.current;
    var pc := Pc0(s);
    assert me in s.pcs ==> PcOk(s, me);
    match l
    case Arrive(fd, n) =>
      var ch := s.channels[fd];
      s.(channels := s.channels[fd := ch.(data := ch.data + n, edge := ch.edge || n > 0)])
    case Free(fd, n) =>
      var ch := s.channels[fd];
      s.(channels := s.channels[fd := ch.(room := ch.room + n, edge := ch.edge || n > 0)])
    case Fail(fd) => s.(channels := s.channels[fd := s.channels[fd].(failed := true, edge := true)])
    case Discard(fd) => s.(channels := s.channels[fd := s.channels[fd].(edge := false)])
    case LoopResched => s.(q := RQ.Step(s.q, RQ.Resched))
    case LoopPoll => s.(phase := Polling)
    case EpollWait(batch) =>
      s.(phase := Dispatching(batch),
         channels := map fd | fd in s.channels ::
           if fd in batch then s.channels[fd].(edge := false) else s.channels[fd])
    case Trigger =>
      var fd := s.phase.rest[0];
      var e := s.events[fd].(event := s.events[fd].event + REPORTED);
      s.(phase := Dispatching(s.phase.rest[1..]), events := s.events[fd := e],
         q := s.q.(ready := s.q.ready + Posted(e)))
    case BatchDone => s.(phase := Draining)
    case Spawn(c) => s.(q := RQ.Step(RQ.Step(s.q, RQ.Add(c)), RQ.Post(c)), pcs := s.pcs[c := Idle])
    case Post(c) => s.(q := RQ.Step(s.q, RQ.Post(c)))
    case CoResched => s.(q := RQ.Step(s.q, RQ.Resched))
    case CoYield => s.(q := RQ.Step(s.q, RQ.Yield))
    case CoExit => s.(q := RQ.Step(s.q, RQ.Exit), pcs := s.pcs - {me})
    case Begin(fd, dir) => SetPc(s, Trying(fd, dir)).(users := s.users[(fd, dir) := me])
    case Transfer(n) =>
      var ch := s.channels[pc.fd];
      s.(channels := s.channels[
           pc.fd := if pc.dir == CanRead then ch.(data := ch.data - n) else ch.(room := ch.room - n)])
    case Finish => SetPc(s, Idle).(users := s.users - {(pc.fd, pc.dir)})
    case Again => SetPc(s, Refused(pc.fd, pc.dir))
    case Park =>
      var e := s.events[pc.fd];
      SetPc(s, Parked(pc.fd, pc.dir)).(
        events := s.events[pc.fd := SetWaiter(e.(waited := e.waited + {pc.dir}), pc.dir, Some(me))],
        q := RQ.Step(s.q, RQ.Yield))
    case Unpark =>
      var e := s.events[pc.fd];
      SetPc(s, Trying(pc.fd, pc.dir)).(
        events := s.events[pc.fd := SetWaiter(e.(waited := e.waited - {pc.dir}), pc.dir, None)])
    case AsyncWait(fd, mask) =>
      var e := s.events[fd];
      if e.event * mask != {} then s
      else
        SetPc(s, Waiting(fd, mask)).(
          events := s.events[fd := e.(mask := mask, coWait := Some(me))],
          users := s.users[(fd, Error) := me],
          q := RQ.Step(s.q, RQ.Yield))
    case WaitDone =>
      var e := s.events[pc.fd];
      SetPc(s, Idle).(events := s.events[pc.fd := e.(mask := {}, coWait := None)], users := s.users - {(pc.fd, Error)})
  }

  /** A coroutine that has yielded and not been posted since. */
  predicate Asleep(s: State, c: nat) {
    c != s.q.current && c !in s.q.ready
  }

  predicate PcOk(s: State, c: nat)
    requires c in s.pcs
  {
    match s.pcs[c]
    case Idle => true
    case Trying(fd, dir) => fd in s.events && dir in REPORTED && (fd, dir) in s.users && s.users[(fd, dir)] == c
    case Refused(fd, dir) =>
      && fd in s.events && dir in REPORTED && (fd, dir) in s.users && s.users[(fd, dir)] == c
      && c == s.q.current
      && (fd in s.channels && Ready(s.channels[fd], dir) ==> s.channels[fd].edge)
    case Parked(fd, dir) =>
      && fd in s.events && dir in REPORTED && (fd, dir) in s.users && s.users[(fd, dir)] == c
      && dir in s.events[fd].waited && Waiter(s.events[fd], dir) == Some(c)
      && (fd in Rest(s) ==> Asleep(s, c))
      && (Asleep(s, c) && fd in s.channels && Ready(s.channels[fd], dir) ==> s.channels[fd].edge || fd in Rest(s))
    case Waiting(fd, mask) =>
      && fd in s.events && (fd, Error) in s.users && s.users[(fd, Error)] == c
      && s.events[fd].mask == mask && s.events[fd].coWait == Some(c)
      && (fd in Rest(s) ==> Asleep(s, c))
      && (Asleep(s, c) ==> mask * s.events[fd].event == {})
  }

  /** Every report is of both bits, so a record that has none is of a descriptor never reported: what that offers
      still has an edge coming, or is in the rest of the batch. */
  predicate ReportOk(s: State, fd: nat)
    requires fd in s.events
  {
    var e := s.events[fd];
    && (e.event == {} || e.event == REPORTED)
    && (e.event == {} && fd in s.channels && Offers(s.channels[fd]) ==> s.channels[fd].edge || fd in Rest(s))
  }

  predicate WaiterOk(s: State, fd: nat, dir: Flag)
    requires fd in s.events
  {
    var c := Waiter(s.events[fd], dir);
    dir in s.events[fd].waited ==> c.Some? && c.value in s.pcs && s.pcs[c.value] == Parked(fd, dir)
  }

  /** Whom the record names as waiting is indeed parked there, and nobody is named who is not. */
  predicate RecordOk(s: State, fd: nat)
    requires fd in s.events
  {
    var e := s.events[fd];
    && e.waited <= REPORTED && WaiterOk(s, fd, CanRead) && WaiterOk(s, fd, CanWrite)
    && (e.mask != {} ==> e.coWait.Some? && e.coWait.value in s.pcs && s.pcs[e.coWait.value] == Waiting(fd, e.mask))
  }

  predicate EventOk(s: State, fd: nat)
    requires fd in s.events
  {
    ReportOk(s, fd) && RecordOk(s, fd)
  }

  predicate ShapeOk(s: State) {
    && RQ.WellFormed(s.q)
    && s.pcs.Keys == s.q.live - {s.q.root}
    && s.events.Keys == s.channels.Keys
    && (!s.phase.Draining? ==> s.q.current == s.q.root)
    && (s.phase.Polling? ==> s.q.ready == [])
    && NoDuplicates(Rest(s))
    && (forall fd :: fd in Rest(s) ==> fd in s.events)
  }

  predicate Inv(s: State) {
    && ShapeOk(s)
    && (forall c {:trigger PcOk(s, c)} :: c in s.pcs ==> PcOk(s, c))
    && (forall fd {:trigger EventOk(s, fd)} :: fd in s.events ==> EventOk(s, fd))
  }

  /** Before anything has run: only the root, no waiter anywhere, and an edge on every descriptor that offers
      something, as registering it arms one. */
  predicate Init(s: State) {
    && s.q == RQ.Queue(s.q.root, s.q.root, [], {s.q.root}) && s.phase == Draining && s.pcs == map[]
    && s.users == map[] && s.events.Keys == s.channels.Keys
    && (forall fd :: fd in s.events ==> s.events[fd] == Event({}, {}, {}, None, None, None))
    && (forall fd :: fd in s.channels && Offers(s.channels[fd]) ==> s.channels[fd].edge)
  }

  lemma InitInv(s: State)
    requires Init(s)
    ensures Inv(s)
  {}

  // ---- What every step does to the ready queue ----

  /** The event record that trigger leaves behind for the head of the batch. */
  function Updated(s: State): Event<nat>
    requires Inv(s) && Enabled(s, Trigger)
  {
    var e := s.events[s.phase.rest[0]];
    e.(event := e.event + REPORTED)
  }

  lemma PostedSleeps(s: State, c: nat)
    requires Inv(s) && Enabled(s, Trigger) && c in Posted(Updated(s))
    ensures c in s.pcs && Asleep(s, c)
    ensures (s.pcs[c].Parked? || s.pcs[c].Waiting?) && s.pcs[c].fd == s.phase.rest[0]
  {
    assert EventOk(s, s.phase.rest[0]);
    assert c in s.pcs && PcOk(s, c);
  }

  lemma PostedOnce(s: State)
    requires Inv(s) && Enabled(s, Trigger)
    ensures NoDuplicates(Posted(Updated(s)))
  {
    var e := Updated(s);
    assert EventOk(s, s.phase.rest[0]);
    assert CanRead in e.waited && CanWrite in e.waited ==> e.coRead.value != e.coWrite.value;
    assert CanRead in e.waited && e.mask != {} ==> e.coRead.value != e.coWait.value;
    assert CanWrite in e.waited && e.mask != {} ==> e.coWrite.value != e.coWait.value;
  }

  /** No duplicate wakeup: trigger posts each coroutine at most once, and only ones that have yielded on this
      very descriptor and have not been posted since; however sticky event_ is. */
  lemma TriggerPostsSleepers(s: State)
    requires Inv(s) && Enabled(s, Trigger)
    ensures var fd := s.phase.rest[0];
            && NoDuplicates(Posted(Updated(s)))
            && forall c :: c in Posted(Updated(s)) ==>
                 && c in s.pcs && Asleep(s, c)
                 && ((s.pcs[c].Parked? || s.pcs[c].Waiting?) && s.pcs[c].fd == fd)
  {
    PostedOnce(s);
    forall c | c in Posted(Updated(s))
      ensures c in s.pcs && Asleep(s, c) && (s.pcs[c].Parked? || s.pcs[c].Waiting?) && s.pcs[c].fd == s.phase.rest[0]
    {
      PostedSleeps(s, c);
    }
  }

  /** Trigger wakes exactly those who sleep on its descriptor and may go on: every reader and writer, and an
      async_wait if it waits for something that is ever reported. */
  lemma TriggerWakes(s: State, c: nat)
    requires Inv(s) && Enabled(s, Trigger) && c in s.pcs
    ensures c in Posted(Updated(s)) <==> WakesOn(s.pcs[c], s.phase.rest[0])
  {
    if c in Posted(Updated(s)) {
      PostedSleeps(s, c);
    }
    assert PcOk(s, c) && EventOk(s, s.phase.rest[0]);
  }

  /** What a report of the descriptor wakes. */
  predicate WakesOn(pc: Pc, fd: nat) {
    (pc.Parked? && pc.fd == fd) || (pc.Waiting? && pc.fd == fd && pc.mask * REPORTED != {})
  }

  lemma InConcat<T>(a: seq<T>, b: seq<T>, x: T)
    ensures x in a + b <==> x in a || x in b
  {}

  lemma ConsConcat<T>(a: seq<T>, b: seq<T>)
    requires a != []
    ensures a + b == [a[0]] + (a[1..] + b)
  {}

  lemma TriggerQueue(s: State)
    requires Inv(s) && Enabled(s, Trigger)
    ensures RQ.WellFormed(Next(s, Trigger).q)
  {
    TriggerPostsSleepers(s);
    var posted := Posted(Updated(s));
    var ready := s.q.ready + posted;
    assert forall c :: c in ready <==> c in s.q.ready || c in posted;
    NoDuplicatesConcat(s.q.ready, posted);
  }

  /** The labels at which the processor changes hands. */
  predicate Switches(l: Label) {
    l.LoopResched? || l.CoResched? || l.CoYield? || l.CoExit? || l.Park? || l.AsyncWait?
  }

  lemma SwitchMoves(s: State, l: Label, c: nat)
    requires Inv(s) && Enabled(s, l) && Switches(l) && c in s.pcs && c != s.q.current
    ensures c in Next(s, l).pcs && Next(s, l).pcs[c] == s.pcs[c]
    ensures c in s.q.ready <==> c in Next(s, l).q.ready || c == Next(s, l).q.current
  {
    if l.LoopResched? || l.CoResched? {
      RQ.StepMoves(s.q, RQ.Resched);
    } else if l.CoExit? {
      RQ.StepMoves(s.q, RQ.Exit);
    } else {
      RQ.StepMoves(s.q, RQ.Yield);
    }
  }

  /** Of the others, nobody leaves the queue but by being dispatched, and nobody enters it but by being posted. */
  lemma QueueMoves(s: State, l: Label, c: nat)
    requires Inv(s) && Enabled(s, l) && !l.Trigger?
    requires c in s.pcs && c != s.q.current
    ensures c in Next(s, l).pcs && Next(s, l).pcs[c] == s.pcs[c]
    ensures c in s.q.ready || l == Post(c) <==> c in Next(s, l).q.ready || c == Next(s, l).q.current
  {
    if Switches(l) {
      SwitchMoves(s, l, c);
    }
  }

  // ---- The invariant, part by part ----

  lemma ShapeStep(s: State, l: Label)
    requires Inv(s) && Enabled(s, l)
    ensures ShapeOk(Next(s, l))
  {
    if l.Trigger? {
      TriggerQueue(s);
    } else if OfRoot(l) {
      RootShape(s, l);
    } else if l.Park? || l.AsyncWait? {
      WaitShape(s, l);
    } else if l.Unpark? || l.WaitDone? {
      ResumeShape(s, l);
    } else if l.Begin? || l.Transfer? || l.Finish? || l.Again? {
      StillShape(s, l);
    } else {
      OwnShape(s, l);
    }
  }

  lemma RootShape(s: State, l: Label)
    requires Inv(s) && Enabled(s, l) && OfRoot(l)
    ensures ShapeOk(Next(s, l))
  {}

  lemma StillShape(s: State, l: Label)
    requires Inv(s) && Enabled(s, l) && (l.Begin? || l.Transfer? || l.Finish? || l.Again?)
    ensures ShapeOk(Next(s, l))
  {}

  lemma WaitShape(s: State, l: Label)
    requires Inv(s) && Enabled(s, l) && (l.Park? || l.AsyncWait?)
    ensures ShapeOk(Next(s, l))
  {
    assert PcOk(s, s.q.current);
  }

  lemma ResumeShape(s: State, l: Label)
    requires Inv(s) && Enabled(s, l) && (l.Unpark? || l.WaitDone?)
    ensures ShapeOk(Next(s, l))
  {
    assert PcOk(s, s.q.current);
  }

  lemma OwnShape(s: State, l: Label)
    requires Inv(s) && Enabled(s, l) && (l.Spawn? || l.Post? || l.CoResched? || l.CoYield? || l.CoExit?)
    ensures ShapeOk(Next(s, l))
  {}

  predicate OfRoot(l: Label) {
    l.Arrive? || l.Free? || l.Fail? || l.Discard? || l.LoopResched? || l.LoopPoll? || l.EpollWait? || l.BatchDone?
  }

  /** The steps that write the record of who waits. */
  predicate OfWait(l: Label) {
    l.Park? || l.Unpark? || l.AsyncWait? || l.WaitDone?
  }

  /** The coroutine that is running. */
  lemma OwnPc(s: State, l: Label)
    requires Inv(s) && Enabled(s, l) && !l.Trigger? && !OfRoot(l)
    requires s.q.current in s.pcs && s.q.current in Next(s, l).pcs
    ensures PcOk(Next(s, l), s.q.current)
  {
    assert PcOk(s, s.q.current);
    if l.AsyncWait? {
      RQ.StepMoves(s.q, RQ.Yield);
    }
  }

  /** A coroutine that is not running, at a step of the kernel or of the root's loop. */
  lemma OtherPcOfRoot(s: State, l: Label, c: nat)
    requires Inv(s) && Enabled(s, l) && OfRoot(l) && c in s.pcs
    ensures c in Next(s, l).pcs && PcOk(Next(s, l), c)
  {
    assert PcOk(s, c);
    if c != s.q.current {
      QueueMoves(s, l, c);
    }
  }

  /** A coroutine that is not running, at a step of the one that is: they use different descriptors or directions. */
  lemma OtherPcOfPark(s: State, c: nat)
    requires Inv(s) && Enabled(s, Park) && c in s.pcs && c != s.q.current
    ensures c in Next(s, Park).pcs && PcOk(Next(s, Park), c)
  {
    assert PcOk(s, c) && PcOk(s, s.q.current);
    QueueMoves(s, Park, c);
  }

  lemma OtherPcOfAsyncWait(s: State, l: Label, c: nat)
    requires Inv(s) && Enabled(s, l) && l.AsyncWait? && c in s.pcs && c != s.q.current
    ensures c in Next(s, l).pcs && PcOk(Next(s, l), c)
  {
    assert PcOk(s, c);
    QueueMoves(s, l, c);
  }

  lemma OtherPcOfResume(s: State, l: Label, c: nat)
    requires Inv(s) && Enabled(s, l) && (l.Unpark? || l.WaitDone?) && c in s.pcs && c != s.q.current
    ensures c in Next(s, l).pcs && PcOk(Next(s, l), c)
  {
    assert PcOk(s, c) && PcOk(s, s.q.current);
    QueueMoves(s, l, c);
  }

  lemma OtherPc(s: State, l: Label, c: nat)
    requires Inv(s) && Enabled(s, l) && !l.Trigger? && !OfRoot(l) && !OfWait(l) && c in s.pcs && c != s.q.current
    ensures c in Next(s, l).pcs && PcOk(Next(s, l), c)
  {
    assert PcOk(s, c) && (s.q.current in s.pcs ==> PcOk(s, s.q.current));
    QueueMoves(s, l, c);
  }

  lemma TriggerPc(s: State, c: nat)
    requires Inv(s) && Enabled(s, Trigger) && c in s.pcs
    ensures PcOk(Next(s, Trigger), c)
  {
    TriggerWakes(s, c);
    InConcat(s.q.ready, Posted(Updated(s)), c);
    assert PcOk(s, c);
  }

  lemma PcStep(s: State, l: Label, c: nat)
    requires Inv(s) && Enabled(s, l) && c in Next(s, l).pcs
    ensures PcOk(Next(s, l), c)
  {
    if l.Trigger? {
      TriggerPc(s, c);
    } else if OfRoot(l) {
      OtherPcOfRoot(s, l, c);
    } else if c == s.q.current {
      OwnPc(s, l);
    } else if l.Park? {
      OtherPcOfPark(s, c);
    } else if l.AsyncWait? {
      OtherPcOfAsyncWait(s, l, c);
    } else if l.Unpark? || l.WaitDone? {
      OtherPcOfResume(s, l, c);
    } else if c in s.pcs {
      OtherPc(s, l, c);
    }
  }

  lemma ReportOfTrigger(s: State, fd: nat)
    requires Inv(s) && Enabled(s, Trigger) && fd in s.events
    ensures fd in Next(s, Trigger).events && ReportOk(Next(s, Trigger), fd)
  {
    assert EventOk(s, fd);
    assert Rest(s) == [s.phase.rest[0]] + Rest(Next(s, Trigger));
  }

  lemma ReportOfRoot(s: State, l: Label, fd: nat)
    requires Inv(s) && Enabled(s, l) && OfRoot(l) && fd in s.events
    ensures fd in Next(s, l).events && ReportOk(Next(s, l), fd)
  {
    assert EventOk(s, fd);
  }

  lemma ReportStep(s: State, l: Label, fd: nat)
    requires Inv(s) && Enabled(s, l) && fd in s.events
    ensures fd in Next(s, l).events && ReportOk(Next(s, l), fd)
  {
    if l.Trigger? {
      ReportOfTrigger(s, fd);
    } else if OfRoot(l) {
      ReportOfRoot(s, l, fd);
    } else {
      assert EventOk(s, fd);
    }
  }

  lemma RecordOfPark(s: State, fd: nat)
    requires Inv(s) && Enabled(s, Park) && fd in s.events
    ensures fd in Next(s, Park).events && RecordOk(Next(s, Park), fd)
  {
    assert EventOk(s, fd) && PcOk(s, s.q.current);
  }

  lemma RecordOfAsyncWait(s: State, l: Label, fd: nat)
    requires Inv(s) && Enabled(s, l) && l.AsyncWait? && fd in s.events
    ensures fd in Next(s, l).events && RecordOk(Next(s, l), fd)
  {
    assert EventOk(s, fd) && PcOk(s, s.q.current);
  }

  lemma RecordOfResume(s: State, l: Label, fd: nat)
    requires Inv(s) && Enabled(s, l) && (l.Unpark? || l.WaitDone?) && fd in s.events
    ensures fd in Next(s, l).events && RecordOk(Next(s, l), fd)
  {
    assert EventOk(s, fd) && PcOk(s, s.q.current);
  }

  lemma RecordOfTrigger(s: State, fd: nat)
    requires Inv(s) && Enabled(s, Trigger) && fd in s.events
    ensures fd in Next(s, Trigger).events && RecordOk(Next(s, Trigger), fd)
  {
    assert EventOk(s, fd);
  }

  lemma RecordOfRoot(s: State, l: Label, fd: nat)
    requires Inv(s) && Enabled(s, l) && OfRoot(l) && fd in s.events
    ensures fd in Next(s, l).events && RecordOk(Next(s, l), fd)
  {
    assert EventOk(s, fd);
  }

  lemma RecordStep(s: State, l: Label, fd: nat)
    requires Inv(s) && Enabled(s, l) && fd in s.events
    ensures fd in Next(s, l).events && RecordOk(Next(s, l), fd)
  {
    if l.Park? {
      RecordOfPark(s, fd);
    } else if l.AsyncWait? {
      RecordOfAsyncWait(s, l, fd);
    } else if l.Unpark? || l.WaitDone? {
      RecordOfResume(s, l, fd);
    } else if l.Trigger? {
      RecordOfTrigger(s, fd);
    } else if OfRoot(l) {
      RecordOfRoot(s, l, fd);
    } else {
      assert EventOk(s, fd);
    }
  }

  /** Every step of the kernel, of the root and of the coroutines keeps the invariant. */
  lemma NextInv(s: State, l: Label)
    requires Inv(s) && Enabled(s, l)
    ensures Inv(Next(s, l))
  {
    ShapeStep(s, l);
    forall c | c in Next(s, l).pcs
      ensures PcOk(Next(s, l), c)
    {
      PcStep(s, l, c);
    }
    forall fd | fd in Next(s, l).events
      ensures EventOk(Next(s, l), fd)
    {
      ReportStep(s, l, fd);
      RecordStep(s, l, fd);
    }
  }

  /** Any interleaving of kernel, root and coroutine steps. */
  predicate Behaviour(s: State, labels: seq<Label>)
    requires Inv(s)
    decreases labels
  {
    labels == [] || (Enabled(s, labels[0]) && (NextInv(s, labels[0]); Behaviour(Next(s, labels[0]), labels[1..])))
  }

  function Run(s: State, labels: seq<Label>): (t: State)
    requires Inv(s) && Behaviour(s, labels)
    ensures Inv(t)
    decreases labels
  {
    if labels == [] then s else NextInv(s, labels[0]); Run(Next(s, labels[0]), labels[1..])
  }

  predicate Reaches(s: State, labels: seq<Label>, t: State) {
    Init(s) && (InitInv(s); Behaviour(s, labels) && t == Run(s, labels))
  }

  /** In a read, a write or an async_wait that dir would end. */
  predicate AwaitsFor(pc: Pc, dir: Flag) {
    (pc.Parked? && pc.dir == dir) || (pc.Waiting? && dir in pc.mask)
  }

  /** No lost wakeup: whatever the interleaving, a coroutine that has yielded in a read on a descriptor with data,
      in a write on one with room, or in an async_wait for either, has an edge coming, is in the unprocessed rest of
      the current batch, is already queued, or is running. */
  lemma NoLostWakeup(s: State, labels: seq<Label>, t: State, c: nat, dir: Flag)
    requires Reaches(s, labels, t) && c in t.pcs && AwaitsFor(t.pcs[c], dir)
    ensures t.pcs[c].fd in t.channels
    ensures Ready(t.channels[t.pcs[c].fd], dir) ==>
      t.channels[t.pcs[c].fd].edge || t.pcs[c].fd in Rest(t) || c in t.q.ready || c == t.q.current
  {
    NoneForgotten(t, c, dir);
  }

  lemma NoneForgotten(t: State, c: nat, dir: Flag)
    requires Inv(t) && c in t.pcs && AwaitsFor(t.pcs[c], dir)
    ensures t.pcs[c].fd in t.channels
    ensures Ready(t.channels[t.pcs[c].fd], dir) && Asleep(t, c) ==>
      t.channels[t.pcs[c].fd].edge || t.pcs[c].fd in Rest(t)
  {
    var fd := t.pcs[c].fd;
    assert PcOk(t, c) && EventOk(t, fd);
    if t.pcs[c].Waiting? && Asleep(t, c) && Ready(t.channels[fd], dir) {
      assert dir !in t.pcs[c].mask * t.events[fd].event && dir in REPORTED;
    }
  }

  /** So when the root is about to block in epoll_wait and no edge is coming, nobody is ready, and every reader,
      writer and async_wait waits for something that has not happened. */
  lemma BlockingIsSafe(s: State, labels: seq<Label>, t: State, c: nat)
    requires Reaches(s, labels, t) && c in t.pcs
    requires t.phase.Polling? && forall fd :: fd in t.channels ==> !t.channels[fd].edge
    ensures t.q.ready == [] && !t.pcs[c].Refused?
    ensures forall dir :: AwaitsFor(t.pcs[c], dir) ==>
      t.pcs[c].fd in t.channels && !Ready(t.channels[t.pcs[c].fd], dir)
  {
    assert PcOk(t, c);
    forall dir | AwaitsFor(t.pcs[c], dir)
      ensures t.pcs[c].fd in t.channels && !Ready(t.channels[t.pcs[c].fd], dir)
    {
      NoLostWakeup(s, labels, t, c, dir);
    }
  }

  /** The batch that epoll_wait returns is met by an empty queue, so during a batch only trigger fills it. */
  lemma BatchStartsDrained(s: State, batch: seq<nat>)
    requires Inv(s) && Enabled(s, EpollWait(batch))
    ensures s.q.ready == [] && forall c :: c in s.pcs ==> Asleep(s, c)
  {}

  // ---- The wakeup arrives ----

  /** Those who have the processor from s on, one entry a state. */
  function Runners(s: State, labels: seq<Label>): seq<nat>
    requires Inv(s) && Behaviour(s, labels)
    decreases labels
  {
    if labels == [] then [s.q.current]
    else NextInv(s, labels[0]); [s.q.current] + Runners(Next(s, labels[0]), labels[1..])
  }

  /** On its way: in the rest of the batch or in the queue. */
  predicate Coming(s: State, c: nat, fd: nat) {
    c in s.pcs && WakesOn(s.pcs[c], fd) && (fd in Rest(s) || c in s.q.ready)
  }

  lemma ComingStep(s: State, l: Label, c: nat, fd: nat)
    requires Inv(s) && Enabled(s, l) && Coming(s, c, fd) && c != s.q.current
    ensures Coming(Next(s, l), c, fd) || c == Next(s, l).q.current
  {
    if l.Trigger? {
      TriggerWakes(s, c);
      InConcat(s.q.ready, Posted(Updated(s)), c);
    } else {
      QueueMoves(s, l, c);
    }
  }

  lemma {:induction false} ComingRuns(s: State, labels: seq<Label>, c: nat, fd: nat)
    requires Inv(s) && Behaviour(s, labels) && (Coming(s, c, fd) || c == s.q.current) && c != s.q.root
    requires Enabled(Run(s, labels), LoopPoll)
    ensures c in Runners(s, labels)
    decreases labels
  {
    if labels != [] && c != s.q.current {
      NextInv(s, labels[0]);
      ComingStep(s, labels[0], c, fd);
      ComingRuns(Next(s, labels[0]), labels[1..], c, fd);
    }
  }

  /** A reported wakeup arrives: in any behaviour that starts with epoll_wait returning a batch, everybody who
      sleeps on a descriptor of the batch in a read, a write or a wait for either has had the processor before the
      root polls again. */
  lemma WakeupArrives(s: State, batch: seq<nat>, labels: seq<Label>, c: nat)
    requires Inv(s) && Enabled(s, EpollWait(batch)) && Inv(Next(s, EpollWait(batch)))
    requires Behaviour(Next(s, EpollWait(batch)), labels)
    requires Enabled(Run(Next(s, EpollWait(batch)), labels), LoopPoll)
    requires c in s.pcs && exists fd :: fd in batch && WakesOn(s.pcs[c], fd)
    ensures c in Runners(Next(s, EpollWait(batch)), labels)
  {
    var fd :| fd in batch && WakesOn(s.pcs[c], fd);
    ComingRuns(Next(s, EpollWait(batch)), labels, c, fd);
  }

  // ---- What is never reported ----

  /** The kernel's error reports are never passed on: whatever happens to the descriptor, async_wait for the error
      condition alone sleeps until another coroutine posts the sleeper. */
  lemma {:induction false} ErrorWaitsForever(s: State, labels: seq<Label>, c: nat)
    requires Inv(s) && Behaviour(s, labels) && Post(c) !in labels
    requires c in s.pcs && s.pcs[c].Waiting? && s.pcs[c].mask * REPORTED == {} && Asleep(s, c)
    ensures c in Run(s, labels).pcs && Run(s, labels).pcs[c] == s.pcs[c] && Asleep(Run(s, labels), c)
    decreases labels
  {
    if labels != [] {
      NextInv(s, labels[0]);
      ErrorWaitStep(s, labels[0], c);
      ErrorWaitsForever(Next(s, labels[0]), labels[1..], c);
    }
  }

  lemma ErrorWaitStep(s: State, l: Label, c: nat)
    requires Inv(s) && Enabled(s, l) && l != Post(c)
    requires c in s.pcs && s.pcs[c].Waiting? && s.pcs[c].mask * REPORTED == {} && Asleep(s, c)
    ensures c in Next(s, l).pcs && Next(s, l).pcs[c] == s.pcs[c] && Asleep(Next(s, l), c)
  {
    if l.Trigger? {
      TriggerWakes(s, c);
      InConcat(s.q.ready, Posted(Updated(s)), c);
    } else {
      QueueMoves(s, l, c);
    }
  }

  lemma OneStep(s: State, l: Label)
    requires Inv(s) && Enabled(s, l)
    ensures Inv(Next(s, l)) && Behaviour(s, [l]) && Run(s, [l]) == Next(s, l)
  {
    NextInv(s, l);
  }

  /** One behaviour after another. */
  lemma {:induction false} RunOn(s: State, a: seq<Label>, b: seq<Label>)
    requires Inv(s) && Behaviour(s, a) && Behaviour(Run(s, a), b)
    ensures Behaviour(s, a + b) && Run(s, a + b) == Run(Run(s, a), b)
    decreases a
  {
    if a == [] {
      assert a + b == b;
    } else {
      FirstStep(s, a);
      RunOn(Next(s, a[0]), a[1..], b);
      OneMore(s, a[0], a[1..] + b);
      ConsConcat(a, b);
    }
  }

  lemma FirstStep(s: State, labels: seq<Label>)
    requires Inv(s) && Behaviour(s, labels) && labels != []
    ensures Enabled(s, labels[0]) && Inv(Next(s, labels[0])) && Behaviour(Next(s, labels[0]), labels[1..])
    ensures Run(s, labels) == Run(Next(s, labels[0]), labels[1..])
  {
    NextInv(s, labels[0]);
  }

  lemma OneMore(s: State, l: Label, labels: seq<Label>)
    requires Inv(s) && Enabled(s, l) && Inv(Next(s, l)) && Behaviour(Next(s, l), labels)
    ensures Behaviour(s, [l] + labels) && Run(s, [l] + labels) == Run(Next(s, l), labels)
  {
    assert ([l] + labels)[1..] == labels;
  }

  /** A coroutine asleep in a wait for errors of fd alone, while the root is about to poll. */
  predicate AwaitsError(s: State, c: nat, fd: nat) {
    && s.q.current == s.q.root && s.q.ready == [] && s.phase == Draining
    && fd in s.channels && c in s.pcs && s.pcs[c] == Waiting(fd, {Error}) && Asleep(s, c)
  }

  /** The only coroutine is running, outside of I/O, and nothing was ever reported. */
  predicate Fresh(s: State, c: nat) {
    && s.q.current == c && s.q.ready == [s.q.root] && s.phase == Draining && s.pcs == map[c := Idle]
    && s.users == map[] && (forall fd :: fd in s.events ==> s.events[fd].event == {})
  }

  lemma SpawnFresh(s: State, c: nat)
    requires Init(s) && Inv(s) && c != s.q.root
    ensures Behaviour(s, [Spawn(c), LoopResched]) && Fresh(Run(s, [Spawn(c), LoopResched]), c)
    ensures var t := Run(s, [Spawn(c), LoopResched]);
      t.events == s.events && t.channels == s.channels && t.q.root == s.q.root
  {
    OneStep(s, Spawn(c));
    var t := Next(s, Spawn(c));
    assert t.q.ready == [c] && t.q.current == t.q.root == s.q.root;
    OneStep(t, LoopResched);
    RunOn(s, [Spawn(c)], [LoopResched]);
    assert [Spawn(c)] + [LoopResched] == [Spawn(c), LoopResched];
  }

  lemma FreshWaits(s: State, c: nat, fd: nat)
    requires Inv(s) && Fresh(s, c) && fd in s.events
    ensures Enabled(s, AsyncWait(fd, {Error})) && AwaitsError(Next(s, AsyncWait(fd, {Error})), c, fd)
  {
    assert c in s.pcs;
  }

  /** Such a wait is three steps away: from the start, spawn a coroutine and let it wait for an error. */
  lemma ErrorWaitReached(s: State, c: nat, fd: nat)
    requires Init(s) && c != s.q.root && fd in s.channels
    ensures Inv(s)
    ensures var labels := [Spawn(c), LoopResched, AsyncWait(fd, {Error})];
      Behaviour(s, labels) && AwaitsError(Run(s, labels), c, fd)
  {
    InitInv(s);
    var wait := AsyncWait(fd, {Error});
    var first := [Spawn(c), LoopResched];
    SpawnFresh(s, c);
    FreshWaits(Run(s, first), c, fd);
    OneStep(Run(s, first), wait);
    RunOn(s, first, [wait]);
    assert first + [wait] == [Spawn(c), LoopResched, wait];
  }

  lemma PollFails(s: State, fd: nat)
    requires Inv(s) && s.q.current == s.q.root && s.q.ready == [] && s.phase == Draining && fd in s.channels
    ensures Behaviour(s, [LoopPoll, Fail(fd)])
    ensures var t := Run(s, [LoopPoll, Fail(fd)]);
      && t.q == s.q && t.phase == Polling && fd in t.channels && t.channels[fd].failed && t.channels[fd].edge
  {
    OneStep(s, LoopPoll);
    OneStep(Next(s, LoopPoll), Fail(fd));
    RunOn(s, [LoopPoll], [Fail(fd)]);
    assert [LoopPoll] + [Fail(fd)] == [LoopPoll, Fail(fd)];
  }

  lemma ReportFails(s: State, fd: nat)
    requires Inv(s) && s.q.current == s.q.root && s.phase == Polling
    requires fd in s.channels && s.channels[fd].failed && s.channels[fd].edge
    ensures Behaviour(s, [EpollWait([fd]), Trigger])
    ensures var t := Run(s, [EpollWait([fd]), Trigger]); fd in t.channels && t.channels[fd].failed
  {
    OneStep(s, EpollWait([fd]));
    OneStep(Next(s, EpollWait([fd])), Trigger);
    RunOn(s, [EpollWait([fd])], [Trigger]);
    assert [EpollWait([fd])] + [Trigger] == [EpollWait([fd]), Trigger];
  }

  /** Then the descriptor fails, epoll_wait returns it and trigger is called on it, all in vain. */
  lemma ErrorReportedInVain(s: State, c: nat, fd: nat)
    requires Inv(s) && AwaitsError(s, c, fd)
    ensures var labels := [LoopPoll, Fail(fd), EpollWait([fd]), Trigger];
      && Behaviour(s, labels)
      && (var t := Run(s, labels);
          && fd in t.channels && t.channels[fd].failed
          && c in t.pcs && t.pcs[c] == Waiting(fd, {Error}) && Asleep(t, c))
  {
    var first, last := [LoopPoll, Fail(fd)], [EpollWait([fd]), Trigger];
    PollFails(s, fd);
    ReportFails(Run(s, first), fd);
    RunOn(s, first, last);
    assert first + last == [LoopPoll, Fail(fd), EpollWait([fd]), Trigger];
    ErrorWaitsForever(s, first + last, c);
  }

  // ---- One read or write that has to wait, from beginning to end ----

  /** The labels lead from s to t. */
  predicate Path(s: State, labels: seq<Label>, t: State) {
    Inv(s) && Behaviour(s, labels) && Run(s, labels) == t && t.q.root == s.q.root
  }

  lemma Then(s: State, labels: seq<Label>, t: State, l: Label) returns (u: State)
    requires Path(s, labels, t) && Enabled(t, l)
    ensures Path(s, labels + [l], u) && u == Next(t, l)
  {
    OneStep(t, l);
    RunOn(s, labels, [l]);
    u := Next(t, l);
  }

  /** More to read, or more room to write. */
  function Supply(fd: nat, dir: Flag, n: nat): Label {
    if dir == CanRead then Arrive(fd, n) else Free(fd, n)
  }

  function Amount(ch: Channel, dir: Flag): nat {
    if dir == CanRead then ch.data else ch.room
  }

  /** The record of a descriptor on which only c waits, in a read or a write, ... */
  function RecordOf(event: set<Flag>, c: nat, dir: Flag): Event<nat> {
    if dir == CanRead then Event(event, {CanRead}, {}, Some(c), None, None)
    else Event(event, {CanWrite}, {}, None, Some(c), None)
  }

  /** ... or in an async_wait for dir. */
  function WaitOf(event: set<Flag>, c: nat, dir: Flag): Event<nat> {
    Event(event, {}, {dir}, None, None, Some(c))
  }

  /** The only coroutine, c, uses fd, and that is where it is. */
  predicate Inside(s: State, c: nat, fd: nat, use: Flag, pc: Pc) {
    && c != s.q.root && s.q.live == {s.q.root, c} && s.pcs == map[c := pc] && s.users == map[(fd, use) := c]
    && fd in s.channels && fd in s.events
  }

  /** c has the processor, and the root is next. */
  predicate Running(s: State, c: nat) {
    s.q.current == c && s.q.ready == [s.q.root] && s.phase == Draining
  }

  predicate Polled(s: State, ready: seq<nat>, phase: Phase) {
    s.q.current == s.q.root && s.q.ready == ready && s.phase == phase
  }

  lemma FreshAlone(s: State, c: nat)
    requires Inv(s) && Fresh(s, c)
    ensures c in s.pcs && s.q.live == {s.q.root, c}
  {
    assert s.pcs.Keys == s.q.live - {s.q.root} == {c};
    assert s.q.live == {s.q.root} + (s.q.live - {s.q.root});
  }

  lemma Begins(s: State, labels: seq<Label>, t: State, c: nat, fd: nat, dir: Flag) returns (u: State)
    requires Path(s, labels, t) && Fresh(t, c) && c != t.q.root && dir in REPORTED && fd in t.channels && fd in t.events
    ensures Path(s, labels + [Begin(fd, dir)], u) && Inside(u, c, fd, dir, Trying(fd, dir)) && Running(u, c)
    ensures u.channels == t.channels && u.events == t.events
  {
    FreshAlone(t, c);
    u := Then(s, labels, t, Begin(fd, dir));
  }

  lemma IsRefused(s: State, labels: seq<Label>, t: State, c: nat, fd: nat, dir: Flag) returns (u: State)
    requires Path(s, labels, t) && Inside(t, c, fd, dir, Trying(fd, dir)) && Running(t, c)
    requires !Ready(t.channels[fd], dir)
    ensures Path(s, labels + [Again], u) && Inside(u, c, fd, dir, Refused(fd, dir)) && Running(u, c)
    ensures u.channels == t.channels && u.events == t.events
  {
    u := Then(s, labels, t, Again);
  }

  lemma Parks(s: State, labels: seq<Label>, t: State, c: nat, fd: nat, dir: Flag) returns (u: State)
    requires Path(s, labels, t) && Inside(t, c, fd, dir, Refused(fd, dir)) && Running(t, c) && dir in REPORTED
    requires t.events[fd] == Event({}, {}, {}, None, None, None)
    ensures Path(s, labels + [Park], u) && Inside(u, c, fd, dir, Parked(fd, dir)) && Polled(u, [], Draining)
    ensures u.channels == t.channels && u.events[fd] == RecordOf({}, c, dir)
  {
    u := Then(s, labels, t, Park);
  }

  lemma IsSupplied(s: State, labels: seq<Label>, t: State, c: nat, fd: nat, use: Flag, pc: Pc, dir: Flag, n: nat)
    returns (u: State)
    requires Path(s, labels, t) && Inside(t, c, fd, use, pc) && Polled(t, [], Draining) && dir in REPORTED && n > 0
    ensures Path(s, labels + [Supply(fd, dir, n)], u) && Inside(u, c, fd, use, pc)
    ensures Polled(u, [], Draining) && u.events == t.events
    ensures u.channels[fd].edge && Amount(u.channels[fd], dir) == Amount(t.channels[fd], dir) + n
  {
    u := Then(s, labels, t, Supply(fd, dir, n));
  }

  lemma Polls(s: State, labels: seq<Label>, t: State, c: nat, fd: nat, use: Flag, pc: Pc) returns (u: State)
    requires Path(s, labels, t) && Inside(t, c, fd, use, pc) && Polled(t, [], Draining)
    ensures Path(s, labels + [LoopPoll], u) && Inside(u, c, fd, use, pc) && Polled(u, [], Polling)
    ensures u.channels == t.channels && u.events == t.events
  {
    u := Then(s, labels, t, LoopPoll);
  }

  lemma IsReported(s: State, labels: seq<Label>, t: State, c: nat, fd: nat, use: Flag, pc: Pc) returns (u: State)
    requires Path(s, labels, t) && Inside(t, c, fd, use, pc) && Polled(t, [], Polling) && t.channels[fd].edge
    ensures Path(s, labels + [EpollWait([fd])], u) && Inside(u, c, fd, use, pc)
    ensures Polled(u, [], Dispatching([fd])) && u.events == t.events
    ensures u.channels[fd] == t.channels[fd].(edge := false)
  {
    u := Then(s, labels, t, EpollWait([fd]));
  }

  lemma IsPosted(s: State, labels: seq<Label>, t: State, c: nat, fd: nat, use: Flag, pc: Pc, e: Event<nat>)
    returns (u: State)
    requires Path(s, labels, t) && Inside(t, c, fd, use, pc) && Polled(t, [], Dispatching([fd]))
    requires e == t.events[fd].(event := t.events[fd].event + {CanRead, CanWrite}) && Posted(e) == [c]
    ensures Path(s, labels + [Trigger], u) && Inside(u, c, fd, use, pc)
    ensures Polled(u, [c], Dispatching([])) && u.channels == t.channels && u.events[fd] == e
  {
    u := Then(s, labels, t, Trigger);
  }

  lemma Drains(s: State, labels: seq<Label>, t: State, c: nat, fd: nat, use: Flag, pc: Pc) returns (u: State)
    requires Path(s, labels, t) && Inside(t, c, fd, use, pc) && Polled(t, [c], Dispatching([]))
    ensures Path(s, labels + [BatchDone], u) && Inside(u, c, fd, use, pc) && Polled(u, [c], Draining)
    ensures u.channels == t.channels && u.events == t.events
  {
    u := Then(s, labels, t, BatchDone);
  }

  lemma Resumes(s: State, labels: seq<Label>, t: State, c: nat, fd: nat, use: Flag, pc: Pc) returns (u: State)
    requires Path(s, labels, t) && Inside(t, c, fd, use, pc) && Polled(t, [c], Draining)
    ensures Path(s, labels + [LoopResched], u) && Inside(u, c, fd, use, pc) && Running(u, c)
    ensures u.channels == t.channels && u.events == t.events
  {
    u := Then(s, labels, t, LoopResched);
  }

  /** From something happening on fd to whoever slept on it having the processor. */
  lemma Awakens(s: State, labels: seq<Label>, t: State, c: nat, fd: nat, use: Flag, pc: Pc, dir: Flag, n: nat,
                e: Event<nat>) returns (u: State)
    requires Path(s, labels, t) && Inside(t, c, fd, use, pc) && Polled(t, [], Draining) && dir in REPORTED && n > 0
    requires e == t.events[fd].(event := t.events[fd].event + {CanRead, CanWrite}) && Posted(e) == [c]
    ensures Path(s, labels + [Supply(fd, dir, n)] + [LoopPoll] + [EpollWait([fd])] + [Trigger] + [BatchDone]
                    + [LoopResched], u)
    ensures Inside(u, c, fd, use, pc) && Running(u, c) && u.events[fd] == e
    ensures Amount(u.channels[fd], dir) == Amount(t.channels[fd], dir) + n
  {
    var some := labels + [Supply(fd, dir, n)];
    u := IsSupplied(s, labels, t, c, fd, use, pc, dir, n);
    u := Polls(s, some, u, c, fd, use, pc);
    u := IsReported(s, some + [LoopPoll], u, c, fd, use, pc);
    u := IsPosted(s, some + [LoopPoll] + [EpollWait([fd])], u, c, fd, use, pc, e);
    u := Drains(s, some + [LoopPoll] + [EpollWait([fd])] + [Trigger], u, c, fd, use, pc);
    u := Resumes(s, some + [LoopPoll] + [EpollWait([fd])] + [Trigger] + [BatchDone], u, c, fd, use, pc);
  }

  lemma TriesAgain(s: State, labels: seq<Label>, t: State, c: nat, fd: nat, dir: Flag) returns (u: State)
    requires Path(s, labels, t) && Inside(t, c, fd, dir, Parked(fd, dir)) && Running(t, c)
    requires t.events[fd] == RecordOf(REPORTED, c, dir) && dir in REPORTED
    ensures Path(s, labels + [Unpark], u) && Inside(u, c, fd, dir, Trying(fd, dir)) && Running(u, c)
    ensures u.channels == t.channels && u.events[fd] == Event(REPORTED, {}, {}, None, None, None)
  {
    u := Then(s, labels, t, Unpark);
  }

  lemma Moves(s: State, labels: seq<Label>, t: State, c: nat, fd: nat, dir: Flag, m: nat) returns (u: State)
    requires Path(s, labels, t) && Inside(t, c, fd, dir, Trying(fd, dir)) && Running(t, c)
    requires 0 < m <= Amount(t.channels[fd], dir) && dir in REPORTED
    ensures Path(s, labels + [Transfer(m)], u) && Inside(u, c, fd, dir, Trying(fd, dir)) && Running(u, c)
    ensures u.events == t.events && Amount(u.channels[fd], dir) == Amount(t.channels[fd], dir) - m
  {
    u := Then(s, labels, t, Transfer(m));
  }

  lemma Leaves(s: State, labels: seq<Label>, t: State, c: nat, fd: nat, dir: Flag) returns (u: State)
    requires Path(s, labels, t) && Inside(t, c, fd, dir, Trying(fd, dir)) && Running(t, c)
    ensures Path(s, labels + [Finish], u) && u == t.(pcs := map[c := Idle], users := map[])
  {
    u := Then(s, labels, t, Finish);
  }

  lemma Exits(s: State, labels: seq<Label>, t: State, c: nat) returns (u: State)
    requires Path(s, labels, t) && Running(t, c) && t.pcs == map[c := Idle] && c != t.q.root
    ensures Path(s, labels + [CoExit], u)
    ensures u == t.(q := RQ.Queue(t.q.root, t.q.root, [], t.q.live - {c}), pcs := map[])
  {
    u := Then(s, labels, t, CoExit);
  }

  lemma Waits(s: State, labels: seq<Label>, t: State, c: nat, fd: nat, dir: Flag) returns (u: State)
    requires Path(s, labels, t) && Fresh(t, c) && c != t.q.root && fd in t.channels && fd in t.events
    requires t.events[fd] == Event({}, {}, {}, None, None, None)
    ensures Path(s, labels + [AsyncWait(fd, {dir})], u) && Inside(u, c, fd, Error, Waiting(fd, {dir}))
    ensures Polled(u, [], Draining) && u.channels == t.channels && u.events[fd] == WaitOf({}, c, dir)
  {
    FreshAlone(t, c);
    u := Then(s, labels, t, AsyncWait(fd, {dir}));
  }

  lemma Forgets(s: State, labels: seq<Label>, t: State, c: nat, fd: nat, dir: Flag) returns (u: State)
    requires Path(s, labels, t) && Inside(t, c, fd, Error, Waiting(fd, {dir})) && Running(t, c)
    requires t.events[fd] == WaitOf(REPORTED, c, dir)
    ensures Path(s, labels + [WaitDone], u) && u == t.(pcs := map[c := Idle], users := map[], events := u.events)
    ensures fd in u.events && u.events[fd] == Event(REPORTED, {}, {}, None, None, None)
  {
    u := Then(s, labels, t, WaitDone);
  }

  /** A read on an empty descriptor, or a write on a full one, puts its coroutine to sleep: five steps from the
      start. */
  lemma IoWaitReached(s: State, c: nat, fd: nat, dir: Flag) returns (t: State)
    requires Init(s) && c != s.q.root && fd in s.channels && dir in REPORTED && !Ready(s.channels[fd], dir)
    ensures Path(s, [Spawn(c), LoopResched, Begin(fd, dir), Again, Park], t)
    ensures Inside(t, c, fd, dir, Parked(fd, dir)) && Polled(t, [], Draining) && Asleep(t, c)
    ensures t.events[fd] == RecordOf({}, c, dir) && t.channels == s.channels
  {
    InitInv(s);
    SpawnFresh(s, c);
    var first := [Spawn(c), LoopResched];
    t := Run(s, first);
    t := Begins(s, first, t, c, fd, dir);
    t := IsRefused(s, first + [Begin(fd, dir)], t, c, fd, dir);
    t := Parks(s, first + [Begin(fd, dir)] + [Again], t, c, fd, dir);
    assert first + [Begin(fd, dir)] + [Again] + [Park] == [Spawn(c), LoopResched, Begin(fd, dir), Again, Park];
  }

  /** Nobody but the root is left, on an idle loop, and the record of fd knows only that it was reported. */
  predicate Over(t: State, root: nat, fd: nat) {
    && t.q == RQ.Queue(root, root, [], {root}) && t.pcs == map[] && t.users == map[] && t.phase == Draining
    && fd in t.channels && fd in t.events && t.events[fd] == Event({CanRead, CanWrite}, {}, {}, None, None, None)
  }

  /** Then bytes arrive (or room is made), the descriptor is reported, its record triggered and the coroutine posted; it
      takes itself off the record, moves some of them, and is gone. */
  lemma IoWaitEnds(s: State, c: nat, fd: nat, dir: Flag, n: nat, m: nat, labels: seq<Label>) returns (t: State)
    requires Init(s) && c != s.q.root && fd in s.channels && dir in REPORTED && !Ready(s.channels[fd], dir)
    requires 0 < m <= n
    requires labels == [Spawn(c), LoopResched, Begin(fd, dir), Again, Park]
                       + [if dir == CanRead then Arrive(fd, n) else Free(fd, n)]
                       + [LoopPoll] + [EpollWait([fd])] + [Trigger] + [BatchDone] + [LoopResched]
                       + [Unpark] + [Transfer(m)] + [Finish] + [CoExit]
    ensures Path(s, labels, t) && Over(t, s.q.root, fd)
    ensures if dir == CanRead then t.channels[fd].data == n - m else t.channels[fd].room == n - m
  {
    var a := [Spawn(c), LoopResched, Begin(fd, dir), Again, Park];
    t := IoWaitReached(s, c, fd, dir);
    t := Awakens(s, a, t, c, fd, dir, Parked(fd, dir), dir, n, RecordOf(REPORTED, c, dir));
    var b := a + [Supply(fd, dir, n)] + [LoopPoll] + [EpollWait([fd])] + [Trigger] + [BatchDone] + [LoopResched];
    t := TriesAgain(s, b, t, c, fd, dir);
    t := Moves(s, b + [Unpark], t, c, fd, dir, m);
    t := Leaves(s, b + [Unpark] + [Transfer(m)], t, c, fd, dir);
    t := Exits(s, b + [Unpark] + [Transfer(m)] + [Finish], t, c);
  }

  /** So it goes with an async_wait for either. */
  lemma WaitEnds(s: State, c: nat, fd: nat, dir: Flag, n: nat, labels: seq<Label>) returns (t: State)
    requires Init(s) && c != s.q.root && fd in s.channels && dir in REPORTED && n > 0
    requires labels == [Spawn(c), LoopResched] + [AsyncWait(fd, {dir})]
                       + [if dir == CanRead then Arrive(fd, n) else Free(fd, n)]
                       + [LoopPoll] + [EpollWait([fd])] + [Trigger] + [BatchDone] + [LoopResched]
                       + [WaitDone] + [CoExit]
    ensures Path(s, labels, t) && Over(t, s.q.root, fd)
  {
    InitInv(s);
    SpawnFresh(s, c);
    var a := [Spawn(c), LoopResched];
    t := Waits(s, a, Run(s, a), c, fd, dir);
    t := Awakens(s, a + [AsyncWait(fd, {dir})], t, c, fd, Error, Waiting(fd, {dir}), dir, n, WaitOf(REPORTED, c, dir));
    var b := a + [AsyncWait(fd, {dir})] + [Supply(fd, dir, n)] + [LoopPoll] + [EpollWait([fd])] + [Trigger]
             + [BatchDone] + [LoopResched];
    t := Forgets(s, b, t, c, fd, dir);
    t := Exits(s, b + [WaitDone], t, c);
  }

  /** d, outside of I/O, reschedules, and so does the root. */
  lemma TurnsTo(s: State, labels: seq<Label>, t: State, c: nat, d: nat) returns (u: State)
    requires Path(s, labels, t) && c in t.pcs && d in t.pcs && t.pcs[d] == Idle && t.phase == Draining
    requires t.q.current == d != t.q.root && t.q.ready == [t.q.root, c]
    ensures Path(s, labels + [CoResched] + [LoopResched], u)
    ensures u == t.(q := RQ.Queue(t.q.root, c, [d, t.q.root], t.q.live))
  {
    u := Then(s, labels, t, CoResched);
    assert u.q == RQ.Queue(t.q.root, t.q.root, [c, d], t.q.live);
    u := Then(s, labels + [CoResched], u, LoopResched);
  }

  lemma Spawned(s: State, labels: seq<Label>, t: State, d: nat) returns (u: State)
    requires Path(s, labels, t) && d !in t.q.live && Polled(t, [], Draining)
    ensures Path(s, labels + [Spawn(d)] + [LoopResched], u)
    ensures u == t.(q := RQ.Queue(t.q.root, d, [t.q.root], t.q.live + {d}), pcs := t.pcs[d := Idle])
  {
    u := Then(s, labels, t, Spawn(d));
    assert u.q == RQ.Queue(t.q.root, t.q.root, [d], t.q.live + {d});
    u := Then(s, labels + [Spawn(d)], u, LoopResched);
  }

  /** A coroutine asleep in a wait for errors of fd is woken by another one, d, that posts it: outside of I/O d may do
      that, and it reschedules afterwards. */
  lemma ErrorWaitEnds(s: State, c: nat, fd: nat, d: nat) returns (t: State)
    requires Inv(s) && AwaitsError(s, c, fd) && d !in s.q.live
    ensures Path(s, [Spawn(d)] + [LoopResched] + [Post(c)] + [CoResched] + [LoopResched], t)
    ensures t.q.current == c && c in t.pcs && t.pcs[c] == Waiting(fd, {Error})
  {
    t := Spawned(s, [], s, d);
    assert [] + [Spawn(d)] == [Spawn(d)];
    t := Then(s, [Spawn(d)] + [LoopResched], t, Post(c));
    t := TurnsTo(s, [Spawn(d)] + [LoopResched] + [Post(c)], t, c, d);
  }
}
