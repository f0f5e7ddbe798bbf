/** The event record, the retry loops and the dispatch of a batch as the source updates them (epoll.hpp). The
    kernel's answers, and what other coroutines do to the record during a suspension, are parameters. */
module AsyncFile {
  import opened Common
  import opened Events
  import opened Scheduler

  /** What one system call gives: up to k bytes moved if that many can be, EAGAIN, end of file, or an error.
      With Again comes the record as the others leave it when the caller is resumed. */
  datatype Answer = Moves(k: nat) | Again(others: Event<nat>) | EndOfFile | Fails

  /** Suspended means that the answers ran out while the loop was still going. */
  datatype Outcome = Returned(ret: int) | Suspended

  function Min(a: nat, b: nat): nat {
    if a < b then a else b
  }

  /** How many answers move something. */
  function MovesIn(answers: seq<Answer>): nat {
    if answers == [] then 0 else (if answers[0].Moves? then 1 else 0) + MovesIn(answers[1..])
  }

  lemma {:induction false} MovesInSnoc(answers: seq<Answer>, a: Answer)
    ensures MovesIn(answers + [a]) == MovesIn(answers) + if a.Moves? then 1 else 0
  {
    if answers != [] {
      assert (answers + [a])[1..] == answers[1..] + [a];
      MovesInSnoc(answers[1..], a);
    }
  }

  lemma MovesInNext(answers: seq<Answer>, i: nat)
    requires i < |answers|
    ensures MovesIn(answers[..i + 1]) == MovesIn(answers[..i]) + if answers[i].Moves? then 1 else 0
  {
    assert answers[..i + 1] == answers[..i] + [answers[i]];
    MovesInSnoc(answers[..i], answers[i]);
  }

  /** What the first n answers move of something that has limit: each up to k + 1 of what is left. */
  function Progress(limit: nat, answers: seq<Answer>, n: nat): (p: nat)
    requires n <= |answers|
    ensures p <= limit
  {
    if n == 0 then 0
    else
      var p := Progress(limit, answers, n - 1);
      p + if answers[n - 1].Moves? then Min(answers[n - 1].k + 1, limit - p) else 0
  }

  /** A read asks for what is still missing, and there is so much left. */
  lemma ReadAdds(count: nat, supply: nat, answers: seq<Answer>, i: nat, moved: nat, ret: int)
    requires i < |answers| && moved == Progress(Min(count, supply), answers, i)
    requires if answers[i].Moves? && (moved == count || moved < supply)
             then ret == Min(Min(answers[i].k + 1, count - moved), supply - moved) else ret <= 0
    ensures Progress(Min(count, supply), answers, i + 1) == if ret > 0 then moved + ret else moved
  {}

  /** Until the limit is reached, every answer that moves something moves at least one. */
  lemma {:induction false} MovesAdd(limit: nat, answers: seq<Answer>, n: nat)
    requires n <= |answers| && Progress(limit, answers, n) < limit
    ensures MovesIn(answers[..n]) <= Progress(limit, answers, n)
  {
    if n > 0 {
      MovesAdd(limit, answers, n - 1);
      MovesInNext(answers, n - 1);
    }
  }

  lemma AllMovesAdd(limit: nat, answers: seq<Answer>)
    ensures Progress(limit, answers, |answers|) < limit ==> MovesIn(answers) <= Progress(limit, answers, |answers|)
  {
    if Progress(limit, answers, |answers|) < limit {
      MovesAdd(limit, answers, |answers|);
      assert answers[..|answers|] == answers;
    }
  }

  /** Answer i ends a retry loop that needs so much: an error, or enough has been moved. Nothing else does. */
  predicate Ends(need: nat, limit: nat, answers: seq<Answer>, i: nat)
    requires i < |answers|
  {
    answers[i].Fails? || Progress(limit, answers, i + 1) >= need
  }

  predicate Going(n: nat, need: nat, limit: nat, answers: seq<Answer>) {
    n <= |answers| && forall i :: 0 <= i < n ==> !Ends(need, limit, answers, i)
  }

  lemma GoingOn(n: nat, need: nat, limit: nat, answers: seq<Answer>)
    requires n < |answers| && Going(n, need, limit, answers)
    requires !answers[n].Fails? && Progress(limit, answers, n + 1) < need
    ensures Going(n + 1, need, limit, answers)
  {}

  /** The loop takes the answers one by one and returns at the first that ends it. */
  predicate Took(used: nat, returned: bool, need: nat, limit: nat, answers: seq<Answer>) {
    if !returned then used == |answers| && Going(used, need, limit, answers)
    else 0 < used <= |answers| && Going(used - 1, need, limit, answers) && Ends(need, limit, answers, used - 1)
  }

  /** So how many it takes, and whether it returns, is settled by the answers. */
  lemma TookOnce(a: nat, aReturned: bool, b: nat, bReturned: bool, need: nat, limit: nat, answers: seq<Answer>)
    requires Took(a, aReturned, need, limit, answers) && Took(b, bReturned, need, limit, answers)
    ensures a == b && aReturned == bReturned
  {
    if a > 0 && b > 0 {
      assert Ends(need, limit, answers, a - 1) || !aReturned;
      assert Ends(need, limit, answers, b - 1) || !bReturned;
    }
  }

  lemma NoFailure(used: nat, need: nat, limit: nat, answers: seq<Answer>)
    requires Took(used, false, need, limit, answers)
    ensures Fails !in answers
  {
    forall i | 0 <= i < |answers|
      ensures !answers[i].Fails?
    {
      assert !Ends(need, limit, answers, i);
    }
  }

  /** How many answers did not end the loop. */
  function Before(used: nat, out: Outcome): int {
    if out.Returned? then used - 1 else used
  }

  /** What a loop that goes on has done about answer i: it has yielded, registered as the one who waits for dir, if the
      answer was EAGAIN, and only then. A read that asks for more than there is is told EAGAIN when nothing is left. */
  predicate PausedAt(pause: Option<Event<nat>>, short: bool, limit: nat, answers: seq<Answer>, i: nat,
                     dir: Flag, me: nat)
    requires i < |answers|
  {
    && (pause.Some? <==> answers[i].Again? || (short && answers[i].Moves? && Progress(limit, answers, i) == limit))
    && (pause.Some? ==> dir in pause.value.waited && Waiter(pause.value, dir) == Some(me))
  }

  predicate Paused(pauses: seq<Option<Event<nat>>>, n: int, short: bool, limit: nat, answers: seq<Answer>,
                   dir: Flag, me: nat) {
    && |pauses| == n && n <= |answers|
    && forall i {:trigger PausedAt(pauses[i], short, limit, answers, i, dir, me)} ::
         0 <= i < n ==> PausedAt(pauses[i], short, limit, answers, i, dir, me)
  }

  lemma PausedMore(pauses: seq<Option<Event<nat>>>, pause: Option<Event<nat>>, short: bool, limit: nat,
                   answers: seq<Answer>, dir: Flag, me: nat)
    requires Paused(pauses, |pauses|, short, limit, answers, dir, me) && |pauses| < |answers|
    requires PausedAt(pause, short, limit, answers, |pauses|, dir, me)
    ensures Paused(pauses + [pause], |pauses| + 1, short, limit, answers, dir, me)
  {
    var all := pauses + [pause];
    forall i | 0 <= i < |all|
      ensures PausedAt(all[i], short, limit, answers, i, dir, me)
    {
      assert i < |pauses| ==> PausedAt(pauses[i], short, limit, answers, i, dir, me);
    }
  }

  /** The kernel's side of a stream: the bytes that will ever arrive and have not been read, and those written. */
  class Stream {
    var input: seq<byte>
    var output: seq<byte>

    constructor (input: seq<byte>)
      ensures this.input == input && output == []
    {
      this.input, output := input, [];
    }

    /** read(fd, buf + offset, len) */
    method Read(buf: array<byte>, offset: nat, len: nat, answer: Answer) returns (ret: int, again: bool)
      requires offset + len <= buf.Length
      modifies this`input, buf
      ensures ret == if answer.Moves? && (len == 0 || old(input) != []) then Min(Min(answer.k + 1, len), |old(input)|)
                     else if answer.EndOfFile? then 0 else -1
      ensures again == (answer.Again? || (answer.Moves? && len > 0 && old(input) == []))
      ensures ret > 0 ==> ret <= |old(input)| && input == old(input)[ret..]
                          && buf[..] == Splice(old(buf[..]), offset, old(input)[..ret])
      ensures ret <= 0 ==> input == old(input) && buf[..] == old(buf[..])
    {
      again := answer.Again? || (answer.Moves? && len > 0 && input == []);
      if answer.Moves? && !again {
        var n := Min(Min(answer.k + 1, len), |input|);
        forall i | 0 <= i < n {
          buf[offset + i] := input[i];
        }
        input := input[n..];
        ret := n;
      } else {
        ret := if answer.EndOfFile? then 0 else -1;
      }
    }

    /** write(fd, bytes) */
    method Write(bytes: seq<byte>, answer: Answer) returns (ret: int, again: bool)
      modifies this`output
      ensures ret == if answer.Moves? then Min(answer.k + 1, |bytes|) else if answer.EndOfFile? then 0 else -1
      ensures again == answer.Again?
      ensures output == old(output) + if ret > 0 then bytes[..ret] else []
    {
      again := answer.Again?;
      ret := -1;
      if answer.Moves? {
        var n := Min(answer.k + 1, |bytes|);
        output := output + bytes[..n];
        ret := n;
      } else if answer.EndOfFile? {
        ret := 0;
      }
    }
  }

  class AsyncFileEvent {
    var event: set<Flag>
    var waited: set<Flag>
    var mask: set<Flag>
    var coRead: Option<nat>
    var coWrite: Option<nat>
    var coWait: Option<nat>

    constructor ()
      ensures View() == Event({}, {}, {}, None, None, None)
    {
      event, waited, mask := {}, {}, {};
      coRead, coWrite, coWait := None, None, None;
    }

    ghost function View(): Event<nat>
      reads this
    {
      Event(event, waited, mask, coRead, coWrite, coWait)
    }

    /** trigger */
    method Trigger(sched: RoundRobin<nat>, reported: set<Flag>)
      requires WaitersKnown(View())
      modifies this`event, sched
      ensures View() == old(View()).(event := old(event) + reported)
      ensures sched.queue == old(sched.queue) + Posted(View())
      ensures {CanRead, CanWrite} <= waited * event && mask * event != {} ==>
        sched.queue == old(sched.queue) + [coWrite.value, coRead.value, coWait.value]
    {
      event := event + reported;
      if CanWrite in waited * event {
        sched.Enqueue(coWrite.value);
      }
      if CanRead in waited * event {
        sched.Enqueue(coRead.value);
      }
      if mask * event != {} {
        sched.Enqueue(coWait.value);
      }
    }

    /** The others' part of the record after a suspension of the reader. */
    method Resume(dir: Flag, others: Event<nat>)
      requires dir in REPORTED
      modifies this
      ensures waited == old(waited) * {dir} + (others.waited - {dir})
      ensures Waiter(View(), dir) == old(Waiter(View(), dir))
      ensures event == others.event && mask == others.mask && coWait == others.coWait
      ensures coRead == if dir == CanRead then old(coRead) else others.coRead
      ensures coWrite == if dir == CanWrite then old(coWrite) else others.coWrite
    {
      event, mask, coWait := others.event, others.mask, others.coWait;
      waited := waited * {dir} + (others.waited - {dir});
      if dir == CanRead {
        coWrite := others.coWrite;
      } else {
        coRead := others.coRead;
      }
    }

    /** What every retry loop does on EAGAIN: note who waits, yield, and on resumption clear the bit.
        At is the record as it is while the coroutine is away. */
    method Park(dir: Flag, me: nat, answer: Answer) returns (ghost at: Event<nat>)
      requires dir in REPORTED
      modifies this
      ensures at == SetWaiter(old(View()).(waited := old(waited) + {dir}), dir, Some(me))
      ensures waited == if answer.Again? then answer.others.waited - {dir} else old(waited) - {dir}
      ensures Waiter(View(), dir) == Some(me)
    {
      waited := waited + {dir};
      if dir == CanRead {
        coRead := Some(me);
      } else {
        coWrite := Some(me);
      }
      at := View();
      if answer.Again? {
        Resume(dir, answer.others);
      }
      waited := waited - {dir};
    }

    /** The loops of async_file_event also take the pointer back. */
    method Await(dir: Flag, me: nat, answer: Answer) returns (ghost at: Event<nat>)
      requires dir in REPORTED
      modifies this
      ensures at == SetWaiter(old(View()).(waited := old(waited) + {dir}), dir, Some(me))
      ensures waited == if answer.Again? then answer.others.waited - {dir} else old(waited) - {dir}
      ensures Waiter(View(), dir) == None
    {
      at := Park(dir, me, answer);
      if dir == CanRead {
        coRead := None;
      } else {
        coWrite := None;
      }
    }

    /** async_wait: at once if something asked for has ever been reported, for event_ is never cleared; otherwise
        the others act until the waiter is posted, and it forgets its mask. */
    method AsyncWait(asked: set<Flag>, me: nat, others: Option<Event<nat>>) returns (out: Option<set<Flag>>)
      modifies this
      ensures old(event) * asked != {} ==> out == Some({}) && View() == old(View())
      ensures old(event) * asked == {} && others.Some? ==>
        && out == Some(event) && event == others.value.event
        && View() == others.value.(mask := {}, coWait := None)
      ensures old(event) * asked == {} && others.None? ==>
        out == None && View() == old(View()).(mask := asked, coWait := Some(me))
    {
      if event * asked != {} {
        return Some({});
      }
      mask, coWait := asked, Some(me);
      if others.None? {
        return None;
      }
      event, waited := others.value.event, others.value.waited;
      coRead, coWrite := others.value.coRead, others.value.coWrite;
      coWait, mask := None, {};
      out := Some(event);
    }

    /** async_read by coroutine me. Whatever the kernel answers, and however often the reader is woken for
        nothing: the bytes taken from the stream are in the buffer, in order, as many as the answers used move; the
        loop returns at the first answer with which it has all count of them, or at an error before that; it needs at
        most count answers that move anything; and it leaves nobody registered as waiting to read. */
    method AsyncRead(fd: Stream, buf: array<byte>, count: nat, me: nat, answers: seq<Answer>)
      returns (out: Outcome, ghost moved: nat, ghost pauses: seq<Option<Event<nat>>>, ghost used: nat)
      requires count <= buf.Length && CanRead !in waited
      modifies this, fd`input, buf
      ensures moved <= count && moved <= |old(fd.input)| && fd.input == old(fd.input)[moved..]
      ensures buf[..] == Splice(old(buf[..]), 0, old(fd.input)[..moved])
      ensures var limit := Min(count, |old(fd.input)|);
        && Took(used, out.Returned?, count, limit, answers) && moved == Progress(limit, answers, used)
        && Paused(pauses, Before(used, out), |old(fd.input)| < count, limit, answers, CanRead, me)
      ensures out.Returned? ==>
        (out.ret == count && moved == count) || (out.ret == -1 && moved < count && Fails in answers)
      ensures if out.Returned? then out.ret == -1 <==> answers[used - 1].Fails? && moved < count
              else Fails !in answers
      ensures out.Suspended? && answers != [] ==> moved < count
      ensures out.Suspended? && count <= |old(fd.input)| ==> MovesIn(answers) < count || answers == []
      ensures CanRead !in waited && (coRead == None || coRead == old(coRead))
    {
      var offset := 0;
      var i := 0;
      ghost var limit := Min(count, |fd.input|);
      moved := 0;
      used := 0;
      pauses := [];
      while i < |answers|
        invariant Paused(pauses, i, |old(fd.input)| < count, limit, answers, CanRead, me)
        invariant i <= |answers| && offset == moved <= count && (i > 0 ==> offset < count)
        invariant moved <= |old(fd.input)| && fd.input == old(fd.input)[moved..]
        invariant buf[..] == Splice(old(buf[..]), 0, old(fd.input)[..moved])
        invariant CanRead !in waited && (coRead == None || coRead == old(coRead))
        invariant used == i && moved == Progress(limit, answers, i)
        invariant Going(i, count, limit, answers)
      {
        assert |fd.input| == |old(fd.input)| - moved;
        var ret, again := fd.Read(buf, offset, count - offset, answers[i]);
        ReadAdds(count, |old(fd.input)|, answers, i, moved, ret);
        ghost var pause := None;
        used := i + 1;
        if ret > 0 {
          NextBytes(old(buf[..]), old(fd.input), moved, ret);
          offset := offset + ret;
          moved := moved + ret;
        }
        if offset == count {
          return Returned(offset), moved, pauses, used;
        }
        if ret == -1 {
          if again {
            ghost var at := Await(CanRead, me, answers[i]);
            pause := Some(at);
          } else {
            return Returned(ret), moved, pauses, used;
          }
        }
        GoingOn(i, count, limit, answers);
        PausedMore(pauses, pause, |old(fd.input)| < count, limit, answers, CanRead, me);
        pauses := pauses + [pause];
        i := i + 1;
      }
      NoFailure(used, count, limit, answers);
      AllMovesAdd(limit, answers);
      out := Suspended;
    }

    /** async_write by coroutine me: what was written is a prefix of the buffer, in order, as much as the answers used
        take, and all count bytes of it when the loop returns count; it needs at most count answers that move
        anything. */
    method AsyncWrite(fd: Stream, buf: seq<byte>, count: nat, me: nat, answers: seq<Answer>)
      returns (out: Outcome, ghost moved: nat, ghost pauses: seq<Option<Event<nat>>>, ghost used: nat)
      requires count <= |buf| && CanWrite !in waited
      modifies this, fd`output
      ensures moved <= count && fd.output == old(fd.output) + buf[..moved]
      ensures Took(used, out.Returned?, count, count, answers) && moved == Progress(count, answers, used)
      ensures Paused(pauses, Before(used, out), false, count, answers, CanWrite, me)
      ensures out.Returned? ==>
        (out.ret == count && moved == count) || (out.ret == -1 && moved < count && Fails in answers)
      ensures if out.Returned? then out.ret == -1 <==> answers[used - 1].Fails? && moved < count
              else Fails !in answers
      ensures out.Suspended? && answers != [] ==> moved < count && MovesIn(answers) < count
      ensures CanWrite !in waited && (coWrite == None || coWrite == old(coWrite))
    {
      var offset := 0;
      var i := 0;
      moved := 0;
      used := 0;
      pauses := [];
      while i < |answers|
        invariant Paused(pauses, i, false, count, answers, CanWrite, me)
        invariant i <= |answers| && offset == moved <= count && (i > 0 ==> offset < count)
        invariant fd.output == old(fd.output) + buf[..moved]
        invariant CanWrite !in waited && (coWrite == None || coWrite == old(coWrite))
        invariant used == i && moved == Progress(count, answers, i)
        invariant Going(i, count, count, answers)
      {
        var ret, again := fd.Write(buf[offset..count], answers[i]);
        ghost var pause := None;
        used := i + 1;
        if ret > 0 {
          assert buf[..moved] + buf[offset..count][..ret] == buf[..moved + ret];
          offset := offset + ret;
          moved := moved + ret;
        }
        assert moved == Progress(count, answers, i + 1);
        if offset == count {
          return Returned(offset), moved, pauses, used;
        }
        if ret == -1 {
          if again {
            ghost var at := Await(CanWrite, me, answers[i]);
            pause := Some(at);
          } else {
            return Returned(ret), moved, pauses, used;
          }
        }
        GoingOn(i, count, count, answers);
        PausedMore(pauses, pause, false, count, answers, CanWrite, me);
        pauses := pauses + [pause];
        i := i + 1;
      }
      NoFailure(used, count, count, answers);
      AllMovesAdd(count, answers);
      out := Suspended;
    }

    /** async_read_some: it returns the first bytes it gets, never 0, or an error that comes before. */
    method AsyncReadSome(fd: Stream, buf: array<byte>, me: nat, answers: seq<Answer>)
      returns (out: Outcome, ghost pauses: seq<Option<Event<nat>>>, ghost used: nat)
      requires CanRead !in waited
      modifies this, fd`input, buf
      ensures out.Returned? && out.ret != -1 ==>
        && 0 < out.ret <= |old(fd.input)| && out.ret <= buf.Length
        && fd.input == old(fd.input)[out.ret..]
        && buf[..] == Splice(old(buf[..]), 0, old(fd.input)[..out.ret])
      ensures out.Suspended? || out.ret == -1 ==> fd.input == old(fd.input) && buf[..] == old(buf[..])
      ensures var limit := Min(buf.Length, |old(fd.input)|);
        && Took(used, out.Returned?, 1, limit, answers)
        && (out.Returned? && out.ret != -1 ==> out.ret == Progress(limit, answers, used))
        && Paused(pauses, Before(used, out), |old(fd.input)| < buf.Length, limit, answers, CanRead, me)
      ensures if out.Returned? then out.ret == -1 <==> answers[used - 1].Fails? else Fails !in answers
      ensures out.Suspended? && buf.Length > 0 && old(fd.input) != [] ==> MovesIn(answers) == 0
      ensures CanRead !in waited
    {
      var i := 0;
      ghost var limit := Min(buf.Length, |fd.input|);
      pauses := [];
      used := 0;
      while i < |answers|
        invariant Paused(pauses, i, |old(fd.input)| < buf.Length, limit, answers, CanRead, me)
        invariant i <= |answers| && fd.input == old(fd.input) && buf[..] == old(buf[..]) && CanRead !in waited
        invariant used == i && Progress(limit, answers, i) == 0
        invariant Going(i, 1, limit, answers)
      {
        var ret, again := fd.Read(buf, 0, buf.Length, answers[i]);
        ghost var pause := None;
        used := i + 1;
        ReadAdds(buf.Length, |old(fd.input)|, answers, i, 0, ret);
        if ret > 0 {
          return Returned(ret), pauses, used;
        }
        if ret == -1 {
          if again {
            ghost var at := Await(CanRead, me, answers[i]);
            pause := Some(at);
          } else {
            return Returned(ret), pauses, used;
          }
        }
        GoingOn(i, 1, limit, answers);
        PausedMore(pauses, pause, |old(fd.input)| < buf.Length, limit, answers, CanRead, me);
        pauses := pauses + [pause];
        i := i + 1;
      }
      NoFailure(used, 1, limit, answers);
      AllMovesAdd(limit, answers);
      out := Suspended;
    }

    /** async_write_some */
    method AsyncWriteSome(fd: Stream, buf: seq<byte>, me: nat, answers: seq<Answer>)
      returns (out: Outcome, ghost pauses: seq<Option<Event<nat>>>, ghost used: nat)
      requires CanWrite !in waited
      modifies this, fd`output
      ensures out.Returned? && out.ret != -1 ==>
        0 < out.ret <= |buf| && fd.output == old(fd.output) + buf[..out.ret]
      ensures out.Suspended? || out.ret == -1 ==> fd.output == old(fd.output)
      ensures Took(used, out.Returned?, 1, |buf|, answers)
      ensures out.Returned? && out.ret != -1 ==> out.ret == Progress(|buf|, answers, used)
      ensures Paused(pauses, Before(used, out), false, |buf|, answers, CanWrite, me)
      ensures if out.Returned? then out.ret == -1 <==> answers[used - 1].Fails? else Fails !in answers
      ensures out.Suspended? && buf != [] ==> MovesIn(answers) == 0
      ensures CanWrite !in waited
    {
      var i := 0;
      pauses := [];
      used := 0;
      while i < |answers|
        invariant Paused(pauses, i, false, |buf|, answers, CanWrite, me)
        invariant i <= |answers| && fd.output == old(fd.output) && CanWrite !in waited
        invariant used == i && Progress(|buf|, answers, i) == 0
        invariant Going(i, 1, |buf|, answers)
      {
        var ret, again := fd.Write(buf, answers[i]);
        ghost var pause := None;
        used := i + 1;
        assert Progress(|buf|, answers, i + 1) == if ret > 0 then ret else 0;
        if ret > 0 {
          return Returned(ret), pauses, used;
        }
        if ret == -1 {
          if again {
            ghost var at := Await(CanWrite, me, answers[i]);
            pause := Some(at);
          } else {
            return Returned(ret), pauses, used;
          }
        }
        GoingOn(i, 1, |buf|, answers);
        PausedMore(pauses, pause, false, |buf|, answers, CanWrite, me);
        pauses := pauses + [pause];
        i := i + 1;
      }
      NoFailure(used, 1, |buf|, answers);
      AllMovesAdd(|buf|, answers);
      out := Suspended;
    }
  }

  /** The next n bytes of a stream land behind the first moved ones. */
  lemma NextBytes(buf: seq<byte>, input: seq<byte>, moved: nat, n: nat)
    requires moved + n <= |input| && moved + n <= |buf|
    ensures Splice(Splice(buf, 0, input[..moved]), moved, input[moved..][..n]) == Splice(buf, 0, input[..moved + n])
    ensures input[moved..][n..] == input[moved + n..]
  {
    SpliceSplice(buf, 0, input[..moved], input[moved..][..n]);
    assert input[..moved] + input[moved..][..n] == input[..moved + n];
  }

  function Reported(e: Event<nat>): Event<nat> {
    e.(event := e.event + REPORTED)
  }

  /** One turn of the for loop: the descriptor's record, if it is known, and whom its trigger posts. */
  function AfterOne(events: map<nat, Event<nat>>, fd: nat): map<nat, Event<nat>> {
    if fd in events then events[fd := Reported(events[fd])] else events
  }

  function PostsOf(events: map<nat, Event<nat>>, fd: nat): seq<nat> {
    if fd in events then Posted(Reported(events[fd])) else []
  }

  function AfterBatch(events: map<nat, Event<nat>>, fds: seq<nat>): map<nat, Event<nat>> {
    if fds == [] then events else AfterBatch(AfterOne(events, fds[0]), fds[1..])
  }

  function BatchPosts(events: map<nat, Event<nat>>, fds: seq<nat>): seq<nat> {
    if fds == [] then [] else PostsOf(events, fds[0]) + BatchPosts(AfterOne(events, fds[0]), fds[1..])
  }

  /** Posts of every descriptor by its record before the batch. */
  function Gather(events: map<nat, Event<nat>>, fds: seq<nat>): seq<nat> {
    if fds == [] then [] else PostsOf(events, fds[0]) + Gather(events, fds[1..])
  }

  /** A batch names a descriptor at most once, so every record is reported to once and every trigger acts on the
      record as it was before the batch. */
  lemma {:induction false} BatchOnce(events: map<nat, Event<nat>>, fds: seq<nat>)
    requires NoDuplicates(fds)
    ensures AfterBatch(events, fds) == map fd | fd in events :: if fd in fds then Reported(events[fd]) else events[fd]
    ensures BatchPosts(events, fds) == Gather(events, fds)
  {
    if fds != [] {
      BatchOnce(AfterOne(events, fds[0]), fds[1..]);
      GatherElsewhere(events, fds[0], fds[1..]);
    }
  }

  lemma {:induction false} GatherElsewhere(events: map<nat, Event<nat>>, fd: nat, fds: seq<nat>)
    requires fd !in fds
    ensures Gather(AfterOne(events, fd), fds) == Gather(events, fds)
  {
    if fds != [] {
      GatherElsewhere(events, fd, fds[1..]);
    }
  }

  /** n turns of the loop have led from events to now and posted posts. */
  predicate SoFar(events: map<nat, Event<nat>>, now: map<nat, Event<nat>>, posts: seq<nat>, fds: seq<nat>, n: nat)
    requires n <= |fds|
  {
    && AfterBatch(now, fds[n..]) == AfterBatch(events, fds)
    && posts + BatchPosts(now, fds[n..]) == BatchPosts(events, fds)
  }

  lemma BatchStep(events: map<nat, Event<nat>>, now: map<nat, Event<nat>>, posts: seq<nat>, fds: seq<nat>, n: nat)
    requires n < |fds| && SoFar(events, now, posts, fds, n)
    ensures SoFar(events, AfterOne(now, fds[n]), posts + PostsOf(now, fds[n]), fds, n + 1)
  {
    assert fds[n..][1..] == fds[n + 1..];
    ConcatAssociates(posts, PostsOf(now, fds[n]), BatchPosts(AfterOne(now, fds[n]), fds[n + 1..]));
  }

  class EpollEventPool {
    var handlers: map<nat, AsyncFileEvent>

    constructor ()
      ensures handlers == map[]
    {
      handlers := map[];
    }

    ghost function Views(): map<nat, Event<nat>>
      reads this, handlers.Values
    {
      map fd | fd in handlers :: handlers[fd].View()
    }

    /** Every descriptor has its own record, and no record names a waiter it does not know. */
    ghost predicate Valid()
      reads this, handlers.Values
    {
      && (forall f, g :: f in handlers && g in handlers && f != g ==> handlers[f] != handlers[g])
      && (forall fd :: fd in handlers ==> WaitersKnown(handlers[fd].View()))
    }

    /** One turn of the for loop of poll_forever. The kernel's bits are joined with the bit asked about instead of
        masked by it, so every event counts as readable and writable. */
    method DispatchOne(fd: nat, bits: set<Flag>, sched: RoundRobin<nat>)
      requires Valid()
      modifies sched, handlers.Values
      ensures Valid() && Views() == AfterOne(old(Views()), fd)
      ensures sched.queue == old(sched.queue) + PostsOf(old(Views()), fd)
    {
      if fd in handlers {
        var event := {};
        if bits + {CanRead} != {} {
          event := event + {CanRead};
        }
        if bits + {CanWrite} != {} {
          event := event + {CanWrite};
        }
        assert event == REPORTED;
        handlers[fd].Trigger(sched, event);
      }
    }

    /** The whole loop over what epoll_wait returned. */
    method Dispatch(fds: seq<nat>, bits: seq<set<Flag>>, sched: RoundRobin<nat>)
      requires Valid() && |bits| == |fds|
      modifies sched, handlers.Values
      ensures Valid() && Views() == AfterBatch(old(Views()), fds)
      ensures sched.queue == old(sched.queue) + BatchPosts(old(Views()), fds)
    {
      ghost var before, views := sched.queue, Views();
      ghost var now, posts := views, [];
      var n := 0;
      while n < |fds|
        invariant n <= |fds| && Valid() && Views() == now && sched.queue == before + posts
        invariant SoFar(views, now, posts, fds, n)
      {
        BatchStep(views, now, posts, fds, n);
        DispatchOne(fds[n], bits[n], sched);
        ConcatAssociates(before, posts, PostsOf(now, fds[n]));
        now, posts := AfterOne(now, fds[n]), posts + PostsOf(now, fds[n]);
        n := n + 1;
      }
    }
  }
}
