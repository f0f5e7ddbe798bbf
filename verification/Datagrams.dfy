/** udp_socket::async_read_from and async_send_to (network/socket.hpp): the retry loops over datagrams. */
module Datagrams {
  import opened Common
  import opened Events
  import opened AsyncFile

  datatype Datagram = Datagram(address: seq<byte>, bytes: seq<byte>)

  class UdpSocket {
    const event: AsyncFileEvent
    /** The kernel's side: what will ever arrive and has not been taken, and what went out. */
    var arrivals: seq<Datagram>
    var sent: seq<Datagram>

    constructor (arrivals: seq<Datagram>)
      ensures fresh(event) && this.arrivals == arrivals && sent == []
    {
      event := new AsyncFileEvent();
      this.arrivals, sent := arrivals, [];
    }

    /** recvfrom: one whole datagram, or as much of its front as the buffer holds. */
    method ReceiveFrom(buf: array<byte>, answer: Answer) returns (ret: int, again: bool, from: seq<byte>)
      modifies this`arrivals, buf
      ensures again == (answer.Again? || (answer.Moves? && old(arrivals) == []))
      ensures ret >= 0 <==> answer.Moves? && old(arrivals) != []
      ensures ret >= 0 ==>
        && arrivals == old(arrivals)[1..] && from == old(arrivals)[0].address
        && ret == Min(|old(arrivals)[0].bytes|, buf.Length)
        && buf[..] == Splice(old(buf[..]), 0, old(arrivals)[0].bytes[..ret])
      ensures ret < 0 ==> ret == -1 && arrivals == old(arrivals) && buf[..] == old(buf[..])
    {
      again := answer.Again? || (answer.Moves? && arrivals == []);
      ret, from := -1, [];
      if answer.Moves? && arrivals != [] {
        var d := arrivals[0];
        var n := Min(|d.bytes|, buf.Length);
        forall i | 0 <= i < n {
          buf[i] := d.bytes[i];
        }
        arrivals := arrivals[1..];
        ret, from := n, d.address;
      }
    }

    /** sendto: the whole datagram or nothing. */
    method SendTo(address: seq<byte>, bytes: seq<byte>, answer: Answer) returns (ret: int, again: bool)
      modifies this`sent
      ensures again == answer.Again?
      ensures ret == if answer.Moves? then |bytes| else -1
      ensures sent == old(sent) + if answer.Moves? then [Datagram(address, bytes)] else []
    {
      again := answer.Again?;
      ret := -1;
      if answer.Moves? {
        sent := sent + [Datagram(address, bytes)];
        ret := |bytes|;
      }
    }

    /** async_read_from: whatever wakes the reader in between, a call that returns a length has taken exactly one
        datagram, the first, cut to the buffer; any other has taken none. It returns at the first answer that brings
        a datagram or an error. */
    method AsyncReadFrom(buf: array<byte>, me: nat, answers: seq<Answer>)
      returns (out: Outcome, from: seq<byte>, ghost pauses: seq<Option<Event<nat>>>, ghost used: nat)
      requires CanRead !in event.waited && EndOfFile !in answers
      modifies event, this`arrivals, buf
      ensures out.Returned? && out.ret != -1 ==>
        && old(arrivals) != [] && arrivals == old(arrivals)[1..] && from == old(arrivals)[0].address
        && out.ret == Min(|old(arrivals)[0].bytes|, buf.Length)
        && buf[..] == Splice(old(buf[..]), 0, old(arrivals)[0].bytes[..out.ret])
      ensures out.Suspended? || out.ret == -1 ==> arrivals == old(arrivals) && buf[..] == old(buf[..])
      ensures var limit := Min(1, |old(arrivals)|);
        && Took(used, out.Returned?, 1, limit, answers)
        && Paused(pauses, Before(used, out), old(arrivals) == [], limit, answers, CanRead, me)
      ensures if out.Returned? then out.ret == -1 <==> answers[used - 1].Fails? else Fails !in answers
      ensures out.Suspended? && old(arrivals) != [] ==> MovesIn(answers) == 0
      ensures CanRead !in event.waited
    {
      var i := 0;
      ghost var limit := Min(1, |arrivals|);
      from := [];
      pauses := [];
      used := 0;
      while i < |answers|
        invariant Paused(pauses, i, old(arrivals) == [], limit, answers, CanRead, me)
        invariant i <= |answers| && arrivals == old(arrivals) && buf[..] == old(buf[..]) && CanRead !in event.waited
        invariant used == i && Progress(limit, answers, i) == 0 && Going(i, 1, limit, answers)
      {
        var ret, again, sender := ReceiveFrom(buf, answers[i]);
        ghost var pause := None;
        used := i + 1;
        if ret < 0 {
          if again {
            ghost var at := event.Park(CanRead, me, answers[i]);
            pause := Some(at);
          } else {
            assert answers[i] in answers;
            return Returned(ret), from, pauses, used;
          }
        } else {
          return Returned(ret), sender, pauses, used;
        }
        GoingOn(i, 1, limit, answers);
        PausedMore(pauses, pause, old(arrivals) == [], limit, answers, CanRead, me);
        pauses := pauses + [pause];
        i := i + 1;
      }
      NoFailure(used, 1, limit, answers);
      AllMovesAdd(limit, answers);
      out := Suspended;
    }

    /** async_send_to: the datagram goes out exactly once if the call returns its length, and not at all
        otherwise. It returns at the first answer that takes the datagram or is an error. */
    method AsyncSendTo(address: seq<byte>, bytes: seq<byte>, me: nat, answers: seq<Answer>)
      returns (out: Outcome, ghost pauses: seq<Option<Event<nat>>>, ghost used: nat)
      requires CanWrite !in event.waited && EndOfFile !in answers
      modifies event, this`sent
      ensures out.Returned? ==> out.ret == |bytes| || out.ret == -1
      ensures sent == old(sent) + if out == Returned(|bytes|) then [Datagram(address, bytes)] else []
      ensures Took(used, out.Returned?, 1, 1, answers)
      ensures Paused(pauses, Before(used, out), false, 1, answers, CanWrite, me)
      ensures if out.Returned? then out.ret == -1 <==> answers[used - 1].Fails? else Fails !in answers
      ensures out.Suspended? ==> MovesIn(answers) == 0
      ensures CanWrite !in event.waited
    {
      var i := 0;
      pauses := [];
      used := 0;
      while i < |answers|
        invariant Paused(pauses, i, false, 1, answers, CanWrite, me)
        invariant i <= |answers| && sent == old(sent) && CanWrite !in event.waited
        invariant used == i && Progress(1, answers, i) == 0 && Going(i, 1, 1, answers)
      {
        var ret, again := SendTo(address, bytes, answers[i]);
        ghost var pause := None;
        used := i + 1;
        if ret < 0 {
          if again {
            ghost var at := event.Park(CanWrite, me, answers[i]);
            pause := Some(at);
          } else {
            assert answers[i] in answers;
            return Returned(ret), pauses, used;
          }
        } else {
          return Returned(ret), pauses, used;
        }
        GoingOn(i, 1, 1, answers);
        PausedMore(pauses, pause, false, 1, answers, CanWrite, me);
        pauses := pauses + [pause];
        i := i + 1;
      }
      NoFailure(used, 1, 1, answers);
      AllMovesAdd(1, answers);
      out := Suspended;
    }
  }
}
