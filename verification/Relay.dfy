/** The UDP relay (bridge/udp_bridge.hpp) and the order of its peer map (network/socket.hpp). An address is the
    len_ leading bytes of its sockaddr_storage. */
module Relay {
  import opened Common

  type Address = seq<byte>

  const PING: byte := 0
  const PONG: byte := 1
  const INFO: byte := 2
  const DATA: byte := 3

  const HEADERS := 8
  const SILENCE := 60

  /** address::operator<: the shorter one first, then memcmp. */
  predicate AddressLess(a: Address, b: Address) {
    |a| < |b| || (|a| == |b| && MemLess(a, b))
  }

  /** The map's equivalence of keys is equality of the bytes. */
  lemma AddressLessTotal(a: Address, b: Address)
    ensures !AddressLess(a, b) && !AddressLess(b, a) <==> a == b
    ensures !(AddressLess(a, b) && AddressLess(b, a))
  {
    if |a| == |b| {
      MemLessTotal(a, b);
    }
  }

  /** What decides: the length, then the first byte that differs. */
  lemma AddressLessFirst(a: Address, b: Address)
    ensures AddressLess(a, b) <==>
      || |a| < |b|
      || (|a| == |b| && exists i: nat :: i < |a| && a[..i] == b[..i] && a[i] < b[i])
  {
    if |a| == |b| {
      MemLessFirst(a, b);
      if exists i: nat :: i < |a| && a[..i] == b[..i] && a[i] < b[i] {
        var i: nat :| i < |a| && a[..i] == b[..i] && a[i] < b[i];
        assert DiffersFirst(a, b, i);
      }
      if i: nat :| DiffersFirst(a, b, i) {
        assert i < |a| && a[..i] == b[..i] && a[i] < b[i];
      }
    }
  }

  lemma AddressLessTransitive(a: Address, b: Address, c: Address)
    requires AddressLess(a, b) && AddressLess(b, c)
    ensures AddressLess(a, c)
  {
    if |a| == |b| == |c| {
      MemLessTransitive(a, b, c);
    }
  }

  /** A sockaddr_in: the family AF_INET, the port, the IPv4 address, and eight zero bytes. */
  function SockAddrIn(ip: seq<byte>, port: seq<byte>): (a: Address)
    requires |ip| == 4 && |port| == 2
    ensures |a| == 16 && a[4..8] == ip && a[2..4] == port
  {
    [2, 0] + port + ip + [0, 0, 0, 0, 0, 0, 0, 0]
  }

  /** What the kernel reports for a sender on an IPv4 socket. */
  predicate Canonical(a: Address) {
    |a| == 16 && a == SockAddrIn(a[4..8], a[2..4])
  }

  datatype Peer = Peer(addr: Address, lastActive: int)

  type Peers = map<Address, Peer>

  /** The text of a report lists the entries given. */
  datatype Sent = Nothing | Report(to: Address, listed: Peers) | Relayed(to: Address, message: seq<byte>)

  /** One call of foward: the sender, the receive buffer and how much of it the message fills, what the
      uninitialised stamp of a new peer happens to hold, and the clock: at keep_alive, and when the sweep is at
      each entry. */
  datatype Call = Call(from: Address, memory: seq<byte>, size: nat, garbage: int, stamp: int, clock: Address -> int) {
    predicate Valid() {
      |from| >= 8 && memory != [] && size <= |memory|
    }

    predicate Addressed() {
      size > HEADERS && size <= |memory| && memory[0] == DATA
    }

    function Target(): Address
      requires Addressed()
    {
      SockAddrIn(memory[2..6], memory[6..8])
    }
  }

  function Inserted(peers: Peers, from: Address, garbage: int): Peers {
    if from in peers then peers else peers[from := Peer(from, garbage)]
  }

  /** The message with the sender's address in place of the receiver's. */
  function Readdressed(memory: seq<byte>, from: Address): (m: seq<byte>)
    requires |memory| > HEADERS && |from| >= 8
    ensures |m| == |memory| && m[..2] == memory[..2] && m[8..] == memory[8..]
    ensures m[2..6] == from[4..8] && m[6..8] == from[2..4]
  {
    memory[..2] + from[4..8] + from[2..4] + memory[8..]
  }

  /** Whether the call gets as far as keep_alive and the sweep. */
  predicate Completes(peers: Peers, c: Call)
    requires c.Valid()
  {
    if c.memory[0] == DATA then c.Addressed() && (c.Target() in peers || c.Target() == c.from)
    else c.memory[0] in {PING, PONG, INFO}
  }

  function Swept(peers: Peers, clock: Address -> int): Peers {
    map k | k in peers && peers[k].lastActive + SILENCE >= clock(k) :: peers[k]
  }

  function Next(peers: Peers, c: Call): Peers
    requires c.Valid()
  {
    if Completes(peers, c) then Swept(peers[c.from := Peer(c.from, c.stamp)], c.clock)
    else Inserted(peers, c.from, c.garbage)
  }

  function Output(peers: Peers, c: Call): Sent
    requires c.Valid()
  {
    if !Completes(peers, c) then Nothing
    else if c.memory[0] == INFO then Report(c.from, Inserted(peers, c.from, c.garbage))
    else if c.memory[0] == DATA then Relayed(c.Target(), Readdressed(c.memory, c.from)[..c.size])
    else Nothing
  }

  // ---- Message by message ----

  /** The sender's entry has the time of the call, all others are as they were, and whoever has been silent for more
      than a minute, by the clock when the sweep came to it, is gone. */
  ghost predicate KeptAlive(peers: Peers, c: Call, after: Peers) {
    && (forall k :: k in after <==> if k == c.from then c.stamp + 60 >= c.clock(k)
                                    else k in peers && peers[k].lastActive + 60 >= c.clock(k))
    && (forall k :: k in after ==> after[k] == if k == c.from then Peer(c.from, c.stamp) else peers[k])
  }

  /** The sender has an entry, with an unset time if it is new, and nothing else happened. */
  predicate OnlyRegistered(peers: Peers, c: Call, after: Peers) {
    after == if c.from in peers then peers else peers[c.from := Peer(c.from, c.garbage)]
  }

  /** Who is kept alive and who is answered, by the type of the message: 0 is a ping and 1 a pong, which nobody
      answers; 2 asks for the list of all entries, which goes to the sender. A message of type 3 names its receiver's
      IPv4 address in its bytes 2 to 6 and the port in 6 to 8, and is sent on with the sender's in their place, if it
      is longer than that and the receiver is registered. Anything else is for nobody. */
  ghost predicate Handled(peers: Peers, c: Call, sent: Sent, after: Peers)
    requires c.Valid()
  {
    var m, from := c.memory, c.from;
    if m[0] == 0 || m[0] == 1 then sent == Nothing && KeptAlive(peers, c, after)
    else if m[0] == 2 then
      sent.Report? && sent.to == from && OnlyRegistered(peers, c, sent.listed) && KeptAlive(peers, c, after)
    else if m[0] == 3 && c.size > 8 then
      var to := [2, 0] + m[6..8] + m[2..6] + [0, 0, 0, 0, 0, 0, 0, 0];
      if to in peers || to == from then
        && sent == Relayed(to, m[..2] + from[4..8] + from[2..4] + m[8..c.size])
        && KeptAlive(peers, c, after)
      else sent == Nothing && OnlyRegistered(peers, c, after)
    else sent == Nothing && OnlyRegistered(peers, c, after)
  }

  lemma EveryMessage(peers: Peers, c: Call)
    requires c.Valid()
    ensures Handled(peers, c, Output(peers, c), Next(peers, c))
  {
    if c.memory[0] == 3 && c.size > 8 {
      ReaddressedFront(c.memory, c.size, c.from);
    }
  }

  class UdpBridge {
    var peers: Peers

    constructor ()
      ensures peers == map[] && Valid()
    {
      peers := map[];
    }

    ghost predicate Valid()
      reads this
    {
      forall k :: k in peers ==> peers[k].addr == k
    }

    /** foward, on the receive buffer itself, which it rewrites before it sends it on. */
    method Foward(from: Address, buffer: array<byte>, size: nat, garbage: int, stamp: int, clock: Address -> int)
      returns (sent: Sent)
      requires Valid() && |from| >= 8 && 0 < buffer.Length && size <= buffer.Length
      modifies this, buffer
      ensures Valid()
      ensures var c := Call(from, old(buffer[..]), size, garbage, stamp, clock);
        && peers == Next(old(peers), c)
        && sent == Output(old(peers), c) && Handled(old(peers), c, sent, peers)
        && buffer[..] == if sent.Relayed? then Readdressed(old(buffer[..]), from) else old(buffer[..])
    {
      ghost var c := Call(from, buffer[..], size, garbage, stamp, clock);
      EveryMessage(peers, c);
      sent := Nothing;
      if from !in peers {
        peers := peers[from := Peer(from, garbage)];
      }
      var kind := buffer[0];
      if kind == PING || kind == PONG {
      } else if kind == INFO {
        sent := Report(from, peers);
      } else if kind == DATA {
        if size <= HEADERS {
          return;
        }
        var addr := SockAddrIn(buffer[..][2..6], buffer[..][6..8]);
        if addr !in peers {
          return;
        }
        Readdress(buffer, from);
        sent := Relayed(peers[addr].addr, buffer[..][..size]);
      } else {
        return;
      }
      peers := peers[from := peers[from].(lastActive := stamp)];
      assert peers == old(peers)[from := Peer(from, stamp)];
      Sweep(clock);
    }

    /** The six stores into the message header. */
    method Readdress(buffer: array<byte>, from: Address)
      requires buffer.Length > HEADERS && |from| >= 8
      modifies buffer
      ensures buffer[..] == Readdressed(old(buffer[..]), from)
    {
      buffer[2], buffer[3], buffer[4], buffer[5] := from[4], from[5], from[6], from[7];
      buffer[6], buffer[7] := from[2], from[3];
    }

    /** The loop at the end of foward, with the clock read anew for every entry. */
    method Sweep(clock: Address -> int)
      requires Valid()
      modifies this
      ensures Valid() && peers == Swept(old(peers), clock)
    {
      var rest := peers.Keys;
      while rest != {}
        invariant rest <= old(peers).Keys && Valid()
        invariant forall k :: k in peers ==> k in old(peers) && peers[k] == old(peers)[k]
        invariant forall k :: k in old(peers) ==>
          (k in peers <==> k in rest || old(peers)[k].lastActive + SILENCE >= clock(k))
        decreases |rest|
      {
        var k :| k in rest;
        if peers[k].lastActive + SILENCE < clock(k) {
          peers := peers - {k};
        }
        rest := rest - {k};
      }
    }
  }

  // ---- The echo ----

  /** Where an IPv4 sender can be answered. */
  function Plain(from: Address): Address
    requires |from| >= 8
  {
    SockAddrIn(from[4..8], from[2..4])
  }

  /** If B returns verbatim what the relay sent it on A's behalf, A gets back byte for byte what it sent if and only
      if A's address is a plain IPv4 one and still registered then (or B is A). Otherwise nothing of A's reaches A. */
  lemma EchoIsInverse(peers: Peers, later: Peers, hop: Call, echo: Call)
    requires hop.Valid() && echo.Valid() && hop.memory[0] == DATA
    requires Output(peers, hop) == Relayed(echo.from, echo.memory[..echo.size])
    ensures echo.size == hop.size && echo.memory[8..echo.size] == hop.memory[8..hop.size]
    ensures Output(later, echo) == Relayed(hop.from, hop.memory[..hop.size])
       <==> Canonical(hop.from) && (hop.from in later || hop.from == echo.from)
    ensures Output(later, echo) == Relayed(Plain(hop.from), hop.memory[..hop.size])
       <==> Plain(hop.from) in later || Plain(hop.from) == echo.from
    ensures Output(later, echo) != Nothing ==> Output(later, echo) == Relayed(Plain(hop.from), hop.memory[..hop.size])
  {
    var sent := hop.memory[..hop.size];
    ReaddressedFront(hop.memory, hop.size, hop.from);
    ReaddressedFront(echo.memory, echo.size, echo.from);
    assert echo.memory[..echo.size] == Readdressed(sent, hop.from);
    assert echo.Target() == Plain(hop.from);
    assert echo.from == SockAddrIn(sent[2..6], sent[6..8]);
    ReaddressedBack(sent, hop.from, echo.from);
  }

  lemma ReaddressedFront(memory: seq<byte>, n: nat, from: Address)
    requires HEADERS < n <= |memory| && |from| >= 8
    ensures Readdressed(memory, from)[..n] == Readdressed(memory[..n], from)
    ensures memory[..n][0] == memory[0] && memory[..n][2..6] == memory[2..6] && memory[..n][6..8] == memory[6..8]
    ensures memory[..n][8..] == memory[8..n]
    ensures Readdressed(memory[..n], from)[0] == memory[0]
  {
    var head := memory[..2] + from[4..8] + from[2..4];
    Front(memory, n, 0, 2);
    Front(memory, n, 2, 6);
    Front(memory, n, 6, 8);
    Front(memory, n, 8, n);
    Front(head + memory[8..], n, 0, 8);
    Front(head + memory[8..], n, 8, n);
    assert (head + memory[8..])[8..n] == memory[8..n];
    assert (head + memory[8..])[..n] == (head + memory[8..])[..8] + (head + memory[8..])[8..n];
  }

  lemma Front(s: seq<byte>, n: nat, i: nat, j: nat)
    requires i <= j <= n <= |s|
    ensures s[..n][i..j] == s[i..j]
  {}

  /** Putting B's address where A's is, in a message that had B's, is putting the message back. */
  lemma ReaddressedBack(m: seq<byte>, a: Address, b: Address)
    requires |m| > HEADERS && |a| >= 8 && |b| >= 8 && b[4..8] == m[2..6] && b[2..4] == m[6..8]
    ensures Readdressed(Readdressed(m, a), b) == m
  {
    assert m == m[..2] + m[2..6] + m[6..8] + m[8..];
  }

  // ---- Agreement with the history of all calls ----

  predicate ValidCalls(calls: seq<Call>) {
    forall i :: 0 <= i < |calls| ==> calls[i].Valid()
  }

  /** The map after the first m calls. */
  function Run(calls: seq<Call>, m: nat): Peers
    requires ValidCalls(calls) && m <= |calls|
  {
    if m == 0 then map[] else Next(Run(calls, m - 1), calls[m - 1])
  }

  predicate CompletedAt(calls: seq<Call>, i: nat)
    requires ValidCalls(calls) && i < |calls|
  {
    Completes(Run(calls, i), calls[i])
  }

  /** The call sets its sender's entry: it completes, or it registers a new sender before it returns early. */
  predicate SetsAt(calls: seq<Call>, i: nat)
    requires ValidCalls(calls) && i < |calls|
  {
    CompletedAt(calls, i) || calls[i].from !in Run(calls, i)
  }

  /** The time the entry then has. */
  function TimeAt(calls: seq<Call>, i: nat): int
    requires ValidCalls(calls) && i < |calls|
  {
    if CompletedAt(calls, i) then calls[i].stamp else calls[i].garbage
  }

  /** The simple account: for each address the time of the latest call that set its entry, whatever its age. */
  function Latest(calls: seq<Call>, m: nat): Peers
    requires ValidCalls(calls) && m <= |calls|
  {
    if m == 0 then map[]
    else
      var before := Latest(calls, m - 1);
      if SetsAt(calls, m - 1) then before[calls[m - 1].from := Peer(calls[m - 1].from, TimeAt(calls, m - 1))]
      else before
  }

  /** The latest of the first m calls that set k's entry, or -1. */
  function LastSet(calls: seq<Call>, k: Address, m: nat): (h: int)
    requires ValidCalls(calls) && m <= |calls|
    ensures -1 <= h < m
    ensures h >= 0 ==> SetsAt(calls, h) && calls[h].from == k
    ensures forall i :: h < i < m && calls[i].from == k ==> !SetsAt(calls, i)
  {
    if m == 0 then -1
    else if SetsAt(calls, m - 1) && calls[m - 1].from == k then m - 1
    else LastSet(calls, k, m - 1)
  }

  /** The latest of the first m calls that swept, or -1. */
  function LastSweep(calls: seq<Call>, m: nat): (h: int)
    requires ValidCalls(calls) && m <= |calls|
    ensures -1 <= h < m
    ensures h >= 0 ==> CompletedAt(calls, h)
    ensures forall i :: h < i < m ==> !CompletedAt(calls, i)
  {
    if m == 0 then -1 else if CompletedAt(calls, m - 1) then m - 1 else LastSweep(calls, m - 1)
  }

  /** The sweep of a completed call came to the entry that call h left more than 60 s after its time. */
  predicate SweepsPast(calls: seq<Call>, h: nat, i: nat)
    requires ValidCalls(calls) && h < |calls| && i < |calls|
  {
    CompletedAt(calls, i) && calls[i].clock(calls[h].from) > TimeAt(calls, h) + SILENCE
  }

  /** Some sweep since k's entry was last set, that of the same call included, did. */
  predicate Outlived(calls: seq<Call>, k: Address, m: nat)
    requires ValidCalls(calls) && m <= |calls|
  {
    var h := LastSet(calls, k, m);
    h >= 0 && exists i :: h <= i < m && SweepsPast(calls, h, i)
  }

  lemma OutlivedNext(calls: seq<Call>, k: Address, m: nat)
    requires ValidCalls(calls) && m < |calls|
    ensures var h := LastSet(calls, k, m + 1);
      Outlived(calls, k, m + 1) <==> h >= 0 && ((h < m && Outlived(calls, k, m)) || SweepsPast(calls, h, m))
  {
    var h := LastSet(calls, k, m + 1);
    if 0 <= h < m {
      assert LastSet(calls, k, m) == h;
    }
  }

  lemma {:induction false} LatestIsLastSet(calls: seq<Call>, k: Address, m: nat)
    requires ValidCalls(calls) && m <= |calls|
    ensures var h := LastSet(calls, k, m);
      && (k in Latest(calls, m) <==> h >= 0)
      && (h >= 0 ==> Latest(calls, m)[k] == Peer(k, TimeAt(calls, h)))
  {
    if m > 0 {
      LatestIsLastSet(calls, k, m - 1);
    }
  }

  /** One call seen from one entry. */
  lemma RunAt(calls: seq<Call>, k: Address, m: nat)
    requires ValidCalls(calls) && m < |calls|
    ensures var before, c, after := Run(calls, m), calls[m], Run(calls, m + 1);
      if CompletedAt(calls, m) && k == c.from then
        (k in after <==> c.clock(k) <= c.stamp + SILENCE) && (k in after ==> after[k] == Peer(k, c.stamp))
      else if CompletedAt(calls, m) then
        && (k in after <==> k in before && c.clock(k) <= before[k].lastActive + SILENCE)
        && (k in after ==> after[k] == before[k])
      else if k == c.from && k !in before then k in after && after[k] == Peer(k, c.garbage)
      else (k in after <==> k in before) && (k in after ==> after[k] == before[k])
  {}

  predicate EntryAgrees(calls: seq<Call>, k: Address, m: nat)
    requires ValidCalls(calls) && m <= |calls|
  {
    var h := LastSet(calls, k, m);
    && (k in Run(calls, m) <==> h >= 0 && !Outlived(calls, k, m))
    && (k in Run(calls, m) ==> Run(calls, m)[k] == Peer(k, TimeAt(calls, h)))
  }

  lemma EntrySet(calls: seq<Call>, k: Address, m: nat)
    requires ValidCalls(calls) && m < |calls| && SetsAt(calls, m) && calls[m].from == k
    ensures EntryAgrees(calls, k, m + 1)
  {
    RunAt(calls, k, m);
    OutlivedNext(calls, k, m);
  }

  lemma EntryKept(calls: seq<Call>, k: Address, m: nat)
    requires ValidCalls(calls) && m < |calls| && !(SetsAt(calls, m) && calls[m].from == k) && EntryAgrees(calls, k, m)
    ensures EntryAgrees(calls, k, m + 1)
  {
    RunAt(calls, k, m);
    OutlivedNext(calls, k, m);
    assert LastSet(calls, k, m + 1) == LastSet(calls, k, m);
  }

  lemma {:induction false} EntryAgreesAlways(calls: seq<Call>, k: Address, m: nat)
    requires ValidCalls(calls) && m <= |calls|
    ensures EntryAgrees(calls, k, m)
  {
    if m > 0 {
      if SetsAt(calls, m - 1) && calls[m - 1].from == k {
        EntrySet(calls, k, m - 1);
      } else {
        EntryAgreesAlways(calls, k, m - 1);
        EntryKept(calls, k, m - 1);
      }
    }
  }

  lemma EntryIsHistory(calls: seq<Call>, k: Address, m: nat)
    requires ValidCalls(calls) && m <= |calls|
    ensures k in Run(calls, m) <==> k in Latest(calls, m) && !Outlived(calls, k, m)
    ensures k in Run(calls, m) ==> Run(calls, m)[k] == Latest(calls, m)[k]
  {
    EntryAgreesAlways(calls, k, m);
    LatestIsLastSet(calls, k, m);
  }

  /** What the map holds after any calls, whatever the clock does and whatever unset times are: every peer with the
      time its entry was last given, if no sweep since came to it more than 60 s after that time. */
  lemma PeerMapIsHistory(calls: seq<Call>, m: nat)
    requires ValidCalls(calls) && m <= |calls|
    ensures Run(calls, m) == map k | k in Latest(calls, m) && !Outlived(calls, k, m) :: Latest(calls, m)[k]
  {
    forall k
      ensures k in Run(calls, m) <==> k in Latest(calls, m) && !Outlived(calls, k, m)
      ensures k in Run(calls, m) ==> Run(calls, m)[k] == Latest(calls, m)[k]
    {
      EntryIsHistory(calls, k, m);
    }
  }

  /** The last sweep alone tells what all the sweeps together did to k's entry. */
  predicate CutOffTells(calls: seq<Call>, k: Address, m: nat)
    requires ValidCalls(calls) && m <= |calls| && LastSweep(calls, m) >= 0
  {
    var h := LastSet(calls, k, m);
    h >= 0 ==> (Outlived(calls, k, m) <==> calls[LastSweep(calls, m)].clock(k) > TimeAt(calls, h) + SILENCE)
  }

  /** The incrementally swept map is the whole history cut off once, at the last sweep, if and only if that tells. */
  lemma PeerMapRefinesHistoryIff(calls: seq<Call>, m: nat)
    requires ValidCalls(calls) && m <= |calls| && LastSweep(calls, m) >= 0
    ensures Run(calls, m) == Swept(Latest(calls, m), calls[LastSweep(calls, m)].clock)
       <==> forall k :: CutOffTells(calls, k, m)
  {
    var swept := Swept(Latest(calls, m), calls[LastSweep(calls, m)].clock);
    forall k
      ensures (k in Run(calls, m) <==> k in swept) <==> CutOffTells(calls, k, m)
      ensures k in Run(calls, m) && k in swept ==> Run(calls, m)[k] == swept[k]
    {
      EntryIsHistory(calls, k, m);
      LatestIsLastSet(calls, k, m);
    }
  }

  /** The clock never goes back. */
  ghost predicate Monotone(calls: seq<Call>) {
    && (forall i, k :: 0 <= i < |calls| ==> calls[i].stamp <= calls[i].clock(k))
    && (forall i, j, k :: 0 <= i < j < |calls| ==> calls[i].clock(k) <= calls[j].stamp)
  }

  lemma LaterSweep(calls: seq<Call>, i: nat, j: nat, k: Address)
    requires Monotone(calls) && i <= j < |calls|
    ensures calls[i].stamp <= calls[i].clock(k) <= calls[j].clock(k) && calls[i].stamp <= calls[j].stamp
  {
    if i < j {
      assert calls[i].clock(k) <= calls[j].stamp <= calls[j].clock(k);
    }
  }

  /** So with such a clock, when nobody has been registered since the last sweep: the map is the history cut off
      once, and empty if nothing was ever swept. */
  lemma PeerMapRefinesHistory(calls: seq<Call>, m: nat)
    requires ValidCalls(calls) && m <= |calls| && Monotone(calls)
    requires forall i :: LastSweep(calls, m) < i < m ==> !SetsAt(calls, i)
    ensures LastSweep(calls, m) < 0 ==> Run(calls, m) == map[] == Latest(calls, m)
    ensures LastSweep(calls, m) >= 0 ==> Run(calls, m) == Swept(Latest(calls, m), calls[LastSweep(calls, m)].clock)
  {
    var last := LastSweep(calls, m);
    PeerMapIsHistory(calls, m);
    if last < 0 {
      forall k
        ensures k !in Latest(calls, m)
      {
        LatestIsLastSet(calls, k, m);
      }
    } else {
      forall k
        ensures CutOffTells(calls, k, m)
      {
        LastSweepDecides(calls, k, m);
      }
      PeerMapRefinesHistoryIff(calls, m);
    }
  }

  lemma LastSweepDecides(calls: seq<Call>, k: Address, m: nat)
    requires ValidCalls(calls) && m <= |calls| && Monotone(calls) && LastSweep(calls, m) >= 0
    requires forall i :: LastSweep(calls, m) < i < m ==> !SetsAt(calls, i)
    ensures CutOffTells(calls, k, m)
  {
    var h, last := LastSet(calls, k, m), LastSweep(calls, m);
    if h >= 0 {
      if Outlived(calls, k, m) {
        var i :| h <= i < m && SweepsPast(calls, h, i);
        LaterSweep(calls, i, last, k);
      }
      if calls[last].clock(k) > TimeAt(calls, h) + SILENCE {
        assert SweepsPast(calls, h, last);
      }
    }
  }

  /** The sender of a completed call is there afterwards if and only if the sweep came to it within 60 s. */
  lemma SenderSurvives(peers: Peers, c: Call)
    requires c.Valid() && Completes(peers, c)
    ensures c.from in Next(peers, c) <==> c.clock(c.from) <= c.stamp + SILENCE
    ensures c.from in Next(peers, c) ==> Next(peers, c)[c.from] == Peer(c.from, c.stamp)
  {}

  // ---- The echo over a run ----

  lemma Registered(calls: seq<Call>, k: Address, m: nat)
    requires ValidCalls(calls) && m <= |calls| && LastSet(calls, k, m) >= 0
    ensures k in Run(calls, m) <==> !Outlived(calls, k, m)
  {
    LatestIsLastSet(calls, k, m);
    EntryIsHistory(calls, k, m);
  }

  /** The exact condition, whatever the clock does: after any calls, B's verbatim answer to A's n-th call takes A's
      message back to it if and only if no sweep since A's entry was last set came to it more than 60 s after the
      time it was given (or B is A). */
  lemma EchoInAnyRun(calls: seq<Call>, n: nat, echo: Call)
    requires n < |calls| && ValidCalls(calls) && echo.Valid()
    requires calls[n].memory[0] == DATA && Canonical(calls[n].from)
    requires Output(Run(calls, n), calls[n]) == Relayed(echo.from, echo.memory[..echo.size])
    ensures Output(Run(calls, |calls|), echo) == Relayed(calls[n].from, calls[n].memory[..calls[n].size])
       <==> !Outlived(calls, calls[n].from, |calls|) || calls[n].from == echo.from
  {
    assert SetsAt(calls, n);
    Registered(calls, calls[n].from, |calls|);
    EchoIsInverse(Run(calls, n), Run(calls, |calls|), calls[n], echo);
  }

  /** With a clock that does not go back, sweeps that come to a peer within 60 s of a call of its leave it there. */
  lemma {:induction false} StaysRegistered(calls: seq<Call>, n: nat, m: nat)
    requires n < m <= |calls| && ValidCalls(calls) && Monotone(calls) && CompletedAt(calls, n)
    requires forall i :: n <= i < m && CompletedAt(calls, i) ==>
               calls[i].clock(calls[n].from) <= calls[n].stamp + SILENCE
    ensures LastSet(calls, calls[n].from, m) >= n && !Outlived(calls, calls[n].from, m)
  {
    var h := LastSet(calls, calls[n].from, m);
    assert SetsAt(calls, n);
    if !CompletedAt(calls, h) {
      StaysRegistered(calls, n, h);
      Registered(calls, calls[n].from, h);
    } else {
      LaterSweep(calls, n, h, calls[n].from);
    }
  }

  /** So the echo comes back as long as no sweep so far has been more than 60 s after A's call. */
  lemma EchoInARun(calls: seq<Call>, n: nat, echo: Call)
    requires n < |calls| && ValidCalls(calls) && Monotone(calls) && echo.Valid()
    requires calls[n].memory[0] == DATA && Canonical(calls[n].from)
    requires Output(Run(calls, n), calls[n]) == Relayed(echo.from, echo.memory[..echo.size])
    requires LastSweep(calls, |calls|) >= 0 ==>
               calls[LastSweep(calls, |calls|)].clock(calls[n].from) <= calls[n].stamp + SILENCE
    ensures Output(Run(calls, |calls|), echo) == Relayed(calls[n].from, calls[n].memory[..calls[n].size])
  {
    var last := LastSweep(calls, |calls|);
    assert CompletedAt(calls, n);
    forall i | n <= i < |calls| && CompletedAt(calls, i)
      ensures calls[i].clock(calls[n].from) <= calls[n].stamp + SILENCE
    {
      LaterSweep(calls, i, last, calls[n].from);
    }
    StaysRegistered(calls, n, |calls|);
    EchoInAnyRun(calls, n, echo);
  }

  // ---- Times that are never set ----

  /** What one call makes of a map is independent of the unset time it may leave itself if and only if it completes
      or comes from a registered peer. */
  lemma UnsetStamp(peers: Peers, c: Call)
    requires c.Valid()
    ensures (forall g: int :: Next(peers, c.(garbage := g)) == Next(peers, c))
       <==> Completes(peers, c) || c.from in peers
  {
    if !Completes(peers, c) && c.from !in peers {
      var g := c.garbage + 1;
      assert Next(peers, c.(garbage := g))[c.from] == Peer(c.from, g);
    }
  }

  /** A DATA message that is all header, from a new sender, is such a call: the relay then holds a peer whose time
      is whatever the memory was. */
  lemma UnsetStampReached(from: Address, g: int)
    requires |from| >= 8
    ensures var c := Call(from, [DATA, 0, 0, 0, 0, 0, 0, 0], HEADERS, g, 0, _ => 0);
      c.Valid() && !Completes(map[], c) && Next(map[], c) == map[from := Peer(from, g)]
  {}

  /** What one call sends shows its own unset time if and only if a new sender asks for the report. */
  lemma UnsetReport(peers: Peers, c: Call)
    requires c.Valid()
    ensures (forall g: int :: Output(peers, c.(garbage := g)) == Output(peers, c))
       <==> c.from in peers || c.memory[0] != INFO
  {
    if c.memory[0] == INFO && c.from !in peers {
      var g := c.garbage + 1;
      assert Output(peers, c.(garbage := g)).listed[c.from] == Peer(c.from, g);
      assert Output(peers, c).listed[c.from] == Peer(c.from, c.garbage);
    }
  }

  /** The same calls with other unset times. */
  function Filled(calls: seq<Call>, gs: seq<int>): (r: seq<Call>)
    requires |gs| == |calls|
    ensures |r| == |calls| && (ValidCalls(calls) ==> ValidCalls(r))
    ensures forall i :: 0 <= i < |calls| ==> r[i] == calls[i].(garbage := gs[i])
  {
    seq(|calls|, i requires 0 <= i < |calls| => calls[i].(garbage := gs[i]))
  }

  predicate SameMap(calls: seq<Call>, gs: seq<int>, m: nat)
    requires ValidCalls(calls) && |gs| == |calls| && m <= |calls|
  {
    Run(Filled(calls, gs), m) == Run(calls, m)
  }

  predicate SettledAt(calls: seq<Call>, i: nat)
    requires ValidCalls(calls) && i < |calls|
  {
    CompletedAt(calls, i) || calls[i].from in Run(calls, i)
  }

  /** A call that returns early comes from a peer that is already registered. */
  predicate Settled(calls: seq<Call>)
    requires ValidCalls(calls)
  {
    forall i :: 0 <= i < |calls| ==> SettledAt(calls, i)
  }

  lemma SettledNext(peers: Peers, c: Call, g: int)
    requires c.Valid() && (Completes(peers, c) || c.from in peers)
    ensures c.(garbage := g).Valid() && Next(peers, c.(garbage := g)) == Next(peers, c)
  {}

  lemma FilledNext(calls: seq<Call>, gs: seq<int>, m: nat)
    requires ValidCalls(calls) && |gs| == |calls| && m < |calls| && SameMap(calls, gs, m) && SettledAt(calls, m)
    ensures SameMap(calls, gs, m + 1)
  {
    SettledNext(Run(calls, m), calls[m], gs[m]);
  }

  lemma {:induction false} SettledSame(calls: seq<Call>, gs: seq<int>, m: nat)
    requires ValidCalls(calls) && |gs| == |calls| && m <= |calls| && Settled(calls)
    ensures SameMap(calls, gs, m)
  {
    if m > 0 {
      SettledSame(calls, gs, m - 1);
      FilledNext(calls, gs, m - 1);
    }
  }

  /** Over a run: the map never depends on unset times if and only if no call that returns early registers anyone. */
  lemma UnsetTimesInARun(calls: seq<Call>)
    requires ValidCalls(calls)
    ensures (forall gs: seq<int>, m: nat {:trigger SameMap(calls, gs, m)} ::
               |gs| == |calls| && m <= |calls| ==> SameMap(calls, gs, m))
       <==> Settled(calls)
  {
    if Settled(calls) {
      forall gs: seq<int>, m: nat | |gs| == |calls| && m <= |calls|
        ensures SameMap(calls, gs, m)
      {
        SettledSame(calls, gs, m);
      }
    } else {
      var i :| 0 <= i < |calls| && !SettledAt(calls, i);
      var gs := seq(|calls|, _ => calls[i].garbage + 1);
      if SameMap(calls, gs, i) {
        assert Run(Filled(calls, gs), i + 1)[calls[i].from] == Peer(calls[i].from, calls[i].garbage + 1);
        assert !SameMap(calls, gs, i + 1);
      }
    }
  }

  /** The addresses whose entry may have an unset time, and those of which that leaves open whether they are there. */
  datatype Doubt = Doubt(unset: set<Address>, maybe: set<Address>)

  function NextDoubt(d: Doubt, peers: Peers, c: Call): (r: Doubt)
    requires c.Valid()
    ensures d.maybe <= d.unset ==> r.maybe <= r.unset
  {
    if Completes(peers, c) then Doubt(d.unset - {c.from}, d.unset - {c.from})
    else if c.from !in peers || c.from in d.unset then Doubt(d.unset + {c.from}, d.maybe - {c.from})
    else d
  }

  function DoubtAt(calls: seq<Call>, m: nat): (d: Doubt)
    requires ValidCalls(calls) && m <= |calls|
    ensures d.maybe <= d.unset
  {
    if m == 0 then Doubt({}, {}) else NextDoubt(DoubtAt(calls, m - 1), Run(calls, m - 1), calls[m - 1])
  }

  /** A message to an address of which an unset time leaves open whether it is there. */
  predicate HangsOn(d: Doubt, c: Call) {
    c.Addressed() && c.Target() in d.maybe && c.Target() != c.from
  }

  /** Such a message; or a report while some entry may have an unset time, or for a sender that has none. */
  predicate Exposed(d: Doubt, peers: Peers, c: Call)
    requires c.Valid()
  {
    || (c.memory[0] == INFO && (d.unset != {} || c.from !in peers))
    || HangsOn(d, c)
  }

  predicate Exposes(calls: seq<Call>, i: nat)
    requires ValidCalls(calls) && i < |calls|
  {
    Exposed(DoubtAt(calls, i), Run(calls, i), calls[i])
  }

  /** How many of the first m calls do. */
  function Exposures(calls: seq<Call>, m: nat): nat
    requires ValidCalls(calls) && m <= |calls|
  {
    if m == 0 then 0 else Exposures(calls, m - 1) + if Exposes(calls, m - 1) then 1 else 0
  }

  predicate Discreet(calls: seq<Call>, m: nat)
    requires ValidCalls(calls) && m <= |calls|
  {
    Exposures(calls, m) == 0
  }

  lemma {:induction false} DiscreetBefore(calls: seq<Call>, i: nat, m: nat)
    requires ValidCalls(calls) && i < m <= |calls| && Discreet(calls, m)
    ensures Discreet(calls, i + 1) && !Exposes(calls, i)
  {
    if i + 1 < m {
      DiscreetBefore(calls, i, m - 1);
    }
  }

  predicate SameSent(calls: seq<Call>, gs: seq<int>, i: nat)
    requires ValidCalls(calls) && |gs| == |calls| && i < |calls|
  {
    Output(Run(Filled(calls, gs), i), Filled(calls, gs)[i]) == Output(Run(calls, i), calls[i])
  }

  /** Two maps differ at most where there is doubt. */
  ghost predicate Alike(d: Doubt, p: Peers, q: Peers) {
    && (forall k :: k !in d.unset ==> (k in p <==> k in q))
    && (forall k :: k !in d.unset && k in p && k in q ==> p[k] == q[k])
    && (forall k :: k in d.unset && k !in d.maybe ==> k in p && k in q)
  }

  lemma AlikeSends(d: Doubt, p: Peers, q: Peers, c: Call, g: int)
    requires Alike(d, p, q) && c.Valid() && !Exposed(d, p, c)
    ensures c.(garbage := g).Valid() && Completes(q, c.(garbage := g)) == Completes(p, c)
    ensures Output(q, c.(garbage := g)) == Output(p, c)
  {
    if c.memory[0] == INFO {
      assert p == q;
    }
  }

  lemma AlikeNext(d: Doubt, p: Peers, q: Peers, c: Call, g: int)
    requires Alike(d, p, q) && d.maybe <= d.unset && c.Valid()
    requires c.(garbage := g).Valid() && Completes(q, c.(garbage := g)) == Completes(p, c)
    ensures Alike(NextDoubt(d, p, c), Next(p, c), Next(q, c.(garbage := g)))
  {}

  lemma AlikeStep(calls: seq<Call>, gs: seq<int>, i: nat)
    requires ValidCalls(calls) && |gs| == |calls| && i < |calls| && Discreet(calls, i + 1)
    requires Alike(DoubtAt(calls, i), Run(calls, i), Run(Filled(calls, gs), i))
    ensures SameSent(calls, gs, i) && CompletedAt(Filled(calls, gs), i) == CompletedAt(calls, i)
    ensures Alike(DoubtAt(calls, i + 1), Run(calls, i + 1), Run(Filled(calls, gs), i + 1))
  {
    AlikeSends(DoubtAt(calls, i), Run(calls, i), Run(Filled(calls, gs), i), calls[i], gs[i]);
    AlikeNext(DoubtAt(calls, i), Run(calls, i), Run(Filled(calls, gs), i), calls[i], gs[i]);
  }

  lemma {:induction false} AlikeThroughout(calls: seq<Call>, gs: seq<int>, m: nat)
    requires ValidCalls(calls) && |gs| == |calls| && m <= |calls| && Discreet(calls, m)
    ensures Alike(DoubtAt(calls, m), Run(calls, m), Run(Filled(calls, gs), m))
  {
    if m > 0 {
      AlikeThroughout(calls, gs, m - 1);
      AlikeStep(calls, gs, m - 1);
    }
  }

  lemma AlikeAt(calls: seq<Call>, gs: seq<int>, i: nat, k: Address)
    requires ValidCalls(calls) && |gs| == |calls| && i < |calls| && Discreet(calls, i + 1)
    ensures Completes(Run(Filled(calls, gs), i), Filled(calls, gs)[i]) == Completes(Run(calls, i), calls[i])
    ensures k !in DoubtAt(calls, i).unset ==> (k in Run(calls, i) <==> k in Run(Filled(calls, gs), i))
  {
    AlikeThroughout(calls, gs, i);
    AlikeStep(calls, gs, i);
  }

  function Constant(calls: seq<Call>, g: int): (gs: seq<int>)
    ensures |gs| == |calls| && forall i :: 0 <= i < |gs| ==> gs[i] == g
  {
    seq(|calls|, _ => g)
  }

  predicate ReadWithin(calls: seq<Call>, i: nat, j: nat, v: int)
    requires i < |calls| && j < |calls|
  {
    -v <= calls[i].clock(calls[j].from) <= v
  }

  /** How far the clock strays from 0 where it matters. */
  predicate Within(calls: seq<Call>, v: int) {
    forall i, j :: 0 <= i < |calls| && 0 <= j < |calls| ==> ReadWithin(calls, i, j, v)
  }

  lemma WithinMore(calls: seq<Call>, v: int, w: int)
    requires Within(calls, v) && v <= w
    ensures Within(calls, w)
  {
    forall i, j | 0 <= i < |calls| && 0 <= j < |calls|
      ensures ReadWithin(calls, i, j, w)
    {
      assert ReadWithin(calls, i, j, v);
    }
  }

  lemma ClockWithin(calls: seq<Call>, v: int, i: nat, j: nat)
    requires Within(calls, v) && i < |calls| && j < |calls|
    ensures -v <= calls[i].clock(calls[j].from) <= v
  {
    assert ReadWithin(calls, i, j, v);
  }

  lemma {:induction false} OneWithin(calls: seq<Call>, i: nat, m: nat) returns (v: int)
    requires i < |calls| && m <= |calls|
    ensures v >= 0 && forall j :: 0 <= j < m ==> ReadWithin(calls, i, j, v)
  {
    v := 0;
    if m > 0 {
      var u := OneWithin(calls, i, m - 1);
      var t := calls[i].clock(calls[m - 1].from);
      v := u + (if t < 0 then -t else t);
      forall j | 0 <= j < m
        ensures ReadWithin(calls, i, j, v)
      {
        assert j < m - 1 ==> ReadWithin(calls, i, j, u);
      }
    }
  }

  lemma {:induction false} AllWithin(calls: seq<Call>, n: nat) returns (v: int)
    requires n <= |calls|
    ensures v >= 0 && forall i, j :: 0 <= i < n && 0 <= j < |calls| ==> ReadWithin(calls, i, j, v)
  {
    v := 0;
    if n > 0 {
      var t := OneWithin(calls, n - 1, |calls|);
      var u := AllWithin(calls, n - 1);
      v := u + t;
      forall i, j | 0 <= i < n && 0 <= j < |calls|
        ensures ReadWithin(calls, i, j, v)
      {
        assert if i < n - 1 then ReadWithin(calls, i, j, u) else ReadWithin(calls, i, j, t);
      }
    }
  }

  lemma {:induction false} DoubtfulCalled(calls: seq<Call>, m: nat, k: Address) returns (j: nat)
    requires ValidCalls(calls) && m <= |calls| && k in DoubtAt(calls, m).unset
    ensures j < m && calls[j].from == k
  {
    if calls[m - 1].from == k {
      j := m - 1;
    } else {
      j := DoubtfulCalled(calls, m - 1, k);
    }
  }

  lemma LateNext(d: Doubt, p: Peers, q: Peers, c: Call, g: int, k: Address)
    requires c.Valid() && c.(garbage := g).Valid() && Completes(q, c.(garbage := g)) == Completes(p, c)
    requires k in NextDoubt(d, p, c).unset && c.clock(k) <= g
    requires if k in d.unset then k in q && q[k] == Peer(k, g) else k in p <==> k in q
    ensures k in Next(q, c.(garbage := g)) && Next(q, c.(garbage := g))[k] == Peer(k, g)
  {}

  /** If all unset times are late enough, an entry with one stays. */
  predicate StaysLate(calls: seq<Call>, g: int, m: nat, k: Address)
    requires ValidCalls(calls) && m <= |calls|
  {
    var q := Run(Filled(calls, Constant(calls, g)), m);
    k in q && q[k] == Peer(k, g)
  }

  lemma LateStep(calls: seq<Call>, g: int, i: nat, k: Address)
    requires ValidCalls(calls) && i < |calls| && Within(calls, g) && Discreet(calls, i + 1)
    requires k in DoubtAt(calls, i + 1).unset && (k in DoubtAt(calls, i).unset ==> StaysLate(calls, g, i, k))
    ensures StaysLate(calls, g, i + 1, k)
  {
    AlikeAt(calls, Constant(calls, g), i, k);
    var j := DoubtfulCalled(calls, i + 1, k);
    ClockWithin(calls, g, i, j);
    LateNext(DoubtAt(calls, i), Run(calls, i), Run(Filled(calls, Constant(calls, g)), i), calls[i], g, k);
  }

  lemma {:induction false} LateStay(calls: seq<Call>, g: int, m: nat, k: Address)
    requires ValidCalls(calls) && m <= |calls| && Within(calls, g) && Discreet(calls, m)
    requires k in DoubtAt(calls, m).unset
    ensures StaysLate(calls, g, m, k)
  {
    if k in DoubtAt(calls, m - 1).unset {
      LateStay(calls, g, m - 1, k);
    }
    LateStep(calls, g, m - 1, k);
  }

  /** Not there, or there with time g where d allows it. */
  predicate GoneOr(d: Doubt, q: Peers, k: Address, g: int) {
    (k in d.maybe ==> k !in q) && (k in q ==> q[k] == Peer(k, g))
  }

  lemma EarlyNext(d: Doubt, p: Peers, q: Peers, c: Call, g: int, k: Address)
    requires c.Valid() && c.(garbage := g).Valid() && Completes(q, c.(garbage := g)) == Completes(p, c)
    requires d.maybe <= d.unset && k in NextDoubt(d, p, c).unset && c.clock(k) > g + SILENCE
    requires if k in d.unset then GoneOr(d, q, k, g) else k in p <==> k in q
    ensures GoneOr(NextDoubt(d, p, c), Next(q, c.(garbage := g)), k, g)
  {}

  /** If all are early enough, every entry with one goes at the first sweep. */
  predicate GoesEarly(calls: seq<Call>, g: int, m: nat, k: Address)
    requires ValidCalls(calls) && m <= |calls|
  {
    GoneOr(DoubtAt(calls, m), Run(Filled(calls, Constant(calls, g)), m), k, g)
  }

  lemma EarlyStep(calls: seq<Call>, v: int, g: int, i: nat, k: Address)
    requires ValidCalls(calls) && i < |calls| && Within(calls, v) && Discreet(calls, i + 1) && g + SILENCE < -v
    requires k in DoubtAt(calls, i + 1).unset && (k in DoubtAt(calls, i).unset ==> GoesEarly(calls, g, i, k))
    ensures GoesEarly(calls, g, i + 1, k)
  {
    AlikeAt(calls, Constant(calls, g), i, k);
    var j := DoubtfulCalled(calls, i + 1, k);
    ClockWithin(calls, v, i, j);
    EarlyNext(DoubtAt(calls, i), Run(calls, i), Run(Filled(calls, Constant(calls, g)), i), calls[i], g, k);
  }

  lemma {:induction false} EarlyGo(calls: seq<Call>, v: int, g: int, m: nat, k: Address)
    requires ValidCalls(calls) && m <= |calls| && Within(calls, v) && Discreet(calls, m) && g + SILENCE < -v
    requires k in DoubtAt(calls, m).unset
    ensures GoesEarly(calls, g, m, k)
  {
    if k in DoubtAt(calls, m - 1).unset {
      EarlyGo(calls, v, g, m - 1, k);
    }
    EarlyStep(calls, v, g, m - 1, k);
  }

  lemma ReportsDiffer(p: Peers, q: Peers, c: Call, v: int, k: Address)
    requires c.Valid() && c.memory[0] == INFO
    requires if k in p then k in q && p[k] == Peer(k, v) && q[k] == Peer(k, v + 1) else k == c.from && k !in q
    ensures c.(garbage := v).Valid() && c.(garbage := v + 1).Valid()
    ensures Output(p, c.(garbage := v)) != Output(q, c.(garbage := v + 1))
  {
    assert Inserted(p, c.from, v)[k] == Peer(k, v) && Inserted(q, c.from, v + 1)[k] == Peer(k, v + 1);
  }

  /** With unset times v in the one run and v + 1 in the other, such an entry differs. */
  lemma EntriesDiffer(calls: seq<Call>, i: nat, v: int) returns (k: Address)
    requires ValidCalls(calls) && i < |calls| && Within(calls, v)
    requires Discreet(calls, i)
    requires DoubtAt(calls, i).unset != {} || calls[i].from !in Run(calls, i)
    ensures var p, q := Run(Filled(calls, Constant(calls, v)), i), Run(Filled(calls, Constant(calls, v + 1)), i);
      if k in p then k in q && p[k] == Peer(k, v) && q[k] == Peer(k, v + 1) else k == calls[i].from && k !in q
  {
    if DoubtAt(calls, i).unset != {} {
      k :| k in DoubtAt(calls, i).unset;
      LateStay(calls, v, i, k);
      WithinMore(calls, v, v + 1);
      LateStay(calls, v + 1, i, k);
    } else {
      k := calls[i].from;
      AlikeThroughout(calls, Constant(calls, v), i);
      AlikeThroughout(calls, Constant(calls, v + 1), i);
    }
  }

  lemma ExposedReport(calls: seq<Call>, i: nat, v: int)
    requires ValidCalls(calls) && i < |calls| && Within(calls, v)
    requires Discreet(calls, i)
    requires calls[i].memory[0] == INFO && (DoubtAt(calls, i).unset != {} || calls[i].from !in Run(calls, i))
    ensures !SameSent(calls, Constant(calls, v), i) || !SameSent(calls, Constant(calls, v + 1), i)
  {
    var low, high := Constant(calls, v), Constant(calls, v + 1);
    var k := EntriesDiffer(calls, i, v);
    ReportsDiffer(Run(Filled(calls, low), i), Run(Filled(calls, high), i), calls[i], v, k);
  }

  lemma MessagesDiffer(p: Peers, q: Peers, c: Call, g: int, h: int)
    requires c.Valid() && c.Addressed() && c.Target() in p && c.Target() !in q && c.Target() != c.from
    ensures c.(garbage := g).Valid() && c.(garbage := h).Valid()
    ensures Output(p, c.(garbage := g)) != Output(q, c.(garbage := h))
  {}

  lemma NotBoth(calls: seq<Call>, i: nat, g: int, h: int)
    requires ValidCalls(calls) && i < |calls|
    requires Output(Run(Filled(calls, Constant(calls, g)), i), Filled(calls, Constant(calls, g))[i])
          != Output(Run(Filled(calls, Constant(calls, h)), i), Filled(calls, Constant(calls, h))[i])
    ensures !SameSent(calls, Constant(calls, g), i) || !SameSent(calls, Constant(calls, h), i)
  {}

  lemma PresenceDiffers(calls: seq<Call>, m: nat, v: int, g: int, k: Address)
    requires ValidCalls(calls) && m <= |calls| && Within(calls, v) && Discreet(calls, m) && g + SILENCE < -v
    requires k in DoubtAt(calls, m).maybe
    ensures k in Run(Filled(calls, Constant(calls, v)), m) && k !in Run(Filled(calls, Constant(calls, g)), m)
  {
    LateStay(calls, v, m, k);
    EarlyGo(calls, v, g, m, k);
  }

  lemma ExposedMessage(calls: seq<Call>, i: nat, v: int, g: int)
    requires ValidCalls(calls) && i < |calls| && Within(calls, v) && Discreet(calls, i) && g + SILENCE < -v
    requires HangsOn(DoubtAt(calls, i), calls[i])
    ensures !SameSent(calls, Constant(calls, v), i) || !SameSent(calls, Constant(calls, g), i)
  {
    var p, q := Run(Filled(calls, Constant(calls, v)), i), Run(Filled(calls, Constant(calls, g)), i);
    PresenceDiffers(calls, i, v, g, calls[i].Target());
    MessagesDiffer(p, q, calls[i], v, g);
    NotBoth(calls, i, v, g);
  }

  /** The first call that exposes an unset time sends something else for some other times. */
  lemma FirstExposure(calls: seq<Call>, i: nat) returns (g: int)
    requires ValidCalls(calls) && i < |calls| && Discreet(calls, i) && Exposes(calls, i)
    ensures !SameSent(calls, Constant(calls, g), i)
  {
    var v := AllWithin(calls, |calls|);
    var h := -v - SILENCE - 1;
    if HangsOn(DoubtAt(calls, i), calls[i]) {
      ExposedMessage(calls, i, v, h);
    } else {
      ExposedReport(calls, i, v);
      h := v + 1;
    }
    g := if SameSent(calls, Constant(calls, v), i) then h else v;
  }

  lemma {:induction false} NothingExposed(calls: seq<Call>, m: nat)
    requires ValidCalls(calls) && m <= |calls|
    requires forall gs: seq<int>, i: nat {:trigger SameSent(calls, gs, i)} ::
               |gs| == |calls| && i < |calls| ==> SameSent(calls, gs, i)
    ensures Discreet(calls, m)
  {
    if m > 0 {
      NothingExposed(calls, m - 1);
      if Exposes(calls, m - 1) {
        var g := FirstExposure(calls, m - 1);
        assert false;
      }
    }
  }

  /** Over a run: what the relay sends never depends on unset times if and only if no call exposes one. */
  lemma SentTimesInARun(calls: seq<Call>)
    requires ValidCalls(calls)
    ensures (forall gs: seq<int>, i: nat {:trigger SameSent(calls, gs, i)} ::
               |gs| == |calls| && i < |calls| ==> SameSent(calls, gs, i))
       <==> Discreet(calls, |calls|)
  {
    if Discreet(calls, |calls|) {
      forall gs: seq<int>, i: nat | |gs| == |calls| && i < |calls|
        ensures SameSent(calls, gs, i)
      {
        DiscreetBefore(calls, i, |calls|);
        AlikeThroughout(calls, gs, i);
        AlikeStep(calls, gs, i);
      }
    } else if forall gs: seq<int>, i: nat {:trigger SameSent(calls, gs, i)} ::
                |gs| == |calls| && i < |calls| ==> SameSent(calls, gs, i) {
      NothingExposed(calls, |calls|);
    }
  }
}
