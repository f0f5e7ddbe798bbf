/** The learning bridge (bridge/ether_bridge.hpp): a table of the source addresses seen, with the reply handler and
    the time of the latest frame of each, cleaned up on every call. A handler is an abstract value of type T. */
module Bridge {
  import opened Common

  /** An ethernet address, compared byte by byte with memcmp. */
  type Mac = s: seq<byte> | |s| == 6 witness [0, 0, 0, 0, 0, 0]

  const BROADCAST: Mac := [255, 255, 255, 255, 255, 255]

  const HEADER_SIZE := 14
  const TIMEOUT := 600

  datatype Record<T> = Record(addr: Mac, lastActive: int, t: T)

  type Table<T> = map<Mac, Record<T>>

  /** The bytes read as a big-endian number. */
  function Rank(s: seq<byte>): (r: nat)
    ensures r < Power256(|s|)
  {
    if s == [] then 0
    else
      ScaleLess(s[0] as nat, 256, Power256(|s| - 1));
      Scaled(s[0] as nat, Power256(|s| - 1)) + Rank(s[1..])
  }

  /** x * p, by repeated addition. */
  function Scaled(x: nat, p: nat): nat {
    if x == 0 then 0 else p + Scaled(x - 1, p)
  }

  lemma {:induction false} MemLessIsRank(a: seq<byte>, b: seq<byte>)
    requires |a| == |b|
    ensures MemLess(a, b) <==> Rank(a) < Rank(b)
    ensures Rank(a) == Rank(b) ==> a == b
  {
    if a != [] {
      MemLessIsRank(a[1..], b[1..]);
      var p := Power256(|a| - 1);
      if a[0] < b[0] {
        ScaleLess(a[0] as nat, b[0] as nat, p);
      } else if b[0] < a[0] {
        ScaleLess(b[0] as nat, a[0] as nat, p);
      } else {
        assert a == [a[0]] + a[1..] && b == [b[0]] + b[1..];
      }
    }
  }

  lemma {:induction false} ScaleLess(x: nat, y: nat, p: nat)
    requires x < y
    ensures Scaled(x, p) + p <= Scaled(y, p)
    ensures y == 256 ==> Scaled(y, p) == 256 * p
  {
    if x + 1 < y {
      ScaleLess(x, y - 1, p);
    }
    ScaledIsTimes(y, p);
  }

  lemma {:induction false} ScaledIsTimes(x: nat, p: nat)
    ensures Scaled(x, p) == x * p
  {
    if x > 0 {
      ScaledIsTimes(x - 1, p);
      assert x * p == (x - 1) * p + p;
    }
  }

  /** memcmp orders addresses strictly and totally, and agrees with operator==. */
  lemma MacOrder()
    ensures forall a: Mac, b: Mac :: MemLess(a, b) <==> Rank(a) < Rank(b)
    ensures forall a: Mac, b: Mac :: Rank(a) == Rank(b) ==> a == b
  {
    forall a: Mac, b: Mac
      ensures MemLess(a, b) <==> Rank(a) < Rank(b)
      ensures Rank(a) == Rank(b) ==> a == b
    {
      MemLessIsRank(a, b);
    }
  }

  predicate Above(after: Option<Mac>, k: Mac) {
    after.Some? ==> MemLess(after.value, k)
  }

  /** What begin() and ++it give: the least key above after, or the end. */
  predicate IsNext<T>(table: Table<T>, after: Option<Mac>, next: Option<Mac>) {
    && (next.Some? ==> next.value in table && Above(after, next.value))
    && (forall k :: k in table && Above(after, k) ==> next.Some? && !MemLess(k, next.value))
  }

  predicate Stale<T>(r: Record<T>, now: int) {
    now - r.lastActive > TIMEOUT
  }

  function Live<T>(table: Table<T>, now: int): Table<T> {
    map k | k in table && !Stale(table[k], now) :: table[k]
  }

  class MacTable<T(==)> {
    var table: Table<T>

    constructor ()
      ensures table == map[]
    {
      table := map[];
    }

    method Update(addr: Mac, now: int, t: T)
      modifies this
      ensures table == old(table)[addr := Record(addr, now, t)]
    {
      table := table[addr := Record(addr, now, t)];
    }

    method Query(addr: Mac) returns (t: Option<T>)
      ensures t == if addr in table then Some(table[addr].t) else None
    {
      t := if addr in table then Some(table[addr].t) else None;
    }

    method Next(after: Option<Mac>) returns (next: Option<Mac>)
      ensures IsNext(table, after, next)
    {
      MacOrder();
      next := None;
      var rest := table.Keys;
      while rest != {}
        invariant rest <= table.Keys
        invariant next.Some? ==> next.value in table && Above(after, next.value)
        invariant forall k :: k in table.Keys - rest && Above(after, k) ==> next.Some? && !MemLess(k, next.value)
        decreases |rest|
      {
        var k :| k in rest;
        if Above(after, k) && (next.None? || MemLess(k, next.value)) {
          next := Some(k);
        }
        rest := rest - {k};
      }
    }

    /** check_timeout: one pass in key order, erasing while iterating. */
    method CheckTimeout(now: int)
      modifies this
      ensures table == Live(old(table), now)
    {
      MacOrder();
      var after := None;
      var it := Next(after);
      while it.Some?
        invariant IsNext(table, after, it)
        invariant forall k :: k in table ==> k in old(table) && table[k] == old(table)[k]
        invariant forall k :: k in old(table) ==> (k !in table <==> !Above(after, k) && Stale(old(table)[k], now))
        decreases if it.None? then 0 else Power256(6) - Rank(it.value)
      {
        var k := it.value;
        if Stale(table[k], now) {
          table := table - {k};
        }
        after := Some(k);
        it := Next(after);
      }
    }
  }

  /** One call of forward: the frame, the sender's reply handler, and the clock at the clean-up and at the update. */
  datatype Frame<T> = Frame(bytes: seq<byte>, handler: T, cleaned: int, learned: int) {
    predicate Accepted() {
      |bytes| >= HEADER_SIZE
    }

    function Dst(): Mac
      requires Accepted()
    {
      bytes[..6]
    }

    function Src(): Mac
      requires Accepted()
    {
      bytes[6..12]
    }
  }

  function Learned<T>(table: Table<T>, f: Frame<T>): Table<T> {
    if f.Accepted() then Live(table, f.cleaned)[f.Src() := Record(f.Src(), f.learned, f.handler)]
    else Live(table, f.cleaned)
  }

  /** Where the iterator is after step i. */
  function Position(visits: seq<Mac>, i: int): Option<Mac> {
    if 0 <= i < |visits| then Some(visits[i]) else None
  }

  /** A walk over the table in which other coroutines may change it between two steps: visits[i] is the key the
      iterator is at after the i-th step, seen[i] the table when that step is made. */
  predicate IsPath<T>(seen: seq<Table<T>>, visits: seq<Mac>) {
    && |seen| == |visits| + 1
    && (forall i :: 0 <= i < |visits| ==> visits[i] in seen[i])
    && (forall i :: 0 <= i < |visits| ==> StepAt(seen, visits, i))
  }

  predicate StepAt<T>(seen: seq<Table<T>>, visits: seq<Mac>, i: nat)
    requires i < |visits| <= |seen|
  {
    IsNext(seen[i], Position(visits, i - 1), Some(visits[i]))
  }

  /** A path whose last step met the end. */
  predicate IsWalk<T>(seen: seq<Table<T>>, visits: seq<Mac>) {
    IsPath(seen, visits) && IsNext(seen[|visits|], Position(visits, |visits| - 1), None)
  }

  /** Whom the flood calls in the first n steps, with the handler found at the time: everybody visited but the
      source. */
  function Served<T>(seen: seq<Table<T>>, visits: seq<Mac>, src: Mac, n: nat): seq<(Mac, T)>
    requires n <= |visits| <= |seen| && forall i :: 0 <= i < |visits| ==> visits[i] in seen[i]
  {
    if n == 0 then []
    else
      Served(seen, visits, src, n - 1)
      + if visits[n - 1] != src then [(visits[n - 1], seen[n - 1][visits[n - 1]].t)] else []
  }

  predicate Throughout<T>(seen: seq<Table<T>>, k: Mac) {
    forall i :: 0 <= i < |seen| ==> k in seen[i]
  }

  /** What happens in step i: the handler that is called, unless it is the source's, suspends, and the others act. */
  predicate ActsAt<T(==)>(seen: seq<Table<T>>, visits: seq<Mac>, src: Mac,
                          others: (nat, Mac, Table<T>) -> Table<T>, i: nat)
    requires i < |visits| < |seen| && forall j :: 0 <= j < |visits| ==> visits[j] in seen[j]
  {
    seen[i + 1] ==
      if visits[i] == src then seen[i] else others(|Served(seen, visits, src, i)|, visits[i], seen[i])
  }

  /** In strictly increasing order of address, so nobody twice. */
  predicate Ordered<T>(s: seq<(Mac, T)>) {
    forall i, j :: 0 <= i < j < |s| ==> Rank(s[i].0) < Rank(s[j].0)
  }

  predicate Serves<T>(s: seq<(Mac, T)>, k: Mac) {
    exists i :: 0 <= i < |s| && s[i].0 == k
  }

  lemma PathIncreases<T>(seen: seq<Table<T>>, visits: seq<Mac>)
    requires IsPath(seen, visits)
    ensures forall i :: 0 < i < |visits| ==> Rank(visits[i - 1]) < Rank(visits[i])
  {
    forall i | 0 < i < |visits|
      ensures Rank(visits[i - 1]) < Rank(visits[i])
    {
      MemLessIsRank(visits[i - 1], visits[i]);
      assert StepAt(seen, visits, i);
    }
  }

  /** A key that is in the table at every step is visited, whatever else comes and goes: the walk cannot step over
      it. */
  lemma {:induction false} PresentIsVisited<T>(seen: seq<Table<T>>, visits: seq<Mac>, k: Mac, n: nat)
    requires IsPath(seen, visits) && n <= |visits| && Throughout(seen, k)
    ensures k in visits[..n] || Above(Position(visits, n - 1), k)
  {
    if n > 0 {
      PresentIsVisited(seen, visits, k, n - 1);
      assert visits[..n] == visits[..n - 1] + [visits[n - 1]];
      assert StepAt(seen, visits, n - 1);
      MemLessTotal(visits[n - 1], k);
    }
  }

  lemma {:induction false} ServedInOrder<T>(seen: seq<Table<T>>, visits: seq<Mac>, src: Mac, n: nat)
    requires |visits| <= |seen| && forall i :: 0 <= i < |visits| ==> visits[i] in seen[i]
    requires n <= |visits| && forall i :: 0 < i < |visits| ==> Rank(visits[i - 1]) < Rank(visits[i])
    ensures forall c :: c in Served(seen, visits, src, n) ==> n > 0 && Rank(c.0) <= Rank(visits[n - 1])
    ensures Ordered(Served(seen, visits, src, n))
  {
    if n > 0 {
      ServedInOrder(seen, visits, src, n - 1);
      assert n > 1 ==> Rank(visits[n - 2]) < Rank(visits[n - 1]);
      var before := Served(seen, visits, src, n - 1);
      assert forall i :: 0 <= i < |before| ==> before[i] in before;
    }
  }

  /** The call goes to an address the walk came by, with the handler its entry had at that moment. */
  predicate CalledAt<T(==)>(seen: seq<Table<T>>, visits: seq<Mac>, call: (Mac, T))
    requires |visits| <= |seen| && forall i :: 0 <= i < |visits| ==> visits[i] in seen[i]
  {
    exists n :: 0 <= n < |visits| && call.0 == visits[n] && call.1 == seen[n][visits[n]].t
  }

  lemma {:induction false} ServedIsVisited<T>(seen: seq<Table<T>>, visits: seq<Mac>, src: Mac, n: nat)
    requires n <= |visits| <= |seen| && forall i :: 0 <= i < |visits| ==> visits[i] in seen[i]
    ensures forall c :: c in Served(seen, visits, src, n) ==> c.0 != src && CalledAt(seen, visits, c)
    ensures forall m :: 0 <= m < n && visits[m] != src ==> Serves(Served(seen, visits, src, n), visits[m])
  {
    if n > 0 {
      ServedIsVisited(seen, visits, src, n - 1);
      var before, s := Served(seen, visits, src, n - 1), Served(seen, visits, src, n);
      forall m | 0 <= m < n && visits[m] != src
        ensures Serves(s, visits[m])
      {
        if m == n - 1 {
          assert s[|s| - 1].0 == visits[m];
        } else {
          var i :| 0 <= i < |before| && before[i].0 == visits[m];
          assert s[i].0 == visits[m];
        }
      }
    }
  }

  /** Flood under interference: nobody is served twice, the source never, in strictly increasing order of address;
      and every entry other than the source's that is there throughout is served. */
  lemma FloodServesOnce<T>(seen: seq<Table<T>>, visits: seq<Mac>, src: Mac)
    requires IsWalk(seen, visits)
    ensures var s := Served(seen, visits, src, |visits|);
      && Ordered(s)
      && (forall c :: c in s ==> c.0 != src && CalledAt(seen, visits, c))
      && (forall k :: k != src && Throughout(seen, k) ==> Serves(s, k))
  {
    PathIncreases(seen, visits);
    ServedInOrder(seen, visits, src, |visits|);
    ServedIsVisited(seen, visits, src, |visits|);
    forall k | k != src && Throughout(seen, k)
      ensures Serves(Served(seen, visits, src, |visits|), k)
    {
      PresentIsVisited(seen, visits, k, |visits|);
      assert k in seen[|visits|];
      var m :| 0 <= m < |visits| && visits[m] == k;
    }
  }

  ghost predicate Quiet<T(!new)>(others: (nat, Mac, Table<T>) -> Table<T>) {
    forall n, k, table :: others(n, k, table) == table
  }

  /** The entry whose handler is suspended is neither evicted, as the iterator stands on it, nor re-learned, as that
      would replace the handler that runs; all else may change. */
  ghost predicate Spares<T(!new)>(others: (nat, Mac, Table<T>) -> Table<T>) {
    forall n, k, table :: k in table ==> k in others(n, k, table) && others(n, k, table)[k] == table[k]
  }

  /** Whom one frame goes to when no handler suspends, on the table that already holds its source. */
  ghost predicate DeliveredTo<T(!new)>(table: Table<T>, f: Frame<T>, sent: seq<(Mac, T)>)
    requires f.Accepted()
  {
    if f.Dst() != BROADCAST then
      sent == if f.Dst() in table then [(f.Dst(), table[f.Dst()].t)] else []
    else
      && Ordered(sent)
      && (forall k, t :: (k, t) in sent <==> k in table && k != f.Src() && table[k].t == t)
  }

  /** A flood through a table that stays as it is. */
  lemma QuietFlood<T(!new)>(table: Table<T>, seen: seq<Table<T>>, visits: seq<Mac>, src: Mac)
    requires IsWalk(seen, visits) && forall i :: 0 <= i < |seen| ==> seen[i] == table
    ensures var sent := Served(seen, visits, src, |visits|);
      Ordered(sent) && forall k, t :: (k, t) in sent <==> k in table && k != src && table[k].t == t
  {
    FloodServesOnce(seen, visits, src);
    var sent := Served(seen, visits, src, |visits|);
    forall k, t | k in table && k != src && table[k].t == t
      ensures (k, t) in sent
    {
      assert Throughout(seen, k);
      var i :| 0 <= i < |sent| && sent[i].0 == k;
      assert sent[i] in sent && CalledAt(seen, visits, sent[i]);
    }
  }

  class EthernetBridge<T(==, !new)> {
    const macs: MacTable<T>

    constructor ()
      ensures fresh(macs) && macs.table == map[]
    {
      macs := new MacTable();
    }

    /** forward. others(n, k, table) is the table as the other coroutines leave it while the n-th handler that the
        flood calls, that of k, or the only handler of a unicast frame, is suspended. */
    method Forward(f: Frame<T>, others: (nat, Mac, Table<T>) -> Table<T>)
      returns (sent: seq<(Mac, T)>, ghost seen: seq<Table<T>>, ghost visits: seq<Mac>)
      requires f.Accepted() && f.Dst() == BROADCAST ==> Spares(others)
      modifies macs
      ensures |f.bytes| < 14 ==> sent == [] && macs.table == Learned(old(macs.table), f)
      ensures f.Accepted() && f.Dst() != BROADCAST ==>
        var learned := Learned(old(macs.table), f);
        && DeliveredTo(learned, f, sent)
        && macs.table == if f.Dst() in learned then others(0, f.Dst(), learned) else learned
      ensures f.Accepted() && f.Dst() == BROADCAST ==>
        && IsWalk(seen, visits) && seen[0] == Learned(old(macs.table), f) && seen[|visits|] == macs.table
        && sent == Served(seen, visits, f.Src(), |visits|)
        && (forall i :: 0 <= i < |visits| ==> ActsAt(seen, visits, f.Src(), others, i))
      ensures f.Accepted() && Quiet(others) ==>
        DeliveredTo(Learned(old(macs.table), f), f, sent) && macs.table == Learned(old(macs.table), f)
    {
      sent, seen, visits := [], [], [];
      macs.CheckTimeout(f.cleaned);
      if !f.Accepted() {
        return;
      }
      macs.Update(f.Src(), f.learned, f.handler);
      if f.Dst() != BROADCAST {
        var handler := macs.Query(f.Dst());
        if handler.Some? {
          sent := [(f.Dst(), handler.value)];
          macs.table := others(0, f.Dst(), macs.table);
        }
      } else {
        sent, seen, visits := Flood(f.Src(), others);
        if Quiet(others) {
          QuietFlood(macs.table, seen, visits, f.Src());
        }
      }
    }

    /** One turn of the broadcast loop. */
    method Serve(src: Mac, k: Mac, n: nat, others: (nat, Mac, Table<T>) -> Table<T>) returns (called: seq<(Mac, T)>)
      requires k in macs.table
      modifies macs
      ensures called == if k != src then [(k, old(macs.table)[k].t)] else []
      ensures macs.table == if k != src then others(n, k, old(macs.table)) else old(macs.table)
    {
      called := [];
      if k != src {
        called := [(k, macs.table[k].t)];
        macs.table := others(n, k, macs.table);
      }
    }

    /** The broadcast loop. */
    method Flood(src: Mac, others: (nat, Mac, Table<T>) -> Table<T>)
      returns (sent: seq<(Mac, T)>, ghost seen: seq<Table<T>>, ghost visits: seq<Mac>)
      requires Spares(others)
      modifies macs
      ensures IsWalk(seen, visits) && seen[0] == old(macs.table) && seen[|visits|] == macs.table
      ensures sent == Served(seen, visits, src, |visits|)
      ensures forall i :: 0 <= i < |visits| ==> ActsAt(seen, visits, src, others, i)
      ensures Quiet(others) ==> macs.table == old(macs.table) && forall i :: 0 <= i < |seen| ==> seen[i] == macs.table
    {
      sent, seen, visits := [], [macs.table], [];
      ghost var first := macs.table;
      var it := macs.Next(None);
      var n: nat := 0;
      while it.Some?
        invariant Flooding(first, macs.table, sent, seen, visits, src) && n == |sent|
        invariant forall i :: 0 <= i < |visits| ==> ActsAt(seen, visits, src, others, i)
        invariant IsNext(macs.table, Position(visits, |visits| - 1), it)
        invariant Quiet(others) ==> Steady(seen, first)
        decreases if it.None? then 0 else Power256(6) - Rank(it.value)
      {
        var k := it.value;
        var called := Serve(src, k, n, others);
        PathSnoc(first, sent, seen, visits, src, k, macs.table);
        ActsSnoc(seen, visits, src, others, k, macs.table);
        sent, n := sent + called, n + |called|;
        seen, visits := seen + [macs.table], visits + [k];
        it := macs.Next(Some(k));
        if it.Some? {
          MemLessIsRank(k, it.value);
        }
      }
    }
  }

  predicate Flooding<T(==)>(first: Table<T>, now: Table<T>, sent: seq<(Mac, T)>,
                            seen: seq<Table<T>>, visits: seq<Mac>, src: Mac) {
    && IsPath(seen, visits) && seen[0] == first && seen[|visits|] == now
    && sent == Served(seen, visits, src, |visits|)
  }

  predicate Steady<T(==)>(seen: seq<Table<T>>, table: Table<T>) {
    forall i :: 0 <= i < |seen| ==> seen[i] == table
  }

  /** One more step. */
  lemma PathSnoc<T>(first: Table<T>, sent: seq<(Mac, T)>, seen: seq<Table<T>>, visits: seq<Mac>,
                    src: Mac, k: Mac, table: Table<T>)
    requires |visits| < |seen| && Flooding(first, seen[|visits|], sent, seen, visits, src)
    requires IsNext(seen[|visits|], Position(visits, |visits| - 1), Some(k))
    ensures var called := if k != src then [(k, seen[|visits|][k].t)] else [];
      Flooding(first, table, sent + called, seen + [table], visits + [k], src)
    ensures Position(visits + [k], |visits|) == Some(k)
  {
    PathGrows(seen, visits, k, table);
    ServedSoFar(seen, visits, seen + [table], visits + [k], src, |visits|);
  }

  lemma ActsSnoc<T>(seen: seq<Table<T>>, visits: seq<Mac>, src: Mac, others: (nat, Mac, Table<T>) -> Table<T>,
                    k: Mac, table: Table<T>)
    requires |seen| == |visits| + 1 && k in seen[|visits|]
    requires forall j :: 0 <= j < |visits| ==> visits[j] in seen[j]
    requires forall i :: 0 <= i < |visits| ==> ActsAt(seen, visits, src, others, i)
    requires var n := |Served(seen, visits, src, |visits|)|;
             table == if k == src then seen[|visits|] else others(n, k, seen[|visits|])
    ensures var seen', visits' := seen + [table], visits + [k];
            && (forall j :: 0 <= j < |visits'| ==> visits'[j] in seen'[j])
            && (forall i :: 0 <= i < |visits'| ==> ActsAt(seen', visits', src, others, i))
  {
    var seen', visits' := seen + [table], visits + [k];
    forall i | 0 <= i < |visits'|
      ensures ActsAt(seen', visits', src, others, i)
    {
      ServedSoFar(seen, visits, seen', visits', src, i);
      assert i < |visits| ==> ActsAt(seen, visits, src, others, i);
    }
  }

  lemma PathGrows<T>(seen: seq<Table<T>>, visits: seq<Mac>, k: Mac, table: Table<T>)
    requires IsPath(seen, visits) && IsNext(seen[|visits|], Position(visits, |visits| - 1), Some(k))
    ensures IsPath(seen + [table], visits + [k])
  {
    var seen', visits' := seen + [table], visits + [k];
    forall i | 0 <= i < |visits'|
      ensures visits'[i] in seen'[i] && StepAt(seen', visits', i)
    {
      if i < |visits| {
        assert StepAt(seen, visits, i);
      }
    }
  }

  lemma {:induction false} ServedSoFar<T>(was: seq<Table<T>>, path: seq<Mac>, seen: seq<Table<T>>, visits: seq<Mac>,
                                          src: Mac, n: nat)
    requires n <= |path| < |visits| <= |seen| && |path| <= |was| <= |seen|
    requires was == seen[..|was|] && path == visits[..|path|]
    requires forall i :: 0 <= i < |path| ==> path[i] in was[i]
    requires forall i :: 0 <= i < |visits| ==> visits[i] in seen[i]
    ensures Served(was, path, src, n) == Served(seen, visits, src, n)
  {
    if n > 0 {
      ServedSoFar(was, path, seen, visits, src, n - 1);
    }
  }

  // ---- Agreement with the history of all calls ----

  /** The table after a sequence of calls whose handlers do not suspend. */
  function Run<T>(calls: seq<Frame<T>>): Table<T> {
    if calls == [] then map[] else Learned(Run(calls[..|calls| - 1]), calls[|calls| - 1])
  }

  /** The simple account: for each source the latest accepted frame, whatever its age. */
  function Latest<T>(calls: seq<Frame<T>>): Table<T> {
    if calls == [] then map[]
    else
      var f := calls[|calls| - 1];
      var before := Latest(calls[..|calls| - 1]);
      if f.Accepted() then before[f.Src() := Record(f.Src(), f.learned, f.handler)] else before
  }

  /** The call that brought the latest accepted frame from k, or -1. */
  function LastHeard<T>(calls: seq<Frame<T>>, k: Mac): (h: int)
    ensures -1 <= h < |calls|
    ensures h >= 0 ==> calls[h].Accepted() && calls[h].Src() == k
  {
    if calls == [] then -1
    else
      var n := |calls| - 1;
      if calls[n].Accepted() && calls[n].Src() == k then n else LastHeard(calls[..n], k)
  }

  lemma {:induction false} LatestIsLastHeard<T>(calls: seq<Frame<T>>, k: Mac)
    ensures var h := LastHeard(calls, k);
      && (k in Latest(calls) <==> h >= 0)
      && (h >= 0 ==> Latest(calls)[k] == Record(k, calls[h].learned, calls[h].handler))
  {
    if calls != [] {
      LatestIsLastHeard(calls[..|calls| - 1], k);
    }
  }

  /** Some clean-up after the latest accepted frame from k read more than 600 s past it. */
  predicate Outlived<T>(calls: seq<Frame<T>>, k: Mac) {
    var h := LastHeard(calls, k);
    h >= 0 && exists i :: h < i < |calls| && Past(calls, h, i)
  }

  /** A clean-up is past the frame of some earlier call. */
  predicate Past<T>(calls: seq<Frame<T>>, h: nat, i: nat)
    requires h < |calls| && i < |calls|
  {
    calls[i].cleaned - calls[h].learned > TIMEOUT
  }

  lemma OutlivedNext<T>(calls: seq<Frame<T>>, k: Mac)
    requires calls != []
    ensures var n := |calls| - 1;
      var h := LastHeard(calls, k);
      Outlived(calls, k) <==> h >= 0 && h != n && (Outlived(calls[..n], k) || Past(calls, h, n))
  {
    var n := |calls| - 1;
    var h := LastHeard(calls, k);
    if 0 <= h < n {
      forall i | h < i < n
        ensures Past(calls[..n], h, i) <==> Past(calls, h, i)
      {}
      if Outlived(calls[..n], k) {
        var i :| h < i < n && Past(calls[..n], h, i);
        assert Past(calls, h, i);
      }
      if Outlived(calls, k) && !Past(calls, h, n) {
        var i :| h < i <= n && Past(calls, h, i);
        assert Past(calls[..n], h, i);
      }
    }
  }

  lemma {:induction false} EntryIsHistory<T>(calls: seq<Frame<T>>, k: Mac)
    ensures k in Run(calls) <==> k in Latest(calls) && !Outlived(calls, k)
    ensures k in Run(calls) ==> Run(calls)[k] == Latest(calls)[k]
  {
    if calls != [] {
      var n := |calls| - 1;
      EntryIsHistory(calls[..n], k);
      LatestIsLastHeard(calls, k);
      LatestIsLastHeard(calls[..n], k);
      OutlivedNext(calls, k);
    }
  }

  /** What the table holds after any calls, whatever the clock does: the latest accepted frame of each source, if no
      clean-up since read more than 600 s past it. */
  lemma TableIsHistory<T>(calls: seq<Frame<T>>)
    ensures Run(calls) == map k | k in Latest(calls) && !Outlived(calls, k) :: Latest(calls)[k]
  {
    forall k
      ensures k in Run(calls) <==> k in Latest(calls) && !Outlived(calls, k)
      ensures k in Run(calls) ==> Run(calls)[k] == Latest(calls)[k]
    {
      EntryIsHistory(calls, k);
    }
  }

  /** The clock readings at which one cut-off at the last clean-up tells the same as all the clean-ups together: for
      every source heard, some clean-up since its latest frame reads more than 600 s past that frame exactly if the
      last one does. */
  ghost predicate OneCutOff<T>(calls: seq<Frame<T>>)
    requires calls != []
  {
    forall k :: CutOffTells(calls, k)
  }

  predicate CutOffTells<T>(calls: seq<Frame<T>>, k: Mac)
    requires calls != []
  {
    LastHeard(calls, k) >= 0 ==> (Outlived(calls, k) <==> Past(calls, LastHeard(calls, k), |calls| - 1))
  }

  lemma EntryOfCutOff<T>(calls: seq<Frame<T>>, k: Mac)
    requires calls != []
    ensures var live := Live(Latest(calls), calls[|calls| - 1].cleaned);
      && ((k in Run(calls) <==> k in live) <==> CutOffTells(calls, k))
      && (k in Run(calls) && k in live ==> Run(calls)[k] == live[k])
  {
    EntryIsHistory(calls, k);
    LatestIsLastHeard(calls, k);
  }

  /** The incrementally cleaned table is the whole history cut off once, at the last clean-up, if and only if the
      clock readings are such. */
  lemma TableRefinesHistoryIff<T>(calls: seq<Frame<T>>)
    requires calls != []
    ensures Run(calls) == Live(Latest(calls), calls[|calls| - 1].cleaned) <==> OneCutOff(calls)
  {
    var table, live := Run(calls), Live(Latest(calls), calls[|calls| - 1].cleaned);
    forall k
      ensures (k in table <==> k in live) <==> CutOffTells(calls, k)
      ensures k in table && k in live ==> table[k] == live[k]
    {
      EntryOfCutOff(calls, k);
    }
  }

  /** The clock is read twice a call and never goes back. */
  predicate Monotone<T>(calls: seq<Frame<T>>) {
    && (forall i :: 0 <= i < |calls| ==> calls[i].cleaned <= calls[i].learned)
    && (forall i, j :: 0 <= i < j < |calls| ==> calls[i].learned <= calls[j].cleaned)
  }

  /** So with such a clock: eviction loses nothing that is at most 600 s old at the last clean-up, and keeps nothing
      older. */
  lemma {:induction false} TableRefinesHistory<T>(calls: seq<Frame<T>>)
    requires calls != [] && Monotone(calls)
    ensures Run(calls) == Live(Latest(calls), calls[|calls| - 1].cleaned)
  {
    var n := |calls| - 1;
    forall k
      ensures CutOffTells(calls, k)
    {
      var h := LastHeard(calls, k);
      if Outlived(calls, k) {
        var i :| h < i <= n && Past(calls, h, i);
        assert i < n ==> calls[i].cleaned <= calls[i].learned <= calls[n].cleaned;
      }
    }
    TableRefinesHistoryIff(calls);
  }

  /** The delivery set of the last call of any run, whatever the clock does. A unicast frame goes to the handler of
      the latest frame from its destination, and a broadcast, once each, to those of all sources but the sender, if no
      clean-up since read more than 600 s past it. */
  lemma DeliveryOfAnyRun<T(!new)>(calls: seq<Frame<T>>, f: Frame<T>, sent: seq<(Mac, T)>)
    requires f.Accepted() && DeliveredTo(Learned(Run(calls), f), f, sent)
    ensures var all := calls + [f];
      && Ordered(sent)
      && (f.Dst() == BROADCAST ==> forall k, t :: (k, t) in sent <==>
            k != f.Src() && k in Latest(all) && !Outlived(all, k) && t == Latest(all)[k].t)
      && (f.Dst() != BROADCAST ==> forall k, t :: (k, t) in sent <==>
            k == f.Dst() && k in Latest(all) && !Outlived(all, k) && t == Latest(all)[k].t)
  {
    TableIsHistory(calls + [f]);
    assert (calls + [f])[..|calls|] == calls;
    assert Run(calls + [f]) == Learned(Run(calls), f);
  }

  // ---- Learning and delivery in bytes ----

  /** Call h is the last one that brought a whole ethernet header with source address k, in bytes 6 to 11, and no
      clean-up since has read more than 600 s past it. */
  predicate Heard<T>(calls: seq<Frame<T>>, k: Mac, h: nat) {
    && h < |calls| && |calls[h].bytes| >= 14 && calls[h].bytes[6..12] == k
    && (forall i :: h < i < |calls| && |calls[i].bytes| >= 14 ==> calls[i].bytes[6..12] != k)
    && (forall i :: h < i < |calls| ==> calls[i].cleaned - calls[h].learned <= 600)
  }

  lemma {:induction false} HeardLast<T>(calls: seq<Frame<T>>, k: Mac)
    ensures var h := LastHeard(calls, k);
      forall i :: h < i < |calls| && |calls[i].bytes| >= 14 ==> calls[i].bytes[6..12] != k
  {
    if calls != [] {
      HeardLast(calls[..|calls| - 1], k);
      var h := LastHeard(calls, k);
      forall i | h < i < |calls| && |calls[i].bytes| >= 14
        ensures calls[i].bytes[6..12] != k
      {
        assert i < |calls| - 1 ==> calls[..|calls| - 1][i] == calls[i];
      }
    }
  }

  lemma HeardIsLast<T>(calls: seq<Frame<T>>, k: Mac, h: nat)
    requires Heard(calls, k, h)
    ensures LastHeard(calls, k) == h && !Outlived(calls, k)
  {
    HeardLast(calls, k);
    forall i | h < i < |calls|
      ensures !Past(calls, h, i)
    {}
  }

  lemma LastIsHeard<T>(calls: seq<Frame<T>>, k: Mac)
    requires LastHeard(calls, k) >= 0 && !Outlived(calls, k)
    ensures Heard(calls, k, LastHeard(calls, k))
  {
    var h := LastHeard(calls, k);
    HeardLast(calls, k);
    forall i | h < i < |calls|
      ensures calls[i].cleaned - calls[h].learned <= 600
    {
      assert !Past(calls, h, i);
    }
  }

  /** What the bridge has learned after any calls, whatever the clock does, byte by byte: k is in the table if and
      only if some call was heard so, and its handler and time are those of that call. */
  lemma LearnedInBytes<T>(calls: seq<Frame<T>>, k: Mac)
    ensures k in Run(calls) <==> exists h :: 0 <= h < |calls| && Heard(calls, k, h)
    ensures forall h :: 0 <= h < |calls| && Heard(calls, k, h) ==>
      k in Run(calls) && Run(calls)[k] == Record(k, calls[h].learned, calls[h].handler)
  {
    EntryIsHistory(calls, k);
    LatestIsLastHeard(calls, k);
    if k in Run(calls) {
      LastIsHeard(calls, k);
    }
    forall h | 0 <= h < |calls| && Heard(calls, k, h)
      ensures k in Run(calls) && Run(calls)[k] == Record(k, calls[h].learned, calls[h].handler)
    {
      HeardIsLast(calls, k, h);
    }
  }

  /** The call is one of a handler that the bridge has learned for k. */
  predicate LearnedFor<T(==)>(calls: seq<Frame<T>>, k: Mac, t: T) {
    exists h :: 0 <= h < |calls| && Heard(calls, k, h) && t == calls[h].handler
  }

  lemma LearnedForIs<T>(calls: seq<Frame<T>>, k: Mac, t: T)
    ensures LearnedFor(calls, k, t) <==> k in Run(calls) && Run(calls)[k].t == t
  {
    LearnedInBytes(calls, k);
    if k in Run(calls) {
      var h :| 0 <= h < |calls| && Heard(calls, k, h);
    }
  }

  /** Whom the last call of any run reaches, byte by byte, when no handler suspends: for six destination bytes of 255,
      once each, everybody learned but the six source bytes; for any others the one learned for them. */
  lemma DeliveryInBytes<T(!new)>(calls: seq<Frame<T>>, f: Frame<T>, sent: seq<(Mac, T)>)
    requires |f.bytes| >= 14 && DeliveredTo(Learned(Run(calls), f), f, sent)
    ensures (forall i :: 0 <= i < 6 ==> f.bytes[i] == 255) ==>
      forall k: Mac, t :: (k, t) in sent <==> k != f.bytes[6..12] && LearnedFor(calls + [f], k, t)
    ensures !(forall i :: 0 <= i < 6 ==> f.bytes[i] == 255) ==>
      forall k: Mac, t :: (k, t) in sent <==> k == f.bytes[..6] && LearnedFor(calls + [f], k, t)
    ensures forall i, j :: 0 <= i < j < |sent| ==> sent[i].0 != sent[j].0
  {
    var all := calls + [f];
    assert all[..|calls|] == calls && Run(all) == Learned(Run(calls), f);
    forall k: Mac, t
      ensures LearnedFor(all, k, t) <==> k in Run(all) && Run(all)[k].t == t
    {
      LearnedForIs(all, k, t);
    }
    assert f.bytes[..6] == BROADCAST <==> forall i :: 0 <= i < 6 ==> f.bytes[i] == 255;
  }

  /** The delivery set with a clock that does not go back. A unicast frame goes to the handler of the latest frame
      from its destination if that is at most 600 s old, and otherwise nowhere; a broadcast goes, once each, to the
      sources heard within 600 s other than the sender. */
  lemma DeliverySet<T(!new)>(calls: seq<Frame<T>>, f: Frame<T>, sent: seq<(Mac, T)>)
    requires Monotone(calls + [f]) && f.Accepted() && DeliveredTo(Learned(Run(calls), f), f, sent)
    ensures var latest := Latest(calls + [f]);
      && Ordered(sent)
      && (f.Dst() == BROADCAST ==> forall k, t :: (k, t) in sent <==>
            k in Latest(calls) && k != f.Src() && f.cleaned - Latest(calls)[k].lastActive <= TIMEOUT
            && t == Latest(calls)[k].t)
      && (f.Dst() != BROADCAST ==> forall k, t :: (k, t) in sent <==>
            k == f.Dst() && k in latest && f.cleaned - latest[k].lastActive <= TIMEOUT && t == latest[k].t)
  {
    TableRefinesHistory(calls + [f]);
    assert (calls + [f])[..|calls|] == calls;
    assert Run(calls + [f]) == Learned(Run(calls), f);
  }

  /** A clock that goes back can make the table lose a fresh entry: at 0 a frame from A, then a clean-up that reads
      700, then one that reads 0 again. */
  lemma ClockGoingBackLoses(a: Frame<int>, jump: Frame<int>, back: Frame<int>)
    requires a.Accepted() && a.cleaned == a.learned == 0
    requires !jump.Accepted() && jump.cleaned == 700 && !back.Accepted() && back.cleaned == 0
    ensures a.Src() !in Run([a, jump, back]) && a.Src() in Live(Latest([a, jump, back]), 0)
  {
    var calls := [a, jump, back];
    assert calls[..2] == [a, jump] && [a, jump][..1] == [a];
    assert LastHeard([a], a.Src()) == 0 && LastHeard([a, jump], a.Src()) == 0;
    assert LastHeard(calls, a.Src()) == 0 && Past(calls, 0, 1);
    LatestIsLastHeard(calls, a.Src());
    EntryIsHistory(calls, a.Src());
  }

  /** And it need not: a frame at 1000, then a clean-up that reads 500. */
  lemma ClockGoingBackMayAgree(a: Frame<int>, back: Frame<int>)
    requires a.Accepted() && a.cleaned == a.learned == 1000 && !back.Accepted() && back.cleaned == 500
    ensures !Monotone([a, back]) && Run([a, back]) == Live(Latest([a, back]), 500)
  {
    var calls := [a, back];
    assert calls[0].learned > calls[1].cleaned;
    forall k
      ensures CutOffTells(calls, k)
    {
      assert LastHeard(calls, k) >= 0 ==> LastHeard(calls, k) == 0;
    }
    TableRefinesHistoryIff(calls);
  }
}
