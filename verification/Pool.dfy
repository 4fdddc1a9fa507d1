/** ConnectionPool::acquire: a round-robin search for a connection that nobody has claimed. */
module Pool {
  import opened Bytes

  /** size_t arithmetic: the cursor wraps. */
  const WRAP: nat := 0x1_0000_0000_0000_0000

  /** What acquire sees of a pooled TcpClient. */
  datatype Client = Client(claimed: bool, connected: bool)

  /** The index that the k-th attempt from the given cursor looks at. */
  function Index(cursor: nat, k: nat, n: nat): (i: nat)
    requires n > 0
    ensures i < n
  {
    (cursor + k) % WRAP % n
  }

  /** The n attempts look at every client. */
  ghost predicate Covers(cursor: nat, n: nat)
    requires n > 0
  {
    forall i :: 0 <= i < n ==> Visited(cursor, n, i)
  }

  ghost predicate Visited(cursor: nat, n: nat, i: nat)
    requires n > 0
  {
    exists k: nat :: k < n && Index(cursor, k, n) == i
  }

  lemma MulAtLeast(d: nat, n: nat)
    requires d >= 1
    ensures d * n >= n
  {
    assert d * n == (d - 1) * n + n;
    assert (d - 1) * n >= 0;
  }

  lemma MulSplit(a: nat, b: nat, n: nat)
    requires a >= b
    ensures a * n == b * n + (a - b) * n
  {
  }

  lemma ModIs(x: nat, n: nat, q: nat, r: nat)
    requires n > 0 && x == q * n + r && r < n
    ensures x % n == r
  {
    var p := x / n;
    assert x == p * n + x % n;
    if p < q {
      MulSplit(q, p, n);
      MulAtLeast(q - p, n);
    } else if p > q {
      MulSplit(p, q, n);
      MulAtLeast(p - q, n);
    }
  }

  /** Without a wrap, the attempts step through the residues one by one. */
  lemma NextResidue(a: nat, k: nat, n: nat)
    requires n > 0 && k < n
    ensures (a + k) % n == if a % n + k < n then a % n + k else a % n + k - n
  {
    var q, r := a / n, a % n;
    if r + k < n {
      ModIs(a + k, n, q, r + k);
    } else {
      assert (q + 1) * n == q * n + n;
      ModIs(a + k, n, q + 1, r + k - n);
    }
  }

  lemma ReachResidue(a: nat, n: nat, i: nat) returns (k: nat)
    requires n > 0 && i < n
    ensures k < n && (a + k) % n == i
  {
    k := if i >= a % n then i - a % n else i + n - a % n;
    NextResidue(a, k, n);
  }

  lemma WrapDivides(cursor: nat, k: nat, n: nat)
    requires n > 0 && WRAP % n == 0 && cursor < WRAP && k < WRAP
    ensures Index(cursor, k, n) == (cursor + k) % n
  {
    var x := cursor + k;
    if x >= WRAP {
      var q := WRAP / n;
      assert WRAP == q * n;
      var y := x - WRAP;
      assert x % WRAP == y;
      ModIs(x, n, q + y / n, y % n) by {
        assert (q + y / n) * n == q * n + y / n * n;
      }
    }
  }

  /** The attempts cover all clients when the cursor does not wrap during the search, or wraps cleanly. */
  lemma CoversWhen(cursor: nat, n: nat)
    requires 0 < n <= WRAP && cursor < WRAP
    requires cursor + n <= WRAP || WRAP % n == 0
    ensures Covers(cursor, n)
  {
    forall i | 0 <= i < n ensures Visited(cursor, n, i) {
      var k := ReachResidue(cursor, n, i);
      if WRAP % n == 0 {
        WrapDivides(cursor, k, n);
      } else {
        assert (cursor + k) % WRAP == cursor + k;
      }
      assert Index(cursor, k, n) == i;
    }
  }

  /** Before the wrap the search ends at the residue just below m, after it it starts again at 0. */
  lemma IndexAround(a: nat, k: nat, n: nat, m: nat)
    requires 0 < a < n <= WRAP && m == WRAP % n && 0 < m && k < n
    ensures Index(WRAP - a, k, n) == if k >= a then k - a else if m + k >= a then m + k - a else n + m + k - a
  {
    var q := WRAP / n;
    assert WRAP == q * n + m;
    var x := WRAP - a + k;
    if k >= a {
      assert x % WRAP == k - a;
      ModIs(k - a, n, 0, k - a);
    } else if m + k >= a {
      assert x % WRAP == x == q * n + (m + k - a);
      ModIs(x, n, q, m + k - a);
    } else {
      assert q > 0;
      assert q * n == (q - 1) * n + n;
      assert x % WRAP == x == (q - 1) * n + (n + m + k - a);
      ModIs(x, n, q - 1, n + m + k - a);
    }
  }

  /** A search during which the cursor wraps uncleanly misses a client. */
  lemma MissesWhen(cursor: nat, n: nat) returns (missed: nat)
    requires 0 < n <= WRAP && cursor < WRAP && cursor + n > WRAP && WRAP % n != 0
    ensures missed < n && !Visited(cursor, n, missed)
  {
    var a, m := WRAP - cursor, WRAP % n;
    missed := if m >= a then n - 1 else if m >= n - a then m else n - a;
    forall k: nat | k < n ensures Index(cursor, k, n) != missed {
      IndexAround(a, k, n, m);
    }
  }

  /** The search covers the pool exactly when the 64-bit cursor does not wrap inside it or the pool size divides
      2^64. */
  lemma CoversExactlyWhen(cursor: nat, n: nat)
    requires 0 < n <= WRAP && cursor < WRAP
    ensures Covers(cursor, n) <==> cursor + n <= WRAP || WRAP % n == 0
  {
    if cursor + n <= WRAP || WRAP % n == 0 {
      CoversWhen(cursor, n);
    } else {
      var missed := MissesWhen(cursor, n);
    }
  }

  class EndpointPool {
    var clients: seq<Client>
    var nextIndex: nat
    /** The clients on which ensureConnected was called. */
    ghost var awakened: seq<nat>

    ghost predicate Valid()
      reads this
    {
      nextIndex < WRAP && |clients| <= WRAP
    }

    constructor (clients: seq<Client>)
      requires |clients| <= WRAP
      ensures Valid() && this.clients == clients && nextIndex == 0 && awakened == []
    {
      this.clients, nextIndex, awakened := clients, 0, [];
    }

    /** Returns the first client, in the order of the search, that is unclaimed and connected; failing that the
        first unclaimed one, which it asks to reconnect; failing that none. */
    method Acquire() returns (r: Option<nat>)
      requires Valid()
      modifies this`nextIndex, this`awakened
      ensures Valid()
      ensures clients == [] ==> r == None && nextIndex == old(nextIndex)
      ensures clients != [] ==>
                nextIndex == (old(nextIndex) + Tries(clients, old(nextIndex), 0)) % WRAP
                && r == Search(clients, old(nextIndex), 0, None)
      ensures r.Some? ==> r.value < |clients|
      ensures awakened == old(awakened) + if r.Some? && !clients[r.value].connected then [r.value] else []
    {
      var n := |clients|;
      var fallback: Option<nat> := None;
      ghost var start := nextIndex;
      for attempt := 0 to n
        invariant Valid() && nextIndex == (start + attempt) % WRAP
        invariant attempt == 0 ==> fallback == None
        invariant fallback.Some? ==> fallback.value < n && !clients[fallback.value].connected
        invariant awakened == old(awakened)
        invariant n > 0 ==> Tries(clients, start, attempt) == Tries(clients, start, 0)
        invariant n > 0 ==> Search(clients, start, attempt, fallback) == Search(clients, start, 0, None)
      {
        var idx := FetchAdd(n, start, attempt);
        if clients[idx].claimed { continue; }
        if clients[idx].connected {
          assert awakened + [] == awakened;
          return Some(idx);
        }
        if fallback.None? { fallback := Some(idx); }
      }
      if fallback.Some? { awakened := awakened + [fallback.value]; }
      r := fallback;
    }

    /** nextIndex.fetch_add(1) % n */
    method FetchAdd(n: nat, ghost start: nat, ghost k: nat) returns (idx: nat)
      requires Valid() && n > 0 && nextIndex == (start + k) % WRAP
      modifies this`nextIndex
      ensures Valid() && nextIndex == (start + k + 1) % WRAP && idx == Index(start, k, n)
    {
      idx := nextIndex % n;
      nextIndex := (nextIndex + 1) % WRAP;
    }
  }

  predicate Free(c: Client) {
    !c.claimed && c.connected
  }

  /** How often the search increments the cursor, when it has done so k times. */
  function Tries(clients: seq<Client>, cursor: nat, k: nat): nat
    requires clients != [] && k <= |clients|
    decreases |clients| - k
  {
    if k == |clients| then k
    else if Free(clients[Index(cursor, k, |clients|)]) then k + 1
    else Tries(clients, cursor, k + 1)
  }

  /** The search from the k-th attempt on, with the fallback found so far. */
  function Search(clients: seq<Client>, cursor: nat, k: nat, fallback: Option<nat>): Option<nat>
    requires clients != [] && k <= |clients|
    decreases |clients| - k
  {
    if k == |clients| then fallback
    else
      var i := Index(cursor, k, |clients|);
      if Free(clients[i]) then Some(i)
      else Search(clients, cursor, k + 1, if fallback.None? && !clients[i].claimed then Some(i) else fallback)
  }

  ghost predicate Unclaimed(clients: seq<Client>, r: Option<nat>) {
    r.Some? ==> r.value < |clients| && !clients[r.value].claimed
  }

  lemma {:induction false} SearchFinds(clients: seq<Client>, cursor: nat, k: nat, fallback: Option<nat>)
    requires clients != [] && k <= |clients| && Unclaimed(clients, fallback)
    ensures var r := Search(clients, cursor, k, fallback);
            && Unclaimed(clients, r)
            && (fallback.Some? ==> r.Some?)
            && (forall j: nat :: k <= j < |clients| && !clients[Index(cursor, j, |clients|)].claimed ==> r.Some?)
            && (forall j: nat :: k <= j < |clients| && Free(clients[Index(cursor, j, |clients|)]) ==>
                  r.Some? && r.value < |clients| && Free(clients[r.value]))
    decreases |clients| - k
  {
    if k < |clients| {
      var i := Index(cursor, k, |clients|);
      SearchFinds(clients, cursor, k + 1, if fallback.None? && !clients[i].claimed then Some(i) else fallback);
    }
  }

  /** What acquire promises: none exactly when all clients are claimed, and a connected one whenever an unclaimed
      client is connected. */
  ghost predicate Finds(clients: seq<Client>, cursor: nat)
    requires clients != []
  {
    var r := Search(clients, cursor, 0, None);
    && (r == None <==> forall i :: 0 <= i < |clients| ==> clients[i].claimed)
    && ((exists i :: 0 <= i < |clients| && Free(clients[i])) ==>
          r.Some? && r.value < |clients| && Free(clients[r.value]))
  }

  /** acquire never gives out a claimed client, and keeps its promise if its n attempts cover the pool. */
  lemma AcquireFinds(clients: seq<Client>, cursor: nat)
    requires 0 < |clients| <= WRAP && cursor < WRAP
    ensures Unclaimed(clients, Search(clients, cursor, 0, None))
    ensures cursor + |clients| <= WRAP || WRAP % |clients| == 0 ==> Finds(clients, cursor)
  {
    var n, r := |clients|, Search(clients, cursor, 0, None);
    SearchFinds(clients, cursor, 0, None);
    if cursor + n <= WRAP || WRAP % n == 0 {
      CoversWhen(cursor, n);
      forall i | 0 <= i < n
        ensures !clients[i].claimed ==> r.Some?
        ensures Free(clients[i]) ==> r.Some? && r.value < n && Free(clients[r.value])
      {
        assert Visited(cursor, n, i);
      }
    }
  }

  lemma {:induction false} SearchMisses(clients: seq<Client>, cursor: nat, k: nat)
    requires clients != [] && k <= |clients|
    requires forall j: nat :: j < |clients| ==> clients[Index(cursor, j, |clients|)].claimed
    ensures Search(clients, cursor, k, None) == None
    decreases |clients| - k
  {
    if k < |clients| {
      SearchMisses(clients, cursor, k + 1);
    }
  }

  /** acquire keeps its promise to every pool of n clients exactly when the 64-bit cursor does not wrap during the
      search or n divides 2^64. */
  lemma AcquireExactlyWhen(cursor: nat, n: nat)
    requires 0 < n <= WRAP && cursor < WRAP
    ensures (forall clients: seq<Client> :: |clients| == n ==> Finds(clients, cursor))
            <==> cursor + n <= WRAP || WRAP % n == 0
  {
    if cursor + n <= WRAP || WRAP % n == 0 {
      forall clients: seq<Client> | |clients| == n ensures Finds(clients, cursor) {
        AcquireFinds(clients, cursor);
      }
    } else {
      var missed := MissesWhen(cursor, n);
      var clients := seq(n, i => Client(i != missed, true));
      forall j: nat | j < n ensures clients[Index(cursor, j, n)].claimed {
        assert Index(cursor, j, n) != missed;
      }
      SearchMisses(clients, cursor, 0);
      assert !clients[missed].claimed;
      assert !Finds(clients, cursor);
    }
  }

  /** Three clients, of which only the last is free, and a cursor about to wrap: the search looks at the first client
      twice, never at the last, and gives out none. */
  lemma FreeClientMissed(clients: seq<Client>)
    requires clients == [Client(true, true), Client(true, true), Client(false, true)]
    ensures Free(clients[2]) && Search(clients, WRAP - 1, 0, None) == None
  {
    assert Index(WRAP - 1, 0, 3) == 0 && Index(WRAP - 1, 1, 3) == 0 && Index(WRAP - 1, 2, 3) == 1;
    assert Search(clients, WRAP - 1, 3, None) == None;
    assert Search(clients, WRAP - 1, 2, None) == None;
    assert Search(clients, WRAP - 1, 1, None) == None;
  }

  // ---------- which client the search takes ----------

  /** The k-th attempt is the first that meets a client with the property. */
  ghost predicate FirstFree(clients: seq<Client>, cursor: nat, from: nat, k: nat)
    requires clients != []
  {
    && from <= k < |clients| && Free(clients[Index(cursor, k, |clients|)])
    && forall j: nat :: from <= j < k ==> !Free(clients[Index(cursor, j, |clients|)])
  }

  ghost predicate FirstUnclaimed(clients: seq<Client>, cursor: nat, from: nat, k: nat)
    requires clients != []
  {
    && from <= k < |clients| && !clients[Index(cursor, k, |clients|)].claimed
    && forall j: nat :: from <= j < k ==> clients[Index(cursor, j, |clients|)].claimed
  }

  /** The search takes the first free client that it meets, and leaves the cursor behind it. */
  lemma {:induction false} TakesFirstFree(clients: seq<Client>, cursor: nat, from: nat, fallback: Option<nat>, k: nat)
    requires clients != [] && FirstFree(clients, cursor, from, k)
    ensures Search(clients, cursor, from, fallback) == Some(Index(cursor, k, |clients|))
    ensures Tries(clients, cursor, from) == k + 1
    decreases |clients| - from
  {
    if from < k {
      var i := Index(cursor, from, |clients|);
      var next := if fallback.None? && !clients[i].claimed then Some(i) else fallback;
      TakesFirstFree(clients, cursor, from + 1, next, k);
    }
  }

  ghost predicate NoneFree(clients: seq<Client>, cursor: nat, from: nat)
    requires clients != []
  {
    forall j: nat :: from <= j < |clients| ==> !Free(clients[Index(cursor, j, |clients|)])
  }

  /** If it meets none, it falls back, and the cursor has gone round. */
  lemma {:induction false} FallsBack(clients: seq<Client>, cursor: nat, from: nat, fallback: Option<nat>)
    requires clients != [] && from <= |clients| && NoneFree(clients, cursor, from)
    ensures Tries(clients, cursor, from) == |clients|
    ensures fallback.Some? ==> Search(clients, cursor, from, fallback) == fallback
    decreases |clients| - from
  {
    if from < |clients| {
      var i := Index(cursor, from, |clients|);
      var next := if fallback.None? && !clients[i].claimed then Some(i) else fallback;
      FallsBack(clients, cursor, from + 1, next);
    }
  }

  /** The fallback is the first unclaimed client that it meets. */
  lemma {:induction false} TakesFirstUnclaimed(clients: seq<Client>, cursor: nat, from: nat, k: nat)
    requires clients != [] && NoneFree(clients, cursor, from) && FirstUnclaimed(clients, cursor, from, k)
    ensures Search(clients, cursor, from, None) == Some(Index(cursor, k, |clients|))
    decreases |clients| - from
  {
    if from < k {
      TakesFirstUnclaimed(clients, cursor, from + 1, k);
    } else {
      FallsBack(clients, cursor, from + 1, Some(Index(cursor, from, |clients|)));
    }
  }

  /** In a pool of free clients successive searches go round: each takes the client at the cursor and moves on
      by one. */
  lemma AllFreeRotates(clients: seq<Client>, cursor: nat)
    requires clients != [] && forall i :: 0 <= i < |clients| ==> Free(clients[i])
    ensures Search(clients, cursor, 0, None) == Some(cursor % WRAP % |clients|) && Tries(clients, cursor, 0) == 1
  {
    assert FirstFree(clients, cursor, 0, 0);
    TakesFirstFree(clients, cursor, 0, None, 0);
  }
}
