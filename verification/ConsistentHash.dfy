/** Consistent hashing: nodes own the slots of their virtual nodes on a ring of 32-bit hashes, and a key belongs
    to the owner of the next slot clockwise. */
module ConsistentHash {
  import opened Bytes

  /** The hashes are 32 bits wide. */
  const RING: nat := 0x1_0000_0000

  type Hash = f: string -> nat | forall key :: f(key) < RING witness (key: string) => 0

  function Decimal(n: nat): string {
    if n < 10 then [('0' as int + n) as char] else Decimal(n / 10) + [('0' as int + n % 10) as char]
  }

  /** virtualNodeKey */
  function VirtualKey(node: string, i: nat): string {
    node + "#" + Decimal(i)
  }

  // ---------- virtual nodes have keys of their own ----------

  lemma {:induction false} DecimalDigits(n: nat)
    ensures Decimal(n) != [] && forall c :: c in Decimal(n) ==> '0' <= c <= '9'
    ensures Decimal(n)[|Decimal(n)| - 1] == ('0' as int + n % 10) as char
    decreases n
  {
    if n >= 10 {
      DecimalDigits(n / 10);
    }
  }

  lemma LastDigit(a: nat, b: nat)
    requires ('0' as int + a % 10) as char == ('0' as int + b % 10) as char
    ensures a % 10 == b % 10
  {
    assert (('0' as int + a % 10) as char) as int == '0' as int + a % 10;
    assert (('0' as int + b % 10) as char) as int == '0' as int + b % 10;
  }

  lemma {:induction false} DecimalInjective(a: nat, b: nat)
    requires Decimal(a) == Decimal(b)
    ensures a == b
    decreases a
  {
    DecimalDigits(a);
    DecimalDigits(b);
    LastDigit(a, b);
    if a >= 10 && b >= 10 {
      assert Decimal(a)[..|Decimal(a)| - 1] == Decimal(a / 10) && Decimal(b)[..|Decimal(b)| - 1] == Decimal(b / 10);
      DecimalInjective(a / 10, b / 10);
    } else if a >= 10 || b >= 10 {
      DecimalDigits(a / 10);
      DecimalDigits(b / 10);
    }
  }

  lemma MarkBehind(a: string, x: string, b: string, y: string)
    requires a + "#" + x == b + "#" + y && |a| < |b|
    ensures '#' in x
  {
    var key := a + "#" + x;
    assert key[|b|] == (b + "#" + y)[|b|] == '#';
    assert key[|b|] == x[|b| - |a| - 1];
  }

  /** What stands behind the last of the marks, and what before it, is determined. */
  lemma SplitAtLast(a: string, x: string, b: string, y: string)
    requires a + "#" + x == b + "#" + y && '#' !in x && '#' !in y
    ensures a == b && x == y
  {
    if |a| < |b| {
      MarkBehind(a, x, b, y);
    } else if |b| < |a| {
      MarkBehind(b, y, a, x);
    } else {
      var key := a + "#" + x;
      assert a == key[..|a|] == b && x == key[|a| + 1..] == y;
    }
  }

  /** Different virtual nodes, of one node or of two, have different keys, whatever the names. */
  lemma VirtualKeyInjective(a: string, i: nat, b: string, j: nat)
    requires VirtualKey(a, i) == VirtualKey(b, j)
    ensures a == b && i == j
  {
    DecimalDigits(i);
    DecimalDigits(j);
    SplitAtLast(a, Decimal(i), b, Decimal(j));
    DecimalInjective(i, j);
  }

  /** The hashes of a node's first v virtual nodes. */
  function Slots(hash: Hash, v: nat, node: string): (s: seq<nat>)
    ensures |s| == v
  {
    if v == 0 then [] else Slots(hash, v - 1, node) + [hash(VirtualKey(node, v - 1))]
  }

  function SlotSet(hash: Hash, v: nat, node: string): set<nat> {
    set x | x in Slots(hash, v, node)
  }

  /** The slots of a node are the hashes of its v virtual nodes. */
  lemma {:induction false} SlotsAre(hash: Hash, v: nat, node: string)
    ensures forall i :: 0 <= i < v ==> Slots(hash, v, node)[i] == hash(VirtualKey(node, i))
    decreases v
  {
    if v > 0 {
      SlotsAre(hash, v - 1, node);
    }
  }

  /** Under a hash without collisions on the keys of two nodes' virtual nodes, all their slots are different. */
  lemma SlotsDistinct(hash: Hash, v: nat, a: string, b: string, i: nat, j: nat)
    requires i < v && j < v && (a != b || i != j)
    requires hash(VirtualKey(a, i)) == hash(VirtualKey(b, j)) ==> VirtualKey(a, i) == VirtualKey(b, j)
    ensures Slots(hash, v, a)[i] != Slots(hash, v, b)[j]
  {
    SlotsAre(hash, v, a);
    SlotsAre(hash, v, b);
    if VirtualKey(a, i) == VirtualKey(b, j) {
      VirtualKeyInjective(a, i, b, j);
    }
  }

  /** ring_ and nodeHashes_. */
  datatype State = State(ring: map<nat, string>, nodes: map<string, seq<nat>>)

  function SetOf(hashes: seq<nat>): set<nat> {
    set x | x in hashes
  }

  function Assign(ring: map<nat, string>, hashes: seq<nat>, node: string): map<nat, string> {
    ring + map x | x in hashes :: node
  }

  lemma AssignSnoc(ring: map<nat, string>, hashes: seq<nat>, h: nat, node: string)
    ensures Assign(ring, hashes, node)[h := node] == Assign(ring, hashes + [h], node)
  {
  }

  function AfterRemove(s: State, node: string): State {
    if node !in s.nodes then s
    else State(s.ring - SetOf(s.nodes[node]), s.nodes - {node})
  }

  function AfterAdd(hash: Hash, v: nat, s: State, node: string): State {
    var s1 := AfterRemove(s, node);
    var hashes := Slots(hash, v, node);
    State(Assign(s1.ring, hashes, node), s1.nodes[node := hashes])
  }

  datatype Op = Add(node: string) | Remove(node: string)

  function Run(hash: Hash, v: nat, s: State, ops: seq<Op>): State
    decreases |ops|
  {
    if ops == [] then s
    else
      var next := match ops[0] case Add(n) => AfterAdd(hash, v, s, n) case Remove(n) => AfterRemove(s, n);
      Run(hash, v, next, ops[1..])
  }

  const Empty: State := State(map[], map[])

  // ---------- the ring only names members ----------

  ghost predicate MemberSlots(hash: Hash, v: nat, s: State, node: string) {
    node in s.nodes ==> s.nodes[node] == Slots(hash, v, node)
  }

  /** The owner of a slot is a member, and the slot is one of its own. */
  ghost predicate OwnerOk(hash: Hash, v: nat, s: State, x: nat) {
    x in s.ring ==> s.ring[x] in s.nodes && x in Slots(hash, v, s.ring[x])
  }

  ghost predicate Inv(hash: Hash, v: nat, s: State) {
    && (forall node :: MemberSlots(hash, v, s, node))
    && (forall x: nat :: OwnerOk(hash, v, s, x))
  }

  lemma RemoveInv(hash: Hash, v: nat, s: State, node: string)
    requires Inv(hash, v, s)
    ensures Inv(hash, v, AfterRemove(s, node))
  {
    var s' := AfterRemove(s, node);
    assert MemberSlots(hash, v, s, node);
    forall m ensures MemberSlots(hash, v, s', m) {
      assert MemberSlots(hash, v, s, m);
    }
    forall x: nat ensures OwnerOk(hash, v, s', x) {
      assert OwnerOk(hash, v, s, x);
    }
  }

  lemma AddInv(hash: Hash, v: nat, s: State, node: string)
    requires Inv(hash, v, s)
    ensures Inv(hash, v, AfterAdd(hash, v, s, node))
  {
    var s1, s' := AfterRemove(s, node), AfterAdd(hash, v, s, node);
    RemoveInv(hash, v, s, node);
    forall m ensures MemberSlots(hash, v, s', m) {
      assert MemberSlots(hash, v, s1, m);
    }
    forall x: nat ensures OwnerOk(hash, v, s', x) {
      assert OwnerOk(hash, v, s1, x);
    }
  }

  /** In every reachable state, collisions or not, every slot of the ring is owned by a current member. */
  lemma {:induction false} RunInv(hash: Hash, v: nat, s: State, ops: seq<Op>)
    requires Inv(hash, v, s)
    ensures Inv(hash, v, Run(hash, v, s, ops))
    decreases |ops|
  {
    if ops != [] {
      match ops[0]
      case Add(n) =>
        AddInv(hash, v, s, n);
        RunInv(hash, v, AfterAdd(hash, v, s, n), ops[1..]);
      case Remove(n) =>
        RemoveInv(hash, v, s, n);
        RunInv(hash, v, AfterRemove(s, n), ops[1..]);
    }
  }

  // ---------- clockwise lookup ----------

  /** How far clockwise the slot is from the hash. */
  function Distance(h: nat, x: nat): nat
    requires h < RING && x < RING
  {
    (x + RING - h) % RING
  }

  /** x is what lower_bound finds, or the first slot if it runs off the end. */
  ghost predicate Found(keys: set<nat>, h: nat, x: nat) {
    && x in keys
    && if x >= h then forall y :: y in keys && y >= h ==> x <= y
       else forall y :: y in keys ==> x <= y < h
  }

  /** Finding the next slot clockwise is minimising the distance. */
  lemma FoundIsNearest(keys: set<nat>, h: nat, x: nat)
    requires h < RING && x in keys && forall y :: y in keys ==> y < RING
    ensures Found(keys, h, x) <==> forall y :: y in keys ==> Distance(h, x) <= Distance(h, y)
  {
  }

  lemma FoundOnce(keys: set<nat>, h: nat, x: nat, y: nat)
    requires Found(keys, h, x) && Found(keys, h, y)
    ensures x == y
  {
  }

  /** The slot that serves a hash. */
  method LowerBound(keys: set<nat>, h: nat) returns (x: nat)
    requires keys != {}
    ensures Found(keys, h, x)
  {
    x :| x in keys;
    var left := keys - {x};
    while left != {}
      invariant left <= keys && x in keys - left
      invariant Found(keys - left, h, x)
      decreases |left|
    {
      var y :| y in left;
      if (y >= h && (x < h || y < x)) || (y < h && x < h && y < x) {
        x := y;
      }
      assert keys - (left - {y}) == keys - left + {y};
      left := left - {y};
    }
    assert keys - left == keys;
  }

  lemma FoundExists(keys: set<nat>, h: nat)
    requires keys != {}
    ensures exists x: nat :: Found(keys, h, x)
    decreases |keys|
  {
    var y :| y in keys;
    var rest := keys - {y};
    assert keys == rest + {y};
    if rest == {} {
      assert Found(keys, h, y);
    } else {
      FoundExists(rest, h);
      var x: nat :| Found(rest, h, x);
      if (y >= h && (x < h || y < x)) || (y < h && x < h && y < x) {
        assert Found(keys, h, y);
      } else {
        assert Found(keys, h, x);
      }
    }
  }

  /** The node that serves a hash, if the ring has any. */
  ghost function Owner(ring: map<nat, string>, h: nat): (r: Option<string>)
    ensures r.None? <==> ring == map[]
    ensures r.Some? ==> exists x: nat :: Found(ring.Keys, h, x) && r.value == ring[x]
  {
    if ring == map[] then None
    else
      FoundExists(ring.Keys, h);
      var x: nat :| Found(ring.Keys, h, x);
      Some(ring[x])
  }

  lemma OwnerIs(ring: map<nat, string>, h: nat, x: nat)
    requires Found(ring.Keys, h, x)
    ensures Owner(ring, h) == Some(ring[x])
  {
    assert ring != map[];
    var y: nat :| Found(ring.Keys, h, y) && Owner(ring, h).value == ring[y];
    FoundOnce(ring.Keys, h, x, y);
  }

  /** The lookup on any reachable ring that is not empty: the owner of the slot nearest clockwise, who is a
      current member, collisions or not. */
  lemma LookupClockwise(hash: Hash, v: nat, ops: seq<Op>, h: nat)
    requires h < RING && Run(hash, v, Empty, ops).ring != map[]
    ensures var s := Run(hash, v, Empty, ops);
            exists x: nat :: Nearest(s.ring, h, x) && Owner(s.ring, h) == Some(s.ring[x]) && s.ring[x] in s.nodes
  {
    RunInv(hash, v, Empty, ops);
    var s := Run(hash, v, Empty, ops);
    FoundExists(s.ring.Keys, h);
    var x: nat :| Found(s.ring.Keys, h, x);
    OwnerIs(s.ring, h, x);
    forall y | y in s.ring ensures y < RING {
      assert OwnerOk(hash, v, s, y);
      SlotsInRange(hash, v, s.ring[y]);
    }
    FoundIsNearest(s.ring.Keys, h, x);
    assert OwnerOk(hash, v, s, x);
    assert Nearest(s.ring, h, x);
  }

  /** No slot of the ring is nearer clockwise. */
  ghost predicate Nearest(ring: map<nat, string>, h: nat, x: nat) {
    && h < RING && x < RING && x in ring
    && forall y :: y in ring ==> y < RING && Distance(h, x) <= Distance(h, y)
  }

  lemma {:induction false} SlotsInRange(hash: Hash, v: nat, node: string)
    ensures forall x :: x in Slots(hash, v, node) ==> x < RING
    decreases v
  {
    if v > 0 {
      SlotsInRange(hash, v - 1, node);
    }
  }

  // ---------- minimal disruption ----------

  /** Collisions or not, adding a node moves keys to that node only. */
  lemma AddMovesToNewOnly(hash: Hash, v: nat, s: State, node: string, h: nat)
    requires Inv(hash, v, s)
    ensures var s' := AfterAdd(hash, v, s, node);
            Owner(s'.ring, h) == Owner(s.ring, h) || Owner(s'.ring, h) == Some(node)
  {
    var s', slots := AfterAdd(hash, v, s, node), Slots(hash, v, node);
    assert MemberSlots(hash, v, s, node);
    if s'.ring != map[] {
      FoundExists(s'.ring.Keys, h);
      var x: nat :| Found(s'.ring.Keys, h, x);
      OwnerIs(s'.ring, h, x);
      if x !in slots {
        assert s.ring.Keys <= s'.ring.Keys;
        assert Found(s.ring.Keys, h, x);
        OwnerIs(s.ring, h, x);
      }
    } else {
      assert s.ring.Keys <= s'.ring.Keys;
    }
  }

  /** The nodes' slots do not overlap. */
  ghost predicate Apart(hash: Hash, v: nat, a: string, b: string) {
    a != b ==> SlotSet(hash, v, a) !! SlotSet(hash, v, b)
  }

  /** Every slot of the node that is on the ring is the node's own. */
  ghost predicate Undisputed(hash: Hash, v: nat, s: State, node: string) {
    forall x :: x in SlotSet(hash, v, node) && x in s.ring ==> s.ring[x] == node
  }

  /** The node is not there, or each of its slots that another member took over is followed, among the slots on the
      ring that are not the node's, by one of that member. */
  ghost predicate Replaced(hash: Hash, v: nat, s: State, node: string) {
    node in s.nodes ==>
      forall x :: x in SlotSet(hash, v, node) && x in s.ring && s.ring[x] != node ==> TakenBack(hash, v, s, node, x)
  }

  ghost predicate TakenBack(hash: Hash, v: nat, s: State, node: string, x: nat)
    requires x in s.ring
  {
    exists y: nat :: Found(s.ring.Keys - SlotSet(hash, v, node), x, y) && s.ring[y] == s.ring[x]
  }

  /** After the removal of a member its slots, and no others, are off the ring. */
  lemma RemovedKeys(hash: Hash, v: nat, s: State, node: string)
    requires Inv(hash, v, s) && node in s.nodes
    ensures var ring := AfterRemove(s, node).ring;
            && ring.Keys == s.ring.Keys - SlotSet(hash, v, node) && forall y :: y in ring ==> ring[y] == s.ring[y]
  {
    assert MemberSlots(hash, v, s, node);
    assert SetOf(s.nodes[node]) == SlotSet(hash, v, node);
  }

  /** The condition says who serves the slot after the removal. */
  lemma TakenBackMeans(hash: Hash, v: nat, s: State, node: string, x: nat)
    requires Inv(hash, v, s) && node in s.nodes && x in s.ring
    ensures TakenBack(hash, v, s, node, x) <==> Owner(AfterRemove(s, node).ring, x) == Some(s.ring[x])
  {
    var ring := AfterRemove(s, node).ring;
    RemovedKeys(hash, v, s, node);
    if ring == map[] {
      assert forall y: nat :: !Found(ring.Keys, x, y);
    } else {
      FoundExists(ring.Keys, x);
      var y: nat :| Found(ring.Keys, x, y);
      OwnerIs(ring, x, y);
      forall z: nat | Found(ring.Keys, x, z) ensures z == y { FoundOnce(ring.Keys, x, y, z); }
    }
  }

  /** The removal of the node leaves the hash where it is, unless it was the node's. */
  ghost predicate Stays(s: State, node: string, h: nat) {
    Owner(s.ring, h) != Some(node) ==> Owner(AfterRemove(s, node).ring, h) == Owner(s.ring, h)
  }

  /** What serves an erased slot serves every hash that the slot served. */
  lemma FoundThrough(keys: set<nat>, keys': set<nat>, h: nat, x: nat, y: nat)
    requires keys' <= keys && Found(keys, h, x) && Found(keys', x, y)
    ensures Found(keys', h, y)
  {
  }

  lemma OwnerThrough(ring: map<nat, string>, ring': map<nat, string>, h: nat, x: nat)
    requires ring'.Keys <= ring.Keys && ring' != map[] && Found(ring.Keys, h, x)
    ensures Owner(ring', h) == Owner(ring', x)
  {
    FoundExists(ring'.Keys, x);
    var y: nat :| Found(ring'.Keys, x, y);
    FoundThrough(ring.Keys, ring'.Keys, h, x, y);
    OwnerIs(ring', h, y);
    OwnerIs(ring', x, y);
  }

  lemma ReplacedStays(hash: Hash, v: nat, s: State, node: string, h: nat)
    requires Inv(hash, v, s) && Replaced(hash, v, s, node)
    ensures Stays(s, node, h)
  {
    if s.ring != map[] && node in s.nodes {
      var s' := AfterRemove(s, node);
      FoundExists(s.ring.Keys, h);
      var x: nat :| Found(s.ring.Keys, h, x);
      OwnerIs(s.ring, h, x);
      RemovedKeys(hash, v, s, node);
      if x in s'.ring {
        OwnerIs(s'.ring, h, x);
      } else if s.ring[x] != node {
        TakenBackMeans(hash, v, s, node, x);
        OwnerThrough(s.ring, s'.ring, h, x);
      }
    }
  }

  /** Removing a node moves only its own keys exactly when each of its slots that another member took over is
      followed by a slot of that member. */
  lemma RemoveExactlyWhen(hash: Hash, v: nat, s: State, node: string)
    requires Inv(hash, v, s)
    ensures (forall h :: 0 <= h < RING ==> Stays(s, node, h)) <==> Replaced(hash, v, s, node)
  {
    if Replaced(hash, v, s, node) {
      forall h | 0 <= h < RING ensures Stays(s, node, h) {
        ReplacedStays(hash, v, s, node, h);
      }
    } else {
      var x: nat :| x in SlotSet(hash, v, node) && x in s.ring && s.ring[x] != node && !TakenBack(hash, v, s, node, x);
      TakenBackMeans(hash, v, s, node, x);
      SlotsInRange(hash, v, node);
      assert Found(s.ring.Keys, x, x);
      OwnerIs(s.ring, x, x);
      assert !Stays(s, node, x);
    }
  }

  /** In particular a node that has lost none of its slots to another member moves no key that was not on it. */
  lemma RemoveMovesOwnOnly(hash: Hash, v: nat, s: State, node: string, h: nat)
    requires Inv(hash, v, s) && Undisputed(hash, v, s, node)
    requires Owner(s.ring, h) != Some(node)
    ensures Owner(AfterRemove(s, node).ring, h) == Owner(s.ring, h)
  {
    assert Replaced(hash, v, s, node);
    ReplacedStays(hash, v, s, node, h);
  }

  /** A node whose slots collide with no other member's has lost none. */
  lemma ApartUndisputed(hash: Hash, v: nat, s: State, node: string)
    requires Inv(hash, v, s) && forall m :: m in s.nodes ==> Apart(hash, v, node, m)
    ensures Undisputed(hash, v, s, node)
  {
    forall x | x in SlotSet(hash, v, node) && x in s.ring ensures s.ring[x] == node {
      assert OwnerOk(hash, v, s, x);
      assert Apart(hash, v, node, s.ring[x]);
    }
  }

  /** Adding a new node and removing it again is the identity exactly when none of its slots was taken. */
  lemma AddThenRemove(hash: Hash, v: nat, s: State, node: string)
    requires node !in s.nodes
    ensures AfterRemove(AfterAdd(hash, v, s, node), node) == s <==> SlotSet(hash, v, node) !! s.ring.Keys
  {
    var s1 := AfterAdd(hash, v, s, node);
    var s2 := AfterRemove(s1, node);
    var slots := SlotSet(hash, v, node);
    assert SetOf(s1.nodes[node]) == slots;
    assert s2.nodes == s.nodes;
    assert s2.ring.Keys == s.ring.Keys - slots;
    if slots !! s.ring.Keys {
      assert s2.ring == s.ring;
    } else {
      var x :| x in slots && x in s.ring.Keys;
      assert x !in s2.ring;
    }
  }

  /** The order of two insertions into an empty ring matters exactly when the nodes' slots collide. */
  lemma OrderMattersExactlyWhen(hash: Hash, v: nat, a: string, b: string)
    requires a != b
    ensures Run(hash, v, Empty, [Add(a), Add(b)]).ring == Run(hash, v, Empty, [Add(b), Add(a)]).ring
            <==> Apart(hash, v, a, b)
  {
    var ab, ba := AfterAdd(hash, v, AfterAdd(hash, v, Empty, a), b), AfterAdd(hash, v, AfterAdd(hash, v, Empty, b), a);
    RunTwo(hash, v, a, b);
    RunTwo(hash, v, b, a);
    if Apart(hash, v, a, b) {
      forall x | x in ab.ring || x in ba.ring ensures x in ab.ring && x in ba.ring && ab.ring[x] == ba.ring[x] {
        assert x in SlotSet(hash, v, a) || x in SlotSet(hash, v, b);
      }
      assert ab.ring == ba.ring;
    } else {
      var x :| x in SlotSet(hash, v, a) && x in SlotSet(hash, v, b);
      assert ab.ring[x] == b && ba.ring[x] == a;
    }
  }

  /** Two nodes with one virtual node each, all hashed to the same slot: the ring belongs to whichever came last. */
  lemma LastOneWins(hash: Hash, a: string, b: string)
    requires a != b && forall key :: hash(key) == 0
    ensures Run(hash, 1, Empty, [Add(a), Add(b)]).ring == map[0 := b]
    ensures Run(hash, 1, Empty, [Add(b), Add(a)]).ring == map[0 := a]
  {
    RunTwo(hash, 1, a, b);
    RunTwo(hash, 1, b, a);
    OneSlot(hash, a);
    OneSlot(hash, b);
  }

  /** If the earlier of the two leaves, it takes the slot with it: the other is still a member and serves nothing. */
  lemma MemberWithoutSlot(hash: Hash, a: string, b: string)
    requires a != b && forall key :: hash(key) == 0
    ensures var s := AfterRemove(Run(hash, 1, Empty, [Add(a), Add(b)]), a);
            s.nodes.Keys == {b} && s.ring == map[]
  {
    LastOneWins(hash, a, b);
    RunTwo(hash, 1, a, b);
    OneSlot(hash, a);
  }

  lemma OneSlot(hash: Hash, node: string)
    requires forall key :: hash(key) == 0
    ensures Slots(hash, 1, node) == [0]
  {
    assert Slots(hash, 0, node) == [];
  }

  lemma RunTwo(hash: Hash, v: nat, a: string, b: string)
    ensures Run(hash, v, Empty, [Add(a), Add(b)]) == AfterAdd(hash, v, AfterAdd(hash, v, Empty, a), b)
  {
    var s1 := AfterAdd(hash, v, Empty, a);
    var s2 := AfterAdd(hash, v, s1, b);
    assert [Add(a), Add(b)][1..] == [Add(b)] && [Add(b)][1..] == [];
    assert Run(hash, v, s2, []) == s2;
    assert Run(hash, v, s1, [Add(b)]) == s2;
  }

  // ---------- the ring is a function of the members ----------

  /** With slots apart, a slot is on the ring under its member, and nothing else is. */
  ghost predicate Canonical(hash: Hash, v: nat, s: State, node: string) {
    node in s.nodes ==> forall x :: x in Slots(hash, v, node) ==> x in s.ring && s.ring[x] == node
  }

  ghost predicate AllApart(hash: Hash, v: nat, names: set<string>) {
    forall a, b :: a in names && b in names ==> Apart(hash, v, a, b)
  }

  function Name(op: Op): string { op.node }

  lemma {:induction false} RunCanonical(hash: Hash, v: nat, s: State, ops: seq<Op>, names: set<string>)
    requires Inv(hash, v, s) && (forall node :: Canonical(hash, v, s, node)) && s.nodes.Keys <= names
    requires AllApart(hash, v, names) && forall i :: 0 <= i < |ops| ==> Name(ops[i]) in names
    ensures var s' := Run(hash, v, s, ops);
            && s'.nodes.Keys <= names && Inv(hash, v, s') && forall node :: Canonical(hash, v, s', node)
    decreases |ops|
  {
    if ops != [] {
      assert Name(ops[0]) in names;
      match ops[0]
      case Add(n) =>
        AddInv(hash, v, s, n);
        AddCanonical(hash, v, s, n, names);
        RunCanonical(hash, v, AfterAdd(hash, v, s, n), ops[1..], names);
      case Remove(n) =>
        RemoveInv(hash, v, s, n);
        RemoveCanonical(hash, v, s, n, names);
        RunCanonical(hash, v, AfterRemove(s, n), ops[1..], names);
    }
  }

  lemma RemoveCanonical(hash: Hash, v: nat, s: State, n: string, names: set<string>)
    requires Inv(hash, v, s) && (forall node :: Canonical(hash, v, s, node)) && s.nodes.Keys <= names
    requires AllApart(hash, v, names) && n in names
    ensures forall node :: Canonical(hash, v, AfterRemove(s, n), node)
  {
    var s' := AfterRemove(s, n);
    assert MemberSlots(hash, v, s, n);
    forall node ensures Canonical(hash, v, s', node) {
      assert Canonical(hash, v, s, node);
      if node in s'.nodes && n in s.nodes {
        assert Apart(hash, v, n, node);
        forall x | x in Slots(hash, v, node) ensures x in s'.ring && s'.ring[x] == node {
          assert x in SlotSet(hash, v, node);
          assert x in SetOf(s.nodes[n]) ==> x in SlotSet(hash, v, n);
        }
      }
    }
  }

  lemma AddCanonical(hash: Hash, v: nat, s: State, n: string, names: set<string>)
    requires Inv(hash, v, s) && (forall node :: Canonical(hash, v, s, node)) && s.nodes.Keys <= names
    requires AllApart(hash, v, names) && n in names
    ensures forall node :: Canonical(hash, v, AfterAdd(hash, v, s, n), node)
  {
    var s1, s' := AfterRemove(s, n), AfterAdd(hash, v, s, n);
    RemoveCanonical(hash, v, s, n, names);
    forall node ensures Canonical(hash, v, s', node) {
      assert Canonical(hash, v, s1, node);
      if node in s1.nodes && node != n {
        assert Apart(hash, v, n, node);
        forall x | x in Slots(hash, v, node) ensures x in s'.ring && s'.ring[x] == node {
          assert x in SlotSet(hash, v, node);
          assert x in Slots(hash, v, n) ==> x in SlotSet(hash, v, n);
        }
      }
    }
  }

  /** If the slots of the nodes involved do not collide, the ring depends on the current members alone: any two
      histories that end with the same members end with the same ring. */
  lemma HistoryForgotten(hash: Hash, v: nat, ops: seq<Op>, ops': seq<Op>, names: set<string>)
    requires AllApart(hash, v, names)
    requires forall i :: 0 <= i < |ops| ==> Name(ops[i]) in names
    requires forall i :: 0 <= i < |ops'| ==> Name(ops'[i]) in names
    requires Run(hash, v, Empty, ops).nodes.Keys == Run(hash, v, Empty, ops').nodes.Keys
    ensures Run(hash, v, Empty, ops).ring == Run(hash, v, Empty, ops').ring
  {
    RunCanonical(hash, v, Empty, ops, names);
    RunCanonical(hash, v, Empty, ops', names);
    SameMembersSameRing(hash, v, Run(hash, v, Empty, ops), Run(hash, v, Empty, ops'));
    SameMembersSameRing(hash, v, Run(hash, v, Empty, ops'), Run(hash, v, Empty, ops));
  }

  lemma SameMembersSameRing(hash: Hash, v: nat, s: State, s': State)
    requires Inv(hash, v, s) && Inv(hash, v, s') && s.nodes.Keys == s'.nodes.Keys
    requires forall node :: Canonical(hash, v, s', node)
    ensures forall x :: x in s.ring ==> x in s'.ring && s.ring[x] == s'.ring[x]
  {
    forall x | x in s.ring ensures x in s'.ring && s.ring[x] == s'.ring[x] {
      assert OwnerOk(hash, v, s, x);
      assert Canonical(hash, v, s', s.ring[x]);
    }
  }

  ghost predicate Over(ops: seq<Op>, names: set<string>) {
    forall i :: 0 <= i < |ops| ==> Name(ops[i]) in names
  }

  ghost predicate Forgets(hash: Hash, v: nat, ops: seq<Op>, ops': seq<Op>) {
    Run(hash, v, Empty, ops).nodes.Keys == Run(hash, v, Empty, ops').nodes.Keys ==>
      Run(hash, v, Empty, ops).ring == Run(hash, v, Empty, ops').ring
  }

  lemma TwoMembers(hash: Hash, v: nat, a: string, b: string)
    ensures Run(hash, v, Empty, [Add(a), Add(b)]).nodes.Keys == {a, b}
  {
    RunTwo(hash, v, a, b);
  }

  lemma CollisionRemembered(hash: Hash, v: nat, names: set<string>, a: string, b: string)
    returns (ops: seq<Op>, ops': seq<Op>)
    requires a in names && b in names && !Apart(hash, v, a, b)
    ensures Over(ops, names) && Over(ops', names) && !Forgets(hash, v, ops, ops')
  {
    ops, ops' := [Add(a), Add(b)], [Add(b), Add(a)];
    NotForgotten(hash, v, a, b);
  }

  lemma NotForgotten(hash: Hash, v: nat, a: string, b: string)
    requires !Apart(hash, v, a, b)
    ensures !Forgets(hash, v, [Add(a), Add(b)], [Add(b), Add(a)])
  {
    TwoMembers(hash, v, a, b);
    TwoMembers(hash, v, b, a);
    OrderMattersExactlyWhen(hash, v, a, b);
  }

  lemma ApartForgets(hash: Hash, v: nat, names: set<string>, ops: seq<Op>, ops': seq<Op>)
    requires AllApart(hash, v, names) && Over(ops, names) && Over(ops', names)
    ensures Forgets(hash, v, ops, ops')
  {
    if Run(hash, v, Empty, ops).nodes.Keys == Run(hash, v, Empty, ops').nodes.Keys {
      HistoryForgotten(hash, v, ops, ops', names);
    }
  }

  /** Histories over a set of names that end with the same members end with the same ring exactly when no two of
      the names collide. */
  lemma ForgottenExactlyWhen(hash: Hash, v: nat, names: set<string>)
    ensures (forall ops, ops' :: Over(ops, names) && Over(ops', names) ==> Forgets(hash, v, ops, ops'))
            <==> AllApart(hash, v, names)
  {
    if AllApart(hash, v, names) {
      forall ops, ops' | Over(ops, names) && Over(ops', names) ensures Forgets(hash, v, ops, ops') {
        ApartForgets(hash, v, names, ops, ops');
      }
    } else {
      var a, b :| a in names && b in names && !Apart(hash, v, a, b);
      var ops, ops' := CollisionRemembered(hash, v, names, a, b);
    }
  }

  // ---------- the class ----------

  class HashRing {
    const hash: Hash
    const virtualNodes: nat
    var ring: map<nat, string>
    var nodeHashes: map<string, seq<nat>>

    ghost function St(): State
      reads this
    {
      State(ring, nodeHashes)
    }

    constructor (hash: Hash, virtualNodes: nat)
      ensures this.hash == hash && this.virtualNodes == virtualNodes && St() == Empty
    {
      this.hash, this.virtualNodes := hash, virtualNodes;
      ring, nodeHashes := map[], map[];
    }

    method RemoveNode(node: string)
      modifies this
      ensures St() == AfterRemove(old(St()), node)
    {
      if node !in nodeHashes { return; }
      EraseAll(nodeHashes[node]);
      nodeHashes := nodeHashes - {node};
    }

    method EraseAll(hashes: seq<nat>)
      modifies this`ring
      ensures ring == old(ring) - SetOf(hashes)
    {
      for i := 0 to |hashes|
        invariant ring == old(ring) - SetOf(hashes[..i])
      {
        assert hashes[..i + 1] == hashes[..i] + [hashes[i]];
        ring := ring - {hashes[i]};
      }
      assert hashes[..|hashes|] == hashes;
    }

    method AddNode(node: string)
      modifies this
      ensures St() == AfterAdd(hash, virtualNodes, old(St()), node)
    {
      RemoveNode(node);
      var hashes := Claim(node);
      nodeHashes := nodeHashes[node := hashes];
    }

    /** The loop over the virtual nodes. */
    method Claim(node: string) returns (hashes: seq<nat>)
      modifies this`ring
      ensures hashes == Slots(hash, virtualNodes, node) && ring == Assign(old(ring), hashes, node)
    {
      hashes := [];
      for i := 0 to virtualNodes
        invariant hashes == Slots(hash, i, node)
        invariant ring == Assign(old(ring), hashes, node)
      {
        var h := hash(VirtualKey(node, i));
        AssignSnoc(old(ring), hashes, h, node);
        ring := ring[h := node];
        hashes := hashes + [h];
      }
    }

    /** The empty string stands for no node. */
    method GetNode(key: string) returns (node: string)
      ensures node == match Owner(ring, hash(key)) case None => "" case Some(n) => n
    {
      if ring == map[] { return ""; }
      var x := LowerBound(ring.Keys, hash(key));
      OwnerIs(ring, hash(key), x);
      node := ring[x];
    }
  }
}
