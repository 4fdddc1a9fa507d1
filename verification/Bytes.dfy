/** Big-endian integers and string lengths as they appear on the wire. */
module Bytes {

  type byte = bv8

  datatype Option<+T> = None | Some(value: T)

  // The widths of the integer fields, in bytes.
  const U16: nat := 2
  const U32: nat := 4
  const U64: nat := 8

  /** 256 to the power k: the values that fit k bytes are those below it. */
  function Limit(k: nat): (r: nat)
    ensures r > 0
  {
    if k == 0 then 1 else 256 * Limit(k - 1)
  }

  /** The last k bytes of n, most significant first. */
  function BigEndian(n: nat, k: nat): (s: seq<byte>)
    ensures |s| == k
    decreases k
  {
    if k == 0 then [] else BigEndian(n / 256, k - 1) + [(n % 256) as bv8]
  }

  function FromBigEndian(s: seq<byte>): (n: nat)
    ensures n < Limit(|s|)
  {
    if s == [] then 0
    else FromBigEndian(s[..|s| - 1]) * 256 + s[|s| - 1] as nat
  }

  lemma ByteOfNat(n: int)
    requires 0 <= n < 256
    ensures (n as bv8) as int == n
  {
    assert n % 256 == n;
  }

  lemma NatOfByte(b: byte)
    ensures b as nat < 256 && (b as nat) as bv8 == b
  {
  }

  lemma FromBigEndianSnoc(s: seq<byte>, b: byte)
    ensures FromBigEndian(s + [b]) == FromBigEndian(s) * 256 + b as nat
  {
    assert (s + [b])[..|s|] == s;
  }

  /** Reading back k bytes gives the number that was written. */
  lemma {:induction false} ReadsBack(n: nat, k: nat)
    requires n < Limit(k)
    ensures FromBigEndian(BigEndian(n, k)) == n
    decreases k
  {
    if k > 0 {
      ByteOfNat(n % 256);
      FromBigEndianSnoc(BigEndian(n / 256, k - 1), (n % 256) as bv8);
      ReadsBack(n / 256, k - 1);
    }
  }

  lemma DigitBehind(q: nat, m: nat, v: nat, r: nat)
    ensures (q * m + v) * 256 + r == q * (256 * m) + (v * 256 + r)
  {
  }

  /** Reading back the last k bytes of any number gives its remainder, with q as the quotient. */
  lemma {:induction false} ReadsLow(n: nat, k: nat) returns (q: nat)
    ensures n == q * Limit(k) + FromBigEndian(BigEndian(n, k))
    decreases k
  {
    if k == 0 {
      q := n;
    } else {
      q := ReadsLow(n / 256, k - 1);
      ByteOfNat(n % 256);
      FromBigEndianSnoc(BigEndian(n / 256, k - 1), (n % 256) as bv8);
      DigitBehind(q, Limit(k - 1), FromBigEndian(BigEndian(n / 256, k - 1)), n % 256);
    }
  }

  lemma Remainder(n: nat, q: nat, m: nat, v: nat)
    requires n == q * m + v && v < m && (m == 0x1_0000 || m == 0x1_0000_0000)
    ensures n % m == v
  {
  }

  /** The bytes of a number determine it and are determined by it. */
  lemma {:induction false} WritesBack(s: seq<byte>)
    ensures BigEndian(FromBigEndian(s), |s|) == s
    decreases |s|
  {
    if s != [] {
      var front, last := s[..|s| - 1], s[|s| - 1];
      NatOfByte(last);
      WritesBack(front);
      var n := FromBigEndian(s);
      assert n / 256 == FromBigEndian(front) && n % 256 == last as nat;
      assert s == front + [last];
    }
  }

  lemma Limits()
    ensures Limit(U16) == 0x1_0000
    ensures Limit(U32) == 0x1_0000_0000
    ensures Limit(U64) == 0x1_0000_0000_0000_0000
  {
    assert Limit(3) == 0x100_0000;
    assert Limit(5) == 0x100_0000_0000;
    assert Limit(6) == 0x1_0000_0000_0000;
    assert Limit(7) == 0x100_0000_0000_0000;
  }

  function Concat<T>(parts: seq<seq<T>>): seq<T> {
    if parts == [] then [] else parts[0] + Concat(parts[1..])
  }

  lemma {:induction false} ConcatAppend<T>(parts: seq<seq<T>>, more: seq<seq<T>>)
    ensures Concat(parts + more) == Concat(parts) + Concat(more)
    decreases |parts|
  {
    if parts == [] {
      assert parts + more == more;
    } else {
      assert (parts + more)[1..] == parts[1..] + more;
      ConcatAppend(parts[1..], more);
    }
  }

  lemma Associate<T>(a: seq<T>, b: seq<T>, c: seq<T>)
    ensures a + b + c == a + (b + c)
  {
  }

  /** order goes through the set, each element once. */
  ghost predicate Lists(order: seq<nat>, ids: set<nat>) {
    && (forall id :: id in order <==> id in ids)
    && (forall i, j :: 0 <= i < j < |order| ==> order[i] != order[j])
  }

  lemma ListsTail(order: seq<nat>, ids: set<nat>)
    requires Lists(order, ids) && order != []
    ensures Lists(order[1..], ids - {order[0]}) && order[0] in ids
  {
    var rest := order[1..];
    assert order == [order[0]] + rest;
    forall id ensures id in rest <==> id in ids - {order[0]} {
      if id in rest {
        var i :| 0 <= i < |rest| && rest[i] == id;
        assert order[i + 1] == id;
      }
    }
  }
}
