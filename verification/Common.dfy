/** Bytes, little-endian words, memcmp's order and finite-set counting: what every other module shares. */
module Common {

  newtype byte = x: int | 0 <= x < 256

  datatype Option<+T> = None | Some(value: T)

  /** The n low-order bytes of v, least significant first, as x86 stores them. */
  function LittleEndian(v: nat, n: nat): (s: seq<byte>)
    ensures |s| == n
  {
    if n == 0 then [] else [(v % 256) as byte] + LittleEndian(v / 256, n - 1)
  }

  function FromLittleEndian(s: seq<byte>): nat {
    if s == [] then 0 else s[0] as nat + 256 * FromLittleEndian(s[1..])
  }

  function Power256(n: nat): (p: nat)
    ensures p > 0
  {
    if n == 0 then 1 else 256 * Power256(n - 1)
  }

  /** Storing a value that fits in n bytes and loading it back gives the value. */
  lemma {:induction false} LittleEndianRoundTrip(v: nat, n: nat)
    requires v < Power256(n)
    ensures FromLittleEndian(LittleEndian(v, n)) == v
  {
    if n > 0 {
      LittleEndianRoundTrip(v / 256, n - 1);
      assert LittleEndian(v, n)[1..] == LittleEndian(v / 256, n - 1);
    }
  }

  lemma {:induction false} FromLittleEndianRoundTrip(s: seq<byte>)
    ensures LittleEndian(FromLittleEndian(s), |s|) == s && FromLittleEndian(s) < Power256(|s|)
  {
    if s != [] {
      FromLittleEndianRoundTrip(s[1..]);
    }
  }

  /** The first byte counts least. */
  lemma ReadsFour(s: seq<byte>)
    requires |s| == 4
    ensures FromLittleEndian(s) ==
            s[0] as nat + 0x100 * s[1] as nat + 0x1_0000 * s[2] as nat + 0x100_0000 * s[3] as nat
  {
    assert s[1..][1..] == s[2..] && s[2..][1..] == s[3..] && s[3..][1..] == s[4..] == [];
    assert FromLittleEndian(s[3..]) == s[3] as nat;
    assert FromLittleEndian(s[2..]) == s[2] as nat + 256 * s[3] as nat;
    assert FromLittleEndian(s[1..]) == s[1] as nat + 256 * s[2] as nat + 65536 * s[3] as nat;
  }

  /** s with the bytes at [at, at + |b|) replaced by b. */
  function Splice(s: seq<byte>, at: nat, b: seq<byte>): (r: seq<byte>)
    requires at + |b| <= |s|
    ensures |r| == |s|
  {
    s[..at] + b + s[at + |b|..]
  }

  lemma SpliceSplice(s: seq<byte>, at: nat, b: seq<byte>, c: seq<byte>)
    requires at + |b| + |c| <= |s|
    ensures Splice(Splice(s, at, b), at + |b|, c) == Splice(s, at, b + c)
  {}

  /** The sign of memcmp over equally long blocks: the first differing byte decides, as an unsigned comparison. */
  predicate MemLess(a: seq<byte>, b: seq<byte>)
    requires |a| == |b|
  {
    a != [] && (a[0] < b[0] || (a[0] == b[0] && MemLess(a[1..], b[1..])))
  }

  lemma {:induction false} MemLessTotal(a: seq<byte>, b: seq<byte>)
    requires |a| == |b|
    ensures !MemLess(a, b) && !MemLess(b, a) <==> a == b
    ensures !(MemLess(a, b) && MemLess(b, a))
  {
    if a != [] {
      MemLessTotal(a[1..], b[1..]);
      assert a[0] == b[0] && a[1..] == b[1..] ==> a == b by {
        assert a == [a[0]] + a[1..] && b == [b[0]] + b[1..];
      }
    }
  }

  /** What decides: the first difference. */
  predicate DiffersFirst(a: seq<byte>, b: seq<byte>, i: nat)
    requires |a| == |b|
  {
    i < |a| && a[..i] == b[..i] && a[i] < b[i]
  }

  lemma DiffersLater(a: seq<byte>, b: seq<byte>, i: nat)
    requires |a| == |b| && 0 < i < |a|
    ensures DiffersFirst(a, b, i) <==> a[0] == b[0] && DiffersFirst(a[1..], b[1..], i - 1)
  {
    assert a[..i] == [a[0]] + a[1..][..i - 1] && b[..i] == [b[0]] + b[1..][..i - 1];
  }

  /** memcmp's sign is that of the first difference. */
  lemma {:induction false} MemLessFirst(a: seq<byte>, b: seq<byte>)
    requires |a| == |b|
    ensures MemLess(a, b) <==> exists i: nat :: DiffersFirst(a, b, i)
  {
    if a != [] {
      MemLessFirst(a[1..], b[1..]);
      forall i: nat | 0 < i < |a|
        ensures DiffersFirst(a, b, i) <==> a[0] == b[0] && DiffersFirst(a[1..], b[1..], i - 1)
      {
        DiffersLater(a, b, i);
      }
      assert DiffersFirst(a, b, 0) <==> a[0] < b[0];
      if a[0] == b[0] && MemLess(a[1..], b[1..]) {
        var i: nat :| DiffersFirst(a[1..], b[1..], i);
        assert DiffersFirst(a, b, i + 1);
      }
    }
  }

  lemma {:induction false} MemLessTransitive(a: seq<byte>, b: seq<byte>, c: seq<byte>)
    requires |a| == |b| == |c|
    requires MemLess(a, b) && MemLess(b, c)
    ensures MemLess(a, c)
  {
    if a[0] == b[0] && b[0] == c[0] {
      MemLessTransitive(a[1..], b[1..], c[1..]);
    }
  }

  /** Bitwise exclusive or of two n-bit numbers, bit by bit. */
  function XorBits(a: nat, b: nat, n: nat): (x: nat) {
    if n == 0 then 0 else (if a % 2 == b % 2 then 0 else 1) + 2 * XorBits(a / 2, b / 2, n - 1)
  }

  function Power2(n: nat): nat {
    if n == 0 then 1 else 2 * Power2(n - 1)
  }

  lemma {:induction false} XorBitsBound(a: nat, b: nat, n: nat)
    ensures XorBits(a, b, n) < Power2(n)
  {
    if n > 0 {
      XorBitsBound(a / 2, b / 2, n - 1);
    }
  }

  lemma XorLowest(a: nat, b: nat, n: nat)
    requires n > 0
    ensures XorBits(a, b, n) / 2 == XorBits(a / 2, b / 2, n - 1)
    ensures XorBits(a, b, n) % 2 == if a % 2 == b % 2 then 0 else 1
  {
    Halves(if a % 2 == b % 2 then 0 else 1, XorBits(a / 2, b / 2, n - 1));
  }

  lemma Halves(bit: nat, high: nat)
    requires bit < 2
    ensures (bit + 2 * high) % 2 == bit && (bit + 2 * high) / 2 == high
  {}

  lemma {:induction false} XorBitsInvolution(a: nat, b: nat, n: nat)
    requires a < Power2(n)
    ensures XorBits(XorBits(a, b, n), b, n) == a
  {
    if n > 0 {
      XorLowest(a, b, n);
      XorBitsInvolution(a / 2, b / 2, n - 1);
    }
  }

  function Xor(a: byte, b: byte): byte {
    XorBitsBound(a as nat, b as nat, 8);
    assert Power2(8) == 256;
    XorBits(a as nat, b as nat, 8) as byte
  }

  lemma XorInvolution(a: byte, b: byte)
    ensures Xor(Xor(a, b), b) == a
  {
    XorBitsInvolution(a as nat, b as nat, 8);
  }

  /** Bit i of a number, by halving. */
  function Bit(x: nat, i: nat): nat {
    if i == 0 then x % 2 else Bit(x / 2, i - 1)
  }

  lemma {:induction false} XorBitsAt(a: nat, b: nat, n: nat, i: nat)
    requires i < n
    ensures Bit(XorBits(a, b, n), i) == if Bit(a, i) == Bit(b, i) then 0 else 1
  {
    XorLowest(a, b, n);
    if i > 0 {
      XorBitsAt(a / 2, b / 2, n - 1, i - 1);
    }
  }

  /** What the exclusive or of two bytes is: a bit of it is one exactly if one of theirs is. */
  lemma XorIsExclusive(a: byte, b: byte, i: nat)
    requires i < 8
    ensures Bit(Xor(a, b) as nat, i) == 1 <==> Bit(a as nat, i) != Bit(b as nat, i)
  {
    XorBitsAt(a as nat, b as nat, 8, i);
  }

  lemma Quotient(v: nat, d: nat, q: nat, r: nat)
    requires d > 0 && v == q * d + r && r < d
    ensures v / d == q
  {
    Between(v / d - q, d, r - v % d);
  }

  lemma Between(k: int, d: nat, r: int)
    requires d > 0 && k * d == r && r < d && r + d > 0
    ensures k == 0
  {}

  lemma XorOdd(a: nat, b: nat, n: nat)
    requires n > 0
    ensures XorBits(a, 2 * b + 1, n) == 1 - a % 2 + 2 * XorBits(a / 2, b, n - 1)
  {
    Halves(1, b);
  }

  lemma RemainderTwice(a: nat, p: nat)
    requires p > 0
    ensures 2 * p > 0 && a % (2 * p) == a % 2 + 2 * (a / 2 % p)
  {
    var q, r := a / 2 / p, a / 2 % p;
    assert q * (2 * p) == 2 * (q * p);
    Quotient(a, 2 * p, q, 2 * r + a % 2);
  }

  /** With k ones the k low bits are turned over and the others stay. */
  lemma {:induction false} XorOnes(a: nat, k: nat, n: nat)
    requires k <= n && a < Power2(n)
    ensures Power2(k) > 0
    ensures XorBits(a, Power2(k) - 1, n) == a - a % Power2(k) + (Power2(k) - 1 - a % Power2(k))
  {
    if k == 0 {
      XorNothing(a, n);
    } else {
      XorOnes(a / 2, k - 1, n - 1);
      XorOdd(a, Power2(k - 1) - 1, n);
      RemainderTwice(a, Power2(k - 1));
    }
  }

  /** So with 0x0f the high half of a byte stays and the low half is turned over. */
  lemma XorLowHalf(a: byte)
    ensures Xor(a, 0x0f) as nat == a as nat / 16 * 16 + (15 - a as nat % 16)
  {
    assert Power2(4) == 16 && Power2(8) == 256;
    XorOnes(a as nat, 4, 8);
  }

  lemma {:induction false} XorNothing(a: nat, n: nat)
    requires a < Power2(n)
    ensures XorBits(a, 0, n) == a
  {
    if n > 0 {
      XorNothing(a / 2, n - 1);
    }
  }

  predicate NoDuplicates<T(==)>(s: seq<T>) {
    forall i, j :: 0 <= i < j < |s| ==> s[i] != s[j]
  }

  lemma NoDuplicatesConcat<T>(a: seq<T>, b: seq<T>)
    requires NoDuplicates(a) && NoDuplicates(b) && forall x :: x in b ==> x !in a
    ensures NoDuplicates(a + b)
  {
    var s := a + b;
    forall i, j | 0 <= i < j < |s|
      ensures s[i] != s[j]
    {
      assert j >= |a| ==> s[j] == b[j - |a|] && s[j] in b;
      assert i < |a| ==> s[i] == a[i] && s[i] in a;
    }
  }

  lemma ConcatAssociates<T>(a: seq<T>, b: seq<T>, c: seq<T>)
    ensures (a + b) + c == a + (b + c)
  {}

  lemma SpliceInside(s: seq<byte>, at: nat, b: seq<byte>)
    requires at + |b| <= |s|
    ensures Splice(s, at, b)[at..at + |b|] == b
  {}

  lemma SpliceOutside(s: seq<byte>, at: nat, b: seq<byte>, i: nat, j: nat)
    requires at + |b| <= |s| && i <= j <= |s| && (j <= at || at + |b| <= i)
    ensures Splice(s, at, b)[i..j] == s[i..j]
  {}
}
