/**
  Byte strings under the order the key-value store keeps them in, and the encodings that
  build keys out of strings and version IDs.
*/
module Bytes {
  import opened Basics

  type Byte = x: int | 0 <= x < 256
  type Bytes = seq<Byte>

  // ---------------------------------------------------------------- lexicographic order

  predicate Lt(a: Bytes, b: Bytes)
    decreases |a|
  {
    b != [] && (a == [] || a[0] < b[0] || (a[0] == b[0] && Lt(a[1..], b[1..])))
  }

  /** `lo` inclusive, `hi` exclusive; no `hi` means to the end of the keyspace. */
  predicate InRange(k: Bytes, lo: Bytes, hi: Option<Bytes>) {
    !Lt(k, lo) && (hi.Some? ==> Lt(k, hi.value))
  }

  lemma {:induction false} LtIrreflexive(a: Bytes)
    ensures !Lt(a, a)
  {
    if a != [] { LtIrreflexive(a[1..]); }
  }

  lemma {:induction false} LtTransitive(a: Bytes, b: Bytes, c: Bytes)
    requires Lt(a, b) && Lt(b, c)
    ensures Lt(a, c)
    decreases |a|
  {
    if a != [] && a[0] == b[0] == c[0] { LtTransitive(a[1..], b[1..], c[1..]); }
  }

  lemma {:induction false} LtTotal(a: Bytes, b: Bytes)
    ensures Lt(a, b) || a == b || Lt(b, a)
    decreases |a|
  {
    if a != [] && b != [] && a[0] == b[0] {
      LtTotal(a[1..], b[1..]);
      assert a == [a[0]] + a[1..] && b == [b[0]] + b[1..];
    }
  }

  lemma {:induction false} LtSamePrefix(p: Bytes, a: Bytes, b: Bytes)
    ensures Lt(p + a, p + b) <==> Lt(a, b)
  {
    if p == [] {
      assert p + a == a && p + b == b;
    } else {
      assert (p + a)[1..] == p[1..] + a && (p + b)[1..] == p[1..] + b;
      LtSamePrefix(p[1..], a, b);
    }
  }

  lemma {:induction false} LtLastByte(a: Bytes, b: Bytes, x: Byte, y: Byte)
    requires |a| == |b|
    ensures Lt(a + [x], b + [y]) <==> Lt(a, b) || (a == b && x < y)
  {
    if a != [] {
      assert (a + [x])[1..] == a[1..] + [x] && (b + [y])[1..] == b[1..] + [y];
      LtLastByte(a[1..], b[1..], x, y);
      assert a == [a[0]] + a[1..] && b == [b[0]] + b[1..];
    }
  }

  lemma PrefixIsBelow(p: Bytes, k: Bytes)
    requires p <= k
    ensures !Lt(k, p)
  {
    assert k == p + k[|p|..] && p == p + [];
    LtSamePrefix(p, k[|p|..], []);
  }

  /** Whatever lies between a prefix and one of its extensions has that prefix. */
  lemma {:induction false} Sandwich(p: Bytes, e: Bytes, k: Bytes)
    requires !Lt(k, p) && Lt(k, p + e)
    ensures p <= k
  {
    if p != [] {
      assert (p + e)[1..] == p[1..] + e;
      Sandwich(p[1..], e, k[1..]);
      assert p == [p[0]] + p[1..] && k == [k[0]] + k[1..];
    }
  }

  /** Keys with one prefix are contiguous in the order. */
  lemma Contiguous(p: Bytes, a: Bytes, b: Bytes, c: Bytes)
    requires p <= a && p <= c && Lt(a, b) && Lt(b, c)
    ensures p <= b
  {
    PrefixIsBelow(p, a);
    if Lt(b, p) {
      LtTransitive(a, b, p);
    }
    assert c == p + c[|p|..];
    Sandwich(p, c[|p|..], b);
  }

  lemma PrefixOfSum(h: Bytes, x: Bytes, g: Bytes, y: Bytes)
    requires |h| == |g|
    ensures h + x <= g + y <==> h == g && x <= y
  {
    var k, l := h + x, g + y;
    if k <= l {
      assert k[..|h|] == h && l[..|h|] == g && k[..|h|] == l[..|h|];
      assert k[|h|..] == x && l[|h|..] == y;
      assert l[..|k|][|h|..] == l[|h|..][..|x|];
    }
  }

  // ---------------------------------------------------------------- prefix ranges

  /** The least byte string above everything that starts with `p`, if there is one. */
  function Successor(p: Bytes): Option<Bytes> {
    if p == [] then None
    else
      match Successor(p[1..])
      case Some(t) => Some([p[0]] + t)
      case None => if p[0] < 255 then Some([p[0] + 1]) else None
  }

  /** The range from a prefix to its successor holds exactly the keys with that prefix. */
  lemma {:induction false} SuccessorRange(p: Bytes, k: Bytes)
    ensures InRange(k, p, Successor(p)) <==> p <= k
  {
    if p != [] {
      match Successor(p[1..]) {
        case Some(t) => assert ([p[0]] + t)[1..] == t;
        case None => assert p[0] < 255 ==> Successor(p).value == [p[0] + 1] && [p[0] + 1][1..] == [];
      }
      assert p <= k ==> k != [] && k[0] == p[0];
      if k != [] && k[0] == p[0] {
        SuccessorRange(p[1..], k[1..]);
        assert p == [p[0]] + p[1..] && k == [k[0]] + k[1..];
      } else if k != [] {
        var first: Byte := k[0];
        assert first < p[0] ==> Lt(k, p);
        assert first > p[0] && Successor(p).Some? ==> !Lt(k, Successor(p).value);
      }
    }
  }

  lemma {:induction false} SuccessorAt(p: Bytes, i: nat)
    requires i < |p| && p[i] < 255 && forall j :: i < j < |p| ==> p[j] == 255
    ensures Successor(p) == Some(p[..i] + [p[i] + 1])
  {
    if i > 0 {
      SuccessorAt(p[1..], i - 1);
      assert [p[0]] + (p[1..][..i - 1] + [p[i] + 1]) == p[..i] + [p[i] + 1];
    } else {
      NoSuccessor(p[1..]);
      assert p[..0] + [p[0] + 1] == [p[0] + 1];
    }
  }

  lemma {:induction false} NoSuccessor(p: Bytes)
    ensures Successor(p).None? <==> forall j :: 0 <= j < |p| ==> p[j] == 255
  {
    if p != [] {
      NoSuccessor(p[1..]);
      assert forall j :: 1 <= j < |p| ==> p[j] == p[1..][j - 1];
    }
  }

  /** Increments the last byte that is not 0xFF and cuts what follows. */
  method PrefixSuccessor(prefix: Bytes) returns (r: Option<Bytes>)
    ensures r == Successor(prefix)
  {
    var succ := prefix;
    var i := |succ|;
    while i > 0
      invariant 0 <= i <= |prefix| && succ == prefix
      invariant forall j :: i <= j < |prefix| ==> prefix[j] == 255
    {
      i := i - 1;
      if succ[i] < 255 {
        SuccessorAt(prefix, i);
        succ := succ[i := succ[i] + 1];
        assert succ[..i + 1] == prefix[..i] + [prefix[i] + 1];
        return Some(succ[..i + 1]);
      }
    }
    NoSuccessor(prefix);
    r := None;
  }

  // ---------------------------------------------------------------- big-endian integers

  function Pow256(w: nat): nat {
    if w == 0 then 1 else 256 * Pow256(w - 1)
  }

  function BigEndian(n: nat, w: nat): (b: Bytes)
    ensures |b| == w
  {
    if w == 0 then [] else BigEndian(n / 256, w - 1) + [n % 256]
  }

  function FromBigEndian(b: Bytes): nat {
    if b == [] then 0 else 256 * FromBigEndian(b[..|b| - 1]) + b[|b| - 1]
  }

  lemma {:induction false} BigEndianRoundTrip(n: nat, w: nat)
    requires n < Pow256(w)
    ensures FromBigEndian(BigEndian(n, w)) == n
  {
    if w > 0 {
      BigEndianRoundTrip(n / 256, w - 1);
      assert BigEndian(n, w)[..w - 1] == BigEndian(n / 256, w - 1);
    }
  }

  lemma DigitOrder(n: nat, m: nat)
    ensures n < m <==> n / 256 < m / 256 || (n / 256 == m / 256 && n % 256 < m % 256)
  {
  }

  /** Byte order of equally wide big-endian encodings is numeric order. */
  lemma {:induction false} BigEndianOrder(n: nat, m: nat, w: nat)
    requires n < Pow256(w) && m < Pow256(w)
    ensures Lt(BigEndian(n, w), BigEndian(m, w)) <==> n < m
  {
    if w > 0 {
      var a, b := n / 256, m / 256;
      assert a < Pow256(w - 1) && b < Pow256(w - 1);
      BigEndianOrder(a, b, w - 1);
      BigEndianRoundTrip(a, w - 1);
      BigEndianRoundTrip(b, w - 1);
      LtLastByte(BigEndian(a, w - 1), BigEndian(b, w - 1), n % 256, m % 256);
      DigitOrder(n, m);
    }
  }

  const TWO_32: nat := 0x1_0000_0000
  const TWO_63: nat := 0x8000_0000_0000_0000
  const TWO_64: nat := 0x1_0000_0000_0000_0000

  lemma Widths()
    ensures Pow256(4) == TWO_32 && Pow256(8) == TWO_64
  {
    assert Pow256(2) == 0x1_0000;
    assert Pow256(4) == 0x1_0000 * Pow256(2);
    assert Pow256(6) == 0x1_0000 * Pow256(4);
    assert Pow256(8) == 0x1_0000 * Pow256(6);
  }

  // ---------------------------------------------------------------- length-prefixed strings

  const LENGTH_BYTES: nat := 4

  /** A 4-byte big-endian length (truncated to 32 bits), then the bytes. */
  function EncodeString(s: Bytes): Bytes {
    BigEndian(|s| % TWO_32, LENGTH_BYTES) + s
  }

  lemma HeadersDiffer(n: nat, m: nat)
    requires n < TWO_32 && m < TWO_32
    ensures BigEndian(n, LENGTH_BYTES) == BigEndian(m, LENGTH_BYTES) <==> n == m
  {
    Widths();
    BigEndianRoundTrip(n, 4);
    BigEndianRoundTrip(m, 4);
  }

  /** The length prefix tells the truth. */
  predicate Fits(s: Bytes) {
    |s| < TWO_32
  }

  /**
    When one encoding can begin another: exactly when the strings have the same length
    modulo 2^32 and one begins the other.
  */
  lemma EncodePrefixIff(a: Bytes, b: Bytes, x: Bytes, y: Bytes)
    requires x == EncodeString(a) && y == EncodeString(b)
    ensures x <= y <==> |a| % TWO_32 == |b| % TWO_32 && a <= b
  {
    var n, m := |a| % TWO_32, |b| % TWO_32;
    HeadersDiffer(n, m);
    PrefixOfSum(BigEndian(n, LENGTH_BYTES), a, BigEndian(m, LENGTH_BYTES), b);
  }

  /** A string of 2^32 bytes is encoded as an extension of the empty string. */
  lemma OverlongStringCollides(z: Byte)
    ensures var s := seq(TWO_32, i => z);
      EncodeString([]) <= EncodeString(s) && s != []
  {
    var s := seq(TWO_32, i => z);
    EncodePrefixIff([], s, EncodeString([]), EncodeString(s));
  }

  lemma PeelWith(h: Bytes, a: Bytes, x: Bytes, g: Bytes, b: Bytes, y: Bytes)
    requires |h| == |g| && (h == g <==> |a| == |b|)
    ensures h + a + x <= g + b + y <==> a == b && x <= y
  {
    assert h + a + x == h + (a + x) && g + b + y == g + (b + y);
    PrefixOfSum(h, a + x, g, b + y);
    if |a| == |b| {
      PrefixOfSum(a, x, b, y);
    }
  }

  lemma SmallRemainder(n: nat)
    requires n < TWO_32
    ensures n % TWO_32 == n
  {
  }

  /** Keys that fit are self-delimiting: a shared start means a shared first component. */
  lemma Peel(a: Bytes, x: Bytes, b: Bytes, y: Bytes)
    requires Fits(a) && Fits(b)
    ensures EncodeString(a) + x <= EncodeString(b) + y <==> a == b && x <= y
  {
    HeadersDiffer(|a|, |b|);
    SmallRemainder(|a|);
    SmallRemainder(|b|);
    PeelWith(BigEndian(|a|, LENGTH_BYTES), a, x, BigEndian(|b|, LENGTH_BYTES), b, y);
  }

  lemma PeelEqual(a: Bytes, x: Bytes, b: Bytes, y: Bytes)
    requires Fits(a) && Fits(b)
    ensures EncodeString(a) + x == EncodeString(b) + y <==> a == b && x == y
  {
    Peel(a, x, b, y);
    Peel(b, y, a, x);
  }

  // ---------------------------------------------------------------- the ordered keyspace

  predicate Sorted(keys: seq<Bytes>) {
    forall i, j :: 0 <= i < j < |keys| ==> Lt(keys[i], keys[j])
  }

  /** Puts a new key in its place. */
  method Insert(keys: seq<Bytes>, k: Bytes) returns (out: seq<Bytes>)
    requires Sorted(keys) && k !in keys
    ensures Sorted(out) && forall x :: x in out <==> x in keys || x == k
  {
    var i := 0;
    while i < |keys| && Lt(keys[i], k)
      invariant 0 <= i <= |keys| && forall j :: 0 <= j < i ==> Lt(keys[j], k)
    {
      i := i + 1;
    }
    out := keys[..i] + [k] + keys[i..];
    if i < |keys| {
      LtTotal(keys[i], k);
      assert Lt(k, keys[i]);
      forall j | i < j < |keys| ensures Lt(k, keys[j]) {
        LtTransitive(k, keys[i], keys[j]);
      }
    }
  }

  /** What a bounded iterator visits, first to last: the keys in range, in order, each once. */
  method Scan(db: set<Bytes>, lo: Bytes, hi: Option<Bytes>) returns (keys: seq<Bytes>)
    ensures Sorted(keys)
    ensures forall k :: k in keys <==> k in db && InRange(k, lo, hi)
  {
    keys := [];
    var rest := set k | k in db && InRange(k, lo, hi);
    while rest != {}
      invariant Sorted(keys)
      invariant forall k :: k in db && InRange(k, lo, hi) <==> k in keys || k in rest
      invariant forall k :: k in rest ==> k !in keys
      decreases rest
    {
      var k :| k in rest;
      keys := Insert(keys, k);
      rest := rest - {k};
    }
  }

  /** A scan from a prefix to its successor: the keys with the prefix, in order, each once. */
  method ScanPrefix(db: set<Bytes>, prefix: Bytes) returns (keys: seq<Bytes>)
    ensures Sorted(keys)
    ensures forall k :: k in keys <==> k in db && prefix <= k
  {
    var upper := PrefixSuccessor(prefix);
    keys := Scan(db, prefix, upper);
    forall k | k in db ensures k in keys <==> prefix <= k {
      SuccessorRange(prefix, k);
    }
  }
}
