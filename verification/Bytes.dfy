/**
 Byte strings as the storage engine sees them: the lexicographic key order, the
 big-endian encoding of log indices, and the exclusive upper bound of a key
 prefix. The order is the one Pebble's default comparer imposes on keys.
 */
module Bytes {
  import opened Wrappers

  type Byte = x: int | 0 <= x < 256

  type Key = seq<Byte>

  const TWO_TO_THE_64: int := 0x1_0000_0000_0000_0000

  type Uint64 = x: int | 0 <= x < TWO_TO_THE_64

  const UINT64_SIZE: nat := 8 // bytes

  const MAX_UINT64: Uint64 := TWO_TO_THE_64 - 1

  /** Strict lexicographic order. */
  predicate Less(a: Key, b: Key) {
    b != [] && (a == [] || a[0] < b[0] || (a[0] == b[0] && Less(a[1..], b[1..])))
  }

  predicate AtMost(a: Key, b: Key) {
    a == b || Less(a, b)
  }

  predicate HasPrefix(k: Key, p: Key) {
    p <= k
  }

  lemma {:induction false} LessIrreflexive(a: Key)
    ensures !Less(a, a)
  {
    if a != [] {
      LessIrreflexive(a[1..]);
    }
  }

  lemma {:induction false} LessTransitive(a: Key, b: Key, c: Key)
    requires Less(a, b) && Less(b, c)
    ensures Less(a, c)
  {
    if a != [] && a[0] == b[0] == c[0] {
      LessTransitive(a[1..], b[1..], c[1..]);
    }
  }

  lemma {:induction false} LessTotal(a: Key, b: Key)
    ensures a == b || Less(a, b) || Less(b, a)
  {
    if a != [] && b != [] && a[0] == b[0] {
      LessTotal(a[1..], b[1..]);
      assert a == [a[0]] + a[1..] && b == [b[0]] + b[1..];
    }
  }

  /** Exactly one of "smaller", "equal" and "larger" holds. */
  lemma LessTrichotomy(a: Key, b: Key)
    ensures !(Less(a, b) && Less(b, a))
    ensures a == b ==> !Less(a, b)
    ensures AtMost(a, b) <==> !Less(b, a)
  {
    LessIrreflexive(a);
    LessTotal(a, b);
    if Less(a, b) && Less(b, a) {
      LessTransitive(a, b, a);
    }
  }

  /** Dropping a common prefix does not change the order. */
  lemma {:induction false} LessCommonPrefix(p: Key, a: Key, b: Key)
    ensures Less(p + a, p + b) <==> Less(a, b)
  {
    if p == [] {
      assert p + a == a && p + b == b;
    } else {
      LessCommonPrefix(p[1..], a, b);
      assert (p + a)[1..] == p[1..] + a && (p + b)[1..] == p[1..] + b;
    }
  }

  // ---------------------------------------------------------------- upper bound

  /** What KeyUpperBound computes: the last byte below 255 is incremented and
      everything behind it dropped; no such byte, no bound. */
  function UpperBound(key: Key): (bound: Option<Key>)
    ensures bound.None? <==> forall i :: 0 <= i < |key| ==> key[i] == 255
  {
    if key == [] then None
    else
      var n := |key| - 1;
      if key[n] < 255 then Some(key[..n] + [key[n] + 1])
      else
        assert (forall i :: 0 <= i < |key[..n]| ==> key[..n][i] == 255)
               ==> forall i :: 0 <= i < |key| ==> key[i] == 255;
        assert (forall i :: 0 <= i < |key| ==> key[i] == 255)
               ==> forall i :: 0 <= i < |key[..n]| ==> key[..n][i] == key[i] == 255;
        UpperBound(key[..n])
  }

  /** The keys with prefix p are exactly the interval from p to its upper bound. */
  lemma {:induction false} UpperBoundCharacterisesPrefix(p: Key, k: Key)
    ensures HasPrefix(k, p)
            <==> AtMost(p, k) && (UpperBound(p).None? || Less(k, UpperBound(p).value))
  {
    PrefixIsAbove(p, k);
    if p == [] {
    } else {
      var n := |p| - 1;
      UpperBoundCharacterisesPrefix(p[..n], k);
      PrefixIsAbove(p[..n], p);
      LessTrichotomy(p, k);
      if HasPrefix(k, p[..n]) {
        assert p == p[..n] + [p[n]] && k == p[..n] + k[n..];
        LessCommonPrefix(p[..n], [p[n]], k[n..]);
        if p[n] < 255 {
          LessCommonPrefix(p[..n], k[n..], [p[n] + 1]);
          if |k| > n && k[n] == p[n] {
            assert k[..|p|] == p;
          }
        } else if |k| > n && k[n] == 255 {
          assert k[..|p|] == p;
        }
      } else if AtMost(p, k) {
        AtMostTransitive(p[..n], p, k);
        if p[n] < 255 {
          BoundBelowShorterBound(p[..n], p[n] + 1, k);
        }
      }
      if HasPrefix(k, p) {
        assert p[..n] <= k;
      }
    }
  }

  lemma AtMostTransitive(a: Key, b: Key, c: Key)
    requires AtMost(a, b) && AtMost(b, c)
    ensures AtMost(a, c)
  {
    if Less(a, b) && Less(b, c) {
      LessTransitive(a, b, c);
    }
  }

  /** A key is never below one of its prefixes. */
  lemma PrefixIsAbove(p: Key, k: Key)
    ensures HasPrefix(k, p) ==> AtMost(p, k)
  {
    if HasPrefix(k, p) {
      assert k == p + k[|p|..] && p == p + [];
      LessCommonPrefix(p, [], k[|p|..]);
    }
  }

  /** A key at least p without prefix p is not below p followed by any byte. */
  lemma {:induction false} BoundBelowShorterBound(p: Key, b: Byte, k: Key)
    requires AtMost(p, k) && !HasPrefix(k, p)
    ensures !Less(k, p + [b])
  {
    assert p != [];
    if k[0] == p[0] {
      assert p == [p[0]] + p[1..] && k == [k[0]] + k[1..];
      BoundBelowShorterBound(p[1..], b, k[1..]);
      assert (p + [b])[1..] == p[1..] + [b];
    }
  }

  /** KeyUpperBound as the binding computes it: copy the key, then increment
      bytes from the right, with wrap-around, until one does not become zero. */
  method KeyUpperBound(key: Key) returns (bound: Option<Key>)
    ensures bound == UpperBound(key)
    ensures forall k: Key :: HasPrefix(k, key)
              <==> AtMost(key, k) && (bound.None? || Less(k, bound.value))
  {
    var end := new Byte[|key|](i requires 0 <= i < |key| => key[i]);
    var i := |key| - 1;
    bound := None;
    assert key[..i + 1] == key;
    while i >= 0
      invariant -1 <= i < |key|
      invariant forall j :: 0 <= j <= i ==> end[j] == key[j]
      invariant UpperBound(key) == UpperBound(key[..i + 1])
    {
      var incremented: int := end[i] as int + 1;
      end[i] := incremented % 256;
      assert key[..i + 1][..i] == key[..i];
      if end[i] != 0 {
        bound := Some(end[..i + 1]);
        assert end[..i + 1] == key[..i] + [key[i] + 1];
        break;
      }
      i := i - 1;
    }
    forall k: Key
      ensures HasPrefix(k, key)
              <==> AtMost(key, k) && (bound.None? || Less(k, bound.value))
    {
      UpperBoundCharacterisesPrefix(key, k);
    }
  }

  // ---------------------------------------------------------------- big endian

  /** The n low-order bytes of u, most significant first. */
  function BigEndian(u: nat, n: nat): (b: Key)
    ensures |b| == n
  {
    if n == 0 then [] else BigEndian(u / 256, n - 1) + [u % 256]
  }

  function FromBigEndian(b: Key): nat {
    if b == [] then 0 else FromBigEndian(b[..|b| - 1]) * 256 + b[|b| - 1]
  }

  function Pow256(n: nat): nat {
    if n == 0 then 1 else 256 * Pow256(n - 1)
  }

  function Uint64ToBytes(u: Uint64): (b: Key)
    ensures |b| == 8
  {
    BigEndian(u, UINT64_SIZE)
  }

  function BytesToUint64(b: Key): (u: Uint64)
    requires |b| >= 8
  {
    FromBigEndianBound(b[..8]);
    assert Pow256(8) == TWO_TO_THE_64;
    FromBigEndian(b[..8])
  }

  lemma {:induction false} FromBigEndianBound(b: Key)
    ensures FromBigEndian(b) < Pow256(|b|)
  {
    if b != [] {
      FromBigEndianBound(b[..|b| - 1]);
    }
  }

  lemma {:induction false} DecodeEncode(u: nat, n: nat)
    requires u < Pow256(n)
    ensures FromBigEndian(BigEndian(u, n)) == u
  {
    if n > 0 {
      DecodeEncode(u / 256, n - 1);
      assert BigEndian(u, n)[..n - 1] == BigEndian(u / 256, n - 1);
    }
  }

  lemma {:induction false} EncodeDecode(b: Key)
    ensures BigEndian(FromBigEndian(b), |b|) == b
  {
    if b != [] {
      var n := |b| - 1;
      EncodeDecode(b[..n]);
      assert FromBigEndian(b) / 256 == FromBigEndian(b[..n]);
      assert b == b[..n] + [b[n]];
    }
  }

  lemma {:induction false} LessSnoc(a: Key, b: Key, x: Byte, y: Byte)
    requires |a| == |b|
    ensures Less(a + [x], b + [y]) <==> Less(a, b) || (a == b && x < y)
  {
    if a == [] {
    } else {
      LessSnoc(a[1..], b[1..], x, y);
      assert (a + [x])[1..] == a[1..] + [x] && (b + [y])[1..] == b[1..] + [y];
      assert a == [a[0]] + a[1..] && b == [b[0]] + b[1..];
    }
  }

  lemma {:induction false} EncodeMonotonic(u: nat, v: nat, n: nat)
    requires u < Pow256(n) && v < Pow256(n)
    ensures Less(BigEndian(u, n), BigEndian(v, n)) <==> u < v
  {
    if n > 0 {
      var a, b := BigEndian(u / 256, n - 1), BigEndian(v / 256, n - 1);
      EncodeMonotonic(u / 256, v / 256, n - 1);
      LessSnoc(a, b, u % 256, v % 256);
      DecodeEncode(u / 256, n - 1);
      DecodeEncode(v / 256, n - 1);
      if a == b {
        assert u / 256 == v / 256;
      } else {
        assert u / 256 != v / 256;
      }
    }
  }

  /** The index encoding is a round trip in both directions. */
  lemma Uint64RoundTrip(u: Uint64, b: Key)
    ensures BytesToUint64(Uint64ToBytes(u)) == u
    ensures |b| == 8 ==> Uint64ToBytes(BytesToUint64(b)) == b
  {
    assert Pow256(8) == TWO_TO_THE_64;
    DecodeEncode(u, 8);
    assert Uint64ToBytes(u)[..8] == Uint64ToBytes(u);
    if |b| == 8 {
      EncodeDecode(b);
      assert b[..8] == b;
    }
  }

  /** The index encoding is an order isomorphism onto the 8-byte keys. */
  lemma Uint64OrderIsomorphism(u: Uint64, v: Uint64)
    ensures Less(Uint64ToBytes(u), Uint64ToBytes(v)) <==> u < v
    ensures Uint64ToBytes(u) == Uint64ToBytes(v) <==> u == v
  {
    assert Pow256(8) == TWO_TO_THE_64;
    EncodeMonotonic(u, v, 8);
    Uint64RoundTrip(u, []);
    Uint64RoundTrip(v, []);
  }
}
