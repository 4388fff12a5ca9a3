/**
 Octets, machine integers on the wire, and the bit operations the codecs use.

 Integers are unbounded here, so the widths of the C++ types are written out: an
 unsigned field of `w` octets holds the values below `Pow256(w)`.
 */
module Octets {

  datatype Option<+T> = None | Some(value: T)

  type octet = x: int | 0 <= x < 256

  function Pow256(w: nat): (p: nat)
    ensures p > 0
  {
    if w == 0 then 1 else 256 * Pow256(w - 1)
  }

  /** Network order: the most significant octet comes first. */
  function BigEndian(v: nat, w: nat): (b: seq<octet>)
    ensures |b| == w
  {
    if w == 0 then [] else BigEndian(v / 256, w - 1) + [v % 256]
  }

  function FromBigEndian(b: seq<octet>): nat {
    if b == [] then 0 else 256 * FromBigEndian(b[..|b| - 1]) + b[|b| - 1]
  }

  /** Little endian order, which the linuxptp statistics use. */
  function LittleEndian(v: nat, w: nat): (b: seq<octet>)
    ensures |b| == w
  {
    if w == 0 then [] else [v % 256] + LittleEndian(v / 256, w - 1)
  }

  function FromLittleEndian(b: seq<octet>): nat {
    if b == [] then 0 else b[0] + 256 * FromLittleEndian(b[1..])
  }

  /** Writing in network order keeps exactly the low `w` octets of a value. */
  lemma {:induction false} BigEndianRoundTrip(v: nat, w: nat)
    ensures v < Pow256(w) ==> FromBigEndian(BigEndian(v, w)) == v
  {
    if w > 0 {
      BigEndianRoundTrip(v / 256, w - 1);
      var b := BigEndian(v, w);
      assert b[..w - 1] == BigEndian(v / 256, w - 1);
    }
  }

  lemma {:induction false} FromBigEndianRoundTrip(b: seq<octet>)
    ensures FromBigEndian(b) < Pow256(|b|)
    ensures BigEndian(FromBigEndian(b), |b|) == b
  {
    if b != [] {
      FromBigEndianRoundTrip(b[..|b| - 1]);
      assert b == b[..|b| - 1] + [b[|b| - 1]];
    }
  }

  lemma {:induction false} LittleEndianRoundTrip(v: nat, w: nat)
    ensures v < Pow256(w) ==> FromLittleEndian(LittleEndian(v, w)) == v
  {
    if w > 0 {
      LittleEndianRoundTrip(v / 256, w - 1);
      assert LittleEndian(v, w)[1..] == LittleEndian(v / 256, w - 1);
    }
  }

  lemma {:induction false} FromLittleEndianRoundTrip(b: seq<octet>)
    ensures FromLittleEndian(b) < Pow256(|b|)
    ensures LittleEndian(FromLittleEndian(b), |b|) == b
  {
    if b != [] {
      FromLittleEndianRoundTrip(b[1..]);
      assert b == [b[0]] + b[1..];
    }
  }

  /** The octets of a number, the most significant first. */
  lemma {:induction false} BigEndianAt(v: nat, w: nat, i: nat)
    requires i < w
    ensures BigEndian(v, w)[i] == v / Pow256(w - 1 - i) % 256
  {
    if i < w - 1 {
      BigEndianAt(v / 256, w - 1, i);
      DivideOnce(v, Pow256(w - 2 - i));
    }
  }

  /** The octets of a number, the least significant first. */
  lemma {:induction false} LittleEndianAt(v: nat, w: nat, i: nat)
    requires i < w
    ensures LittleEndian(v, w)[i] == v / Pow256(i) % 256
  {
    if i > 0 {
      LittleEndianAt(v / 256, w - 1, i - 1);
      DivideOnce(v, Pow256(i - 1));
    }
  }

  lemma DivideOnce(v: nat, p: nat)
    requires p > 0
    ensures v / 256 / p == v / (256 * p)
  {
    var q, r := v / 256 / p, v / 256 % p;
    assert v / 256 == q * p + r;
    assert v == q * (256 * p) + (256 * r + v % 256);
    ModUnique(v, 256 * p, q, 256 * r + v % 256);
    DivUnique(v, 256 * p, q);
  }

  lemma DivUnique(v: nat, m: nat, q: nat)
    requires m > 0 && v == m * q + v % m
    ensures v / m == q
  {
    assert v == m * (v / m) + v % m;
    assert m * (v / m - q) == 0;
    MulBounds(m, v / m - q);
  }

  lemma MulBounds(m: int, d: int)
    requires m > 0
    ensures d >= 1 ==> m * d >= m
    ensures d <= -1 ==> m * d <= 0 - m
  {
  }

  lemma ModUnique(v: nat, m: nat, q: nat, r: nat)
    requires m > 0 && v == m * q + r && r < m
    ensures v % m == r
  {
    var d := v / m - q;
    assert v == m * (v / m) + v % m;
    assert m * d == r - v % m;
    MulBounds(m, d);
  }

  /** Network order, written out. */
  lemma BigEndianOctets(v: nat)
    ensures BigEndian(v, 1) == [v % 256]
    ensures BigEndian(v, 2) == [v / 0x100 % 256, v % 256]
    ensures BigEndian(v, 4) == [v / 0x100_0000 % 256, v / 0x1_0000 % 256, v / 0x100 % 256, v % 256]
  {
    DividedTwice(v);
    TwoOctets(v, v / 256);
    FourOctets(v, v / 256, v / 256 / 256, v / 256 / 256 / 256);
  }

  lemma FourOctets(v: nat, a: nat, b: nat, c: nat)
    requires a == v / 256 && b == a / 256 && c == b / 256
    ensures BigEndian(v, 4) == [c % 256, b % 256, a % 256, v % 256]
  {
    hide BigEndian;
    LastOctet(v, 3);
    LastOctet(a, 2);
    TwoOctets(b, c);
    var z, y, x, w := c % 256, b % 256, a % 256, v % 256;
    assert [z, y] + [x] + [w] == [z, y, x, w];
  }

  lemma TwoOctets(v: nat, a: nat)
    requires a == v / 256
    ensures BigEndian(v, 1) == [v % 256] && BigEndian(v, 2) == [a % 256, v % 256]
  {
    hide BigEndian;
    LastOctet(v, 0);
    LastOctet(v, 1);
    LastOctet(a, 0);
  }

  lemma DividedTwice(v: nat)
    ensures v / 256 / 256 == v / 0x1_0000 && v / 256 / 256 / 256 == v / 0x100_0000
  {
  }

  lemma LastOctet(v: nat, w: nat)
    ensures BigEndian(v, w + 1) == BigEndian(v / 256, w) + [v % 256]
    ensures BigEndian(v, 0) == []
  {
  }

  /** Two's complement, the cast from a signed to an unsigned integer of `w` octets. */
  function ToUnsigned(v: int, w: nat): (u: int) {
    if v < 0 then v + Pow256(w) else v
  }

  function ToSigned(u: nat, w: nat): (v: int) {
    if 2 * u < Pow256(w) then u else u - Pow256(w)
  }

  ghost predicate SignedRange(v: int, w: nat) {
    0 <= 2 * v + Pow256(w) && 2 * v < Pow256(w)
  }

  /** Bitwise and of two non-negative integers. */
  function BitAnd(a: nat, b: nat): nat {
    if a == 0 || b == 0 then 0
    else 2 * BitAnd(a / 2, b / 2) + (a % 2) * (b % 2)
  }

  /** Bitwise or of two non-negative integers. */
  function BitOr(a: nat, b: nat): nat {
    if a == 0 then b
    else if b == 0 then a
    else 2 * BitOr(a / 2, b / 2) + (if a % 2 + b % 2 == 0 then 0 else 1)
  }

  lemma {:induction false} BitAndBound(a: nat, b: nat)
    ensures BitAnd(a, b) <= a && BitAnd(a, b) <= b
  {
    if a != 0 && b != 0 {
      BitAndBound(a / 2, b / 2);
      assert (a % 2) * (b % 2) <= a % 2;
      assert (a % 2) * (b % 2) <= b % 2;
    }
  }

  /** Masking twice is masking once. */
  lemma {:induction false} BitAndIdempotent(a: nat, m: nat)
    ensures BitAnd(BitAnd(a, m), m) == BitAnd(a, m)
  {
    if a != 0 && m != 0 {
      BitAndIdempotent(a / 2, m / 2);
      var low := (a % 2) * (m % 2);
      assert low == 0 || (low == 1 && m % 2 == 1);
      assert BitAnd(a, m) == 2 * BitAnd(a / 2, m / 2) + low;
    }
  }
}
