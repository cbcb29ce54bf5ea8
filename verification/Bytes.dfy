/** Bytes, fixed-width integers and the little-endian layout used on every wire format. */
module Bytes {
  type byte = x: int | 0 <= x < 256

  const U32_LIMIT: int := 0x1_0000_0000
  const U64_LIMIT: int := 0x1_0000_0000_0000_0000

  type u32 = x: int | 0 <= x < U32_LIMIT
  type u64 = x: int | 0 <= x < U64_LIMIT

  /** `x as u32` on an unbounded length: truncation. */
  function TruncU32(x: nat): u32 {
    x % U32_LIMIT
  }

  /** `x += 1` on a u32 counter in a release build: wrap-around. */
  function BumpU32(x: u32): u32 {
    if x + 1 == U32_LIMIT then 0 else x + 1
  }

  function Pow256(w: nat): nat
    ensures Pow256(w) > 0
  {
    if w == 0 then 1 else 256 * Pow256(w - 1)
  }

  lemma Pow256Grows(w: nat)
    ensures Pow256(w + 1) >= 256
  {
  }

  function Pow2(d: nat): nat
    ensures Pow2(d) > 0
  {
    if d == 0 then 1 else 2 * Pow2(d - 1)
  }

  lemma {:induction false} Pow2Injective(d: nat, f: nat)
    requires Pow2(d) == Pow2(f)
    ensures d == f
  {
    if d > 0 && f > 0 {
      Pow2Injective(d - 1, f - 1);
    }
  }

  lemma {:induction false} Pow2Monotone(d: nat, f: nat)
    requires d <= f
    ensures Pow2(d) <= Pow2(f)
  {
    if d < f {
      Pow2Monotone(d, f - 1);
    }
  }

  lemma {:induction false} Pow2Adds(d: nat, f: nat)
    ensures Pow2(d + f) == Pow2(d) * Pow2(f)
  {
    if d > 0 {
      Pow2Adds(d - 1, f);
    }
  }

  lemma Pow2Zero()
    ensures Pow2(0) == 1
  {
  }

  lemma Pow2Eight(n: nat)
    ensures Pow2(n + 8) == 256 * Pow2(n)
  {
    assert Pow2(n + 2) == 4 * Pow2(n);
    assert Pow2(n + 4) == 4 * Pow2(n + 2);
    assert Pow2(n + 6) == 4 * Pow2(n + 4);
  }

  /** The low `w` bytes of `x`, least significant first. */
  function LeBytes(x: nat, w: nat): (b: seq<byte>)
    ensures |b| == w
  {
    if w == 0 then [] else [x % 256] + LeBytes(x / 256, w - 1)
  }

  function LeNat(b: seq<byte>): nat {
    if |b| == 0 then 0 else b[0] + 256 * LeNat(b[1..])
  }

  lemma Pow256Values()
    ensures Pow256(4) == U32_LIMIT && Pow256(8) == U64_LIMIT
  {
    assert Pow256(2) == 0x1_0000;
    assert Pow256(4) == 0x1_0000_0000;
    assert Pow256(6) == 0x1_0000_0000_0000;
  }

  /** Counting past 2^32 - 1 starts again at 0. */
  lemma BumpWraps(x: u32)
    ensures BumpU32(x) == (x + 1) % U32_LIMIT
  {
  }

  /** Byte `i` of the layout is the i-th digit to base 256, the lowest first. */
  lemma {:induction false} LeDigits(x: nat, w: nat, i: nat)
    requires i < w
    ensures LeBytes(x, w)[i] == x / Pow256(i) % 256
  {
    if i > 0 {
      LeDigits(x / 256, w - 1, i - 1);
      DivideTwice(x, Pow256(i - 1));
    }
  }

  lemma DivideTwice(x: nat, p: nat)
    requires p > 0
    ensures x / 256 / p == x / (256 * p)
  {
    var q, r := x / 256 / p, x / 256 % p;
    assert x == (256 * p) * q + (256 * r + x % 256);
    QuotientIs(x, 256 * p, q, 256 * r + x % 256);
  }

  lemma QuotientIs(x: nat, m: nat, q: nat, r: nat)
    requires m > 0 && r < m && x == m * q + r
    ensures x / m == q && x % m == r
  {
    var k := x / m - q;
    assert m * k == r - x % m;
    MulAtLeast(m, k);
  }

  lemma MulAtLeast(m: nat, k: int)
    ensures k >= 1 ==> m * k >= m
    ensures k <= -1 ==> m * k + m <= 0
  {
  }

  lemma {:induction false} LeNatBound(b: seq<byte>)
    ensures LeNat(b) < Pow256(|b|)
  {
    if |b| > 0 {
      LeNatBound(b[1..]);
    }
  }

  /** Writing and reading back is the identity on every number that fits. */
  lemma {:induction false} LeRoundTrip(x: nat, w: nat)
    requires x < Pow256(w)
    ensures LeNat(LeBytes(x, w)) == x
  {
    if w > 0 {
      LeRoundTrip(x / 256, w - 1);
      assert LeBytes(x, w)[1..] == LeBytes(x / 256, w - 1);
    }
  }

  /** Every byte string of a given width is the layout of the number it reads as. */
  lemma {:induction false} LeInverse(b: seq<byte>)
    ensures LeBytes(LeNat(b), |b|) == b
  {
    if |b| > 0 {
      LeInverse(b[1..]);
      assert LeNat(b) % 256 == b[0] && LeNat(b) / 256 == LeNat(b[1..]);
    }
  }

  lemma LeInjective(x: nat, y: nat, w: nat)
    requires x < Pow256(w) && y < Pow256(w)
    requires LeBytes(x, w) == LeBytes(y, w)
    ensures x == y
  {
    LeRoundTrip(x, w);
    LeRoundTrip(y, w);
  }

  // ── Big-endian order ───────────────────────────────────────────────────────

  /** The number a byte string is in big-endian. */
  function BeNat(b: seq<byte>): nat {
    if |b| == 0 then 0 else b[0] * Pow2(8 * (|b| - 1)) + BeNat(b[1..])
  }

  /** `t` multiples of `p` bound a number with leading part `x` exactly when `x` is below `t`. */
  lemma Threshold(x: nat, t: nat, p: nat, r: nat)
    requires r < p
    ensures x * p + r < t * p <==> x < t
  {
    if x < t {
      assert (x + 1) * p <= t * p;
    } else {
      assert x * p >= t * p;
    }
  }

  lemma {:induction false} BeNatBound(b: seq<byte>)
    ensures BeNat(b) < Pow2(8 * |b|)
  {
    hide Pow2;
    if |b| > 0 {
      var p := Pow2(8 * (|b| - 1));
      BeNatBound(b[1..]);
      Pow2Eight(8 * (|b| - 1));
      Threshold(b[0], 256, p, BeNat(b[1..]));
    } else {
      Pow2Zero();
    }
  }

  /** The order of byte arrays: the first difference decides. */
  predicate LexLe(a: seq<byte>, b: seq<byte>)
    requires |a| == |b|
  {
    |a| == 0 || a[0] < b[0] || (a[0] == b[0] && LexLe(a[1..], b[1..]))
  }

  lemma LeadingByteDecides(x: byte, y: byte, p: nat, r: nat, s: nat)
    requires r < p && s < p
    ensures x < y ==> x * p + r < y * p + s
    ensures x == y ==> (x * p + r <= y * p + s <==> r <= s)
  {
    if x < y {
      assert (x + 1) * p <= y * p;
    }
  }

  /** It is the order of the numbers, and equal numbers are equal arrays. */
  lemma {:induction false} LexIsNumeric(a: seq<byte>, b: seq<byte>)
    requires |a| == |b|
    ensures LexLe(a, b) <==> BeNat(a) <= BeNat(b)
    ensures BeNat(a) == BeNat(b) <==> a == b
  {
    if |a| > 0 {
      var p := Pow2(8 * (|a| - 1));
      BeNatBound(a[1..]);
      BeNatBound(b[1..]);
      LexIsNumeric(a[1..], b[1..]);
      LeadingByteDecides(a[0], b[0], p, BeNat(a[1..]), BeNat(b[1..]));
      LeadingByteDecides(b[0], a[0], p, BeNat(b[1..]), BeNat(a[1..]));
      assert a == [a[0]] + a[1..] && b == [b[0]] + b[1..];
    }
  }
}
