/**
 * The proof-of-work gate of crates/darqual-core/src/pow.rs. The hash itself is a
 * parameter: any function from byte strings to 32-byte digests.
 */
module Pow {
  import opened Bytes
  import opened Wrappers

  type Digest = b: seq<byte> | |b| == 32 witness seq(32, _ => 0)

  type Label = b: seq<byte> | |b| == 16 witness seq(16, _ => 0)

  type HashFunction = seq<byte> -> Digest

  /** b"darqual-pow-v1" */
  const POW_DOMAIN: seq<byte> := [100, 97, 114, 113, 117, 97, 108, 45, 112, 111, 119, 45, 118, 49]

  function Stamped(drop: Label, envelope: seq<byte>, nonce: u64): seq<byte> {
    POW_DOMAIN + drop + envelope + LeBytes(nonce, 8)
  }

  /** Domain, label, envelope, nonce, each at its place. */
  lemma StampLayout(drop: Label, envelope: seq<byte>, nonce: u64)
    ensures var b := Stamped(drop, envelope, nonce);
            && |b| == 38 + |envelope|
            && b[..14] == POW_DOMAIN && b[14..30] == drop && b[30..30 + |envelope|] == envelope
            && LeNat(b[30 + |envelope|..]) == nonce
  {
    hide LeBytes, LeNat, Pow256;
    Pow256Values();
    LeRoundTrip(nonce, 8);
    assert Stamped(drop, envelope, nonce)[30 + |envelope|..] == LeBytes(nonce, 8);
  }

  /** A stamp is for one label, one envelope and one nonce. */
  lemma StampBindsAll(l1: Label, e1: seq<byte>, n1: u64, l2: Label, e2: seq<byte>, n2: u64)
    ensures Stamped(l1, e1, n1) == Stamped(l2, e2, n2) <==> l1 == l2 && e1 == e2 && n1 == n2
  {
    hide Stamped;
    StampLayout(l1, e1, n1);
    StampLayout(l2, e2, n2);
  }

  function PowHash(hash: HashFunction, drop: Label, envelope: seq<byte>, nonce: u64): Digest {
    hash(Stamped(drop, envelope, nonce))
  }

  /** Leading zero bits of one byte, `u8::leading_zeros`. */
  function ByteZeros(x: byte): (n: nat)
    ensures n <= 8
  {
    if x >= 128 then 0 else if x >= 64 then 1 else if x >= 32 then 2 else if x >= 16 then 3
    else if x >= 8 then 4 else if x >= 4 then 5 else if x >= 2 then 6 else if x >= 1 then 7 else 8
  }

  lemma ByteZerosIsBound(x: byte, d: nat)
    requires d <= 8
    ensures ByteZeros(x) >= d <==> x < Pow2(8 - d)
  {
    assert Pow2(0) == 1 && Pow2(2) == 4;
    assert Pow2(4) == 16 && Pow2(6) == 64;
    assert Pow2(8) == 256;
  }

  /** Number of zero bits in front of the first one bit. */
  function ZeroBits(h: seq<byte>): nat {
    if |h| == 0 then 0
    else if h[0] == 0 then 8 + ZeroBits(h[1..])
    else ByteZeros(h[0])
  }

  /** As a big-endian number, `h` has nothing in its `d` highest bits. */
  predicate Below(h: seq<byte>, d: nat) {
    d <= 8 * |h| && BeNat(h) < Pow2(8 * |h| - d)
  }

  method LeadingZeroBits(h: seq<byte>) returns (count: nat)
    ensures forall d: nat :: count >= d <==> Below(h, d)
    ensures count == ZeroBits(h)
  {
    count := 0;
    var i := 0;
    while i < |h|
      invariant i <= |h|
      invariant ZeroBits(h) == count + ZeroBits(h[i..])
    {
      if h[i] == 0 {
        count := count + 8;
      } else {
        count := count + ByteZeros(h[i]);
        break;
      }
      i := i + 1;
    }
    forall d: nat ensures count >= d <==> Below(h, d) {
      ZeroBitsIsBound(h, d);
    }
  }

  /** `d` leading zero bits mean a number below 2^(bits - d). */
  lemma {:induction false} ZeroBitsIsBound(h: seq<byte>, d: nat)
    ensures ZeroBits(h) >= d <==> Below(h, d)
  {
    if |h| > 0 {
      if h[0] == 0 {
        if d >= 8 {
          ZeroBitsIsBound(h[1..], d - 8);
        } else {
          ZeroByteFirst(h, d);
        }
      } else if d <= 8 {
        NonzeroByteFirst(h, d);
      } else {
        FarTooHigh(h, d);
      }
    }
  }

  lemma ZeroByteFirst(h: seq<byte>, d: nat)
    requires |h| > 0 && h[0] == 0 && d < 8
    ensures Below(h, d)
  {
    BeNatBound(h[1..]);
    Pow2Monotone(8 * (|h| - 1), 8 * |h| - d);
  }

  lemma FarTooHigh(h: seq<byte>, d: nat)
    requires |h| > 0 && h[0] != 0 && d > 8
    ensures !Below(h, d)
  {
    var p := Pow2(8 * (|h| - 1));
    Threshold(h[0], 1, p, 0);
    if d <= 8 * |h| {
      Pow2Monotone(8 * |h| - d, 8 * (|h| - 1));
    }
  }

  lemma NonzeroByteFirst(h: seq<byte>, d: nat)
    requires |h| > 0 && d <= 8
    ensures ByteZeros(h[0]) >= d <==> Below(h, d)
  {
    hide Pow2;
    var p := Pow2(8 * (|h| - 1));
    BeNatBound(h[1..]);
    ByteZerosIsBound(h[0], d);
    Pow2Adds(8 - d, 8 * (|h| - 1));
    assert 8 - d + 8 * (|h| - 1) == 8 * |h| - d;
    Threshold(h[0], Pow2(8 - d), p, BeNat(h[1..]));
  }

  predicate PowValid(hash: HashFunction, drop: Label, envelope: seq<byte>, nonce: u64, difficulty: u32) {
    difficulty == 0 || ZeroBits(PowHash(hash, drop, envelope, nonce)) >= difficulty
  }

  method CheckPow(hash: HashFunction, drop: Label, envelope: seq<byte>, nonce: u64, difficulty: u32) returns (ok: bool)
    ensures ok == PowValid(hash, drop, envelope, nonce, difficulty)
  {
    if difficulty == 0 {
      return true;
    }
    var n := LeadingZeroBits(PowHash(hash, drop, envelope, nonce));
    return n >= difficulty;
  }

  /**
   * A stamp is valid exactly when its hash, read as a number, is below 2^(256 - difficulty);
   * so it is valid at every lower difficulty too.
   */
  lemma PowIsNumericBound(hash: HashFunction, drop: Label, envelope: seq<byte>, nonce: u64, difficulty: u32)
    ensures PowValid(hash, drop, envelope, nonce, difficulty) <==>
              difficulty <= 256 && BeNat(PowHash(hash, drop, envelope, nonce)) < Pow2(256 - difficulty)
    ensures forall low: u32 :: low <= difficulty && PowValid(hash, drop, envelope, nonce, difficulty) ==>
              PowValid(hash, drop, envelope, nonce, low)
  {
    ZeroBitsIsBound(PowHash(hash, drop, envelope, nonce), difficulty);
    BeNatBound(PowHash(hash, drop, envelope, nonce));
  }

  /** The first nonce that passes; `None` stands for the panic once all 2^64 have failed. */
  method Mint(hash: HashFunction, drop: Label, envelope: seq<byte>, difficulty: u32) returns (r: Option<u64>)
    ensures r.Some? ==> PowValid(hash, drop, envelope, r.value, difficulty)
    ensures forall n: u64 :: (r.Some? ==> n < r.value) ==> !PowValid(hash, drop, envelope, n, difficulty)
  {
    if difficulty == 0 {
      return Some(0);
    }
    var nonce := 0;
    while nonce < U64_LIMIT
      invariant 0 <= nonce <= U64_LIMIT
      invariant forall n: u64 :: n < nonce ==> !PowValid(hash, drop, envelope, n, difficulty)
    {
      var ok := CheckPow(hash, drop, envelope, nonce, difficulty);
      if ok {
        return Some(nonce);
      }
      nonce := nonce + 1;
    }
    return None;
  }
}
