/** Fixed-bucket length padding (crates/darqual-core/src/padding.rs). */
module Padding {
  import opened Bytes
  import opened Wrappers

  const BUCKETS: seq<nat> := [256, 1024, 4096, 16384, 65536, 262144]
  const LARGEST: nat := 262144
  const LEN_PREFIX: nat := 4

  datatype PaddingError = TooShort | PrefixTooLong

  /** The lengths a padded buffer may have: the ladder, then multiples of its top rung. */
  ghost predicate IsRung(b: nat) {
    b in BUCKETS || (b > LARGEST && b % LARGEST == 0)
  }

  function FirstAtLeast(ladder: seq<nat>, need: nat): (r: Option<nat>)
    ensures r.Some? ==> r.value in ladder && r.value >= need
    ensures r.None? ==> forall i :: 0 <= i < |ladder| ==> ladder[i] < need
  {
    if |ladder| == 0 then None
    else if ladder[0] >= need then Some(ladder[0])
    else
      var rest := FirstAtLeast(ladder[1..], need);
      assert rest.None? ==> forall i :: 1 <= i < |ladder| ==> ladder[i] == ladder[1..][i - 1];
      rest
  }

  function Bucket(need: nat): nat {
    match FirstAtLeast(BUCKETS, need)
    case Some(b) => b
    case None => ((need + LARGEST - 1) / LARGEST) * LARGEST
  }

  function Zeros(n: nat): (z: seq<byte>)
    ensures |z| == n
  {
    seq(n, _ => 0)
  }

  function Padded(pt: seq<byte>): seq<byte> {
    LeBytes(TruncU32(|pt|), 4) + pt + Zeros(PadFill(|pt|))
  }

  function PadFill(len: nat): nat {
    LeastRung(len + LEN_PREFIX);
    Bucket(len + LEN_PREFIX) - LEN_PREFIX - len
  }

  function Unpadded(buf: seq<byte>): Result<seq<byte>, PaddingError> {
    if |buf| < LEN_PREFIX then Err(TooShort)
    else
      var n := LeNat(buf[..LEN_PREFIX]);
      if n > |buf| - LEN_PREFIX then Err(PrefixTooLong)
      else Ok(buf[LEN_PREFIX..LEN_PREFIX + n])
  }

  /** The bucket is the least rung that holds `need` bytes. */
  lemma LeastRung(need: nat)
    ensures IsRung(Bucket(need)) && Bucket(need) >= need
    ensures forall b: nat :: IsRung(b) && b >= need ==> Bucket(need) <= b
  {
    if need > LARGEST {
      assert LARGEST in BUCKETS;
      var q := (need + LARGEST - 1) / LARGEST;
      assert FirstAtLeast(BUCKETS, need).None? by {
        assert forall b :: b in BUCKETS ==> b <= LARGEST;
      }
      assert Bucket(need) == q * LARGEST && q * LARGEST % LARGEST == 0;
      forall b: nat | IsRung(b) && b >= need
        ensures Bucket(need) <= b
      {
        assert b == (b / LARGEST) * LARGEST;
      }
    } else {
      LeastOnLadder(need);
    }
  }

  /** The ladder, rung by rung; above it, multiples of its top rung. */
  lemma BucketLadder(need: nat)
    ensures Bucket(need) == if need <= 256 then 256 else if need <= 1024 then 1024 else if need <= 4096 then 4096
                            else if need <= 16384 then 16384 else if need <= 65536 then 65536
                            else if need <= 262144 then 262144 else ((need + 262143) / 262144) * 262144
  {
    LeastRung(need);
    if need > LARGEST {
      assert forall b :: b in BUCKETS ==> b <= LARGEST;
    } else {
      LeastOnLadder(need);
      assert BUCKETS[0] == 256 && BUCKETS[1] == 1024 && BUCKETS[2] == 4096;
      assert BUCKETS[3] == 16384 && BUCKETS[4] == 65536 && BUCKETS[5] == 262144;
      assert 256 in BUCKETS && 1024 in BUCKETS && 4096 in BUCKETS && 16384 in BUCKETS && 65536 in BUCKETS;
      assert forall b :: b in BUCKETS ==> b in [256, 1024, 4096, 16384, 65536, 262144];
    }
  }

  lemma LeastOnLadder(need: nat)
    requires need <= LARGEST
    ensures Bucket(need) in BUCKETS && Bucket(need) >= need
    ensures forall b :: b in BUCKETS && b >= need ==> Bucket(need) <= b
  {
    assert BUCKETS[5] == LARGEST;
    FirstIsLeast(BUCKETS, need);
  }

  lemma {:induction false} FirstIsLeast(ladder: seq<nat>, need: nat)
    requires forall i, j :: 0 <= i < j < |ladder| ==> ladder[i] < ladder[j]
    ensures FirstAtLeast(ladder, need).Some? ==>
              forall b :: b in ladder && b >= need ==> FirstAtLeast(ladder, need).value <= b
  {
    if |ladder| > 0 {
      FirstIsLeast(ladder[1..], need);
      assert ladder == [ladder[0]] + ladder[1..];
    }
  }

  /** The whole buffer is exactly one rung long, whatever the plaintext. */
  lemma PaddedLength(pt: seq<byte>)
    ensures |Padded(pt)| == Bucket(|pt| + LEN_PREFIX)
  {
    LeastRung(|pt| + LEN_PREFIX);
  }

  /**
   * Padding is undone exactly when the length fits the 32-bit prefix: a longer
   * plaintext is cut down to its length modulo 2^32.
   */
  lemma PadRoundTrip(pt: seq<byte>)
    ensures Unpadded(Padded(pt)) == Ok(pt[..TruncU32(|pt|)])
    ensures Unpadded(Padded(pt)) == Ok(pt) <==> |pt| < U32_LIMIT
  {
    hide LeBytes, LeNat, Pow256;
    var n := TruncU32(|pt|);
    Pow256Values();
    LeRoundTrip(n, 4);
    var buf := Padded(pt);
    assert buf[..4] == LeBytes(n, 4);
    assert buf[4..4 + n] == pt[..n];
    if |pt| >= U32_LIMIT {
      assert n < |pt| == |pt[..]|;
      assert |pt[..n]| == n;
    } else {
      assert pt[..n] == pt;
    }
  }

  /** Length prefix, plaintext, zeros: place by place. */
  lemma PadLayout(pt: seq<byte>)
    ensures |Padded(pt)| >= LEN_PREFIX + |pt|
    ensures LeNat(Padded(pt)[..LEN_PREFIX]) == |pt| % U32_LIMIT
    ensures Padded(pt)[LEN_PREFIX..LEN_PREFIX + |pt|] == pt
    ensures forall i :: LEN_PREFIX + |pt| <= i < |Padded(pt)| ==> Padded(pt)[i] == 0
  {
    hide LeBytes, LeNat, Pow256;
    Pow256Values();
    LeRoundTrip(TruncU32(|pt|), LEN_PREFIX);
    assert Padded(pt)[..LEN_PREFIX] == LeBytes(TruncU32(|pt|), LEN_PREFIX);
  }

  /** The two ways a buffer is refused. */
  lemma UnpadRefusesExactly(buf: seq<byte>)
    ensures Unpadded(buf) == Err(TooShort) <==> |buf| < 4
    ensures Unpadded(buf) == Err(PrefixTooLong) <==> |buf| >= 4 && LeNat(buf[..4]) > |buf| - 4
  {
    hide LeNat;
  }

  /** What an accepted buffer says about itself: unpadding is total, and exact on success. */
  lemma UnpadAcceptsExactly(buf: seq<byte>, pt: seq<byte>)
    ensures Unpadded(buf) == Ok(pt) <==> |pt| < U32_LIMIT && LeBytes(|pt|, LEN_PREFIX) + pt <= buf
  {
    if Unpadded(buf) == Ok(pt) {
      AcceptedIsPrefixed(buf, pt);
    }
    if |pt| < U32_LIMIT && LeBytes(|pt|, LEN_PREFIX) + pt <= buf {
      PrefixedIsAccepted(buf, pt);
    }
  }

  lemma AcceptedIsPrefixed(buf: seq<byte>, pt: seq<byte>)
    requires Unpadded(buf) == Ok(pt)
    ensures |pt| < U32_LIMIT && LeBytes(|pt|, LEN_PREFIX) + pt <= buf
  {
    hide LeBytes, LeNat, Unpadded;
    AcceptedParts(buf, pt);
    PrefixIsU32(buf[..LEN_PREFIX]);
    SliceJoin(buf, LEN_PREFIX, |pt|);
  }

  lemma AcceptedParts(buf: seq<byte>, pt: seq<byte>)
    requires Unpadded(buf) == Ok(pt)
    ensures LEN_PREFIX + |pt| <= |buf|
    ensures LeNat(buf[..LEN_PREFIX]) == |pt| && buf[LEN_PREFIX..LEN_PREFIX + |pt|] == pt
  {
    hide LeNat;
  }

  lemma SliceJoin<T>(s: seq<T>, k: nat, m: nat)
    requires k + m <= |s|
    ensures s[..k] + s[k..k + m] <= s
  {
    assert s[..k] + s[k..k + m] == s[..k + m];
  }

  lemma PrefixIsU32(lenLe: seq<byte>)
    requires |lenLe| == LEN_PREFIX
    ensures LeNat(lenLe) < U32_LIMIT
    ensures LeBytes(LeNat(lenLe), LEN_PREFIX) == lenLe
  {
    Pow256Values();
    LeNatBound(lenLe);
    LeInverse(lenLe);
  }

  lemma PrefixedIsAccepted(buf: seq<byte>, pt: seq<byte>)
    requires |pt| < U32_LIMIT && LeBytes(|pt|, LEN_PREFIX) + pt <= buf
    ensures Unpadded(buf) == Ok(pt)
  {
    Pow256Values();
    LeRoundTrip(|pt|, LEN_PREFIX);
    ReadsPrefix(buf, LeBytes(|pt|, LEN_PREFIX), pt);
  }

  lemma ReadsPrefix(buf: seq<byte>, lenLe: seq<byte>, pt: seq<byte>)
    requires |lenLe| == LEN_PREFIX && LeNat(lenLe) == |pt|
    requires lenLe + pt <= buf
    ensures Unpadded(buf) == Ok(pt)
  {
    assert buf[..LEN_PREFIX] == lenLe;
    assert buf[LEN_PREFIX..LEN_PREFIX + |pt|] == pt;
  }

  method CopyInto(out: array<byte>, at: nat, src: seq<byte>)
    requires at + |src| <= out.Length
    modifies out
    ensures out[..] == old(out[..at]) + src + old(out[at + |src|..])
  {
    for i := 0 to |src|
      invariant forall k :: 0 <= k < at ==> out[k] == old(out[k])
      invariant forall k :: 0 <= k < i ==> out[at + k] == src[k]
      invariant forall k :: at + i <= k < out.Length ==> out[k] == old(out[k])
    {
      out[at + i] := src[i];
    }
  }

  /** The zeroed buffer, the prefix, then the payload, written in place. */
  method Pad(pt: seq<byte>) returns (out: array<byte>)
    ensures fresh(out) && out[..] == Padded(pt)
  {
    var bucket := Bucket(|pt| + LEN_PREFIX);
    LeastRung(|pt| + LEN_PREFIX);
    out := new byte[bucket](_ => 0);
    CopyInto(out, 0, LeBytes(TruncU32(|pt|), 4));
    CopyInto(out, LEN_PREFIX, pt);
    assert out[LEN_PREFIX + |pt|..] == Zeros(PadFill(|pt|));
  }

  method Unpad(buf: array<byte>) returns (r: Result<seq<byte>, PaddingError>)
    ensures r == Unpadded(buf[..])
  {
    if buf.Length < LEN_PREFIX {
      return Err(TooShort);
    }
    var lenLe := buf[..LEN_PREFIX];
    assert buf[..][..LEN_PREFIX] == lenLe;
    var n := LeNat(lenLe);
    var avail := buf.Length - LEN_PREFIX;
    if n > avail {
      return Err(PrefixTooLong);
    }
    assert buf[..][LEN_PREFIX..LEN_PREFIX + n] == buf[LEN_PREFIX..LEN_PREFIX + n];
    return Ok(buf[LEN_PREFIX..LEN_PREFIX + n]);
  }
}
