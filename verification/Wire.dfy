/**
 * The bytes of a lockbox (crates/darqual-core/src/lockbox.rs): both wire layouts, with
 * Diffie-Hellman, the key derivations and the AEAD as parameters.
 */
module Wire {
  import opened Bytes
  import opened Wrappers
  import opened Crypto
  import opened Padding

  type Nonce = b: seq<byte> | |b| == 12 witness seq(12, _ => 0)

  const V1: byte := 1
  const V2: byte := 2
  const TAG: nat := 16

  /** A secret is named by its public half; every key is 32 bytes. */
  datatype Primitives = Primitives(
    dh: (Pub, Pub) -> Pub,
    kdfV1: Pub -> Pub,
    kdfEs: Pub -> Pub,
    kdfEss: seq<byte> -> Pub,
    aeadEncrypt: (Pub, Nonce, seq<byte>) -> seq<byte>,
    aeadDecrypt: (Pub, Nonce, seq<byte>) -> Option<seq<byte>>)

  /** Both ends agree on a secret, and a ciphertext is a tag longer than its plaintext and decrypts to it. */
  ghost predicate Proper(p: Primitives) {
    && (forall a, b :: p.dh(a, b) == p.dh(b, a))
    && (forall k, n, m :: |p.aeadEncrypt(k, n, m)| == |m| + TAG)
    && (forall k, n, m :: p.aeadDecrypt(k, n, p.aeadEncrypt(k, n, m)) == Some(m))
  }

  /** Such primitives exist, so what is proved of them is not empty. */
  lemma ProperExist() returns (p: Primitives)
    ensures Proper(p) && forall a, b :: !Degenerate(p.dh(a, b))
  {
    var one: Pub := [1] + Zeros(31);
    p := Primitives((a, b) => one, k => k, k => k, b => one, (k, n, m) => m + Zeros(TAG),
                    (k, n, c) => if |c| < TAG then None else Some(c[..|c| - TAG]));
    forall k, n, m ensures p.aeadDecrypt(k, n, p.aeadEncrypt(k, n, m)) == Some(m) {
      assert (m + Zeros(TAG))[..|m|] == m;
    }
    assert one[0] != Zeros(32)[0];
  }

  datatype WireError =
    | DegenerateDh
    | WireTooShort
    | UnknownVersion(version: byte)
    | DecryptFailed
    | BadSender
    | BadPadding

  predicate Degenerate(shared: Pub) {
    shared == Zeros(32)
  }

  /** What sealing writes, version 1. */
  function AnonWire(p: Primitives, recipient: Pub, eph: Pub, nonce: Nonce, msg: seq<byte>): seq<byte> {
    [V1] + eph + nonce + p.aeadEncrypt(p.kdfV1(p.dh(eph, recipient)), nonce, Padded(msg))
  }

  function EssKey(p: Primitives, es: Pub, ss: Pub): Pub {
    p.kdfEss(es + ss)
  }

  /** What sealing writes, version 2. */
  function AuthWire(p: Primitives, sender: Pub, recipient: Pub, eph: Pub, nonce0: Nonce, nonce1: Nonce,
        msg: seq<byte>): seq<byte> {
    var es, ss := p.dh(eph, recipient), p.dh(sender, recipient);
    [V2] + eph + nonce0 + p.aeadEncrypt(p.kdfEs(es), nonce0, sender)
      + nonce1 + p.aeadEncrypt(EssKey(p, es, ss), nonce1, Padded(msg))
  }

  method Seal(p: Primitives, recipient: Pub, eph: Pub, nonce: Nonce,
        msg: seq<byte>) returns (r: Result<seq<byte>, WireError>)
    ensures r == if Degenerate(p.dh(eph, recipient)) then Err(DegenerateDh) else Ok(AnonWire(p, recipient, eph,
        nonce, msg))
  {
    var shared := p.dh(eph, recipient);
    if Degenerate(shared) {
      return Err(DegenerateDh);
    }
    var padded := Pad(msg);
    var ct := p.aeadEncrypt(p.kdfV1(shared), nonce, padded[..]);
    var wire := [V1];
    wire := wire + eph;
    wire := wire + nonce;
    wire := wire + ct;
    return Ok(wire);
  }

  method SealAuthenticated(p: Primitives, sender: Pub, recipient: Pub, eph: Pub, nonce0: Nonce, nonce1: Nonce,
        msg: seq<byte>)
    returns (r: Result<seq<byte>, WireError>)
    ensures r == if Degenerate(p.dh(eph, recipient)) || Degenerate(p.dh(sender, recipient)) then Err(DegenerateDh)
                 else Ok(AuthWire(p, sender, recipient, eph, nonce0, nonce1, msg))
  {
    var es := p.dh(eph, recipient);
    if Degenerate(es) {
      return Err(DegenerateDh);
    }
    var encS := p.aeadEncrypt(p.kdfEs(es), nonce0, sender);
    var ss := p.dh(sender, recipient);
    if Degenerate(ss) {
      return Err(DegenerateDh);
    }
    var padded := Pad(msg);
    var encMsg := p.aeadEncrypt(EssKey(p, es, ss), nonce1, padded[..]);
    var wire := [V2];
    wire := wire + eph;
    wire := wire + nonce0;
    wire := wire + encS;
    wire := wire + nonce1;
    wire := wire + encMsg;
    return Ok(wire);
  }

  // ── Opening ────────────────────────────────────────────────────────────────

  type Contents = Result<(seq<byte>, Option<Pub>), WireError>

  function OpenPadded(p: Primitives, key: Pub, nonce: Nonce, ct: seq<byte>, sender: Option<Pub>): Contents {
    var plain := p.aeadDecrypt(key, nonce, ct);
    if plain.None? then Err(DecryptFailed)
    else
      match Unpadded(plain.value)
      case Ok(msg) => Ok((msg, sender))
      case Err(_) => Err(BadPadding)
  }

  function OpenV1(p: Primitives, me: Pub, wire: seq<byte>): Contents {
    if |wire| < 1 + 32 + 12 + 1 then Err(WireTooShort)
    else
      var shared := p.dh(me, wire[1..33]);
      if Degenerate(shared) then Err(DegenerateDh)
      else OpenPadded(p, p.kdfV1(shared), wire[33..45], wire[45..], None)
  }

  function OpenV2(p: Primitives, me: Pub, wire: seq<byte>): Contents {
    if |wire| < 1 + 32 + 12 + 48 + 12 + 1 then Err(WireTooShort)
    else
      var es := p.dh(me, wire[1..33]);
      if Degenerate(es) then Err(DegenerateDh)
      else
        var sender := p.aeadDecrypt(p.kdfEs(es), wire[33..45], wire[45..93]);
        if sender.None? then Err(DecryptFailed)
        else if |sender.value| != 32 then Err(BadSender)
        else
          var ss := p.dh(me, sender.value);
          if Degenerate(ss) then Err(DegenerateDh)
          else OpenPadded(p, EssKey(p, es, ss), wire[93..105], wire[105..], Some(sender.value))
  }

  function OpenAuthenticated(p: Primitives, me: Pub, wire: seq<byte>): Contents {
    if |wire| == 0 then Err(WireTooShort)
    else if wire[0] == V1 then OpenV1(p, me, wire)
    else if wire[0] == V2 then OpenV2(p, me, wire)
    else Err(UnknownVersion(wire[0]))
  }

  // ── Byte by byte ───────────────────────────────────────────────────────────

  lemma DegenerateIsZero(shared: Pub)
    ensures Degenerate(shared) <==> forall i :: 0 <= i < 32 ==> shared[i] == 0
  {
    if forall i :: 0 <= i < 32 ==> shared[i] == 0 {
      assert shared == Zeros(32);
    }
  }

  /** Version, ephemeral key, nonce, and the padded message under the key of the ephemeral and the recipient. */
  lemma AnonWireLayout(p: Primitives, recipient: Pub, eph: Pub, nonce: Nonce, msg: seq<byte>)
    ensures var wire := AnonWire(p, recipient, eph, nonce, msg);
            && |wire| >= 45 && wire[0] == 1 && wire[1..33] == eph && wire[33..45] == nonce
            && wire[45..] == p.aeadEncrypt(p.kdfV1(p.dh(eph, recipient)), nonce, Padded(msg))
  {
    hide Padded;
    AnonLayout(eph, nonce, p.aeadEncrypt(p.kdfV1(p.dh(eph, recipient)), nonce, Padded(msg)));
  }

  /** In version 2 the sender is under the first secret, the message under both, each with its own nonce. */
  lemma AuthWireLayout(p: Primitives, sender: Pub, recipient: Pub, eph: Pub, nonce0: Nonce, nonce1: Nonce,
        msg: seq<byte>)
    requires Proper(p)
    ensures var wire := AuthWire(p, sender, recipient, eph, nonce0, nonce1, msg);
            && |wire| >= 105 && wire[0] == 2 && wire[1..33] == eph && wire[33..45] == nonce0
            && wire[45..93] == p.aeadEncrypt(p.kdfEs(p.dh(eph, recipient)), nonce0, sender)
            && wire[93..105] == nonce1
            && wire[105..] == p.aeadEncrypt(p.kdfEss(p.dh(eph, recipient) + p.dh(sender, recipient)), nonce1,
                  Padded(msg))
  {
    hide Padded;
    var es, ss := p.dh(eph, recipient), p.dh(sender, recipient);
    AuthLayout(eph, nonce0, p.aeadEncrypt(p.kdfEs(es), nonce0, sender), nonce1,
               p.aeadEncrypt(EssKey(p, es, ss), nonce1, Padded(msg)));
  }

  ghost predicate NonZero(shared: Pub) {
    exists i :: 0 <= i < 32 && shared[i] != 0
  }

  /** `plain` is a padded form of `msg`. */
  ghost predicate Pads(plain: Option<seq<byte>>, msg: seq<byte>) {
    plain.Some? && |msg| < U32_LIMIT && LeBytes(|msg|, 4) + msg <= plain.value
  }

  lemma OpensPadded(p: Primitives, key: Pub, nonce: Nonce, ct: seq<byte>, sender: Option<Pub>, msg: seq<byte>,
        from: Option<Pub>)
    ensures OpenPadded(p, key, nonce, ct, sender) == Ok((msg, from)) <==>
            from == sender && Pads(p.aeadDecrypt(key, nonce, ct), msg)
  {
    hide Unpadded, LeBytes;
    var plain := p.aeadDecrypt(key, nonce, ct);
    if plain.Some? {
      UnpadAcceptsExactly(plain.value, msg);
    }
  }

  /** For every wire: it opens as an anonymous message exactly when these bytes are in these places. */
  lemma OpensAnonymousExactly(p: Primitives, me: Pub, wire: seq<byte>, msg: seq<byte>)
    ensures OpenAuthenticated(p, me, wire) == Ok((msg, None)) <==>
            && |wire| >= 46 && wire[0] == 1
            && NonZero(p.dh(me, wire[1..33]))
            && Pads(p.aeadDecrypt(p.kdfV1(p.dh(me, wire[1..33])), wire[33..45], wire[45..]), msg)
  {
    hide OpenPadded, Pads, Degenerate;
    if |wire| >= 46 {
      var shared := p.dh(me, wire[1..33]);
      DegenerateIsZero(shared);
      OpensPadded(p, p.kdfV1(shared), wire[33..45], wire[45..], None, msg, None);
    }
    if |wire| > 0 && wire[0] == 2 {
      NeverAnonymous(p, me, wire, msg);
    }
  }

  lemma NeverAnonymous(p: Primitives, me: Pub, wire: seq<byte>, msg: seq<byte>)
    ensures OpenV2(p, me, wire) != Ok((msg, None))
  {
    hide Unpadded;
  }

  /**
   * For every wire: it opens as a message of `sender` exactly when `sender` is sealed under
   * the secret with the ephemeral key, and the message under that secret together with the
   * one `sender` and the recipient share.
   */
  lemma OpensAuthenticatedExactly(p: Primitives, me: Pub, wire: seq<byte>, msg: seq<byte>, sender: Pub)
    ensures OpenAuthenticated(p, me, wire) == Ok((msg, Some(sender))) <==>
            && |wire| >= 106 && wire[0] == 2
            && NonZero(p.dh(me, wire[1..33])) && NonZero(p.dh(me, sender))
            && p.aeadDecrypt(p.kdfEs(p.dh(me, wire[1..33])), wire[33..45], wire[45..93]) == Some(sender)
            && Pads(p.aeadDecrypt(p.kdfEss(p.dh(me, wire[1..33]) + p.dh(me, sender)), wire[93..105], wire[105..]), msg)
  {
    hide Pads, Degenerate, OpenPadded;
    if |wire| >= 106 {
      var es, ss := p.dh(me, wire[1..33]), p.dh(me, sender);
      DegenerateIsZero(es);
      DegenerateIsZero(ss);
      OpensPadded(p, EssKey(p, es, ss), wire[93..105], wire[105..], Some(sender), msg, Some(sender));
      if OpenV2(p, me, wire) == Ok((msg, Some(sender))) {
        SenderOfV2(p, me, wire, msg, sender);
      }
    }
    if |wire| > 0 && wire[0] == 1 {
      NeverNamed(p, me, wire, msg, sender);
    }
  }

  /** The sender an opened box names is the one sealed in it. */
  lemma SenderOfV2(p: Primitives, me: Pub, wire: seq<byte>, msg: seq<byte>, sender: Pub)
    requires OpenV2(p, me, wire) == Ok((msg, Some(sender)))
    ensures |wire| >= 106
    ensures p.aeadDecrypt(p.kdfEs(p.dh(me, wire[1..33])), wire[33..45], wire[45..93]) == Some(sender)
  {
    hide Unpadded;
  }

  lemma NeverNamed(p: Primitives, me: Pub, wire: seq<byte>, msg: seq<byte>, sender: Pub)
    ensures OpenV1(p, me, wire) != Ok((msg, Some(sender)))
  {
    hide Unpadded;
  }

  /** Why a long enough wire is refused: a zero secret, a sender that does not open or is no key, a bad message. */
  lemma RefusesContents(p: Primitives, me: Pub, wire: seq<byte>)
    requires |wire| >= 106
    ensures (wire[0] == 1 || wire[0] == 2) && !NonZero(p.dh(me, wire[1..33])) ==>
              OpenAuthenticated(p, me, wire) == Err(DegenerateDh)
    ensures wire[0] == 2 && NonZero(p.dh(me, wire[1..33])) ==>
              match p.aeadDecrypt(p.kdfEs(p.dh(me, wire[1..33])), wire[33..45], wire[45..93])
              case None => OpenAuthenticated(p, me, wire) == Err(DecryptFailed)
              case Some(sender) =>
                if |sender| != 32 then OpenAuthenticated(p, me, wire) == Err(BadSender)
                else !NonZero(p.dh(me, sender)) ==> OpenAuthenticated(p, me, wire) == Err(DegenerateDh)
  {
    hide OpenPadded, Degenerate;
    DegenerateIsZero(p.dh(me, wire[1..33]));
    var sender := p.aeadDecrypt(p.kdfEs(p.dh(me, wire[1..33])), wire[33..45], wire[45..93]);
    if sender.Some? && |sender.value| == 32 {
      DegenerateIsZero(p.dh(me, sender.value));
    }
  }

  /** Any other first byte is refused by name; too short a wire, whatever its version, as too short. */
  lemma RefusesVersions(p: Primitives, me: Pub, wire: seq<byte>)
    ensures |wire| > 0 && wire[0] != 1 && wire[0] != 2 ==>
              OpenAuthenticated(p, me, wire) == Err(UnknownVersion(wire[0]))
    ensures |wire| == 0 || (wire[0] == 1 && |wire| < 46) || (wire[0] == 2 && |wire| < 106) ==>
              OpenAuthenticated(p, me, wire) == Err(WireTooShort)
  {
    hide OpenPadded;
  }

  // ── Round trips ────────────────────────────────────────────────────────────

  lemma AnonLayout(eph: Pub, nonce: Nonce, ct: seq<byte>)
    ensures var wire := [V1] + eph + nonce + ct;
            |wire| == 45 + |ct| && wire[0] == V1 && wire[1..33] == eph && wire[33..45] == nonce && wire[45..] == ct
  {
  }

  lemma AuthLayout(eph: Pub, nonce0: Nonce, encS: seq<byte>, nonce1: Nonce, encMsg: seq<byte>)
    requires |encS| == 48
    ensures var wire := [V2] + eph + nonce0 + encS + nonce1 + encMsg;
            && |wire| == 105 + |encMsg| && wire[0] == V2 && wire[1..33] == eph && wire[33..45] == nonce0
            && wire[45..93] == encS && wire[93..105] == nonce1 && wire[105..] == encMsg
  {
  }

  lemma PaddedOpens(p: Primitives, key: Pub, nonce: Nonce, msg: seq<byte>, sender: Option<Pub>)
    requires Proper(p)
    ensures var result := OpenPadded(p, key, nonce, p.aeadEncrypt(key, nonce, Padded(msg)), sender);
            && result == Ok((msg[..TruncU32(|msg|)], sender))
            && (result == Ok((msg, sender)) <==> |msg| < U32_LIMIT)
  {
    PadRoundTrip(msg);
  }

  /** What is sealed to a recipient opens for it byte for byte, exactly while its length fits the prefix. */
  lemma AnonymousRoundTrip(p: Primitives, recipient: Pub, eph: Pub, nonce: Nonce, msg: seq<byte>)
    requires Proper(p) && !Degenerate(p.dh(eph, recipient))
    ensures var result := OpenAuthenticated(p, recipient, AnonWire(p, recipient, eph, nonce, msg));
            && result == Ok((msg[..TruncU32(|msg|)], None))
            && (result == Ok((msg, None)) <==> |msg| < U32_LIMIT)
  {
    hide Padded, OpenPadded;
    var key := p.kdfV1(p.dh(eph, recipient));
    AnonLayout(eph, nonce, p.aeadEncrypt(key, nonce, Padded(msg)));
    PaddedOpens(p, key, nonce, msg, None);
  }

  /** The authenticated form also hands over its sender. */
  lemma AuthenticatedRoundTrip(p: Primitives, sender: Pub, recipient: Pub, eph: Pub, nonce0: Nonce, nonce1: Nonce,
        msg: seq<byte>)
    requires Proper(p) && !Degenerate(p.dh(eph, recipient)) && !Degenerate(p.dh(sender, recipient))
    ensures var result := OpenAuthenticated(p, recipient, AuthWire(p, sender, recipient, eph, nonce0, nonce1, msg));
            && result == Ok((msg[..TruncU32(|msg|)], Some(sender)))
            && (result == Ok((msg, Some(sender))) <==> |msg| < U32_LIMIT)
  {
    hide Padded, OpenPadded;
    var es, ss := p.dh(eph, recipient), p.dh(sender, recipient);
    AuthLayout(eph, nonce0, p.aeadEncrypt(p.kdfEs(es), nonce0, sender), nonce1,
               p.aeadEncrypt(EssKey(p, es, ss), nonce1, Padded(msg)));
    PaddedOpens(p, EssKey(p, es, ss), nonce1, msg, Some(sender));
  }

  // ── Lengths ────────────────────────────────────────────────────────────────

  const PREFIX_LEN: nat := 6

  /** Length of the standard base64 encoding, padding included. */
  function Base64Len(n: nat): nat {
    4 * ((n + 2) / 3)
  }

  /** Four characters for every three bytes begun. */
  lemma Base64Groups(n: nat)
    ensures exists groups: nat :: Base64Len(n) == 4 * groups && 3 * groups >= n && 3 * groups < n + 3
  {
    var groups := (n + 2) / 3;
    assert Base64Len(n) == 4 * groups && 3 * groups >= n && 3 * groups < n + 3;
  }

  /** Characters of the envelope around a wire: "dqbox1" and its base64 form. */
  function EnvelopeLen(wire: seq<byte>): nat {
    PREFIX_LEN + Base64Len(|wire|)
  }

  lemma WireLengths(p: Primitives, sender: Pub, recipient: Pub, eph: Pub, n0: Nonce, n1: Nonce, msg: seq<byte>)
    requires Proper(p)
    ensures |AnonWire(p, recipient, eph, n0, msg)| == 45 + Bucket(|msg| + LEN_PREFIX) + 16
    ensures |AuthWire(p, sender, recipient, eph, n0, n1, msg)| == 105 + Bucket(|msg| + LEN_PREFIX) + 16
  {
    hide Padded, Bucket;
    PaddedLength(msg);
  }

  /**
   * Whoever they are between and whatever they say, two anonymous envelopes are equally
   * long exactly when their messages pad to the same bucket.
   */
  lemma LengthTellsBucketOnly(p: Primitives, to1: Pub, eph1: Pub, nonce1: Nonce, msg1: seq<byte>,
                              to2: Pub, eph2: Pub, nonce2: Nonce, msg2: seq<byte>)
    requires Proper(p)
    ensures EnvelopeLen(AnonWire(p, to1, eph1, nonce1, msg1)) == EnvelopeLen(AnonWire(p, to2, eph2, nonce2, msg2)) <==>
            Bucket(|msg1| + LEN_PREFIX) == Bucket(|msg2| + LEN_PREFIX)
  {
    hide AnonWire, AuthWire, Bucket;
    WireLengths(p, to1, to1, eph1, nonce1, nonce1, msg1);
    WireLengths(p, to2, to2, eph2, nonce2, nonce2, msg2);
    SameLengthSameBucket(45 + TAG, |msg1|, |msg2|);
  }

  /** The same holds of authenticated envelopes. */
  lemma AuthenticatedLengthTellsBucketOnly(p: Primitives, from1: Pub, to1: Pub, eph1: Pub, n01: Nonce, n11: Nonce,
                                           msg1: seq<byte>, from2: Pub, to2: Pub, eph2: Pub, n02: Nonce, n12: Nonce,
                                           msg2: seq<byte>)
    requires Proper(p)
    ensures var a := AuthWire(p, from1, to1, eph1, n01, n11, msg1);
            var b := AuthWire(p, from2, to2, eph2, n02, n12, msg2);
            EnvelopeLen(a) == EnvelopeLen(b) <==> Bucket(|msg1| + LEN_PREFIX) == Bucket(|msg2| + LEN_PREFIX)
  {
    hide AnonWire, AuthWire, Bucket;
    WireLengths(p, from1, to1, eph1, n01, n11, msg1);
    WireLengths(p, from2, to2, eph2, n02, n12, msg2);
    SameLengthSameBucket(105 + TAG, |msg1|, |msg2|);
  }

  lemma SameLengthSameBucket(overhead: nat, a: nat, b: nat)
    ensures Base64Len(overhead + Bucket(a + LEN_PREFIX)) == Base64Len(overhead + Bucket(b + LEN_PREFIX)) <==>
            Bucket(a + LEN_PREFIX) == Bucket(b + LEN_PREFIX)
  {
    hide Bucket, IsRung;
    LeastRung(a + LEN_PREFIX);
    LeastRung(b + LEN_PREFIX);
    RungsApart(Bucket(a + LEN_PREFIX), Bucket(b + LEN_PREFIX));
  }

  lemma RungsApart(x: nat, y: nat)
    requires IsRung(x) && IsRung(y)
    ensures x == y || x + 3 <= y || y + 3 <= x
  {
    assert x % 256 == 0 && y % 256 == 0 by {
      RungIsMultiple(x);
      RungIsMultiple(y);
    }
  }

  lemma RungIsMultiple(x: nat)
    requires IsRung(x)
    ensures x % 256 == 0
  {
    if x !in BUCKETS {
      assert x == 256 * (1024 * (x / LARGEST));
    }
  }
}
