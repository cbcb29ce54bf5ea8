/** Sealed envelopes (crates/darqual-core/src/lockbox.rs) around a payload. */
module Lockbox {
  import opened Bytes
  import opened Wrappers
  import opened Crypto

  /** What deserialising an opened plaintext gives. */
  datatype Payload = Carries(rm: RatchetMessage) | Garbage(raw: seq<byte>)

  datatype SealedSender = SenderBox(key: Key, nonce: seq<byte>, sender: Pub) | SenderJunk(raw: seq<byte>)

  datatype SealedPayload = PayloadBox(key: Key, nonce: seq<byte>, plain: Payload) | PayloadJunk(raw: seq<byte>)

  /** The parsed wire: version 1, version 2, or neither. */
  datatype Envelope =
    | NotALockbox
    | AnonBox(eph: Pub, nonce: seq<byte>, ct: SealedPayload)
    | AuthBox(eph: Pub, nonce0: seq<byte>, encS: SealedSender, nonce1: seq<byte>, encMsg: SealedPayload)

  datatype LockboxError = InvalidLockbox | DecryptFailed

  function Seal(recipient: Pub, eph: Pub, nonce: seq<byte>, payload: Payload): Envelope {
    AnonBox(eph, nonce, PayloadBox(BoxAnon(DhOut(eph, recipient)), nonce, payload))
  }

  function SealAuthenticated(sender: Pub, recipient: Pub, eph: Pub, nonce0: seq<byte>, nonce1: seq<byte>,
        payload: Payload): Envelope {
    var es, ss := DhOut(eph, recipient), DhOut(sender, recipient);
    AuthBox(eph, nonce0, SenderBox(BoxEs(es), nonce0, sender), nonce1, PayloadBox(BoxEss(es, ss), nonce1, payload))
  }

  function OpenPayload(key: Key, nonce: seq<byte>, ct: SealedPayload): Result<Payload, LockboxError> {
    if ct.PayloadBox? && ct.key == key && ct.nonce == nonce then Ok(ct.plain) else Err(DecryptFailed)
  }

  function OpenSender(key: Key, nonce: seq<byte>, ct: SealedSender): Result<Pub, LockboxError> {
    if ct.SenderBox? && ct.key == key && ct.nonce == nonce then Ok(ct.sender) else Err(DecryptFailed)
  }

  function OpenV1(me: Pub, eph: Pub, nonce: seq<byte>,
        ct: SealedPayload): Result<(Payload, Option<Pub>), LockboxError> {
    match OpenPayload(BoxAnon(DhOut(me, eph)), nonce, ct)
    case Err(x) => Err(x)
    case Ok(payload) => Ok((payload, None))
  }

  function OpenV2(me: Pub, env: Envelope): Result<(Payload, Option<Pub>), LockboxError>
    requires env.AuthBox?
  {
    var es := DhOut(me, env.eph);
    match OpenSender(BoxEs(es), env.nonce0, env.encS)
    case Err(x) => Err(x)
    case Ok(sender) =>
      match OpenPayload(BoxEss(es, DhOut(me, sender)), env.nonce1, env.encMsg)
      case Err(x) => Err(x)
      case Ok(payload) => Ok((payload, Some(sender)))
  }

  function OpenAuthenticated(me: Pub, env: Envelope): Result<(Payload, Option<Pub>), LockboxError> {
    match env
    case NotALockbox => Err(InvalidLockbox)
    case AnonBox(eph, nonce, ct) => OpenV1(me, eph, nonce, ct)
    case AuthBox(_, _, _, _, _) => OpenV2(me, env)
  }

  /** An authenticated envelope opens for its recipient alone, and names its true sender. */
  lemma OpensForRecipientOnly(me: Pub, sender: Pub, recipient: Pub, eph: Pub, nonce0: seq<byte>, nonce1: seq<byte>,
        payload: Payload)
    ensures OpenAuthenticated(me, SealAuthenticated(sender, recipient, eph, nonce0, nonce1, payload)) ==
            if me == recipient then Ok((payload, Some(sender))) else Err(DecryptFailed)
  {
    DhSymmetric(me, eph);
    DhSymmetric(me, sender);
    if DhOut(me, eph) == DhOut(eph, recipient) {
      DhPeerUnique(eph, me, recipient);
    }
  }

  lemma AnonymousRoundTrip(me: Pub, recipient: Pub, eph: Pub, nonce: seq<byte>, payload: Payload)
    ensures OpenAuthenticated(me, Seal(recipient, eph, nonce, payload)) ==
            if me == recipient then Ok((payload, None)) else Err(DecryptFailed)
  {
    DhSymmetric(me, eph);
    if DhOut(me, eph) == DhOut(eph, recipient) {
      DhPeerUnique(eph, me, recipient);
    }
  }

  /**
   * Whoever sealed an envelope that opens as coming from `sender` computed its key,
   * and that takes the private key of `sender` or of the recipient.
   */
  lemma SenderIsProved(me: Pub, env: Envelope, payload: Payload, sender: Pub, secrets: set<Pub>, trace: seq<Key>)
    requires OpenAuthenticated(me, env) == Ok((payload, Some(sender)))
    requires Computes({}, secrets, trace) && env.encMsg.key in trace
    ensures me in secrets || sender in secrets
  {
    ComputedIsDerivable({}, secrets, trace, env.encMsg.key);
  }

  /** A box opens as an authenticated payload of `sender` exactly when it is what `sender` seals to `me`. */
  lemma OpensExactlyAuthenticated(me: Pub, env: Envelope, payload: Payload, sender: Pub)
    ensures OpenAuthenticated(me, env) == Ok((payload, Some(sender))) <==>
            env.AuthBox? && env == SealAuthenticated(sender, me, env.eph, env.nonce0, env.nonce1, payload)
  {
    if env.AuthBox? {
      DhSymmetric(me, env.eph);
      DhSymmetric(me, sender);
    }
  }

  /** And as an anonymous one exactly when it is what anybody seals to `me`. */
  lemma OpensExactlyAnonymous(me: Pub, env: Envelope, payload: Payload)
    ensures OpenAuthenticated(me, env) == Ok((payload, None)) <==>
            env.AnonBox? && env == Seal(me, env.eph, env.nonce, payload)
  {
    if env.AnonBox? {
      DhSymmetric(me, env.eph);
    }
  }

  /** Every part of a box is sealed with the nonce that travels beside it. */
  lemma SealsWithDrawnNonces(sender: Pub, recipient: Pub, eph: Pub, nonce0: seq<byte>, nonce1: seq<byte>,
        payload: Payload)
    ensures var anon := Seal(recipient, eph, nonce0, payload);
            anon.AnonBox? && anon.nonce == nonce0 && anon.ct.PayloadBox? && anon.ct.nonce == nonce0
    ensures var auth := SealAuthenticated(sender, recipient, eph, nonce0, nonce1, payload);
            && auth.AuthBox? && auth.nonce0 == nonce0 && auth.nonce1 == nonce1
            && auth.encS.SenderBox? && auth.encS.nonce == nonce0
            && auth.encMsg.PayloadBox? && auth.encMsg.nonce == nonce1
  {
  }
}
