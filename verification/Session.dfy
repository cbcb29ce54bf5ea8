/**
 * The state of one Double Ratchet session as a value, and every operation of
 * crates/darqual-core/src/ratchet.rs as a function on it. The class in Ratchet.dfy
 * works in place and is proved to compute these functions.
 */
module Session {
  import opened Bytes
  import opened Wrappers
  import opened Crypto
  import Padding

  const MAX_SKIP: nat := 1000
  const MAX_SKIP_STORE: nat := 2000

  /** A stored message key is filed under its chain's header key and its number. */
  type SkippedKey = (Key, u32)

  datatype Error =
    | NoSendingChain
    | NoSendingHeaderKey
    | UnknownHeaderKey
    | TooManySkips(demanded: nat)
    | SkipWithoutHkr
    | NoReceivingChain
    | DecryptFailed
    | MalformedPadding

  datatype State = State(
    rk: Key,
    dhsSecret: Pub,
    dhsPub: Pub,
    dhr: Option<Pub>,
    cks: Option<Key>,
    ckr: Option<Key>,
    ns: u32,
    nr: u32,
    pn: u32,
    hks: Option<Key>,
    hkr: Option<Key>,
    nhks: Key,
    nhkr: Key,
    skipped: map<SkippedKey, Key>,
    skippedOrder: seq<SkippedKey>)

  function InitInitiator(sk: Key, newKey: Pub, them: Pub): State {
    var dh := DhOut(newKey, them);
    State(RkNext(sk, dh), newKey, newKey, Some(them), Some(CkOf(sk, dh)), None, 0, 0, 0,
          Some(SharedHka(sk)), None, NhkOf(sk, dh), SharedNhkb(sk), map[], [])
  }

  function InitResponder(sk: Key, me: Pub): State {
    State(sk, me, me, None, None, None, 0, 0, 0,
          None, None, SharedNhkb(sk), SharedHka(sk), map[], [])
  }

  // ── Sending ────────────────────────────────────────────────────────────────

  function Encrypt(s: State, pt: seq<byte>, nonce: seq<byte>): (Result<RatchetMessage, Error>, State) {
    if s.cks.None? then (Err(NoSendingChain), s)
    else if s.hks.None? then (Err(NoSendingHeaderKey), s)
    else
      var enc := Henc(s.hks.value, nonce, Header(s.dhsPub, s.pn, s.ns));
      var ct := MsgBox(Mk(s.cks.value), enc, Padding.Padded(pt));
      (Ok(RatchetMessage(enc, ct)), s.(cks := Some(CkNext(s.cks.value)), ns := BumpU32(s.ns)))
  }

  // ── The skipped-key store ──────────────────────────────────────────────────

  /** `VecDeque::remove` at the first position of `key`, if it is there. */
  function RemoveFirst(order: seq<SkippedKey>, key: SkippedKey): seq<SkippedKey> {
    if |order| == 0 then []
    else if order[0] == key then order[1..]
    else [order[0]] + RemoveFirst(order[1..], key)
  }

  /** Drop the oldest entries until at most MAX_SKIP_STORE are left. */
  function Evict(skipped: map<SkippedKey, Key>, order: seq<SkippedKey>): (map<SkippedKey, Key>, seq<SkippedKey>)
    decreases |order|
  {
    if |order| <= MAX_SKIP_STORE then (skipped, order)
    else Evict(skipped - {order[0]}, order[1..])
  }

  lemma {:induction false} EvictShrinks(skipped: map<SkippedKey, Key>, order: seq<SkippedKey>)
    ensures forall k :: k in Evict(skipped, order).0 ==> k in skipped
    decreases |order|
  {
    if |order| > MAX_SKIP_STORE {
      EvictShrinks(skipped - {order[0]}, order[1..]);
    }
  }

  /** One turn of the skipping loop: store the current message key, evict, move on. */
  function SkipOne(s: State): State
    requires s.ckr.Some? && s.hkr.Some? && s.nr + 1 < U32_LIMIT
  {
    var key := (s.hkr.value, s.nr);
    var (kept, order) := Evict(s.skipped[key := Mk(s.ckr.value)], s.skippedOrder + [key]);
    s.(skipped := kept, skippedOrder := order, ckr := Some(CkNext(s.ckr.value)), nr := s.nr + 1)
  }

  function SkipTo(s: State, until: u32): (r: State)
    requires s.ckr.Some? && s.hkr.Some?
    ensures r.ckr.Some? && r.hkr == s.hkr && r.nr == if s.nr < until then until else s.nr
    decreases until - s.nr
  {
    if s.nr >= until then s else SkipTo(SkipOne(s), until)
  }

  function SkipMessageKeys(s: State, until: u32): Result<State, Error> {
    if s.ckr.None? then Ok(s)
    else if until > s.nr && until - s.nr > MAX_SKIP then Err(TooManySkips(until - s.nr))
    else if s.hkr.None? then Err(SkipWithoutHkr)
    else Ok(SkipTo(s, until))
  }

  // ── Receiving ──────────────────────────────────────────────────────────────

  function OpenReceivingChain(s: State, h: Header): State {
    var dh := DhOut(s.dhsSecret, h.dhPub);
    s.(pn := s.ns, ns := 0, nr := 0,
       hks := Some(s.nhks), hkr := Some(s.nhkr), dhr := Some(h.dhPub),
       rk := RkNext(s.rk, dh), ckr := Some(CkOf(s.rk, dh)), nhkr := NhkOf(s.rk, dh))
  }

  function OpenSendingChain(s: State, h: Header, newKey: Pub): State {
    var dh := DhOut(newKey, h.dhPub);
    s.(dhsSecret := newKey, dhsPub := newKey,
       rk := RkNext(s.rk, dh), cks := Some(CkOf(s.rk, dh)), nhks := NhkOf(s.rk, dh))
  }

  function DhRatchet(s: State, h: Header, newKey: Pub): State {
    OpenSendingChain(OpenReceivingChain(s, h), h, newKey)
  }

  function DecryptHeader(s: State, enc: EncHeader): Option<(Header, bool)> {
    if s.hkr.Some? && Hdec(s.hkr.value, enc).Some? then Some((Hdec(s.hkr.value, enc).value, false))
    else if Hdec(s.nhkr, enc).Some? then Some((Hdec(s.nhkr, enc).value, true))
    else None
  }

  /** The stored key whose header key opens the header and whose number the header names. */
  function SkippedHit(s: State, enc: EncHeader): Option<SkippedKey> {
    if !enc.HeaderBox? then None
    else
      var h := ParseHeader(enc.plain);
      if h.Some? && (enc.hk, h.value.n) in s.skipped then Some((enc.hk, h.value.n)) else None
  }

  function Forget(s: State, key: SkippedKey): State {
    s.(skipped := s.skipped - {key}, skippedOrder := RemoveFirst(s.skippedOrder, key))
  }

  function OpenMessage(mk: Key, msg: RatchetMessage): Result<seq<byte>, Error> {
    var padded := AeadOpen(mk, msg.ciphertext, msg.encHeader);
    if padded.None? then Err(DecryptFailed)
    else
      match Padding.Unpadded(padded.value)
      case Ok(pt) => Ok(pt)
      case Err(_) => Err(MalformedPadding)
  }

  /** Everything `decrypt` does to the trial copy before the message key is used. */
  function Prepare(s: State, h: Header, ratchet: bool, newKey: Pub): Result<State, Error> {
    if ratchet then
      match SkipMessageKeys(s, h.pn)
      case Err(e) => Err(e)
      case Ok(t) => SkipMessageKeys(DhRatchet(t, h, newKey), h.n)
    else
      SkipMessageKeys(s, h.n)
  }

  /** The trial copy after one message key was used on the receiving chain. */
  function Advance(s: State): State
    requires s.ckr.Some?
  {
    s.(ckr := Some(CkNext(s.ckr.value)), nr := BumpU32(s.nr))
  }

  function Decrypt(s: State, msg: RatchetMessage, newKey: Pub): (Result<seq<byte>, Error>, State) {
    match SkippedHit(s, msg.encHeader)
    case Some(key) => (OpenMessage(s.skipped[key], msg), Forget(s, key))
    case None => DecryptAhead(s, msg, newKey)
  }

  function DecryptAhead(s: State, msg: RatchetMessage, newKey: Pub): (Result<seq<byte>, Error>, State) {
    match DecryptHeader(s, msg.encHeader)
    case None => (Err(UnknownHeaderKey), s)
    case Some((h, ratchet)) =>
      match Prepare(s, h, ratchet, newKey)
      case Err(e) => (Err(e), s)
      case Ok(t) =>
        if t.ckr.None? then (Err(NoReceivingChain), s)
        else
          match OpenMessage(Mk(t.ckr.value), msg)
          case Err(e) => (Err(e), s)
          case Ok(pt) => (Ok(pt), Advance(t))
  }

  function ReceivedFromPeer(s: State): bool {
    s.ckr.Some?
  }
}
