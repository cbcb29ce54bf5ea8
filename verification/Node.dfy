/**
 * One node: its session store, what it does with an incoming frame, and how it sends
 * (crates/darqual-tor/src/main.rs, crates/darqual-core/src/session.rs). The store is
 * a map from peer to session state; the class in NodeStore.dfy keeps it in place.
 */
module Node {
  import opened Bytes
  import opened Wrappers
  import opened Crypto
  import opened Session
  import opened Lockbox
  import Protocol

  type Files = map<Pub, State>

  datatype Body = NotUtf8 | Text(env: Envelope)

  datatype Frame =
    | EmptyFrame
    | BootstrapFrame(body: Body)
    | SessionFrame(payload: Payload)
    | UnknownFrame(version: byte)

  /** A message shown to the user: which session accepted it, and the plaintext. */
  type Shown = Option<(Pub, seq<byte>)>

  function SecretWith(me: Pub, peer: Pub): Key {
    DhOut(me, peer)
  }

  function LoadOrInitInitiator(me: Pub, files: Files, peer: Pub, newKey: Pub): State {
    if peer in files then files[peer] else InitInitiator(SecretWith(me, peer), newKey, peer)
  }

  function LoadOrInitResponder(me: Pub, files: Files, sender: Pub): State {
    if sender in files then files[sender] else InitResponder(SecretWith(me, sender), me)
  }

  /** Decrypt with one session and save it on success only. */
  function TrySession(files: Files, peer: Pub, s: State, rm: RatchetMessage, newKey: Pub): (Shown, Files) {
    match Decrypt(s, rm, newKey)
    case (Ok(pt), t) => (Some((peer, pt)), files[peer := t])
    case (Err(_), _) => (None, files)
  }

  function OnBootstrap(me: Pub, files: Files, body: Body, newKey: Pub): (Shown, Files) {
    match body
    case NotUtf8 => (None, files)
    case Text(env) =>
      match OpenAuthenticated(me, env)
      case Ok((Carries(rm), Some(sender))) =>
        TrySession(files, sender, LoadOrInitResponder(me, files, sender), rm, newKey)
      case _ => (None, files)
  }

  /** Try the sessions one after the other, in the order the directory lists them. */
  function TryInOrder(files: Files, order: seq<Pub>, rm: RatchetMessage, newKey: Pub): (Shown, Files) {
    if |order| == 0 then (None, files)
    else if order[0] in files && Decrypt(files[order[0]], rm, newKey).0.Ok? then
      TrySession(files, order[0], files[order[0]], rm, newKey)
    else TryInOrder(files, order[1..], rm, newKey)
  }

  function OnFrame(me: Pub, files: Files, order: seq<Pub>, frame: Frame, newKey: Pub): (Shown, Files) {
    match frame
    case BootstrapFrame(body) => OnBootstrap(me, files, body, newKey)
    case SessionFrame(Carries(rm)) => TryInOrder(files, order, rm, newKey)
    case _ => (None, files)
  }

  /** Randomness one send draws. */
  datatype Draw = Draw(newKey: Pub, nonce: seq<byte>, eph: Pub, nonce0: seq<byte>, nonce1: seq<byte>)

  function SendTo(me: Pub, files: Files, peer: Pub, pt: seq<byte>, draw: Draw): (Result<Frame, Error>, Files) {
    var s := LoadOrInitInitiator(me, files, peer, draw.newKey);
    var bootstrap := peer !in files || !ReceivedFromPeer(s);
    match Encrypt(s, pt, draw.nonce)
    case (Err(x), _) => (Err(x), files)
    case (Ok(rm), t) =>
      (Ok(if bootstrap
          then BootstrapFrame(Text(SealAuthenticated(me, peer, draw.eph, draw.nonce0, draw.nonce1, Carries(rm))))
          else SessionFrame(Carries(rm))),
       files[peer := t])
  }

  // ── Every key of a session belongs to its peer ─────────────────────────────

  ghost predicate RootedAt(sk: Key, k: Option<Key>) {
    k.Some? ==> Root(k.value) == sk
  }

  /** Every key the session encrypts, decrypts or files headers with stems from `sk`. */
  ghost predicate Rooted(sk: Key, s: State) {
    && Root(s.rk) == sk && Root(s.nhks) == sk && Root(s.nhkr) == sk
    && RootedAt(sk, s.cks) && RootedAt(sk, s.ckr) && RootedAt(sk, s.hks) && RootedAt(sk, s.hkr)
    && forall k :: k in s.skipped ==> Root(k.0) == sk
  }

  ghost predicate StoreRooted(me: Pub, files: Files) {
    forall p :: p in files ==> Rooted(SecretWith(me, p), files[p])
  }

  lemma SkipOneRooted(sk: Key, s: State)
    requires Rooted(sk, s) && s.ckr.Some? && s.hkr.Some? && s.nr + 1 < U32_LIMIT
    ensures Rooted(sk, SkipOne(s))
  {
    EvictShrinks(s.skipped[(s.hkr.value, s.nr) := Mk(s.ckr.value)], s.skippedOrder + [(s.hkr.value, s.nr)]);
  }

  lemma {:induction false} SkipToRooted(sk: Key, s: State, until: u32)
    requires Rooted(sk, s) && s.ckr.Some? && s.hkr.Some?
    ensures Rooted(sk, SkipTo(s, until)) && SkipTo(s, until).rk == s.rk
    decreases until - s.nr
  {
    hide Rooted, SkipOne;
    if s.nr < until {
      SkipOneRooted(sk, s);
      SkipOneHolds(s);
      SkipToRooted(sk, SkipOne(s), until);
    }
  }

  lemma SkipOneHolds(s: State)
    requires s.ckr.Some? && s.hkr.Some? && s.nr + 1 < U32_LIMIT
    ensures var t := SkipOne(s); t.ckr.Some? && t.hkr == s.hkr && t.nr == s.nr + 1 && t.rk == s.rk
  {
    hide Evict;
  }

  lemma SkipMessageKeysRooted(sk: Key, s: State, until: u32)
    requires Rooted(sk, s) && SkipMessageKeys(s, until).Ok?
    ensures Rooted(sk, SkipMessageKeys(s, until).value) && SkipMessageKeys(s, until).value.rk == s.rk
  {
    hide Rooted, SkipTo;
    if s.ckr.Some? {
      SkipToRooted(sk, s, until);
    }
  }

  lemma DhRatchetRooted(sk: Key, s: State, h: Header, newKey: Pub)
    requires Rooted(sk, s)
    ensures Rooted(sk, DhRatchet(s, h, newKey))
    ensures RkDepth(DhRatchet(s, h, newKey).rk) == RkDepth(s.rk) + 2
  {
  }

  lemma PrepareRooted(sk: Key, s: State, h: Header, ratchet: bool, newKey: Pub)
    requires Rooted(sk, s) && Prepare(s, h, ratchet, newKey).Ok?
    ensures Rooted(sk, Prepare(s, h, ratchet, newKey).value)
    ensures RkDepth(Prepare(s, h, ratchet, newKey).value.rk) == RkDepth(s.rk) + if ratchet then 2 else 0
  {
    hide Rooted, SkipMessageKeys, DhRatchet;
    if ratchet {
      SkipMessageKeysRooted(sk, s, h.pn);
      var t := SkipMessageKeys(s, h.pn).value;
      DhRatchetRooted(sk, t, h, newKey);
      SkipMessageKeysRooted(sk, DhRatchet(t, h, newKey), h.n);
    } else {
      SkipMessageKeysRooted(sk, s, h.n);
    }
  }

  /** Whatever arrives, a session's keys keep to its peer and its root never goes back. */
  lemma DecryptRooted(sk: Key, s: State, msg: RatchetMessage, newKey: Pub)
    requires Rooted(sk, s)
    ensures Rooted(sk, Decrypt(s, msg, newKey).1)
    ensures RkDepth(s.rk) <= RkDepth(Decrypt(s, msg, newKey).1.rk)
  {
    hide Prepare, DecryptHeader, OpenMessage, SkippedHit, RemoveFirst;
    var found := DecryptHeader(s, msg.encHeader);
    if SkippedHit(s, msg.encHeader).None? && found.Some? {
      var (h, ratchet) := found.value;
      if Prepare(s, h, ratchet, newKey).Ok? {
        PrepareRooted(sk, s, h, ratchet, newKey);
      }
    }
  }

  lemma EncryptRooted(sk: Key, s: State, pt: seq<byte>, nonce: seq<byte>)
    requires Rooted(sk, s)
    ensures Rooted(sk, Encrypt(s, pt, nonce).1) && Encrypt(s, pt, nonce).1.rk == s.rk
  {
    hide Henc;
  }

  lemma InitRooted(me: Pub, peer: Pub, newKey: Pub)
    ensures Rooted(SecretWith(me, peer), InitInitiator(SecretWith(me, peer), newKey, peer))
    ensures Rooted(SecretWith(me, peer), InitResponder(SecretWith(me, peer), me))
  {
  }

  /** A session accepts only headers sealed in its own conversation. */
  lemma AcceptsOwnRoot(sk: Key, s: State, msg: RatchetMessage, newKey: Pub)
    requires Rooted(sk, s) && Decrypt(s, msg, newKey).0.Ok?
    ensures msg.encHeader.HeaderBox? && Root(msg.encHeader.hk) == sk
  {
    hide Prepare, OpenMessage, ParseHeader;
  }

  /** No two sessions of a store accept the same message. */
  lemma AtMostOneAccepts(me: Pub, files: Files, p: Pub, q: Pub, rm: RatchetMessage, k1: Pub, k2: Pub)
    requires StoreRooted(me, files) && p in files && q in files
    requires Decrypt(files[p], rm, k1).0.Ok? && Decrypt(files[q], rm, k2).0.Ok?
    ensures p == q
  {
    hide Decrypt, Rooted;
    AcceptsOwnRoot(SecretWith(me, p), files[p], rm, k1);
    AcceptsOwnRoot(SecretWith(me, q), files[q], rm, k2);
    DhPeerUnique(me, p, q);
  }

  /** The session that accepts is the one found, wherever the listing puts it. */
  lemma {:induction false} TryInOrderFinds(me: Pub, files: Files, order: seq<Pub>, rm: RatchetMessage, newKey: Pub)
    requires StoreRooted(me, files)
    ensures (forall p :: p in order && p in files ==> Decrypt(files[p], rm, newKey).0.Err?) ==>
              TryInOrder(files, order, rm, newKey) == (None, files)
    ensures forall p :: p in order && p in files && Decrypt(files[p], rm, newKey).0.Ok? ==>
              TryInOrder(files, order, rm, newKey) == TrySession(files, p, files[p], rm, newKey)
  {
    hide Decrypt, Rooted, TrySession;
    if |order| > 0 {
      assert order == [order[0]] + order[1..];
      TryInOrderFinds(me, files, order[1..], rm, newKey);
      forall p | p in order && p in files && Decrypt(files[p], rm, newKey).0.Ok?
        ensures TryInOrder(files, order, rm, newKey) == TrySession(files, p, files[p], rm, newKey)
      {
        if order[0] in files && Decrypt(files[order[0]], rm, newKey).0.Ok? {
          AtMostOneAccepts(me, files, p, order[0], rm, newKey, newKey);
        }
      }
    }
  }

  /** The outcome of a session frame does not depend on the order of the listing. */
  lemma OrderIsIrrelevant(me: Pub, files: Files, order1: seq<Pub>, order2: seq<Pub>, rm: RatchetMessage, newKey: Pub)
    requires StoreRooted(me, files)
    requires forall p :: p in order1 <==> p in order2
    ensures TryInOrder(files, order1, rm, newKey) == TryInOrder(files, order2, rm, newKey)
  {
    hide Decrypt, StoreRooted, TryInOrder, TrySession;
    TryInOrderFinds(me, files, order1, rm, newKey);
    TryInOrderFinds(me, files, order2, rm, newKey);
  }

  // ── One frame, one session ─────────────────────────────────────────────────

  /** The ratchet message a node finds in a frame, if any. */
  function Inside(me: Pub, frame: Frame): Option<RatchetMessage> {
    match frame
    case SessionFrame(Carries(rm)) => Some(rm)
    case BootstrapFrame(Text(env)) =>
      (match OpenAuthenticated(me, env)
       case Ok((Carries(rm), Some(_))) => Some(rm)
       case _ => None)
    case _ => None
  }

  /** The session a frame's message from `p` is tried on. */
  function Answering(me: Pub, files: Files, p: Pub, frame: Frame): State {
    if frame.BootstrapFrame? then LoadOrInitResponder(me, files, p)
    else if p in files then files[p]
    else InitResponder(SecretWith(me, p), me)
  }

  /** A frame that shows nothing leaves the store alone; one that shows `pt` from `p` saves `p`'s session only. */
  ghost predicate Transaction(me: Pub, files: Files, frame: Frame, newKey: Pub, shown: Shown, files': Files) {
    match shown
    case None => files' == files
    case Some((p, pt)) =>
      && (frame.SessionFrame? ==> p in files)
      && Inside(me, frame).Some?
      && var (r, t) := Decrypt(Answering(me, files, p, frame), Inside(me, frame).value, newKey);
         r == Ok(pt) && files' == files[p := t]
  }

  lemma {:induction false} TryInOrderTransaction(me: Pub, files: Files, order: seq<Pub>, rm: RatchetMessage,
        newKey: Pub)
    ensures var (shown, files') := TryInOrder(files, order, rm, newKey);
            Transaction(me, files, SessionFrame(Carries(rm)), newKey, shown, files')
  {
    hide Decrypt, InitResponder;
    if |order| > 0 {
      TryInOrderTransaction(me, files, order[1..], rm, newKey);
    }
  }

  /** A failing frame leaves every saved session untouched, a successful one updates exactly one. */
  lemma FrameTransaction(me: Pub, files: Files, order: seq<Pub>, frame: Frame, newKey: Pub)
    ensures var (shown, files') := OnFrame(me, files, order, frame, newKey);
            Transaction(me, files, frame, newKey, shown, files')
  {
    hide Decrypt, InitResponder, TryInOrder, OpenAuthenticated, Transaction;
    match frame {
      case BootstrapFrame(Text(env)) => BootstrapTransaction(me, files, env, newKey);
      case SessionFrame(Carries(rm)) => TryInOrderTransaction(me, files, order, rm, newKey);
      case _ => NothingIsTransaction(me, files, frame, newKey);
    }
  }

  lemma NothingIsTransaction(me: Pub, files: Files, frame: Frame, newKey: Pub)
    ensures Transaction(me, files, frame, newKey, None, files)
  {
  }

  lemma BootstrapTransaction(me: Pub, files: Files, env: Envelope, newKey: Pub)
    ensures var (shown, files') := OnBootstrap(me, files, Text(env), newKey);
            Transaction(me, files, BootstrapFrame(Text(env)), newKey, shown, files')
  {
    hide Decrypt, InitResponder, OpenAuthenticated;
  }

  /** No frame drops a session or takes one back to an earlier root key. */
  lemma NeverReset(me: Pub, files: Files, order: seq<Pub>, frame: Frame, newKey: Pub, p: Pub)
    requires StoreRooted(me, files) && p in files
    ensures var files' := OnFrame(me, files, order, frame, newKey).1;
            p in files' && RkDepth(files[p].rk) <= RkDepth(files'[p].rk)
  {
    hide Decrypt, InitResponder, OnFrame, Inside, Rooted, RkDepth;
    FrameTransaction(me, files, order, frame, newKey);
    if Inside(me, frame).Some? {
      DecryptRooted(SecretWith(me, p), files[p], Inside(me, frame).value, newKey);
    }
  }

  // ── Which frames reach a session ───────────────────────────────────────────

  /** A bootstrap frame for `me` is tried on the session of whoever sealed it. */
  lemma BootstrapReachesSender(me: Pub, files: Files, order: seq<Pub>, sender: Pub, eph: Pub, n0: seq<byte>,
                               n1: seq<byte>, rm: RatchetMessage, newKey: Pub)
    ensures var s := if sender in files then files[sender] else InitResponder(SecretWith(me, sender), me);
            OnFrame(me, files, order, BootstrapFrame(Text(SealAuthenticated(sender, me, eph, n0, n1,
                  Carries(rm)))), newKey) ==
            match Decrypt(s, rm, newKey)
            case (Ok(pt), t) => (Some((sender, pt)), files[sender := t])
            case (Err(_), _) => (None, files)
  {
    hide Decrypt, OpenAuthenticated, InitResponder;
    OpensForRecipientOnly(me, sender, me, eph, n0, n1, Carries(rm));
  }

  /** Everything else is dropped and changes nothing. */
  lemma OtherFramesDropped(me: Pub, files: Files, order: seq<Pub>, newKey: Pub, version: byte, raw: seq<byte>,
                           other: Pub, sender: Pub, eph: Pub, n0: seq<byte>, n1: seq<byte>, rm: RatchetMessage)
    ensures OnFrame(me, files, order, EmptyFrame, newKey) == (None, files)
    ensures OnFrame(me, files, order, UnknownFrame(version), newKey) == (None, files)
    ensures OnFrame(me, files, order, SessionFrame(Garbage(raw)), newKey) == (None, files)
    ensures OnFrame(me, files, order, BootstrapFrame(NotUtf8), newKey) == (None, files)
    ensures OnFrame(me, files, order, BootstrapFrame(Text(NotALockbox)), newKey) == (None, files)
    ensures OnFrame(me, files, order, BootstrapFrame(Text(Seal(me, eph, n0, Carries(rm)))), newKey) == (None, files)
    ensures OnFrame(me, files, order, BootstrapFrame(Text(SealAuthenticated(sender, me, eph, n0, n1,
          Garbage(raw)))), newKey)
            == (None, files)
    ensures other != me ==>
              OnFrame(me, files, order, BootstrapFrame(Text(SealAuthenticated(sender, other, eph, n0, n1,
                    Carries(rm)))), newKey)
              == (None, files)
  {
    hide OpenAuthenticated, TrySession;
    AnonymousRoundTrip(me, me, eph, n0, Carries(rm));
    OpensForRecipientOnly(me, sender, me, eph, n0, n1, Garbage(raw));
    OpensForRecipientOnly(me, sender, other, eph, n0, n1, Carries(rm));
    assert OpenAuthenticated(me, NotALockbox) == Err(InvalidLockbox) by {
      NotALockboxFails(me);
    }
  }

  lemma NotALockboxFails(me: Pub)
    ensures OpenAuthenticated(me, NotALockbox) == Err(InvalidLockbox)
  {
  }

  /** What any node sends to any peer, and what it saves. */
  lemma SendsExactly(me: Pub, files: Files, peer: Pub, pt: seq<byte>, draw: Draw)
    ensures var s := if peer in files then files[peer] else InitInitiator(DhOut(me, peer), draw.newKey, peer);
            var (r, t) := Encrypt(s, pt, draw.nonce);
            var (f, files') := SendTo(me, files, peer, pt, draw);
            match r
            case Err(x) => f == Err(x) && files' == files
            case Ok(rm) =>
              && files' == files[peer := t]
              && f == Ok(if peer in files && s.ckr.Some? then SessionFrame(Carries(rm))
                         else BootstrapFrame(Text(SealAuthenticated(me, peer, draw.eph, draw.nonce0, draw.nonce1,
                               Carries(rm)))))
  {
    hide Encrypt, InitInitiator, SealAuthenticated;
  }
}
