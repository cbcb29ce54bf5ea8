/** What `decrypt` does with anything the network can hand it, case by case. */
module Receiving {
  import opened Bytes
  import opened Wrappers
  import opened Crypto
  import opened Session
  import opened Chains
  import opened Protocol
  import opened Invariant
  import Padding

  ghost predicate Stored(sk: Key, e: Ephemerals, s: State, id: MsgId) {
    id.chain >= 1 && id.n < U32_LIMIT && KeyFor(sk, e, id) in s.skipped
  }

  /** Ahead of the receiver, with no gap longer than MAX_SKIP on the way. */
  ghost predicate WithinReach(sent: Log, s: State, id: MsgId) {
    var p := Pos(s);
    && WasSent(sent, id)
    && ((p >= 2 && id.chain == p - 1 && s.nr <= id.n <= s.nr + MAX_SKIP) ||
        (id.chain == p + 1 && id.n <= MAX_SKIP &&
         (p >= 2 && p <= |sent| ==> |sent[p - 1]| <= s.nr + MAX_SKIP)))
  }

  function MessageOf(sent: Log, id: MsgId): RatchetMessage
    requires id.chain < |sent| && id.n < |sent[id.chain]|
  {
    sent[id.chain][id.n].msg
  }

  function HeaderOf(e: Ephemerals, sent: Log, id: MsgId): Header
    requires id.chain < |sent| && id.n < U32_LIMIT && PrevLen(sent, id.chain) < U32_LIMIT
  {
    Header(e(id.chain), PrevLen(sent, id.chain), id.n)
  }

  /** What was sent can be delivered. */
  lemma LoggedIsObtainable(sk: Key, sent: Log, id: MsgId)
    requires WasSent(sent, id)
    ensures Obtainable(sk, sent, MessageOf(sent, id))
  {
  }

  /** A genuine header opens under its own chain's key only, and says which message it is. */
  lemma GenuineHeader(sk: Key, e: Ephemerals, sent: Log, id: MsgId)
    requires sk.Dh? && LogInv(sk, e, sent) && WasSent(sent, id)
    ensures id.chain >= 1 && id.n < U32_LIMIT && PrevLen(sent, id.chain) < U32_LIMIT
    ensures var enc := MessageOf(sent, id).encHeader;
            && enc.HeaderBox? && enc.hk == Hk(sk, e, id.chain)
            && ParseHeader(enc.plain) == Some(HeaderOf(e, sent, id))
            && IdOf(enc) == id
            && MessageOf(sent, id).ciphertext ==
               MsgBox(MessageKey(sk, e, id.chain, id.n), enc, Padding.Padded(sent[id.chain][id.n].pt))
            && |sent[id.chain][id.n].pt| < U32_LIMIT
  {
    assert Sealed(sk, e, id.chain, PrevLen(sent, id.chain), id.n, sent[id.chain][id.n]);
    HeaderRoundTrip(HeaderOf(e, sent, id));
    HkFacts(sk, e, id.chain);
  }

  /** Under the message key of (i, n), a genuine header accepts its own ciphertext and no other. */
  lemma OpensOnlyItself(sk: Key, e: Ephemerals, sent: Log, id: MsgId, i: nat, n: nat, msg: RatchetMessage)
    requires sk.Dh? && LogInv(sk, e, sent) && WasSent(sent, id) && i >= 1
    requires msg.encHeader == MessageOf(sent, id).encHeader && CiphertextObtainable(sk, sent, msg.ciphertext)
    ensures OpenMessage(MessageKey(sk, e, i, n), msg) ==
            if id == MsgId(i, n) && msg == MessageOf(sent, id) then Ok(sent[id.chain][id.n].pt) else Err(DecryptFailed)
  {
    GenuineHeader(sk, e, sent, id);
    Padding.PadRoundTrip(sent[id.chain][id.n].pt);
    var ct, mk := msg.ciphertext, MessageKey(sk, e, i, n);
    MessageKeyInjective(sk, e, i, n, id.chain, id.n);
    if ct.MsgBox? && ct.mk == mk && ct.ad == msg.encHeader {
      CkFacts(sk, e, i, n);
      var from :| WasSent(sent, from) && MessageOf(sent, from).ciphertext == ct;
      GenuineHeader(sk, e, sent, from);
      MessageKeyInjective(sk, e, i, n, from.chain, from.n);
    }
  }

  /** The only stored key a genuine header can hit is its own. */
  lemma HitIsOwn(sk: Key, e: Ephemerals, sent: Log, s: State, id: MsgId)
    requires sk.Dh? && LogInv(sk, e, sent) && WasSent(sent, id)
    ensures id.chain >= 1 && id.n < U32_LIMIT
    ensures SkippedHit(s, MessageOf(sent, id).encHeader) ==
            if Stored(sk, e, s, id) then Some(KeyFor(sk, e, id)) else None
  {
    GenuineHeader(sk, e, sent, id);
  }

  /** A box sealed outside the conversation is rejected without a trace. */
  lemma ForeignRejected(sk: Key, e: Ephemerals, sent: Log, s: State, msg: RatchetMessage, newKey: Pub)
    requires sk.Dh? && KeysInSync(sk, e, s) && StoreInv(sk, e, sent, s)
    requires !(msg.encHeader.HeaderBox? && Root(msg.encHeader.hk) == sk)
    ensures Decrypt(s, msg, newKey) == (Err(UnknownHeaderKey), s)
  {
    var p := Pos(s);
    HkFacts(sk, e, p + 1);
    if p >= 2 {
      HkFacts(sk, e, p - 1);
    }
    var hit := SkippedHit(s, msg.encHeader);
    if hit.Some? {
      assert EntryInv(sk, e, sent, s, hit.value);
      HkFacts(sk, e, HeaderChain(hit.value.0));
    }
  }

  /** Which header key of a synchronised session opens a genuine header. */
  lemma HeaderTrial(sk: Key, e: Ephemerals, sent: Log, s: State, id: MsgId)
    requires sk.Dh? && LogInv(sk, e, sent) && WasSent(sent, id) && KeysInSync(sk, e, s)
    ensures id.chain >= 1 && id.n < U32_LIMIT && PrevLen(sent, id.chain) < U32_LIMIT
    ensures DecryptHeader(s, MessageOf(sent, id).encHeader) ==
            if Pos(s) >= 2 && id.chain == Pos(s) - 1 then Some((HeaderOf(e, sent, id), false))
            else if id.chain == Pos(s) + 1 then Some((HeaderOf(e, sent, id), true))
            else None
  {
    hide Rk, Ck, Hk, CkAfter, ParseHeader, HeaderBytes;
    var p := Pos(s);
    GenuineHeader(sk, e, sent, id);
    HkInjective(sk, e, id.chain, p + 1);
    if p >= 2 {
      HkInjective(sk, e, id.chain, p - 1);
    }
  }

  // ── Past the store ─────────────────────────────────────────────────────────

  ghost predicate Rejected(s: State, msg: RatchetMessage, newKey: Pub) {
    Decrypt(s, msg, newKey).0.Err? && Decrypt(s, msg, newKey).1 == s
  }

  /** With no stored key and an opened header, the trial copy and its next key decide. */
  lemma TrialDecides(s: State, msg: RatchetMessage, newKey: Pub, h: Header, ratchet: bool)
    requires SkippedHit(s, msg.encHeader).None? && DecryptHeader(s, msg.encHeader) == Some((h, ratchet))
    ensures Prepare(s, h, ratchet, newKey).Err? ==> Rejected(s, msg, newKey)
    ensures Prepare(s, h, ratchet, newKey).Ok? && Prepare(s, h, ratchet, newKey).value.ckr.Some? ==>
              var t := Prepare(s, h, ratchet, newKey).value;
              match OpenMessage(Mk(t.ckr.value), msg)
              case Ok(pt) => Decrypt(s, msg, newKey) == (Ok(pt), Advance(t))
              case Err(_) => Rejected(s, msg, newKey)
  {
  }

  /** The next key of a receiving chain is the schedule's. */
  lemma NextReceivingKey(sk: Key, e: Ephemerals, s: State)
    requires KeysInSync(sk, e, s) && s.ckr.Some?
    ensures Pos(s) >= 2 && s.hkr.Some? && Mk(s.ckr.value) == MessageKey(sk, e, Pos(s) - 1, s.nr)
  {
    hide Rk, Ck, Hk, CkAfter;
  }

  /** It still is after skipping. */
  lemma SkipReady(sk: Key, e: Ephemerals, sent: Log, s: State, inbox: seq<Delivery>, until: u32)
    requires sk.Dh? && LogInv(sk, e, sent) && PartyInv(sk, e, sent, s, inbox)
    requires s.ckr.Some? && until <= |sent[Pos(s) - 1]|
    ensures Pos(s) >= 2 && s.hkr.Some?
    ensures var t := SkipTo(s, until);
            Mk(t.ckr.value) == MessageKey(sk, e, Pos(s) - 1, if s.nr < until then until else s.nr)
  {
    hide LogInv, KeysInSync, StoreInv, InboxInv, CountersInSync, SkipTo, MessageKey;
    NextReceivingKey(sk, e, s);
    SkipPreserves(sk, e, sent, s, inbox, until);
    NextReceivingKey(sk, e, SkipTo(s, until));
  }

  lemma CurrentChainReady(sk: Key, e: Ephemerals, sent: Log, s: State, inbox: seq<Delivery>, id: MsgId,
        msg: RatchetMessage)
    requires sk.Dh? && LogInv(sk, e, sent) && PartyInv(sk, e, sent, s, inbox)
    requires WasSent(sent, id) && Pos(s) >= 2 && id.chain == Pos(s) - 1
    requires msg.encHeader == MessageOf(sent, id).encHeader && CiphertextObtainable(sk, sent, msg.ciphertext)
    ensures id.n < U32_LIMIT && s.ckr.Some? && s.hkr.Some?
    ensures OpenMessage(Mk(SkipTo(s, id.n).ckr.value), msg) ==
            if s.nr <= id.n && msg == MessageOf(sent, id) then Ok(sent[id.chain][id.n].pt) else Err(DecryptFailed)
  {
    SkipReady(sk, e, sent, s, inbox, id.n);
    OpensOnlyItself(sk, e, sent, id, id.chain, if s.nr < id.n then id.n else s.nr, msg);
  }

  /** A message of the current receiving chain. */
  lemma CurrentChain(sk: Key, e: Ephemerals, sent: Log, s: State, inbox: seq<Delivery>, id: MsgId,
        msg: RatchetMessage, newKey: Pub)
    requires sk.Dh? && LogInv(sk, e, sent) && PartyInv(sk, e, sent, s, inbox)
    requires WasSent(sent, id) && Pos(s) >= 2 && id.chain == Pos(s) - 1 && !Stored(sk, e, s, id)
    requires msg.encHeader == MessageOf(sent, id).encHeader && CiphertextObtainable(sk, sent, msg.ciphertext)
    ensures id.n < U32_LIMIT
    ensures if WithinReach(sent, s, id) && msg == MessageOf(sent, id)
            then Decrypt(s, msg, newKey) == (Ok(sent[id.chain][id.n].pt), Advance(SkipTo(s, id.n)))
            else Rejected(s, msg, newKey)
  {
    hide Decrypt, KeysInSync, StoreInv, InboxInv, LogInv, SkipTo;
    HitIsOwn(sk, e, sent, s, id);
    HeaderTrial(sk, e, sent, s, id);
    CurrentChainReady(sk, e, sent, s, inbox, id, msg);
    TrialDecides(s, msg, newKey, HeaderOf(e, sent, id), false);
  }

  // ── The first message of the peer's next chain ─────────────────────────────

  /** The session after the rest of its old receiving chain was skipped. */
  function CaughtUp(s: State, pn: u32): State {
    if s.ckr.Some? && s.hkr.Some? then SkipTo(s, pn) else s
  }

  /** The session after the root steps a header announces. */
  function Turned(e: Ephemerals, s: State, h: Header): State {
    DhRatchet(CaughtUp(s, h.pn), h, e(Pos(s) + 2))
  }

  ghost predicate GapOk(sent: Log, s: State)
    requires Pos(s) < |sent|
  {
    Pos(s) >= 2 ==> |sent[Pos(s) - 1]| <= s.nr + MAX_SKIP
  }

  lemma CaughtUpPreserves(sk: Key, e: Ephemerals, sent: Log, s: State, inbox: seq<Delivery>)
    requires sk.Dh? && LogInv(sk, e, sent) && PartyInv(sk, e, sent, s, inbox) && |sent| == Pos(s) + 2
    ensures PrevLen(sent, Pos(s) + 1) < U32_LIMIT
    ensures var t := CaughtUp(s, PrevLen(sent, Pos(s) + 1));
            PartyInv(sk, e, sent, t, inbox) && Pos(t) == Pos(s) && (Pos(s) >= 2 ==> t.nr == |sent[Pos(s) - 1]|)
  {
    hide Sealed, PartyInv, SkipTo;
    if Pos(s) >= 2 || s.ckr.Some? {
      HasReceivingChain(sk, e, sent, s, inbox);
      SkipPreserves(sk, e, sent, s, inbox, PrevLen(sent, Pos(s) + 1));
    }
  }

  lemma CatchingUpSucceeds(sk: Key, e: Ephemerals, sent: Log, s: State)
    requires LogInv(sk, e, sent) && KeysInSync(sk, e, s) && CountersInSync(sent, s) && |sent| == Pos(s) + 2
    ensures PrevLen(sent, Pos(s) + 1) < U32_LIMIT
    ensures var pn := PrevLen(sent, Pos(s) + 1);
            if GapOk(sent, s) then SkipMessageKeys(s, pn) == Ok(CaughtUp(s, pn)) else SkipMessageKeys(s, pn).Err?
  {
    var p := Pos(s);
    assert p >= 2 ==> PrevLen(sent, p + 1) == |sent[p - 1]|;
    assert s.ckr.Some? <==> p >= 2;
  }

  lemma TurnedPreserves(sk: Key, e: Ephemerals, sent: Log, s: State, inbox: seq<Delivery>, h: Header)
    requires sk.Dh? && LogInv(sk, e, sent) && PartyInv(sk, e, sent, s, inbox) && |sent| == Pos(s) + 2
    requires h.dhPub == e(Pos(s) + 1) && h.pn == PrevLen(sent, Pos(s) + 1)
    ensures LogInv(sk, e, sent + [[]]) && PartyInv(sk, e, sent + [[]], Turned(e, s, h), inbox)
    ensures Pos(Turned(e, s, h)) == Pos(s) + 2 && Turned(e, s, h).nr == 0
    ensures Turned(e, s, h).ckr.Some? && Turned(e, s, h).hkr.Some?
  {
    hide LogInv, PartyInv, CaughtUp;
    CaughtUpPreserves(sk, e, sent, s, inbox);
    RatchetPreserves(sk, e, sent, CaughtUp(s, h.pn), inbox, h);
    LogOpens(sk, e, sent);
  }

  /** The trial copy exists exactly when neither gap is too long. */
  lemma NextChainPrepares(sk: Key, e: Ephemerals, sent: Log, s: State, inbox: seq<Delivery>, h: Header)
    requires sk.Dh? && LogInv(sk, e, sent) && PartyInv(sk, e, sent, s, inbox) && |sent| == Pos(s) + 2
    requires h.dhPub == e(Pos(s) + 1) && h.pn == PrevLen(sent, Pos(s) + 1)
    ensures Turned(e, s, h).ckr.Some? && Turned(e, s, h).hkr.Some?
    ensures if GapOk(sent, s) && h.n <= MAX_SKIP
            then Prepare(s, h, true, e(Pos(s) + 2)) == Ok(SkipTo(Turned(e, s, h), h.n))
            else Prepare(s, h, true, e(Pos(s) + 2)).Err?
  {
    CatchingUpSucceeds(sk, e, sent, s);
    TurnedPreserves(sk, e, sent, s, inbox, h);
  }

  lemma NextChainKey(sk: Key, e: Ephemerals, sent: Log, s: State, inbox: seq<Delivery>, h: Header)
    requires sk.Dh? && LogInv(sk, e, sent) && PartyInv(sk, e, sent, s, inbox) && |sent| == Pos(s) + 2
    requires h.dhPub == e(Pos(s) + 1) && h.pn == PrevLen(sent, Pos(s) + 1) && h.n <= |sent[Pos(s) + 1]|
    ensures var t := Turned(e, s, h);
            t.ckr.Some? && t.hkr.Some? && Mk(SkipTo(t, h.n).ckr.value) == MessageKey(sk, e, Pos(s) + 1, h.n)
  {
    hide LogInv, PartyInv, SkipTo, Turned;
    var later := sent + [[]];
    TurnedPreserves(sk, e, sent, s, inbox, h);
    assert later[Pos(s) + 1] == sent[Pos(s) + 1];
    SkipReady(sk, e, later, Turned(e, s, h), inbox, h.n);
  }

  lemma NextChainReady(sk: Key, e: Ephemerals, sent: Log, s: State, inbox: seq<Delivery>, id: MsgId,
        msg: RatchetMessage)
    requires sk.Dh? && LogInv(sk, e, sent) && PartyInv(sk, e, sent, s, inbox)
    requires |sent| == Pos(s) + 2 && WasSent(sent, id) && id.chain == Pos(s) + 1
    requires msg.encHeader == MessageOf(sent, id).encHeader && CiphertextObtainable(sk, sent, msg.ciphertext)
    ensures id.n < U32_LIMIT && PrevLen(sent, id.chain) < U32_LIMIT
    ensures var t := Turned(e, s, HeaderOf(e, sent, id));
            && t.ckr.Some? && t.hkr.Some?
            && OpenMessage(Mk(SkipTo(t, id.n).ckr.value), msg) ==
               if msg == MessageOf(sent, id) then Ok(sent[id.chain][id.n].pt) else Err(DecryptFailed)
  {
    hide LogInv, PartyInv, SkipTo, Turned;
    GenuineHeader(sk, e, sent, id);
    NextChainKey(sk, e, sent, s, inbox, HeaderOf(e, sent, id));
    OpensOnlyItself(sk, e, sent, id, id.chain, id.n, msg);
  }

  lemma NextNotStored(sk: Key, e: Ephemerals, sent: Log, s: State, id: MsgId)
    requires sk.Dh? && LogInv(sk, e, sent) && StoreInv(sk, e, sent, s)
    requires WasSent(sent, id) && id.chain == Pos(s) + 1
    ensures SkippedHit(s, MessageOf(sent, id).encHeader).None?
  {
    HitIsOwn(sk, e, sent, s, id);
    if Stored(sk, e, s, id) {
      StoredIsPassed(sk, e, sent, s, id);
    }
  }

  lemma NextChain(sk: Key, e: Ephemerals, sent: Log, s: State, inbox: seq<Delivery>, id: MsgId, msg: RatchetMessage)
    requires sk.Dh? && LogInv(sk, e, sent) && PartyInv(sk, e, sent, s, inbox)
    requires |sent| == Pos(s) + 2 && WasSent(sent, id) && id.chain == Pos(s) + 1
    requires msg.encHeader == MessageOf(sent, id).encHeader && CiphertextObtainable(sk, sent, msg.ciphertext)
    ensures id.n < U32_LIMIT && PrevLen(sent, id.chain) < U32_LIMIT
    ensures var t := Turned(e, s, HeaderOf(e, sent, id));
            && t.ckr.Some? && t.hkr.Some?
            && if WithinReach(sent, s, id) && msg == MessageOf(sent, id)
               then Decrypt(s, msg, e(Pos(s) + 2)) == (Ok(sent[id.chain][id.n].pt), Advance(SkipTo(t, id.n)))
               else Rejected(s, msg, e(Pos(s) + 2))
  {
    hide Decrypt, KeysInSync, StoreInv, InboxInv, LogInv, SkipTo, Turned;
    NextNotStored(sk, e, sent, s, id);
    HeaderTrial(sk, e, sent, s, id);
    NextChainPrepares(sk, e, sent, s, inbox, HeaderOf(e, sent, id));
    NextChainReady(sk, e, sent, s, inbox, id, msg);
    TrialDecides(s, msg, e(Pos(s) + 2), HeaderOf(e, sent, id), true);
  }

  // ── Every genuine header ───────────────────────────────────────────────────

  /** A message passed over earlier: its key is used up whatever the ciphertext. */
  lemma FromStore(sk: Key, e: Ephemerals, sent: Log, s: State, id: MsgId, msg: RatchetMessage, newKey: Pub)
    requires sk.Dh? && LogInv(sk, e, sent) && StoreInv(sk, e, sent, s)
    requires WasSent(sent, id) && Stored(sk, e, s, id)
    requires msg.encHeader == MessageOf(sent, id).encHeader && CiphertextObtainable(sk, sent, msg.ciphertext)
    ensures Decrypt(s, msg, newKey) ==
            (if msg == MessageOf(sent, id) then Ok(sent[id.chain][id.n].pt) else Err(DecryptFailed),
             Forget(s, KeyFor(sk, e, id)))
  {
    HitIsOwn(sk, e, sent, s, id);
    assert EntryInv(sk, e, sent, s, KeyFor(sk, e, id));
    HkFacts(sk, e, id.chain);
    OpensOnlyItself(sk, e, sent, id, id.chain, id.n, msg);
  }

  /** Own messages, and chains closed long ago: no header key fits. */
  lemma OutOfSight(sk: Key, e: Ephemerals, sent: Log, s: State, id: MsgId, msg: RatchetMessage, newKey: Pub)
    requires sk.Dh? && LogInv(sk, e, sent) && KeysInSync(sk, e, s)
    requires WasSent(sent, id) && !Stored(sk, e, s, id)
    requires id.chain != Pos(s) + 1 && !(Pos(s) >= 2 && id.chain == Pos(s) - 1)
    requires msg.encHeader == MessageOf(sent, id).encHeader
    ensures Rejected(s, msg, newKey)
  {
    HitIsOwn(sk, e, sent, s, id);
    HeaderTrial(sk, e, sent, s, id);
  }

  // ── What a delivery leaves behind ──────────────────────────────────────────

  ghost predicate Reachable(sk: Key, e: Ephemerals, sent: Log, s: State, inbox: seq<Delivery>) {
    sk.Dh? && LogInv(sk, e, sent) && PartyInv(sk, e, sent, s, inbox) && |sent| <= Pos(s) + 2
  }

  /** `t` is a proper successor of `s` in which message `id` has been delivered. */
  ghost predicate Delivered(sk: Key, e: Ephemerals, sent: Log, s: State, inbox: seq<Delivery>, t: State, id: MsgId) {
    var later := OpenChain(sent, Pos(t));
    && WasSent(sent, id) && (forall d :: d in inbox ==> d.id != id)
    && (Pos(t) == Pos(s) || (Pos(t) == Pos(s) + 2 && |sent| == Pos(s) + 2))
    && LogInv(sk, e, later)
    && PartyInv(sk, e, later, t, inbox + [Delivery(id, sent[id.chain][id.n].pt)])
  }

  lemma DeliveredFromStore(sk: Key, e: Ephemerals, sent: Log, s: State, inbox: seq<Delivery>, id: MsgId)
    requires Reachable(sk, e, sent, s, inbox) && WasSent(sent, id) && Stored(sk, e, s, id)
    ensures Delivered(sk, e, sent, s, inbox, Forget(s, KeyFor(sk, e, id)), id)
  {
    var t := Forget(s, KeyFor(sk, e, id));
    ForgetPreserves(sk, e, sent, s, inbox, KeyFor(sk, e, id));
    StoredIsPassed(sk, e, sent, s, id);
    StoredIsNew(sk, e, sent, s, inbox, id);
    InboxGrows(sk, e, sent, t, inbox, Delivery(id, sent[id.chain][id.n].pt));
  }

  lemma StoredIsNew(sk: Key, e: Ephemerals, sent: Log, s: State, inbox: seq<Delivery>, id: MsgId)
    requires InboxInv(sk, e, sent, s, inbox) && Stored(sk, e, s, id)
    ensures forall d :: d in inbox ==> d.id != id
  {
    assert forall d :: d in inbox ==> DeliveryInv(sk, e, sent, s, d);
  }

  lemma DeliveredOnCurrentChain(sk: Key, e: Ephemerals, sent: Log, s: State, inbox: seq<Delivery>, id: MsgId)
    requires Reachable(sk, e, sent, s, inbox) && WasSent(sent, id)
    requires Pos(s) >= 2 && id.chain == Pos(s) - 1 && s.nr <= id.n < U32_LIMIT
    ensures s.ckr.Some? && s.hkr.Some?
    ensures Delivered(sk, e, sent, s, inbox, Advance(SkipTo(s, id.n)), id)
    ensures Pos(Advance(SkipTo(s, id.n))) == Pos(s)
  {
    hide LogInv, PartyInv, SkipTo, Advance;
    HasReceivingChain(sk, e, sent, s, inbox);
    SkipPreserves(sk, e, sent, s, inbox, id.n);
    AdvancePreserves(sk, e, sent, SkipTo(s, id.n), inbox);
  }

  lemma DeliveredOnNextChain(sk: Key, e: Ephemerals, sent: Log, s: State, inbox: seq<Delivery>, id: MsgId)
    requires Reachable(sk, e, sent, s, inbox) && WasSent(sent, id)
    requires id.chain == Pos(s) + 1 && |sent| == Pos(s) + 2
    ensures id.n < U32_LIMIT && PrevLen(sent, id.chain) < U32_LIMIT
    ensures var t := Turned(e, s, HeaderOf(e, sent, id));
            && t.ckr.Some? && t.hkr.Some?
            && Delivered(sk, e, sent, s, inbox, Advance(SkipTo(t, id.n)), id)
            && Pos(Advance(SkipTo(t, id.n))) == Pos(s) + 2
  {
    hide LogInv, PartyInv, SkipTo, Advance, Turned;
    var later := sent + [[]];
    GenuineHeader(sk, e, sent, id);
    var h := HeaderOf(e, sent, id);
    TurnedPreserves(sk, e, sent, s, inbox, h);
    assert later[id.chain] == sent[id.chain];
    DeliveredOnCurrentChain(sk, e, later, Turned(e, s, h), inbox, id);
  }

  /** Whatever the network delivers: either an undelivered message of the peer, verbatim, or nothing. */
  lemma ReceivePreserves(sk: Key, e: Ephemerals, sent: Log, s: State, inbox: seq<Delivery>, msg: RatchetMessage)
    requires Reachable(sk, e, sent, s, inbox) && Obtainable(sk, sent, msg)
    ensures var (r, t) := Decrypt(s, msg, e(Pos(s) + 2));
            match r
            case Err(_) => Pos(t) == Pos(s) && PartyInv(sk, e, sent, t, inbox)
            case Ok(pt) =>
              var id := IdOf(msg.encHeader);
              && Delivered(sk, e, sent, s, inbox, t, id)
              && msg == MessageOf(sent, id) && pt == sent[id.chain][id.n].pt
  {
    var enc, newKey := msg.encHeader, e(Pos(s) + 2);
    if !(enc.HeaderBox? && Root(enc.hk) == sk) {
      ForeignRejected(sk, e, sent, s, msg, newKey);
    } else {
      var id :| WasSent(sent, id) && MessageOf(sent, id).encHeader == enc;
      GenuineHeader(sk, e, sent, id);
      ReceiveGenuine(sk, e, sent, s, inbox, id, msg);
    }
  }

  lemma ReceiveGenuine(sk: Key, e: Ephemerals, sent: Log, s: State, inbox: seq<Delivery>, id: MsgId,
        msg: RatchetMessage)
    requires Reachable(sk, e, sent, s, inbox) && WasSent(sent, id)
    requires msg.encHeader == MessageOf(sent, id).encHeader && CiphertextObtainable(sk, sent, msg.ciphertext)
    ensures var (r, t) := Decrypt(s, msg, e(Pos(s) + 2));
            && (r.Ok? <==> msg == MessageOf(sent, id) && (Stored(sk, e, s, id) || WithinReach(sent, s, id)))
            && match r
               case Err(_) => Pos(t) == Pos(s) && PartyInv(sk, e, sent, t, inbox)
               case Ok(pt) => Delivered(sk, e, sent, s, inbox, t, id) && pt == sent[id.chain][id.n].pt
  {
    if Stored(sk, e, s, id) {
      FromStore(sk, e, sent, s, id, msg, e(Pos(s) + 2));
      ForgetPreserves(sk, e, sent, s, inbox, KeyFor(sk, e, id));
      DeliveredFromStore(sk, e, sent, s, inbox, id);
    } else if Pos(s) >= 2 && id.chain == Pos(s) - 1 {
      CurrentChain(sk, e, sent, s, inbox, id, msg, e(Pos(s) + 2));
      if s.nr <= id.n {
        DeliveredOnCurrentChain(sk, e, sent, s, inbox, id);
      }
    } else if id.chain == Pos(s) + 1 {
      NextChain(sk, e, sent, s, inbox, id, msg);
      DeliveredOnNextChain(sk, e, sent, s, inbox, id);
    } else {
      OutOfSight(sk, e, sent, s, id, msg, e(Pos(s) + 2));
    }
  }
}
