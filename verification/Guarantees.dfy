/** What the ratchet promises its two users, over every run against every network. */
module Guarantees {
  import opened Bytes
  import opened Wrappers
  import opened Crypto
  import opened Session
  import opened Chains
  import opened Protocol
  import opened Invariant
  import opened Receiving
  import opened Runs
  import Padding

  // ── Synchrony ──────────────────────────────────────────────────────────────

  /** `ahead` is exactly one root step further than `behind`, on the same schedule. */
  ghost predicate OneStepAhead(ahead: State, behind: State) {
    && Pos(ahead) == Pos(behind) + 1
    && ahead.rk == RkNext(behind.rk, DhOut(ahead.dhsSecret, behind.dhsPub))
    && ahead.dhr == Some(behind.dhsPub)
    && ahead.hks == Some(behind.nhkr)
    && ahead.nhkr == behind.nhks
    && ahead.hkr == (if Pos(behind) == 0 then None else behind.hks)
    && (behind.cks.Some? ==> ahead.ckr.Some? && ahead.nr <= behind.ns
                             && CkAfter(ahead.ckr.value, behind.ns - ahead.nr) == behind.cks.value)
  }

  lemma {:induction false} CkAfterAdds(ck: Key, m: nat, n: nat)
    ensures CkAfter(CkAfter(ck, m), n) == CkAfter(ck, m + n)
  {
    if n > 0 {
      CkAfterAdds(ck, m, n - 1);
    }
  }

  lemma NeighboursAgree(sk: Key, e: Ephemerals, sent: Log, ahead: State, behind: State)
    requires KeysInSync(sk, e, ahead) && CountersInSync(sent, ahead)
    requires KeysInSync(sk, e, behind) && CountersInSync(sent, behind)
    requires Pos(ahead) == Pos(behind) + 1
    ensures OneStepAhead(ahead, behind)
  {
    var p := Pos(behind);
    assert Rk(sk, e, p + 1) == RkNext(Rk(sk, e, p), DhAt(e, p + 1));
    if p >= 1 {
      CkAfterAdds(Ck(sk, e, p), ahead.nr, behind.ns - ahead.nr);
    }
  }

  /** In every run, the two sessions stay one root step apart and agree on every shared key. */
  lemma Synchrony(sk: Key, e: Ephemerals, run: seq<Action>)
    requires sk.Dh? && ValidRun(sk, e, run)
    ensures var sys := After(sk, e, run);
            OneStepAhead(sys.initiator.sess, sys.responder.sess) || OneStepAhead(sys.responder.sess, sys.initiator.sess)
  {
    RunInv(sk, e, run);
    var sys := After(sk, e, run);
    var a, b := sys.initiator.sess, sys.responder.sess;
    if Pos(a) == Pos(b) + 1 {
      NeighboursAgree(sk, e, sys.sent, a, b);
    } else {
      NeighboursAgree(sk, e, sys.sent, b, a);
    }
  }

  // ── Delivery safety ────────────────────────────────────────────────────────

  /** The peer's message `id` can be opened now: its key is stored, or no gap on the way is too long. */
  ghost predicate Openable(sk: Key, e: Ephemerals, sent: Log, s: State, id: MsgId) {
    WasSent(sent, id) && (Stored(sk, e, s, id) || WithinReach(sent, s, id))
  }

  ghost predicate AcceptsOpenable(sk: Key, e: Ephemerals, sent: Log, s: State, msg: RatchetMessage,
        r: Result<seq<byte>, Error>) {
    var id := IdOf(msg.encHeader);
    r.Ok? <==> Openable(sk, e, sent, s, id) && msg == MessageOf(sent, id)
  }

  ghost predicate AcceptsOnce(sent: Log, s: State, inbox: seq<Delivery>, msg: RatchetMessage,
        r: Result<seq<byte>, Error>) {
    var id := IdOf(msg.encHeader);
    r.Ok? ==>
      && WasSent(sent, id) && Incoming(Pos(s), id.chain)
      && r.value == sent[id.chain][id.n].pt
      && forall d :: d in inbox ==> d.id != id
  }

  /** What `decrypt` answers when the session's next key pair is the schedule's. */
  function Verdict(e: Ephemerals, s: State, msg: RatchetMessage): Result<seq<byte>, Error> {
    Decrypt(s, msg, e(Pos(s) + 2)).0
  }

  /**
   * In every run, whatever the network hands over, decryption succeeds exactly on
   * messages that were encrypted in this conversation, handed over whole, and are
   * either stored as skipped or within reach; such a message comes from the peer,
   * was not delivered before, and yields its own plaintext.
   */
  lemma DecryptExactly(sk: Key, e: Ephemerals, run: seq<Action>, who: Who, msg: RatchetMessage)
    requires sk.Dh? && ValidRun(sk, e, run) && Obtainable(sk, After(sk, e, run).sent, msg)
    ensures var sent, p := After(sk, e, run).sent, Get(After(sk, e, run), who);
            && AcceptsOpenable(sk, e, sent, p.sess, msg, Verdict(e, p.sess, msg))
            && AcceptsOnce(sent, p.sess, p.inbox, msg, Verdict(e, p.sess, msg))
  {
    RunInv(sk, e, run);
    var sys := After(sk, e, run);
    AcceptedIsOpenable(sk, e, sys.sent, Get(sys, who).sess, Get(sys, who).inbox, msg);
    AcceptedIsFresh(sk, e, sys.sent, Get(sys, who).sess, Get(sys, who).inbox, msg);
  }

  lemma AcceptedIsOpenable(sk: Key, e: Ephemerals, sent: Log, s: State, inbox: seq<Delivery>, msg: RatchetMessage)
    requires Reachable(sk, e, sent, s, inbox) && Obtainable(sk, sent, msg)
    ensures AcceptsOpenable(sk, e, sent, s, msg, Verdict(e, s, msg))
  {
    hide Decrypt, PartyInv, LogInv, Stored, WithinReach;
    var id := IdOf(msg.encHeader);
    if Decrypt(s, msg, e(Pos(s) + 2)).0.Ok? {
      ReceivePreserves(sk, e, sent, s, inbox, msg);
    }
    if WasSent(sent, id) && msg == MessageOf(sent, id) {
      ReceiveGenuine(sk, e, sent, s, inbox, id, msg);
    }
  }

  lemma AcceptedIsFresh(sk: Key, e: Ephemerals, sent: Log, s: State, inbox: seq<Delivery>, msg: RatchetMessage)
    requires Reachable(sk, e, sent, s, inbox) && Obtainable(sk, sent, msg)
    ensures AcceptsOnce(sent, s, inbox, msg, Verdict(e, s, msg))
  {
    hide Decrypt, PartyInv, LogInv;
    if Decrypt(s, msg, e(Pos(s) + 2)).0.Ok? {
      ReceivePreserves(sk, e, sent, s, inbox, msg);
      DeliveredIsIncoming(sk, e, sent, s, inbox, Decrypt(s, msg, e(Pos(s) + 2)).1, IdOf(msg.encHeader));
    }
  }

  lemma DeliveredIsIncoming(sk: Key, e: Ephemerals, sent: Log, s: State, inbox: seq<Delivery>, t: State, id: MsgId)
    requires Delivered(sk, e, sent, s, inbox, t, id)
    ensures Incoming(Pos(s), id.chain)
  {
    hide KeysInSync, CountersInSync, LogInv, StoreInv;
    var grown := inbox + [Delivery(id, sent[id.chain][id.n].pt)];
    assert grown[|inbox|] in grown;
    assert DeliveryInv(sk, e, OpenChain(sent, Pos(t)), t, grown[|inbox|]);
  }

  /** Over a whole run, everything delivered is the peer's, verbatim, and no message is delivered twice. */
  lemma DeliveredAtMostOnce(sk: Key, e: Ephemerals, run: seq<Action>, who: Who)
    requires sk.Dh? && ValidRun(sk, e, run)
    ensures var sys := After(sk, e, run);
            var p := Get(sys, who);
            && (forall a, b :: 0 <= a < b < |p.inbox| ==> p.inbox[a].id != p.inbox[b].id)
            && (forall d :: d in p.inbox ==>
                  && Incoming(Pos(p.sess), d.id.chain) && WasSent(sys.sent, d.id)
                  && d.pt == sys.sent[d.id.chain][d.id.n].pt)
  {
    RunInv(sk, e, run);
    var sys := After(sk, e, run);
    var p := Get(sys, who);
    forall d | d in p.inbox
      ensures Incoming(Pos(p.sess), d.id.chain) && WasSent(sys.sent, d.id) && d.pt == sys.sent[d.id.chain][d.id.n].pt
    {
      assert DeliveryInv(sk, e, sys.sent, p.sess, d);
    }
  }

  // ── The skipped-key store ──────────────────────────────────────────────────

  /**
   * In every run, the queue lists the stored keys once each and never more than
   * MAX_SKIP_STORE of them, and every stored value is the key of a message of the peer
   * that was passed over, filed under its chain's header key and its number.
   */
  lemma StoreIsFaithful(sk: Key, e: Ephemerals, run: seq<Action>, who: Who)
    requires sk.Dh? && ValidRun(sk, e, run)
    ensures var sys := After(sk, e, run);
            var s := Get(sys, who).sess;
            StoreShape(s.skipped, s.skippedOrder) && forall k :: k in s.skipped ==> EntryInv(sk, e, sys.sent, s, k)
  {
    hide LogInv, KeysInSync, InboxInv, StoreShape, EntryInv;
    RunInv(sk, e, run);
  }

  // ── Header nonces ──────────────────────────────────────────────────────────

  ghost predicate DistinctNonces(run: seq<Action>) {
    forall i, j :: 0 <= i < j < |run| && run[i].Send? && run[j].Send? ==> run[i].nonce != run[j].nonce
  }

  ghost predicate DrawnIn(run: seq<Action>, nonce: seq<byte>) {
    exists i :: 0 <= i < |run| && run[i].Send? && run[i].nonce == nonce
  }

  function NonceOf(sent: Log, id: MsgId): seq<byte>
    requires id.chain < |sent| && id.n < |sent[id.chain]|
  {
    sent[id.chain][id.n].nonce
  }

  ghost predicate AllDrawn(run: seq<Action>, sent: Log) {
    forall id :: WasSent(sent, id) ==> DrawnIn(run, NonceOf(sent, id))
  }

  ghost predicate NeverTwice(sent: Log) {
    forall id1, id2 :: WasSent(sent, id1) && WasSent(sent, id2) && NonceOf(sent, id1) == NonceOf(sent,
          id2) ==> id1 == id2
  }

  lemma DrawnLater(run: seq<Action>, act: Action, nonce: seq<byte>)
    ensures DrawnIn(run, nonce) ==> DrawnIn(run + [act], nonce)
    ensures act.Send? && act.nonce == nonce ==> DrawnIn(run + [act], nonce)
    ensures DistinctNonces(run + [act]) && act.Send? && act.nonce == nonce ==> !DrawnIn(run, nonce)
  {
    var all := run + [act];
    assert all[|run|] == act && forall i :: 0 <= i < |run| ==> all[i] == run[i];
  }

  lemma LogKeepsNonces(run: seq<Action>, act: Action, sent: Log, p: nat, x: Sent)
    requires AllDrawn(run, sent) && NeverTwice(sent) && DistinctNonces(run + [act])
    requires act.Send? && x.nonce == act.nonce
    ensures AllDrawn(run + [act], LogSent(sent, p, x)) && NeverTwice(LogSent(sent, p, x))
  {
    hide DrawnIn, DistinctNonces;
    var later := LogSent(sent, p, x);
    forall id | WasSent(later, id)
      ensures DrawnIn(run + [act], NonceOf(later, id))
      ensures WasSent(sent, id) ==> NonceOf(later, id) == NonceOf(sent, id) && NonceOf(later, id) != x.nonce
      ensures !WasSent(sent, id) ==> NonceOf(later, id) == x.nonce && id == MsgId(p, |sent[p]|)
    {
      if WasSent(sent, id) {
        assert NonceOf(later, id) == NonceOf(sent, id);
      }
      DrawnLater(run, act, NonceOf(later, id));
    }
  }

  lemma QuietKeepsNonces(run: seq<Action>, act: Action, sent: Log, later: Log)
    requires AllDrawn(run, sent) && NeverTwice(sent) && (later == sent || later == sent + [[]])
    ensures AllDrawn(run + [act], later) && NeverTwice(later)
  {
    hide DrawnIn;
    forall id | WasSent(later, id)
      ensures WasSent(sent, id) && NonceOf(later, id) == NonceOf(sent, id) && DrawnIn(run + [act], NonceOf(later, id))
    {
      DrawnLater(run, act, NonceOf(later, id));
    }
  }

  lemma StepKeepsNonces(e: Ephemerals, run: seq<Action>, sys: System, act: Action)
    requires AllDrawn(run, sys.sent) && NeverTwice(sys.sent) && DistinctNonces(run + [act])
    ensures AllDrawn(run + [act], Apply(e, sys, act).sent) && NeverTwice(Apply(e, sys, act).sent)
  {
    hide Encrypt, Decrypt, AllDrawn, NeverTwice, DistinctNonces, IdOf;
    match act
    case Receive(_, _, _) => QuietKeepsNonces(run, act, sys.sent, Apply(e, sys, act).sent);
    case Send(who, pt, nonce) =>
      var s := Get(sys, who).sess;
      match Encrypt(s, pt, nonce).0 {
        case Ok(msg) => LogKeepsNonces(run, act, sys.sent, Pos(s), Sent(pt, nonce, msg));
        case Err(_) => QuietKeepsNonces(run, act, sys.sent, sys.sent);
      }
  }

  lemma {:induction false} RunNonces(sk: Key, e: Ephemerals, run: seq<Action>)
    requires DistinctNonces(run)
    ensures AllDrawn(run, After(sk, e, run).sent) && NeverTwice(After(sk, e, run).sent)
  {
    hide AllDrawn, NeverTwice, Apply;
    if |run| == 0 {
      NothingSent(sk, e);
    } else {
      var init, act := run[..|run| - 1], run[|run| - 1];
      assert run == init + [act];
      RunNonces(sk, e, init);
      StepKeepsNonces(e, init, After(sk, e, init), act);
    }
  }

  lemma NothingSent(sk: Key, e: Ephemerals)
    ensures AllDrawn([], Init(sk, e).sent) && NeverTwice(Init(sk, e).sent)
  {
    assert forall id :: !WasSent(Init(sk, e).sent, id);
  }

  /** If the nonces a run draws are distinct, no two of its headers are sealed under one nonce. */
  lemma HeaderNoncesNeverRepeat(sk: Key, e: Ephemerals, run: seq<Action>, id1: MsgId, id2: MsgId)
    requires sk.Dh? && ValidRun(sk, e, run) && DistinctNonces(run)
    requires WasSent(After(sk, e, run).sent, id1) && WasSent(After(sk, e, run).sent, id2) && id1 != id2
    ensures var h1, h2 := MessageOf(After(sk, e, run).sent, id1).encHeader, MessageOf(After(sk, e, run).sent,
          id2).encHeader;
            h1.HeaderBox? && h2.HeaderBox? && h1.nonce != h2.nonce
  {
    hide PartyInv, DistinctNonces;
    RunInv(sk, e, run);
    RunNonces(sk, e, run);
    var sent := After(sk, e, run).sent;
    SealedWithOwnNonce(sk, e, sent, id1);
    SealedWithOwnNonce(sk, e, sent, id2);
  }

  lemma SealedWithOwnNonce(sk: Key, e: Ephemerals, sent: Log, id: MsgId)
    requires LogInv(sk, e, sent) && WasSent(sent, id)
    ensures var enc := MessageOf(sent, id).encHeader; enc.HeaderBox? && enc.nonce == NonceOf(sent, id)
  {
    assert Sealed(sk, e, id.chain, PrevLen(sent, id.chain), id.n, sent[id.chain][id.n]);
  }

  // ── Transactionality ───────────────────────────────────────────────────────

  /**
   * A failed decrypt leaves the session as it was if and only if no stored key
   * answers the header; otherwise it has forgotten that one key.
   */
  lemma FailureLeavesNoTrace(s: State, msg: RatchetMessage, newKey: Pub)
    requires Decrypt(s, msg, newKey).0.Err?
    ensures Decrypt(s, msg, newKey).1 == s <==> SkippedHit(s, msg.encHeader).None?
    ensures SkippedHit(s, msg.encHeader).Some? ==>
              Decrypt(s, msg, newKey).1 == Forget(s, SkippedHit(s, msg.encHeader).value)
  {
    var hit := SkippedHit(s, msg.encHeader);
    if hit.Some? {
      assert hit.value in s.skipped && hit.value !in Forget(s, hit.value).skipped;
    }
  }

  /**
   * The failing family: a session that is used on after a corrupted copy of a stored
   * message rejects the genuine message from then on.
   */
  lemma CorruptionBurnsStoredKey(sk: Key, e: Ephemerals, sent: Log, s: State, inbox: seq<Delivery>, id: MsgId,
        bad: Ciphertext)
    requires Reachable(sk, e, sent, s, inbox) && WasSent(sent, id) && Stored(sk, e, s, id)
    requires CiphertextObtainable(sk, sent, bad) && bad != MessageOf(sent, id).ciphertext
    ensures var corrupted := RatchetMessage(MessageOf(sent, id).encHeader, bad);
            Decrypt(s, corrupted, e(Pos(s) + 2)) == (Err(DecryptFailed), Forget(s, KeyFor(sk, e, id)))
    ensures Verdict(e, s, MessageOf(sent, id)) == Ok(sent[id.chain][id.n].pt)
    ensures Verdict(e, Forget(s, KeyFor(sk, e, id)), MessageOf(sent, id)).Err?
  {
    hide Decrypt, KeysInSync, StoreInv, InboxInv, LogInv;
    FromStore(sk, e, sent, s, id, RatchetMessage(MessageOf(sent, id).encHeader, bad), e(Pos(s) + 2));
    FromStore(sk, e, sent, s, id, MessageOf(sent, id), e(Pos(s) + 2));
    ForgottenIsGone(sk, e, sent, s, inbox, id);
  }

  lemma ForgottenIsGone(sk: Key, e: Ephemerals, sent: Log, s: State, inbox: seq<Delivery>, id: MsgId)
    requires Reachable(sk, e, sent, s, inbox) && WasSent(sent, id) && Stored(sk, e, s, id)
    ensures Verdict(e, Forget(s, KeyFor(sk, e, id)), MessageOf(sent, id)).Err?
  {
    hide Decrypt, KeysInSync, StoreInv, InboxInv, LogInv;
    StoredIsPassed(sk, e, sent, s, id);
    ForgetPreserves(sk, e, sent, s, inbox, KeyFor(sk, e, id));
    GoneForGood(sk, e, sent, Forget(s, KeyFor(sk, e, id)), inbox, id);
  }

  /** Passed over and no longer stored: rejected. */
  lemma GoneForGood(sk: Key, e: Ephemerals, sent: Log, s: State, inbox: seq<Delivery>, id: MsgId)
    requires Reachable(sk, e, sent, s, inbox) && Passed(sent, s, id) && !Stored(sk, e, s, id)
    ensures Verdict(e, s, MessageOf(sent, id)).Err?
  {
    hide Decrypt, PartyInv, LogInv;
    ReceiveGenuine(sk, e, sent, s, inbox, id, MessageOf(sent, id));
  }

  // ── Any session, any message ───────────────────────────────────────────────

  /** What is accepted was sealed with this very header as associated data, and is the padded plaintext. */
  lemma AcceptedIsBound(s: State, msg: RatchetMessage, newKey: Pub)
    requires Decrypt(s, msg, newKey).0.Ok?
    ensures msg.ciphertext.MsgBox? && msg.ciphertext.ad == msg.encHeader
    ensures var pt := Decrypt(s, msg, newKey).0.value;
            |pt| < U32_LIMIT && LeBytes(|pt|, 4) + pt <= msg.ciphertext.plain
  {
    hide Prepare, DecryptHeader, SkippedHit, RemoveFirst, LeBytes;
    Padding.UnpadAcceptsExactly(msg.ciphertext.plain, Decrypt(s, msg, newKey).0.value);
  }

  /** A message key does not open the ciphertext, or opens it to something not padded, or yields its text. */
  lemma OpenFailsExactly(mk: Key, msg: RatchetMessage)
    ensures var result := AeadOpen(mk, msg.ciphertext, msg.encHeader);
            && (OpenMessage(mk, msg) == Err(DecryptFailed) <==> result.None?)
            && (OpenMessage(mk, msg) == Err(MalformedPadding) <==> result.Some? && Padding.Unpadded(result.value).Err?)
  {
    hide AeadOpen;
  }

  /** Encrypting fails exactly without a sending chain or its header key, and then changes nothing. */
  lemma EncryptFailsExactly(s: State, pt: seq<byte>, nonce: seq<byte>)
    ensures Encrypt(s, pt, nonce).0 == Err(NoSendingChain) <==> s.cks.None?
    ensures Encrypt(s, pt, nonce).0 == Err(NoSendingHeaderKey) <==> s.cks.Some? && s.hks.None?
    ensures Encrypt(s, pt, nonce).0.Err? ==> Encrypt(s, pt, nonce).1 == s && (s.cks.None? || s.hks.None?)
  {
    hide Henc;
  }

  /** Skipping fails exactly beyond MAX_SKIP keys of an open chain, or without a header key to file them under. */
  lemma SkipFailsExactly(s: State, until: u32)
    ensures s.ckr.Some? && until > s.nr + 1000 ==> SkipMessageKeys(s, until) == Err(TooManySkips(until - s.nr))
    ensures s.ckr.Some? && until <= s.nr + 1000 && s.hkr.None? ==> SkipMessageKeys(s, until) == Err(SkipWithoutHkr)
    ensures SkipMessageKeys(s, until).Err? <==> s.ckr.Some? && (until > s.nr + 1000 || s.hkr.None?)
    ensures s.ckr.None? ==> SkipMessageKeys(s, until) == Ok(s)
  {
    hide SkipTo;
  }

  /** A header the current receiving key opens never makes the session ratchet; one that no key opens is unknown. */
  lemma CurrentKeyFirst(s: State, msg: RatchetMessage, newKey: Pub)
    ensures s.hkr.Some? && Hdec(s.hkr.value, msg.encHeader).Some? ==>
              DecryptHeader(s, msg.encHeader) == Some((Hdec(s.hkr.value, msg.encHeader).value, false))
    ensures SkippedHit(s, msg.encHeader).None? && Hdec(s.nhkr, msg.encHeader).None?
            && (s.hkr.Some? ==> Hdec(s.hkr.value, msg.encHeader).None?) ==>
              Decrypt(s, msg, newKey) == (Err(UnknownHeaderKey), s)
  {
    hide Prepare, OpenMessage, Hdec;
  }
}
