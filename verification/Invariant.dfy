/** What every action of a run keeps. */
module Invariant {
  import opened Bytes
  import opened Wrappers
  import opened Crypto
  import opened Session
  import opened Chains
  import opened Protocol
  import Padding

  type Log = seq<seq<Sent>>

  /** Filed before: keys are filed chain by chain, and on each chain in the order of their numbers. */
  predicate Earlier(a: SkippedKey, b: SkippedKey) {
    HeaderChain(a.0) < HeaderChain(b.0) || (HeaderChain(a.0) == HeaderChain(b.0) && a.1 < b.1)
  }

  /** The queue is in insertion order, so it has no repeats and its front is its oldest key. */
  ghost predicate Ordered(order: seq<SkippedKey>) {
    forall a, b :: 0 <= a < b < |order| ==> Earlier(order[a], order[b])
  }

  function PrevLen(sent: Log, i: nat): nat
    requires i < |sent|
  {
    if i < 2 then 0 else |sent[i - 2]|
  }

  /**
   * Message (i, n) is sealed under chain i's keys, its header with the nonce drawn for it,
   * and announces i's public key, pn and n.
   */
  ghost predicate Sealed(sk: Key, e: Ephemerals, i: nat, pn: nat, n: nat, x: Sent)
    requires i >= 1
  {
    && pn < U32_LIMIT && n < U32_LIMIT && |x.pt| < U32_LIMIT
    && x.msg.encHeader.HeaderBox?
    && x.msg.encHeader.hk == Hk(sk, e, i)
    && x.msg.encHeader.nonce == x.nonce
    && x.msg.encHeader.plain == HeaderBytes(Header(e(i), pn, n))
    && x.msg.ciphertext == MsgBox(MessageKey(sk, e, i, n), x.msg.encHeader, Padding.Padded(x.pt))
  }

  ghost predicate LogInv(sk: Key, e: Ephemerals, sent: Log) {
    && |sent| >= 2 && sent[0] == []
    && (forall i :: 0 <= i < |sent| ==> |sent[i]| < U32_LIMIT)
    && (forall i, n :: 1 <= i < |sent| && 0 <= n < |sent[i]| ==>
          Sealed(sk, e, i, PrevLen(sent, i), n, sent[i][n]))
  }

  /** Every key field is the shared schedule's key for the session's position. */
  ghost predicate KeysInSync(sk: Key, e: Ephemerals, s: State) {
    var p := Pos(s);
    && s.rk == Rk(sk, e, p)
    && s.dhsSecret == e(p) && s.dhsPub == e(p)
    && s.dhr == (if p == 0 then None else Some(e(p - 1)))
    && s.nhks == Hk(sk, e, p + 2) && s.nhkr == Hk(sk, e, p + 1)
    && s.hks == (if p == 0 then None else Some(Hk(sk, e, p)))
    && s.cks == (if p == 0 then None else Some(CkAfter(Ck(sk, e, p), s.ns)))
    && s.hkr == (if p <= 1 then None else Some(Hk(sk, e, p - 1)))
    && s.ckr == (if p <= 1 then None else Some(CkAfter(Ck(sk, e, p - 1), s.nr)))
  }

  ghost predicate CountersInSync(sent: Log, s: State) {
    var p := Pos(s);
    && p < |sent|
    && s.ns == |sent[p]|
    && s.pn == PrevLen(sent, p)
    && s.nr <= if p == 0 then 0 else |sent[p - 1]|
  }

  /** Chains a session at position `p` receives on. */
  predicate Incoming(p: nat, i: nat) {
    i >= 1 && (p + i) % 2 == 1
  }

  /** The receiving side has moved past message `id`. */
  ghost predicate Passed(sent: Log, s: State, id: MsgId) {
    && Incoming(Pos(s), id.chain)
    && id.chain < Pos(s) && WasSent(sent, id)
    && (id.chain == Pos(s) - 1 ==> id.n < s.nr)
  }

  function KeyFor(sk: Key, e: Ephemerals, id: MsgId): SkippedKey
    requires id.chain >= 1 && id.n < U32_LIMIT
  {
    (Hk(sk, e, id.chain), id.n)
  }

  /** A stored entry is the message key of a message that was passed over. */
  ghost predicate EntryInv(sk: Key, e: Ephemerals, sent: Log, s: State, k: SkippedKey)
    requires k in s.skipped
  {
    var id := MsgId(HeaderChain(k.0), k.1);
    Passed(sent, s, id) && k == KeyFor(sk, e, id) && s.skipped[k] == MessageKey(sk, e, id.chain, id.n)
  }

  /** The queue lists the map's keys, oldest first, and is not over-full. */
  ghost predicate StoreShape(skipped: map<SkippedKey, Key>, order: seq<SkippedKey>) {
    && (forall k :: k in order <==> k in skipped)
    && Ordered(order)
    && |order| <= MAX_SKIP_STORE
  }

  ghost predicate StoreInv(sk: Key, e: Ephemerals, sent: Log, s: State) {
    && (forall k :: k in s.skipped ==> EntryInv(sk, e, sent, s, k))
    && StoreShape(s.skipped, s.skippedOrder)
  }

  ghost predicate DeliveryInv(sk: Key, e: Ephemerals, sent: Log, s: State, d: Delivery) {
    && Passed(sent, s, d.id) && d.id.n < U32_LIMIT
    && d.pt == sent[d.id.chain][d.id.n].pt
    && KeyFor(sk, e, d.id) !in s.skipped
  }

  ghost predicate InboxInv(sk: Key, e: Ephemerals, sent: Log, s: State, inbox: seq<Delivery>) {
    && (forall d :: d in inbox ==> DeliveryInv(sk, e, sent, s, d))
    && (forall a, b :: 0 <= a < b < |inbox| ==> inbox[a].id != inbox[b].id)
  }

  ghost predicate PartyInv(sk: Key, e: Ephemerals, sent: Log, s: State, inbox: seq<Delivery>) {
    && KeysInSync(sk, e, s)
    && CountersInSync(sent, s)
    && StoreInv(sk, e, sent, s)
    && InboxInv(sk, e, sent, s, inbox)
  }

  /** Two sessions one root step apart, and a log that reaches as far as the one ahead. */
  ghost predicate PairInv(sk: Key, e: Ephemerals, sent: Log, p: Party, q: Party) {
    && sk.Dh?
    && (Pos(p.sess) == Pos(q.sess) + 1 || Pos(q.sess) == Pos(p.sess) + 1)
    && |sent| == (if Pos(p.sess) < Pos(q.sess) then Pos(q.sess) else Pos(p.sess)) + 1
    && LogInv(sk, e, sent)
    && PartyInv(sk, e, sent, p.sess, p.inbox)
    && PartyInv(sk, e, sent, q.sess, q.inbox)
  }

  ghost predicate SystemInv(sk: Key, e: Ephemerals, sys: System) {
    && Pos(sys.initiator.sess) % 2 == 1
    && PairInv(sk, e, sys.sent, sys.initiator, sys.responder)
  }

  lemma InitiatorStarts(sk: Key, e: Ephemerals)
    requires sk.Dh?
    ensures var s := InitInitiator(sk, e(1), e(0));
            Pos(s) == 1 && KeysInSync(sk, e, s) && CountersInSync([[], []], s)
  {
    var s := InitInitiator(sk, e(1), e(0));
    assert Rk(sk, e, 0) == sk;
    assert Rk(sk, e, 1) == RkNext(sk, DhAt(e, 1));
    assert Ck(sk, e, 1) == CkOf(sk, DhAt(e, 1));
    assert CkAfter(Ck(sk, e, 1), 0) == Ck(sk, e, 1);
    assert RkDepth(s.rk) == 1;
  }

  lemma InitInv(sk: Key, e: Ephemerals)
    requires sk.Dh?
    ensures SystemInv(sk, e, Init(sk, e))
  {
    var sys := Init(sk, e);
    InitiatorStarts(sk, e);
    assert Pos(sys.responder.sess) == 0 && KeysInSync(sk, e, sys.responder.sess);
    assert LogInv(sk, e, sys.sent);
    assert StoreInv(sk, e, sys.sent, sys.initiator.sess) && StoreInv(sk, e, sys.sent, sys.responder.sess);
  }

  // ── Sending ────────────────────────────────────────────────────────────────

  /** `later` only adds messages and chains to `sent`. */
  ghost predicate Extends(sent: Log, later: Log) {
    |sent| <= |later| && forall i :: 0 <= i < |sent| ==> sent[i] <= later[i]
  }

  /** What the peer of a session does never disturbs it. */
  lemma PeerFrame(sk: Key, e: Ephemerals, sent: Log, later: Log, s: State, inbox: seq<Delivery>)
    requires PartyInv(sk, e, sent, s, inbox)
    requires Extends(sent, later)
    requires forall i :: 0 <= i <= Pos(s) && i != Pos(s) - 1 ==> later[i] == sent[i]
    ensures PartyInv(sk, e, later, s, inbox)
  {
    forall k | k in s.skipped
      ensures EntryInv(sk, e, later, s, k)
    {
      assert EntryInv(sk, e, sent, s, k);
    }
    forall d | d in inbox
      ensures DeliveryInv(sk, e, later, s, d)
    {
      assert DeliveryInv(sk, e, sent, s, d);
    }
  }

  /** What a synchronised session puts on the wire. */
  lemma EncryptSeals(sk: Key, e: Ephemerals, sent: Log, s: State, pt: seq<byte>, nonce: seq<byte>)
    requires sk.Dh? && LogInv(sk, e, sent) && KeysInSync(sk, e, s) && CountersInSync(sent, s)
    requires s.ns + 1 < U32_LIMIT && |pt| < U32_LIMIT && Pos(s) >= 1
    ensures var (r, t) := Encrypt(s, pt, nonce);
            && r.Ok? && Sealed(sk, e, Pos(s), PrevLen(sent, Pos(s)), s.ns, Sent(pt, nonce, r.value))
            && t == s.(cks := Some(CkNext(s.cks.value)), ns := s.ns + 1)
  {
  }

  /** Appending to one of the two open chains keeps the log in order. */
  lemma LogGrows(sk: Key, e: Ephemerals, sent: Log, p: nat, x: Sent)
    requires LogInv(sk, e, sent)
    requires 1 <= p < |sent| <= p + 2
    requires |sent[p]| + 1 < U32_LIMIT && Sealed(sk, e, p, PrevLen(sent, p), |sent[p]|, x)
    ensures LogInv(sk, e, LogSent(sent, p, x)) && Extends(sent, LogSent(sent, p, x))
  {
    var later := LogSent(sent, p, x);
    forall i, n | 1 <= i < |later| && 0 <= n < |later[i]|
      ensures Sealed(sk, e, i, PrevLen(later, i), n, later[i][n])
    {
      assert PrevLen(later, i) == PrevLen(sent, i);
      if i != p || n < |sent[p]| {
        assert later[i][n] == sent[i][n];
      }
    }
  }

  lemma SendKeys(sk: Key, e: Ephemerals, sent: Log, s: State, t: State, x: Sent)
    requires KeysInSync(sk, e, s) && CountersInSync(sent, s) && Pos(s) >= 1 && s.ns + 1 < U32_LIMIT
    requires t == s.(cks := Some(CkNext(s.cks.value)), ns := s.ns + 1)
    ensures Pos(t) == Pos(s) && KeysInSync(sk, e, t) && CountersInSync(LogSent(sent, Pos(s), x), t)
  {
    hide Rk, Ck, Hk;
    assert CkAfter(Ck(sk, e, Pos(s)), s.ns + 1) == CkNext(s.cks.value);
  }

  lemma SendPreserves(sk: Key, e: Ephemerals, sent: Log, s: State, inbox: seq<Delivery>, pt: seq<byte>,
        nonce: seq<byte>)
    requires sk.Dh? && LogInv(sk, e, sent) && PartyInv(sk, e, sent, s, inbox)
    requires s.ns + 1 < U32_LIMIT && |pt| < U32_LIMIT && 1 <= Pos(s) && |sent| <= Pos(s) + 2
    ensures var (r, t) := Encrypt(s, pt, nonce);
            && r.Ok? && Pos(t) == Pos(s)
            && (var later := LogSent(sent, Pos(s), Sent(pt, nonce, r.value));
                && Extends(sent, later)
                && LogInv(sk, e, later) && PartyInv(sk, e, later, t, inbox))
  {
    hide Encrypt, LogInv, KeysInSync;
    EncryptSeals(sk, e, sent, s, pt, nonce);
    var (r, t) := Encrypt(s, pt, nonce);
    SendKeys(sk, e, sent, s, t, Sent(pt, nonce, r.value));
    LogGrows(sk, e, sent, Pos(s), Sent(pt, nonce, r.value));
    SamePositionKeepsPassed(sent, s, LogSent(sent, Pos(s), Sent(pt, nonce, r.value)), t);
    PassedFrame(sk, e, sent, LogSent(sent, Pos(s), Sent(pt, nonce, r.value)), s, t, inbox);
  }

  ghost predicate KeepsPassed(sent: Log, s: State, later: Log, t: State) {
    forall id :: Passed(sent, s, id) ==> Passed(later, t, id)
  }

  lemma SamePositionKeepsPassed(sent: Log, s: State, later: Log, t: State)
    requires Extends(sent, later) && Pos(t) == Pos(s) && t.nr >= s.nr
    ensures KeepsPassed(sent, s, later, t)
  {
  }

  /** Entries and deliveries survive any change under which passed messages stay passed. */
  lemma PassedFrame(sk: Key, e: Ephemerals, sent: Log, later: Log, s: State, t: State, inbox: seq<Delivery>)
    requires StoreInv(sk, e, sent, s) && InboxInv(sk, e, sent, s, inbox) && Extends(sent, later)
    requires KeepsPassed(sent, s, later, t) && StoreShape(t.skipped, t.skippedOrder)
    requires forall k :: k in t.skipped ==> k in s.skipped && t.skipped[k] == s.skipped[k]
    ensures StoreInv(sk, e, later, t) && InboxInv(sk, e, later, t, inbox)
  {
    hide StoreShape, MessageKey, Hk;
    forall k | k in t.skipped
      ensures EntryInv(sk, e, later, t, k)
    {
      assert EntryInv(sk, e, sent, s, k);
    }
    forall d | d in inbox
      ensures DeliveryInv(sk, e, later, t, d)
    {
      DeliveryFrame(sk, e, sent, later, s, t, d);
    }
  }

  lemma DeliveryFrame(sk: Key, e: Ephemerals, sent: Log, later: Log, s: State, t: State, d: Delivery)
    requires DeliveryInv(sk, e, sent, s, d) && Extends(sent, later) && Passed(later, t, d.id)
    requires forall k :: k in t.skipped ==> k in s.skipped
    ensures DeliveryInv(sk, e, later, t, d)
  {
    assert sent[d.id.chain] <= later[d.id.chain];
  }

  // ── Skipping ───────────────────────────────────────────────────────────────

  /** Filing a new key keeps the queue and the map in step; a full store loses its oldest entry. */
  lemma FileShape(skipped: map<SkippedKey, Key>, order: seq<SkippedKey>, key: SkippedKey, mk: Key)
    requires StoreShape(skipped, order) && forall k :: k in skipped ==> Earlier(k, key)
    ensures var (kept, queue) := Evict(skipped[key := mk], order + [key]);
            && StoreShape(kept, queue)
            && queue == (if |order| < 2000 then order else order[1..]) + [key]
            && (forall k :: k in kept ==> k in skipped[key := mk] && kept[k] == skipped[key := mk][k])
  {
    var all, full := skipped[key := mk], order + [key];
    if |order| < MAX_SKIP_STORE {
      assert Evict(all, full) == (all, full);
    } else {
      assert Evict(all, full) == (all - {full[0]}, full[1..]);
      assert forall k :: k in full <==> k == full[0] || k in full[1..];
    }
  }

  /** A stored key stands for a message that was passed over. */
  lemma StoredIsPassed(sk: Key, e: Ephemerals, sent: Log, s: State, id: MsgId)
    requires sk.Dh? && StoreInv(sk, e, sent, s)
    requires id.chain >= 1 && id.n < U32_LIMIT && KeyFor(sk, e, id) in s.skipped
    ensures Passed(sent, s, id)
  {
    assert EntryInv(sk, e, sent, s, KeyFor(sk, e, id));
    HkFacts(sk, e, id.chain);
  }

  lemma SkipOneKeys(sk: Key, e: Ephemerals, sent: Log, s: State)
    requires LogInv(sk, e, sent) && KeysInSync(sk, e, s) && CountersInSync(sent, s)
    requires s.ckr.Some? && s.nr < |sent[Pos(s) - 1]|
    ensures KeysInSync(sk, e, SkipOne(s)) && CountersInSync(sent, SkipOne(s)) && Pos(SkipOne(s)) == Pos(s)
  {
    hide Rk, Ck, Hk, Evict;
    assert CkAfter(Ck(sk, e, Pos(s) - 1), s.nr + 1) == CkNext(s.ckr.value);
  }

  lemma SkipOneStore(sk: Key, e: Ephemerals, sent: Log, s: State, inbox: seq<Delivery>)
    requires sk.Dh? && LogInv(sk, e, sent) && KeysInSync(sk, e, s)
    requires StoreInv(sk, e, sent, s) && InboxInv(sk, e, sent, s, inbox)
    requires s.ckr.Some? && Pos(s) < |sent| && s.nr < |sent[Pos(s) - 1]|
    ensures StoreInv(sk, e, sent, SkipOne(s)) && InboxInv(sk, e, sent, SkipOne(s), inbox)
  {
    hide EntryInv, DeliveryInv, StoreShape;
    var id, mid := MsgId(Pos(s) - 1, s.nr), s.(nr := s.nr + 1);
    NextIsNew(sk, e, sent, s, inbox);
    SamePositionKeepsPassed(sent, s, sent, mid);
    PassedFrame(sk, e, sent, sent, s, mid, inbox);
    StoreGrows(sk, e, sent, mid, SkipOne(s), id, inbox);
  }

  lemma SkipOnePreserves(sk: Key, e: Ephemerals, sent: Log, s: State, inbox: seq<Delivery>)
    requires sk.Dh? && LogInv(sk, e, sent) && PartyInv(sk, e, sent, s, inbox)
    requires s.ckr.Some? && s.nr < |sent[Pos(s) - 1]|
    ensures PartyInv(sk, e, sent, SkipOne(s), inbox) && Pos(SkipOne(s)) == Pos(s)
  {
    SkipOneKeys(sk, e, sent, s);
    SkipOneStore(sk, e, sent, s, inbox);
  }

  /** Catching up along the receiving chain, as far as the peer has sent. */
  lemma {:induction false} SkipPreserves(sk: Key, e: Ephemerals, sent: Log, s: State, inbox: seq<Delivery>, until: u32)
    requires sk.Dh? && LogInv(sk, e, sent) && PartyInv(sk, e, sent, s, inbox)
    requires s.ckr.Some? && until <= |sent[Pos(s) - 1]|
    ensures PartyInv(sk, e, sent, SkipTo(s, until), inbox) && Pos(SkipTo(s, until)) == Pos(s)
    ensures SkipTo(s, until).nr == if s.nr < until then until else s.nr
    decreases until - s.nr
  {
    hide PartyInv, LogInv;
    if s.nr < until {
      HasReceivingChain(sk, e, sent, s, inbox);
      SkipOnePreserves(sk, e, sent, s, inbox);
      SkipPreserves(sk, e, sent, SkipOne(s), inbox, until);
    }
  }

  /** Filing the key of a message just passed. */
  lemma StoreGrows(sk: Key, e: Ephemerals, sent: Log, s: State, t: State, id: MsgId, inbox: seq<Delivery>)
    requires sk.Dh? && StoreInv(sk, e, sent, s) && InboxInv(sk, e, sent, s, inbox)
    requires Passed(sent, s, id) && id.n < U32_LIMIT
    requires forall k :: k in s.skipped ==> Earlier(k, KeyFor(sk, e, id))
    requires forall d :: d in inbox ==> d.id != id
    requires Pos(t) == Pos(s) && t.nr == s.nr
    requires (t.skipped, t.skippedOrder) ==
             Evict(s.skipped[KeyFor(sk, e, id) := MessageKey(sk, e, id.chain, id.n)],
                   s.skippedOrder + [KeyFor(sk, e, id)])
    ensures StoreInv(sk, e, sent, t) && InboxInv(sk, e, sent, t, inbox)
  {
    var key := KeyFor(sk, e, id);
    FileShape(s.skipped, s.skippedOrder, key, MessageKey(sk, e, id.chain, id.n));
    HkFacts(sk, e, id.chain);
    forall k | k in t.skipped
      ensures EntryInv(sk, e, sent, t, k)
    {
      assert k != key ==> EntryInv(sk, e, sent, s, k);
    }
    forall d | d in inbox
      ensures DeliveryInv(sk, e, sent, t, d)
    {
      assert DeliveryInv(sk, e, sent, s, d);
      HkInjective(sk, e, d.id.chain, id.chain);
    }
  }

  // ── Root steps and deliveries ──────────────────────────────────────────────

  /** The key fields between the two root steps of a receipt. */
  ghost predicate HalfTurned(sk: Key, e: Ephemerals, p: nat, s: State) {
    && s.rk == Rk(sk, e, p + 1) && s.dhsSecret == e(p)
    && s.hks == Some(Hk(sk, e, p + 2)) && s.hkr == Some(Hk(sk, e, p + 1))
    && s.ckr == Some(Ck(sk, e, p + 1)) && s.nhkr == Hk(sk, e, p + 3)
    && s.dhr == Some(e(p + 1)) && s.ns == 0 && s.nr == 0
  }

  lemma ReceivingChainKeys(sk: Key, e: Ephemerals, s: State, h: Header)
    requires KeysInSync(sk, e, s) && h.dhPub == e(Pos(s) + 1)
    ensures HalfTurned(sk, e, Pos(s), OpenReceivingChain(s, h))
  {
    hide Rk, Ck, Hk, CkAfter, RkDepth;
    DhSymmetric(e(Pos(s)), e(Pos(s) + 1));
    StepDerives(sk, e, Pos(s));
  }

  lemma SendingChainKeys(sk: Key, e: Ephemerals, p: nat, s: State, h: Header)
    requires sk.Dh? && HalfTurned(sk, e, p, s) && h.dhPub == e(p + 1)
    ensures var t := OpenSendingChain(s, h, e(p + 2));
            Pos(t) == p + 2 && KeysInSync(sk, e, t)
  {
    hide Rk, Ck, Hk, CkAfter, RkDepth;
    RkFacts(sk, e, p + 2);
    StepDerives(sk, e, p);
    StepDerives(sk, e, p + 1);
  }

  /** Both root steps land on the shared schedule. */
  lemma RatchetKeys(sk: Key, e: Ephemerals, s: State, h: Header)
    requires sk.Dh? && KeysInSync(sk, e, s) && h.dhPub == e(Pos(s) + 1)
    ensures KeysInSync(sk, e, DhRatchet(s, h, e(Pos(s) + 2)))
    ensures Pos(DhRatchet(s, h, e(Pos(s) + 2))) == Pos(s) + 2
  {
    hide KeysInSync, HalfTurned;
    ReceivingChainKeys(sk, e, s, h);
    SendingChainKeys(sk, e, Pos(s), OpenReceivingChain(s, h), h);
  }

  lemma LogOpens(sk: Key, e: Ephemerals, sent: Log)
    requires LogInv(sk, e, sent)
    ensures LogInv(sk, e, sent + [[]])
  {
    var later := sent + [[]];
    forall i, n | 1 <= i < |later| && 0 <= n < |later[i]|
      ensures Sealed(sk, e, i, PrevLen(later, i), n, later[i][n])
    {
      assert later[i][n] == sent[i][n] && PrevLen(later, i) == PrevLen(sent, i);
    }
  }

  lemma RatchetKeepsPassed(sent: Log, s: State, t: State)
    requires Pos(t) == Pos(s) + 2 && (Pos(s) >= 2 && Pos(s) <= |sent| ==> s.nr == |sent[Pos(s) - 1]|)
    ensures KeepsPassed(sent, s, sent + [[]], t)
  {
  }

  /** What was passed before a root step stays passed: the old receiving chain is complete. */
  lemma RatchetPreserves(sk: Key, e: Ephemerals, sent: Log, s: State, inbox: seq<Delivery>, h: Header)
    requires sk.Dh? && PartyInv(sk, e, sent, s, inbox)
    requires h.dhPub == e(Pos(s) + 1) && |sent| == Pos(s) + 2
    requires Pos(s) >= 2 ==> s.nr == |sent[Pos(s) - 1]|
    ensures var t := DhRatchet(s, h, e(Pos(s) + 2));
            Pos(t) == Pos(s) + 2 && PartyInv(sk, e, sent + [[]], t, inbox)
  {
    var t, later := DhRatchet(s, h, e(Pos(s) + 2)), sent + [[]];
    RatchetKeys(sk, e, s, h);
    RatchetKeepsPassed(sent, s, t);
    PassedFrame(sk, e, sent, later, s, t, inbox);
  }

  lemma HasReceivingChain(sk: Key, e: Ephemerals, sent: Log, s: State, inbox: seq<Delivery>)
    requires PartyInv(sk, e, sent, s, inbox) && (Pos(s) >= 2 || s.ckr.Some?)
    ensures Pos(s) >= 2 && s.ckr.Some? && s.hkr.Some? && Pos(s) < |sent| && s.nr <= |sent[Pos(s) - 1]|
  {
    hide Rk, Ck, Hk, CkAfter, StoreInv, InboxInv;
  }

  lemma AdvanceKeys(sk: Key, e: Ephemerals, sent: Log, s: State)
    requires LogInv(sk, e, sent) && KeysInSync(sk, e, s) && CountersInSync(sent, s)
    requires s.ckr.Some? && s.nr < |sent[Pos(s) - 1]|
    ensures KeysInSync(sk, e, Advance(s)) && CountersInSync(sent, Advance(s)) && Pos(Advance(s)) == Pos(s)
    ensures Advance(s).nr == s.nr + 1
  {
    hide Rk, Ck, Hk;
    assert CkAfter(Ck(sk, e, Pos(s) - 1), s.nr + 1) == CkNext(s.ckr.value);
  }

  /** Using the current message key of the receiving chain. */
  lemma AdvancePreserves(sk: Key, e: Ephemerals, sent: Log, s: State, inbox: seq<Delivery>)
    requires sk.Dh? && LogInv(sk, e, sent) && PartyInv(sk, e, sent, s, inbox)
    requires s.ckr.Some? && s.nr < |sent[Pos(s) - 1]|
    ensures var id := MsgId(Pos(s) - 1, s.nr);
            && PartyInv(sk, e, sent, Advance(s), inbox + [Delivery(id, sent[id.chain][id.n].pt)])
            && Pos(Advance(s)) == Pos(s) && (forall d :: d in inbox ==> d.id != id)
  {
    hide Rk, Ck, Hk, CkAfter, LogInv, EntryInv;
    var id, t := MsgId(Pos(s) - 1, s.nr), Advance(s);
    AdvanceKeys(sk, e, sent, s);
    SamePositionKeepsPassed(sent, s, sent, t);
    PassedFrame(sk, e, sent, sent, s, t, inbox);
    NextIsNew(sk, e, sent, s, inbox);
    InboxGrows(sk, e, sent, t, inbox, Delivery(id, sent[id.chain][id.n].pt));
  }

  /** The next message of the receiving chain comes after all that are stored, and is not delivered yet. */
  lemma NextIsNew(sk: Key, e: Ephemerals, sent: Log, s: State, inbox: seq<Delivery>)
    requires sk.Dh? && StoreInv(sk, e, sent, s) && InboxInv(sk, e, sent, s, inbox) && Pos(s) >= 2
    ensures forall k :: k in s.skipped ==> Earlier(k, KeyFor(sk, e, MsgId(Pos(s) - 1, s.nr)))
    ensures forall d :: d in inbox ==> d.id != MsgId(Pos(s) - 1, s.nr)
  {
    hide EntryInv, Earlier, Passed, KeyFor, MessageKey;
    forall k | k in s.skipped
      ensures Earlier(k, KeyFor(sk, e, MsgId(Pos(s) - 1, s.nr)))
    {
      EntryIsEarlier(sk, e, sent, s, k);
    }
    forall d | d in inbox
      ensures d.id != MsgId(Pos(s) - 1, s.nr)
    {
      DeliveredIsPassed(sk, e, sent, s, d);
    }
  }

  lemma EntryIsEarlier(sk: Key, e: Ephemerals, sent: Log, s: State, k: SkippedKey)
    requires sk.Dh? && k in s.skipped && EntryInv(sk, e, sent, s, k) && Pos(s) >= 2
    ensures Earlier(k, KeyFor(sk, e, MsgId(Pos(s) - 1, s.nr)))
  {
    hide Hk, MessageKey, HeaderChain;
    HkFacts(sk, e, Pos(s) - 1);
    HkFacts(sk, e, HeaderChain(k.0));
  }

  lemma DeliveredIsPassed(sk: Key, e: Ephemerals, sent: Log, s: State, d: Delivery)
    requires DeliveryInv(sk, e, sent, s, d)
    ensures d.id != MsgId(Pos(s) - 1, s.nr)
  {
    hide Hk, MessageKey;
  }

  lemma InboxGrows(sk: Key, e: Ephemerals, sent: Log, s: State, inbox: seq<Delivery>, d: Delivery)
    requires InboxInv(sk, e, sent, s, inbox) && DeliveryInv(sk, e, sent, s, d)
    requires forall c :: c in inbox ==> c.id != d.id
    ensures InboxInv(sk, e, sent, s, inbox + [d])
  {
  }

  // ── Taking a key out of the store ──────────────────────────────────────────

  /** Removing a key takes out its first occurrence and leaves the rest as it stands. */
  lemma {:induction false} RemoveFirstAt(order: seq<SkippedKey>, key: SkippedKey) returns (i: nat)
    requires key in order
    ensures i < |order| && order[i] == key && key !in order[..i]
    ensures RemoveFirst(order, key) == order[..i] + order[i + 1..]
  {
    i := 0;
    if order[0] != key {
      i := RemoveFirstAt(order[1..], key);
      assert order[..i + 1] == [order[0]] + order[1..][..i];
      assert order[1..][i + 1..] == order[i + 2..];
      i := i + 1;
    }
  }

  /** So a queue in insertion order stays in insertion order, without that key. */
  lemma RemoveFirstShape(order: seq<SkippedKey>, key: SkippedKey)
    requires Ordered(order) && key in order
    ensures |RemoveFirst(order, key)| == |order| - 1 && Ordered(RemoveFirst(order, key))
    ensures forall k :: k in RemoveFirst(order, key) <==> k in order && k != key
  {
    hide RemoveFirst;
    var i := RemoveFirstAt(order, key);
    var rest := order[..i] + order[i + 1..];
    assert forall a :: 0 <= a < |rest| ==> rest[a] == order[if a < i then a else a + 1];
    forall k ensures k in rest <==> k in order && k != key {
      if k in order && k != key {
        var a :| 0 <= a < |order| && order[a] == k;
        assert rest[if a < i then a else a - 1] == k;
      }
    }
  }

  lemma StoreOnlyKeys(sk: Key, e: Ephemerals, sent: Log, s: State, t: State)
    requires KeysInSync(sk, e, s) && CountersInSync(sent, s)
    requires t == s.(skipped := t.skipped, skippedOrder := t.skippedOrder)
    ensures KeysInSync(sk, e, t) && CountersInSync(sent, t) && Pos(t) == Pos(s)
  {
  }

  lemma ForgetPreserves(sk: Key, e: Ephemerals, sent: Log, s: State, inbox: seq<Delivery>, key: SkippedKey)
    requires PartyInv(sk, e, sent, s, inbox) && key in s.skipped
    ensures PartyInv(sk, e, sent, Forget(s, key), inbox) && Pos(Forget(s, key)) == Pos(s)
  {
    hide KeysInSync, CountersInSync, EntryInv, DeliveryInv;
    var t := Forget(s, key);
    RemoveFirstShape(s.skippedOrder, key);
    StoreOnlyKeys(sk, e, sent, s, t);
    SamePositionKeepsPassed(sent, s, sent, t);
    PassedFrame(sk, e, sent, sent, s, t, inbox);
  }
}
