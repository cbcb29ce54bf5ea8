/**
 * When a message that was passed over can still be decrypted: exactly as long as its
 * stored key was neither pushed out of a full store nor burned by a corrupted copy.
 */
module Completeness {
  import opened Bytes
  import opened Wrappers
  import opened Crypto
  import opened Session
  import opened Chains
  import opened Protocol
  import opened Invariant
  import opened Receiving
  import opened Runs
  import opened Retention
  import opened Guarantees
  import opened Sequences

  ghost predicate InInbox(inbox: seq<Delivery>, id: MsgId) {
    exists d :: d in inbox && d.id == id
  }

  /** If message `c` was passed over, it is delivered or its key is still stored. */
  ghost predicate Held(sk: Key, e: Ephemerals, sent: Log, s: State, inbox: seq<Delivery>, c: MsgId) {
    Passed(sent, s, c) ==> Stored(sk, e, s, c) || InInbox(inbox, c)
  }

  /** The store has no room for the keys `msg` makes the session file and for message `c`'s. */
  ghost predicate PushesOut(sk: Key, e: Ephemerals, s: State, msg: RatchetMessage, c: MsgId) {
    Stored(sk, e, s, c) && Behind(s.skippedOrder, KeyFor(sk, e, c)) + Steps(s, msg, e(Pos(s) + 2)) > MAX_SKIP_STORE
  }

  // ── One delivery ───────────────────────────────────────────────────────────

  lemma InboxAppends(inbox: seq<Delivery>, d: Delivery, id: MsgId)
    ensures InInbox(inbox + [d], id) <==> InInbox(inbox, id) || d.id == id
  {
    if d.id == id {
      assert (inbox + [d])[|inbox|] == d;
    }
    if InInbox(inbox, id) {
      var c :| c in inbox && c.id == id;
      assert c in inbox + [d];
    }
  }

  /** A delivered message has no stored key. */
  lemma DeliveredNotStored(sk: Key, e: Ephemerals, sent: Log, s: State, inbox: seq<Delivery>, c: MsgId)
    requires InboxInv(sk, e, sent, s, inbox) && InInbox(inbox, c)
    ensures !Stored(sk, e, s, c)
  {
    var d :| d in inbox && d.id == c;
    assert DeliveryInv(sk, e, sent, s, d);
  }

  /** Taking one key out of the store. */
  lemma ForgetHolds(sk: Key, e: Ephemerals, sent: Log, s: State, inbox: seq<Delivery>, id: MsgId, c: MsgId)
    requires sk.Dh? && Stored(sk, e, s, id)
    ensures var t := Forget(s, KeyFor(sk, e, id));
            && (Stored(sk, e, t, c) <==> Stored(sk, e, s, c) && c != id)
            && (Passed(sent, t, c) <==> Passed(sent, s, c))
  {
    hide Hk, RemoveFirst;
    if Stored(sk, e, s, c) {
      HkInjective(sk, e, c.chain, id.chain);
    }
  }

  lemma StoredTakeHolds(sk: Key, e: Ephemerals, sent: Log, s: State, inbox: seq<Delivery>, id: MsgId,
        d: Delivery, c: MsgId)
    requires Reachable(sk, e, sent, s, inbox) && WasSent(sent, id) && Stored(sk, e, s, id) && d.id == id
    ensures !PushesOut(sk, e, s, MessageOf(sent, id), c)
    ensures Held(sk, e, sent, Forget(s, KeyFor(sk, e, id)), inbox + [d], c) <==> Held(sk, e, sent, s, inbox, c)
  {
    hide KeysInSync, CountersInSync, LogInv, InboxInv, EntryInv, Stored, Passed, Forget, InInbox, Ordered;
    HitIsOwn(sk, e, sent, s, id);
    assert Steps(s, MessageOf(sent, id), e(Pos(s) + 2)) == 0;
    ForgetHolds(sk, e, sent, s, inbox, id, c);
    InboxAppends(inbox, d, c);
  }

  /** `t` comes from `s` by filing `keys` and then using the key of `id`. */
  ghost predicate TakesFrom(sk: Key, e: Ephemerals, sent: Log, s: State, later: Log, t: State,
        keys: seq<SkippedKey>, id: MsgId) {
    && t.skippedOrder == LastN(s.skippedOrder + keys, MAX_SKIP_STORE)
    && StoreShape(t.skipped, t.skippedOrder)
    && |keys| <= MAX_SKIP_STORE
    && forall c :: Passed(later, t, c) <==>
                     Passed(sent, s, c) || c == id || (c.chain >= 1 && c.n < U32_LIMIT && KeyFor(sk, e, c) in keys)
  }

  /** Only messages not passed before are filed anew. */
  ghost predicate NewKeys(sk: Key, e: Ephemerals, sent: Log, s: State, keys: seq<SkippedKey>) {
    forall c: MsgId :: c.chain >= 1 && c.n < U32_LIMIT && KeyFor(sk, e, c) in keys ==> !Passed(sent, s, c)
  }

  lemma TakeHolds(sk: Key, e: Ephemerals, sent: Log, s: State, inbox: seq<Delivery>, later: Log, t: State,
                  keys: seq<SkippedKey>, id: MsgId, d: Delivery, c: MsgId)
    requires Reachable(sk, e, sent, s, inbox) && TakesFrom(sk, e, sent, s, later, t, keys, id)
    requires NewKeys(sk, e, sent, s, keys) && d.id == id && !Passed(sent, s, id)
    ensures Held(sk, e, later, t, inbox + [d], c) <==>
            Held(sk, e, sent, s, inbox, c) &&
            !(Stored(sk, e, s, c) && Behind(s.skippedOrder, KeyFor(sk, e, c)) + |keys| > MAX_SKIP_STORE)
  {
    hide KeysInSync, CountersInSync, LogInv, InboxInv, EntryInv, Passed, InInbox, Hk, LastN;
    InboxAppends(inbox, d, c);
    if Stored(sk, e, s, c) {
      StoredIsPassed(sk, e, sent, s, c);
    }
    if InInbox(inbox, c) {
      DeliveredNotStored(sk, e, sent, s, inbox, c);
    }
    if c.chain >= 1 && c.n < U32_LIMIT {
      LastNHolds(s.skippedOrder, keys, MAX_SKIP_STORE, KeyFor(sk, e, c));
    }
  }

  lemma KeyInChain(sk: Key, e: Ephemerals, i: nat, from: u32, until: u32, c: MsgId)
    requires sk.Dh? && i >= 1 && c.chain >= 1 && c.n < U32_LIMIT
    ensures KeyFor(sk, e, c) in ChainKeys(Hk(sk, e, i), from, until) <==> c.chain == i && from <= c.n < until
  {
    HkInjective(sk, e, c.chain, i);
    InChainKeys(Hk(sk, e, i), from, until, KeyFor(sk, e, c));
  }

  lemma PassedOnward(sent: Log, s: State, t: State, id: MsgId, c: MsgId)
    requires Pos(t) == Pos(s) && WasSent(sent, id)
    requires Pos(s) >= 2 && id.chain == Pos(s) - 1 && s.nr <= id.n && t.nr == id.n + 1
    ensures Passed(sent, t, c) <==> Passed(sent, s, c) || (c.chain == id.chain && s.nr <= c.n <= id.n)
  {
  }

  lemma PassedAcross(sent: Log, s: State, t: State, id: MsgId, c: MsgId)
    requires Pos(t) == Pos(s) + 2 && |sent| == Pos(s) + 2 && WasSent(sent, id) && id.chain == Pos(s) + 1
    requires t.nr == id.n + 1 && (Pos(s) >= 2 ==> s.nr <= |sent[Pos(s) - 1]|)
    ensures Passed(sent + [[]], t, c) <==>
            || Passed(sent, s, c)
            || (Pos(s) >= 2 && c.chain == Pos(s) - 1 && s.nr <= c.n < |sent[Pos(s) - 1]|)
            || (c.chain == id.chain && c.n <= id.n)
  {
  }

  /** A message of the current chain. */
  lemma CurrentTakes(sk: Key, e: Ephemerals, sent: Log, s: State, inbox: seq<Delivery>, id: MsgId)
    requires Reachable(sk, e, sent, s, inbox) && WasSent(sent, id)
    requires Pos(s) >= 2 && id.chain == Pos(s) - 1 && s.nr <= id.n <= s.nr + MAX_SKIP
    ensures id.n < U32_LIMIT && s.ckr.Some? && s.hkr.Some?
    ensures var t, keys := Advance(SkipTo(s, id.n)), ChainKeys(Hk(sk, e, Pos(s) - 1), s.nr, id.n);
            && TakesFrom(sk, e, sent, s, sent, t, keys, id) && NewKeys(sk, e, sent, s, keys)
            && !Passed(sent, s, id) && Pos(t) == Pos(s)
  {
    hide LogInv, KeysInSync, InboxInv, EntryInv, Ordered, SkipTo, Hk, KeyFor, Passed, LastN, ChainKeys;
    ReachableBounds(sk, e, sent, s, inbox);
    CurrentQueue(sk, e, sent, s, inbox, id);
    SkipPreserves(sk, e, sent, s, inbox, id.n);
    DeliveredOnCurrentChain(sk, e, sent, s, inbox, id);
    var t, keys := Advance(SkipTo(s, id.n)), ChainKeys(Hk(sk, e, Pos(s) - 1), s.nr, id.n);
    forall c ensures Passed(sent, t, c) <==> Passed(sent, s, c) || (c.chain == id.chain && s.nr <= c.n <= id.n) {
      PassedOnward(sent, s, t, id, c);
    }
    forall c: MsgId | c.chain >= 1 && c.n < U32_LIMIT
      ensures KeyFor(sk, e, c) in keys <==> c.chain == id.chain && s.nr <= c.n < id.n
    {
      KeyInChain(sk, e, Pos(s) - 1, s.nr, id.n, c);
    }
    AheadNotPassed(sent, s);
  }

  lemma AheadNotPassed(sent: Log, s: State)
    ensures forall c: MsgId :: c.chain == Pos(s) - 1 && c.n >= s.nr ==> !Passed(sent, s, c)
    ensures forall c: MsgId :: c.chain == Pos(s) + 1 ==> !Passed(sent, s, c)
  {
  }

  /** The first of the peer's next chain to arrive. */
  lemma NextTakes(sk: Key, e: Ephemerals, sent: Log, s: State, inbox: seq<Delivery>, id: MsgId)
    requires Reachable(sk, e, sent, s, inbox) && WithinReach(sent, s, id)
    requires id.chain == Pos(s) + 1 && |sent| == Pos(s) + 2
    ensures id.n < U32_LIMIT && PrevLen(sent, id.chain) < U32_LIMIT && (Pos(s) >= 2 ==> |sent[Pos(s) - 1]| < U32_LIMIT)
    ensures var u := Turned(e, s, HeaderOf(e, sent, id));
            && u.ckr.Some? && u.hkr.Some?
            && var t := Advance(SkipTo(u, id.n));
               var keys := RestKeys(sk, e, sent, s) + ChainKeys(Hk(sk, e, Pos(s) + 1), 0, id.n);
               && TakesFrom(sk, e, sent, s, sent + [[]], t, keys, id) && NewKeys(sk, e, sent, s, keys)
               && !Passed(sent, s, id) && Pos(t) == Pos(s) + 2
  {
    hide LogInv, KeysInSync, InboxInv, EntryInv, Ordered, SkipTo, Hk, KeyFor, Passed, LastN, ChainKeys, Turned;
    ReachableBounds(sk, e, sent, s, inbox);
    NextQueue(sk, e, sent, s, inbox, id);
    DeliveredOnNextChain(sk, e, sent, s, inbox, id);
    var u := Turned(e, s, HeaderOf(e, sent, id));
    var t := Advance(SkipTo(u, id.n));
    TurnedQueue(e, s, HeaderOf(e, sent, id));
    forall c ensures Passed(sent + [[]], t, c) <==>
            || Passed(sent, s, c)
            || (Pos(s) >= 2 && c.chain == Pos(s) - 1 && s.nr <= c.n < |sent[Pos(s) - 1]|)
            || (c.chain == id.chain && c.n <= id.n)
    {
      PassedAcross(sent, s, t, id, c);
    }
    AcrossKeys(sk, e, sent, s, id);
    AheadNotPassed(sent, s);
  }

  lemma AcrossKeys(sk: Key, e: Ephemerals, sent: Log, s: State, id: MsgId)
    requires sk.Dh? && id.n < U32_LIMIT
    requires Pos(s) >= 2 ==> Pos(s) <= |sent| && |sent[Pos(s) - 1]| < U32_LIMIT
    ensures forall c: MsgId :: c.chain >= 1 && c.n < U32_LIMIT ==>
              (KeyFor(sk, e, c) in RestKeys(sk, e, sent, s) + ChainKeys(Hk(sk, e, Pos(s) + 1), 0, id.n) <==>
               (Pos(s) >= 2 && c.chain == Pos(s) - 1 && s.nr <= c.n < |sent[Pos(s) - 1]|)
               || (c.chain == Pos(s) + 1 && c.n < id.n))
  {
    hide Hk, KeyFor, ChainKeys;
    forall c: MsgId | c.chain >= 1 && c.n < U32_LIMIT
      ensures KeyFor(sk, e, c) in RestKeys(sk, e, sent, s) + ChainKeys(Hk(sk, e, Pos(s) + 1), 0, id.n) <==>
              (Pos(s) >= 2 && c.chain == Pos(s) - 1 && s.nr <= c.n < |sent[Pos(s) - 1]|)
              || (c.chain == Pos(s) + 1 && c.n < id.n)
    {
      KeyInChain(sk, e, Pos(s) + 1, 0, id.n, c);
      if Pos(s) >= 2 {
        KeyInChain(sk, e, Pos(s) - 1, s.nr, |sent[Pos(s) - 1]|, c);
      }
    }
  }

  /** An accepted message pushes out exactly the stored keys the queue has no room for, and loses nothing else. */
  lemma AcceptedHolds(sk: Key, e: Ephemerals, sent: Log, s: State, inbox: seq<Delivery>, id: MsgId, c: MsgId)
    requires Reachable(sk, e, sent, s, inbox) && WasSent(sent, id)
    requires Verdict(e, s, MessageOf(sent, id)).Ok?
    ensures var t := Decrypt(s, MessageOf(sent, id), e(Pos(s) + 2)).1;
            Held(sk, e, OpenChain(sent, Pos(t)), t, inbox + [Delivery(id, sent[id.chain][id.n].pt)], c) <==>
            Held(sk, e, sent, s, inbox, c) && !PushesOut(sk, e, s, MessageOf(sent, id), c)
  {
    hide LogInv, StoreInv, InboxInv, KeysInSync, Decrypt, SkipTo, Turned, Advance, Steps, Held, TakesFrom, NewKeys,
      RestKeys, ChainKeys, Stored, Passed, Hk;
    var d, msg, newKey := Delivery(id, sent[id.chain][id.n].pt), MessageOf(sent, id), e(Pos(s) + 2);
    ReceiveGenuine(sk, e, sent, s, inbox, id, msg);
    ReachableBounds(sk, e, sent, s, inbox);
    if Stored(sk, e, s, id) {
      StoredBounds(sk, e, s, id);
      FromStore(sk, e, sent, s, id, msg, newKey);
      ForgetPreserves(sk, e, sent, s, inbox, KeyFor(sk, e, id));
      StoredTakeHolds(sk, e, sent, s, inbox, id, d, c);
    } else if Pos(s) >= 2 && id.chain == Pos(s) - 1 {
      GenuineSteps(sk, e, sent, s, inbox, id);
      CurrentChain(sk, e, sent, s, inbox, id, msg, newKey);
      CurrentTakes(sk, e, sent, s, inbox, id);
      var keys := ChainKeys(Hk(sk, e, Pos(s) - 1), s.nr, id.n);
      TakeHolds(sk, e, sent, s, inbox, sent, Advance(SkipTo(s, id.n)), keys, id, d, c);
    } else {
      GenuineSteps(sk, e, sent, s, inbox, id);
      NextChain(sk, e, sent, s, inbox, id, msg);
      NextTakes(sk, e, sent, s, inbox, id);
      var keys := RestKeys(sk, e, sent, s) + ChainKeys(Hk(sk, e, Pos(s) + 1), 0, id.n);
      TakeHolds(sk, e, sent, s, inbox, sent + [[]], Advance(SkipTo(Turned(e, s, HeaderOf(e, sent, id)), id.n)),
            keys, id, d, c);
    }
  }

  lemma StoredBounds(sk: Key, e: Ephemerals, s: State, id: MsgId)
    requires Stored(sk, e, s, id)
    ensures id.chain >= 1 && id.n < U32_LIMIT && KeyFor(sk, e, id) in s.skipped
  {
  }

  // ── Whole runs ─────────────────────────────────────────────────────────────

  /**
   * The two ways a step can cost side `who` the stored key of message `c`: an accepted
   * message makes it file more keys than there is room for, or a corrupted ciphertext
   * came under c's own header and the session is used on.
   */
  ghost predicate Harms(sk: Key, e: Ephemerals, sys: System, act: Action, who: Who, c: MsgId) {
    match act
    case Send(_, _, _) => false
    case Receive(to, msg, keep) =>
      var s := Get(sys, who).sess;
      && to == who
      && if Verdict(e, s, msg).Ok? then PushesOut(sk, e, s, msg, c)
         else keep && Stored(sk, e, s, c) && SkippedHit(s, msg.encHeader) == Some(KeyFor(sk, e, c))
  }

  ghost predicate Unharmed(sk: Key, e: Ephemerals, run: seq<Action>, who: Who, c: MsgId) {
    |run| > 0 ==>
      && Unharmed(sk, e, run[..|run| - 1], who, c)
      && !Harms(sk, e, After(sk, e, run[..|run| - 1]), run[|run| - 1], who, c)
  }

  ghost predicate HeldBy(sk: Key, e: Ephemerals, sys: System, who: Who, c: MsgId) {
    Held(sk, e, sys.sent, Get(sys, who).sess, Get(sys, who).inbox, c)
  }

  /** What happens on the peer's side, or on the own sending chain, passes nothing. */
  lemma LogKeepsHeld(sk: Key, e: Ephemerals, sent: Log, later: Log, s: State, t: State, inbox: seq<Delivery>, c: MsgId)
    requires CountersInSync(sent, s) && Extends(sent, later)
    requires forall i :: 0 <= i < Pos(s) && i != Pos(s) - 1 ==> later[i] == sent[i]
    requires t == s.(cks := t.cks, ns := t.ns)
    ensures Held(sk, e, later, t, inbox, c) <==> Held(sk, e, sent, s, inbox, c)
  {
    hide Hk, KeyFor;
  }

  lemma SendHolds(sk: Key, e: Ephemerals, sys: System, actor: Who, pt: seq<byte>, nonce: seq<byte>, who: Who, c: MsgId)
    requires SystemInv(sk, e, sys)
    ensures HeldBy(sk, e, DoSend(sys, actor, pt, nonce), who, c) <==> HeldBy(sk, e, sys, who, c)
  {
    hide Held, LogInv, KeysInSync, StoreInv, InboxInv, Henc;
    var p := Get(sys, actor);
    var (r, t) := Encrypt(p.sess, pt, nonce);
    if r.Ok? {
      var later := LogSent(sys.sent, Pos(p.sess), Sent(pt, nonce, r.value));
      var q := Get(sys, who);
      LogKeepsHeld(sk, e, sys.sent, later, q.sess, if actor == who then t else q.sess, q.inbox, c);
    }
  }

  lemma OtherReceives(sk: Key, e: Ephemerals, sys: System, to: Who, msg: RatchetMessage, keep: bool, who: Who, c: MsgId)
    requires SystemInv(sk, e, sys) && to != who
    ensures HeldBy(sk, e, DoReceive(e, sys, to, msg, keep), who, c) <==> HeldBy(sk, e, sys, who, c)
  {
    hide Held, LogInv, KeysInSync, StoreInv, InboxInv, Decrypt, IdOf;
    var t := Decrypt(Get(sys, to).sess, msg, e(Pos(Get(sys, to).sess) + 2)).1;
    var q := Get(sys, who);
    LogKeepsHeld(sk, e, sys.sent, OpenChain(sys.sent, Pos(t)), q.sess, q.sess, q.inbox, c);
  }

  lemma FailureHolds(sk: Key, e: Ephemerals, sent: Log, s: State, inbox: seq<Delivery>, msg: RatchetMessage, c: MsgId)
    requires Reachable(sk, e, sent, s, inbox) && Obtainable(sk, sent, msg) && Verdict(e, s, msg).Err?
    ensures var t := Decrypt(s, msg, e(Pos(s) + 2)).1;
            Held(sk, e, sent, t, inbox, c) <==>
            Held(sk, e, sent, s, inbox, c) && !(Stored(sk, e, s, c) && SkippedHit(s,
                  msg.encHeader) == Some(KeyFor(sk, e, c)))
  {
    hide LogInv, KeysInSync, InboxInv, Decrypt, Forget, SkippedHit, EntryInv, Hk;
    FailureLeavesNoTrace(s, msg, e(Pos(s) + 2));
    var hit := SkippedHit(s, msg.encHeader);
    if hit.Some? {
      HitIsStored(s, msg.encHeader);
      StoredHasId(sk, e, sent, s, hit.value);
      var id := MsgId(HeaderChain(hit.value.0), hit.value.1);
      ForgetHolds(sk, e, sent, s, inbox, id, c);
      if Stored(sk, e, s, c) {
        HkFacts(sk, e, c.chain);
        StoredIsPassed(sk, e, sent, s, c);
        if InInbox(inbox, c) {
          DeliveredNotStored(sk, e, sent, s, inbox, c);
        }
      }
    }
  }

  lemma HitIsStored(s: State, enc: EncHeader)
    ensures SkippedHit(s, enc).Some? ==> SkippedHit(s, enc).value in s.skipped
  {
  }

  lemma StoredHasId(sk: Key, e: Ephemerals, sent: Log, s: State, k: SkippedKey)
    requires sk.Dh? && StoreInv(sk, e, sent, s) && k in s.skipped
    ensures var id := MsgId(HeaderChain(k.0), k.1); Stored(sk, e, s, id) && id.chain >= 1 && KeyFor(sk, e, id) == k
  {
    assert EntryInv(sk, e, sent, s, k);
  }

  lemma ReceiveHolds(sk: Key, e: Ephemerals, sys: System, who: Who, msg: RatchetMessage, keep: bool, c: MsgId)
    requires SystemInv(sk, e, sys) && Obtainable(sk, sys.sent, msg)
    ensures HeldBy(sk, e, DoReceive(e, sys, who, msg, keep), who, c) <==>
            HeldBy(sk, e, sys, who, c) && !Harms(sk, e, sys, Receive(who, msg, keep), who, c)
  {
    hide Held, LogInv, PartyInv, Decrypt, PushesOut, Stored, SkippedHit, Obtainable;
    var p := Get(sys, who);
    if Verdict(e, p.sess, msg).Ok? {
      ReceivePreserves(sk, e, sys.sent, p.sess, p.inbox, msg);
      DeliveredWasSent(sk, e, sys.sent, p.sess, p.inbox, Decrypt(p.sess, msg, e(Pos(p.sess) + 2)).1,
            IdOf(msg.encHeader));
      AcceptedHolds(sk, e, sys.sent, p.sess, p.inbox, IdOf(msg.encHeader), c);
    } else {
      FailureHolds(sk, e, sys.sent, p.sess, p.inbox, msg, c);
    }
  }

  lemma DeliveredWasSent(sk: Key, e: Ephemerals, sent: Log, s: State, inbox: seq<Delivery>, t: State, id: MsgId)
    requires Delivered(sk, e, sent, s, inbox, t, id)
    ensures WasSent(sent, id)
  {
    hide LogInv, PartyInv;
  }

  /** A message a side has passed over is delivered or still stored exactly when no step of the run harmed it. */
  lemma {:induction false} HeldIffUnharmed(sk: Key, e: Ephemerals, run: seq<Action>, who: Who, c: MsgId)
    requires sk.Dh? && ValidRun(sk, e, run)
    ensures HeldBy(sk, e, After(sk, e, run), who, c) <==> Unharmed(sk, e, run, who, c)
  {
    hide SystemInv, HeldBy, Obtainable, DoSend, DoReceive, Harms;
    if |run| == 0 {
      InitHolds(sk, e, who, c);
    } else {
      var init, act := run[..|run| - 1], run[|run| - 1];
      var before := After(sk, e, init);
      HeldIffUnharmed(sk, e, init, who, c);
      RunInv(sk, e, init);
      StepHolds(sk, e, before, act, who, c);
    }
  }

  lemma StepHolds(sk: Key, e: Ephemerals, sys: System, act: Action, who: Who, c: MsgId)
    requires SystemInv(sk, e, sys) && Enabled(sk, sys, act)
    ensures HeldBy(sk, e, Apply(e, sys, act), who, c) <==> HeldBy(sk, e, sys, who, c) && !Harms(sk, e, sys, act, who, c)
  {
    hide SystemInv, HeldBy, Obtainable, DoSend, DoReceive, Verdict, PushesOut, Stored, SkippedHit;
    match act
    case Send(actor, pt, nonce) => SendHolds(sk, e, sys, actor, pt, nonce, who, c);
    case Receive(to, msg, keep) =>
      if to == who {
        ReceiveHolds(sk, e, sys, who, msg, keep, c);
      } else {
        OtherReceives(sk, e, sys, to, msg, keep, who, c);
      }
  }

  lemma InitHolds(sk: Key, e: Ephemerals, who: Who, c: MsgId)
    ensures HeldBy(sk, e, Init(sk, e), who, c)
  {
    hide Rk, Ck, Hk;
  }

  /**
   * After every run, whatever it did: a message of the peer that was not delivered is
   * decrypted to its own plaintext if and only if it lies ahead with no gap above
   * MAX_SKIP, or it was passed over and no step of the run harmed it.
   */
  lemma UndeliveredStaysDecryptable(sk: Key, e: Ephemerals, run: seq<Action>, who: Who, id: MsgId)
    requires sk.Dh? && ValidRun(sk, e, run)
    requires WasSent(After(sk, e, run).sent, id) && !InInbox(Get(After(sk, e, run), who).inbox, id)
    ensures var sys := After(sk, e, run);
            var s := Get(sys, who).sess;
            if WithinReach(sys.sent, s, id) || (Passed(sys.sent, s, id) && Unharmed(sk, e, run, who, id))
            then Verdict(e, s, MessageOf(sys.sent, id)) == Ok(sys.sent[id.chain][id.n].pt)
            else Verdict(e, s, MessageOf(sys.sent, id)).Err?
  {
    hide PartyInv, LogInv, Verdict, Unharmed;
    RunInv(sk, e, run);
    HeldIffUnharmed(sk, e, run, who, id);
    var sys := After(sk, e, run);
    StaysDecryptable(sk, e, sys.sent, Get(sys, who).sess, Get(sys, who).inbox, id);
  }

  lemma StaysDecryptable(sk: Key, e: Ephemerals, sent: Log, s: State, inbox: seq<Delivery>, id: MsgId)
    requires Reachable(sk, e, sent, s, inbox) && WasSent(sent, id) && !InInbox(inbox, id)
    ensures if WithinReach(sent, s, id) || (Passed(sent, s, id) && Held(sk, e, sent, s, inbox, id))
            then Verdict(e, s, MessageOf(sent, id)) == Ok(sent[id.chain][id.n].pt)
            else Verdict(e, s, MessageOf(sent, id)).Err?
  {
    hide Decrypt, LogInv, KeysInSync, CountersInSync, InboxInv, EntryInv, WithinReach;
    ReceiveGenuine(sk, e, sent, s, inbox, id, MessageOf(sent, id));
    if Stored(sk, e, s, id) {
      StoredIsPassed(sk, e, sent, s, id);
    }
  }
}
