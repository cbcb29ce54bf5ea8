/** Which message keys a session keeps for later, and when one is lost. */
module Retention {
  import opened Bytes
  import opened Wrappers
  import opened Crypto
  import opened Session
  import opened Chains
  import opened Protocol
  import opened Invariant
  import opened Receiving
  import opened Runs
  import opened Sequences

  // ── First in, first out ────────────────────────────────────────────────────

  /** The store keys of messages `from`, …, `until` - 1 of one chain, in order. */
  function ChainKeys(hk: Key, from: u32, until: u32): (r: seq<SkippedKey>)
    ensures |r| == if from < until then until - from else 0
    decreases until - from
  {
    if from < until then [(hk, from)] + ChainKeys(hk, from + 1, until) else []
  }

  lemma SkipOneIsFifo(sk: Key, e: Ephemerals, sent: Log, s: State, inbox: seq<Delivery>)
    requires sk.Dh? && PartyInv(sk, e, sent, s, inbox) && s.ckr.Some? && s.nr + 1 < U32_LIMIT
    ensures s.hkr.Some?
    ensures SkipOne(s).skippedOrder == LastN(s.skippedOrder + [(s.hkr.value, s.nr)], MAX_SKIP_STORE)
  {
    hide LogInv, DeliveryInv, EntryInv, CkAfter, Rk, Ck;
    NextIsNew(sk, e, sent, s, inbox);
    FileShape(s.skipped, s.skippedOrder, (s.hkr.value, s.nr), Mk(s.ckr.value));
  }

  /** Skipping appends the passed-over keys in order and keeps the newest MAX_SKIP_STORE. */
  lemma {:induction false} SkippingIsFifo(sk: Key, e: Ephemerals, sent: Log, s: State, inbox: seq<Delivery>, until: u32)
    requires sk.Dh? && LogInv(sk, e, sent) && PartyInv(sk, e, sent, s, inbox)
    requires s.ckr.Some? && Pos(s) <= |sent| && until <= |sent[Pos(s) - 1]|
    ensures s.hkr.Some?
    ensures SkipTo(s, until).skippedOrder ==
            LastN(s.skippedOrder + ChainKeys(s.hkr.value, s.nr, until), MAX_SKIP_STORE)
    decreases until - s.nr
  {
    hide LogInv, PartyInv, LastN;
    HasReceivingChain(sk, e, sent, s, inbox);
    if s.nr < until {
      SkipOneIsFifo(sk, e, sent, s, inbox);
      SkipOnePreserves(sk, e, sent, s, inbox);
      SkippingIsFifo(sk, e, sent, SkipOne(s), inbox, until);
      LastNStep(s.skippedOrder, (s.hkr.value, s.nr), ChainKeys(s.hkr.value, s.nr + 1, until), MAX_SKIP_STORE);
    } else {
      FullOrderKept(sk, e, sent, s, inbox);
    }
  }

  lemma FullOrderKept(sk: Key, e: Ephemerals, sent: Log, s: State, inbox: seq<Delivery>)
    requires PartyInv(sk, e, sent, s, inbox)
    ensures LastN(s.skippedOrder + [], MAX_SKIP_STORE) == s.skippedOrder
  {
    hide KeysInSync, CountersInSync, InboxInv, EntryInv;
    assert s.skippedOrder + [] == s.skippedOrder;
  }

  // ── How many keys one message can cost ─────────────────────────────────────

  /** Turns of the skipping loop. */
  function SkipSteps(s: State, until: u32): (n: nat)
    requires s.ckr.Some? && s.hkr.Some?
    ensures n == if s.nr < until then until - s.nr else 0
    decreases until - s.nr
  {
    if s.nr >= until then 0 else 1 + SkipSteps(SkipOne(s), until)
  }

  function SkipMessageSteps(s: State, until: u32): nat {
    if s.ckr.None? || SkipMessageKeys(s, until).Err? then 0 else SkipSteps(s, until)
  }

  function PrepareSteps(s: State, h: Header, ratchet: bool, newKey: Pub): nat {
    if !ratchet then SkipMessageSteps(s, h.n)
    else
      SkipMessageSteps(s, h.pn) +
      match SkipMessageKeys(s, h.pn)
      case Err(_) => 0
      case Ok(t) => SkipMessageSteps(DhRatchet(t, h, newKey), h.n)
  }

  /** How many message keys one `decrypt` derives to file them away, whatever comes of it. */
  function Steps(s: State, msg: RatchetMessage, newKey: Pub): nat {
    if SkippedHit(s, msg.encHeader).Some? then 0
    else
      match DecryptHeader(s, msg.encHeader)
      case None => 0
      case Some((h, ratchet)) => PrepareSteps(s, h, ratchet, newKey)
  }

  /** The store keys of `t` that `s` does not have. */
  function Filed(s: State, t: State): set<SkippedKey> {
    t.skipped.Keys - s.skipped.Keys
  }

  lemma OneMore<T>(a: set<T>, b: set<T>, x: T, was: set<T>)
    requires b <= a + {x}
    ensures |b - was| <= |a - was| + 1
  {
    Smaller(b - was, (a - was) + {x});
  }

  lemma {:induction false} Smaller<T>(a: set<T>, b: set<T>)
    requires a <= b
    ensures |a| <= |b|
  {
    if a != {} {
      var x :| x in a;
      Smaller(a - {x}, b - {x});
    }
  }

  lemma SkipOneFiles(s: State, was: State)
    requires s.ckr.Some? && s.hkr.Some? && s.nr + 1 < U32_LIMIT
    ensures |Filed(was, SkipOne(s))| <= |Filed(was, s)| + 1
  {
    var key := (s.hkr.value, s.nr);
    EvictShrinks(s.skipped[key := Mk(s.ckr.value)], s.skippedOrder + [key]);
    OneMore(s.skipped.Keys, SkipOne(s).skipped.Keys, key, was.skipped.Keys);
  }

  /** Each turn of the loop files at most one key that was not there. */
  lemma {:induction false} SkipToFiles(s: State, until: u32, was: State)
    requires s.ckr.Some? && s.hkr.Some?
    ensures |Filed(was, SkipTo(s, until))| <= |Filed(was, s)| + SkipSteps(s, until)
    decreases until - s.nr
  {
    hide Filed;
    if s.nr < until {
      SkipOneFiles(s, was);
      SkipToFiles(SkipOne(s), until, was);
    }
  }

  lemma SkipMessageFiles(s: State, until: u32, was: State)
    ensures SkipMessageSteps(s, until) <= MAX_SKIP
    ensures SkipMessageKeys(s, until).Ok? ==>
              |Filed(was, SkipMessageKeys(s, until).value)| <= |Filed(was, s)| + SkipMessageSteps(s, until)
  {
    hide Filed, SkipTo;
    if s.ckr.Some? && s.hkr.Some? {
      SkipToFiles(s, until, was);
    }
  }

  lemma PrepareFiles(s: State, h: Header, ratchet: bool, newKey: Pub)
    ensures PrepareSteps(s, h, ratchet, newKey) <= 2 * MAX_SKIP
    ensures Prepare(s, h, ratchet, newKey).Ok? ==>
              |Filed(s, Prepare(s, h, ratchet, newKey).value)| <= PrepareSteps(s, h, ratchet, newKey)
  {
    hide SkipMessageKeys, SkipMessageSteps;
    if ratchet {
      SkipMessageFiles(s, h.pn, s);
      if SkipMessageKeys(s, h.pn).Ok? {
        SkipMessageFiles(DhRatchet(SkipMessageKeys(s, h.pn).value, h, newKey), h.n, s);
      }
    } else {
      SkipMessageFiles(s, h.n, s);
    }
  }

  lemma AheadFiles(s: State, msg: RatchetMessage, newKey: Pub)
    requires SkippedHit(s, msg.encHeader).None?
    ensures Steps(s, msg, newKey) <= 2 * MAX_SKIP
    ensures |Filed(s, DecryptAhead(s, msg, newKey).1)| <= Steps(s, msg, newKey)
  {
    hide Prepare, PrepareSteps, OpenMessage, DecryptHeader, SkippedHit;
    var found := DecryptHeader(s, msg.encHeader);
    assert Filed(s, s) == {};
    if found.Some? {
      PrepareFiles(s, found.value.0, found.value.1, newKey);
    }
  }

  lemma ForgetFilesNothing(s: State, key: SkippedKey)
    ensures Filed(s, Forget(s, key)) == {}
  {
    hide RemoveFirst;
  }

  /**
   * For any session at all and any message, accepted or not, one `decrypt` derives at most
   * 2 * MAX_SKIP keys to be skipped, and no more than these are new in the store afterwards.
   */
  lemma SkipBudget(s: State, msg: RatchetMessage, newKey: Pub)
    ensures Steps(s, msg, newKey) <= 2 * MAX_SKIP
    ensures |Filed(s, Decrypt(s, msg, newKey).1)| <= Steps(s, msg, newKey)
  {
    hide Filed, DecryptAhead, Forget, SkippedHit, DecryptHeader, PrepareSteps;
    match SkippedHit(s, msg.encHeader)
    case Some(key) => ForgetFilesNothing(s, key);
    case None => AheadFiles(s, msg, newKey);
  }

  // ── Which stored keys a message pushes out ─────────────────────────────────

  /** How many stored keys are not older than `key`, itself included. */
  function Behind(order: seq<SkippedKey>, key: SkippedKey): (n: nat)
    ensures n <= |order|
  {
    if |order| == 0 then 0 else if order[0] == key then |order| else Behind(order[1..], key)
  }

  lemma {:induction false} BehindAt(order: seq<SkippedKey>, i: nat)
    requires Ordered(order) && i < |order|
    ensures Behind(order, order[i]) == |order| - i
  {
    if i > 0 {
      BehindAt(order[1..], i - 1);
    }
  }

  /** What a full queue still holds once `keys` were appended. */
  lemma LastNHolds(order: seq<SkippedKey>, keys: seq<SkippedKey>, n: nat, x: SkippedKey)
    requires Ordered(order) && |order| <= n && |keys| <= n && (x in order ==> x !in keys)
    ensures x in LastN(order + keys, n) <==> x in keys || (x in order && Behind(order, x) + |keys| <= n)
  {
    var all := order + keys;
    var cut := |all| - |LastN(all, n)|;
    assert forall j :: cut <= j < |all| ==> LastN(all, n)[j - cut] == all[j];
    if x in order {
      var i :| 0 <= i < |order| && order[i] == x;
      BehindAt(order, i);
      assert all[i] == x;
    } else if x in keys {
      var i :| 0 <= i < |keys| && keys[i] == x;
      assert all[|order| + i] == x;
    }
  }

  lemma {:induction false} InChainKeys(hk: Key, from: u32, until: u32, k: SkippedKey)
    ensures k in ChainKeys(hk, from, until) <==> k.0 == hk && from <= k.1 < until
    decreases until - from
  {
    if from < until {
      InChainKeys(hk, from + 1, until, k);
    }
  }

  lemma ReachableBounds(sk: Key, e: Ephemerals, sent: Log, s: State, inbox: seq<Delivery>)
    requires Reachable(sk, e, sent, s, inbox)
    ensures Pos(s) < |sent| && forall i :: 0 <= i < |sent| ==> |sent[i]| < U32_LIMIT
    ensures Pos(s) >= 2 ==> s.nr <= |sent[Pos(s) - 1]| && s.hkr == Some(Hk(sk, e, Pos(s) - 1))
    ensures s.nhkr == Hk(sk, e, Pos(s) + 1)
    ensures s.ckr.Some? <==> Pos(s) >= 2
    ensures StoreShape(s.skipped, s.skippedOrder)
  {
    hide Rk, Ck, CkAfter, Hk, Sealed, EntryInv, InboxInv, Ordered;
  }

  /** Along the receiving chain. */
  lemma CurrentQueue(sk: Key, e: Ephemerals, sent: Log, s: State, inbox: seq<Delivery>, id: MsgId)
    requires Reachable(sk, e, sent, s, inbox) && WasSent(sent, id)
    requires Pos(s) >= 2 && id.chain == Pos(s) - 1 && s.nr <= id.n
    ensures id.n < U32_LIMIT && s.ckr.Some? && s.hkr == Some(Hk(sk, e, Pos(s) - 1))
    ensures SkipTo(s, id.n).skippedOrder ==
            LastN(s.skippedOrder + ChainKeys(Hk(sk, e, Pos(s) - 1), s.nr, id.n), MAX_SKIP_STORE)
  {
    hide PartyInv, LogInv, SkipTo, ChainKeys, LastN, StoreShape;
    ReachableBounds(sk, e, sent, s, inbox);
    SkippingIsFifo(sk, e, sent, s, inbox, id.n);
  }

  /** The rest of the receiving chain. */
  function RestKeys(sk: Key, e: Ephemerals, sent: Log, s: State): (keys: seq<SkippedKey>)
    requires Pos(s) >= 2 ==> Pos(s) <= |sent| && |sent[Pos(s) - 1]| < U32_LIMIT
  {
    if Pos(s) >= 2 then ChainKeys(Hk(sk, e, Pos(s) - 1), s.nr, |sent[Pos(s) - 1]|) else []
  }

  lemma CaughtUpQueue(sk: Key, e: Ephemerals, sent: Log, s: State, inbox: seq<Delivery>)
    requires Reachable(sk, e, sent, s, inbox) && |sent| == Pos(s) + 2
    ensures PrevLen(sent, Pos(s) + 1) < U32_LIMIT && (Pos(s) >= 2 ==> |sent[Pos(s) - 1]| < U32_LIMIT)
    ensures CaughtUp(s, PrevLen(sent, Pos(s) + 1)).skippedOrder ==
            LastN(s.skippedOrder + RestKeys(sk, e, sent, s), MAX_SKIP_STORE)
  {
    hide PartyInv, LogInv, SkipTo, ChainKeys, LastN, StoreShape;
    ReachableBounds(sk, e, sent, s, inbox);
    CaughtUpPreserves(sk, e, sent, s, inbox);
    if Pos(s) >= 2 {
      SkippingIsFifo(sk, e, sent, s, inbox, |sent[Pos(s) - 1]|);
    } else {
      FullOrderKept(sk, e, sent, s, inbox);
    }
  }

  lemma TurnedQueue(e: Ephemerals, s: State, h: Header)
    ensures Turned(e, s, h).skippedOrder == CaughtUp(s, h.pn).skippedOrder
    ensures Turned(e, s, h).hkr == Some(CaughtUp(s, h.pn).nhkr) && Turned(e, s, h).nr == 0
    ensures CaughtUp(s, h.pn).nhkr == s.nhkr
  {
    hide SkipTo;
    if s.ckr.Some? && s.hkr.Some? {
      SkipToKeepsNext(s, h.pn);
    }
  }

  lemma {:induction false} SkipToKeepsNext(s: State, until: u32)
    requires s.ckr.Some? && s.hkr.Some?
    ensures SkipTo(s, until).nhkr == s.nhkr
    decreases until - s.nr
  {
    hide Evict;
    if s.nr < until {
      SkipToKeepsNext(SkipOne(s), until);
    }
  }

  /** Across a root step. */
  lemma NextQueue(sk: Key, e: Ephemerals, sent: Log, s: State, inbox: seq<Delivery>, id: MsgId)
    requires Reachable(sk, e, sent, s, inbox) && WasSent(sent, id)
    requires id.chain == Pos(s) + 1 && |sent| == Pos(s) + 2
    ensures id.n < U32_LIMIT && PrevLen(sent, id.chain) < U32_LIMIT
    ensures Pos(s) >= 2 ==> |sent[Pos(s) - 1]| < U32_LIMIT
    ensures var t := Turned(e, s, HeaderOf(e, sent, id));
            && t.ckr.Some? && t.hkr.Some?
            && SkipTo(t, id.n).skippedOrder ==
               LastN(s.skippedOrder + (RestKeys(sk, e, sent, s) + ChainKeys(Hk(sk, e, Pos(s) + 1), 0, id.n)),
                     MAX_SKIP_STORE)
  {
    hide PartyInv, LogInv, SkipTo, ChainKeys, LastN, StoreShape, Turned, CaughtUp, RestKeys;
    GenuineHeader(sk, e, sent, id);
    var h, later := HeaderOf(e, sent, id), sent + [[]];
    CaughtUpQueue(sk, e, sent, s, inbox);
    ReachableBounds(sk, e, sent, s, inbox);
    TurnedQueue(e, s, h);
    TurnedPreserves(sk, e, sent, s, inbox, h);
    assert later[Pos(s) + 1] == sent[Pos(s) + 1];
    SkippingIsFifo(sk, e, later, Turned(e, s, h), inbox, id.n);
    var rest, first := RestKeys(sk, e, sent, s), ChainKeys(Hk(sk, e, Pos(s) + 1), 0, id.n);
    LastNOfLastN(s.skippedOrder + rest, first, MAX_SKIP_STORE);
    assert s.skippedOrder + rest + first == s.skippedOrder + (rest + first);
  }

  /** What the loop was asked to file. */
  lemma GenuineSteps(sk: Key, e: Ephemerals, sent: Log, s: State, inbox: seq<Delivery>, id: MsgId)
    requires Reachable(sk, e, sent, s, inbox) && WasSent(sent, id) && !Stored(sk, e, s, id)
    requires Decrypt(s, MessageOf(sent, id), e(Pos(s) + 2)).0.Ok?
    ensures id.n < U32_LIMIT && (Pos(s) >= 2 ==> Pos(s) <= |sent| && |sent[Pos(s) - 1]| < U32_LIMIT)
    ensures Steps(s, MessageOf(sent, id), e(Pos(s) + 2)) ==
            if Pos(s) >= 2 && id.chain == Pos(s) - 1 then (if s.nr < id.n then id.n - s.nr else 0)
            else |RestKeys(sk, e, sent, s)| + id.n
  {
    hide LogInv, PartyInv, SkippedHit, DecryptHeader, OpenMessage, SkipTo, Hk, StoreShape;
    ReachableBounds(sk, e, sent, s, inbox);
    HitIsOwn(sk, e, sent, s, id);
    GenuineHeaderTrial(sk, e, sent, s, inbox, id);
  }

  lemma GenuineHeaderTrial(sk: Key, e: Ephemerals, sent: Log, s: State, inbox: seq<Delivery>, id: MsgId)
    requires Reachable(sk, e, sent, s, inbox) && WasSent(sent, id)
    ensures id.chain >= 1 && id.n < U32_LIMIT && PrevLen(sent, id.chain) < U32_LIMIT
    ensures DecryptHeader(s, MessageOf(sent, id).encHeader) ==
            if Pos(s) >= 2 && id.chain == Pos(s) - 1 then Some((HeaderOf(e, sent, id), false))
            else if id.chain == Pos(s) + 1 then Some((HeaderOf(e, sent, id), true))
            else None
  {
    hide LogInv, KeysInSync;
    HeaderTrial(sk, e, sent, s, id);
  }
}
