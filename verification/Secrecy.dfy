/**
 * Exactly which message keys a stolen session gives away: forward secrecy for what
 * was sent and delivered before, healing for what comes two root steps later.
 */
module Secrecy {
  import opened Bytes
  import opened Wrappers
  import opened Crypto
  import opened Session
  import opened Chains
  import opened Protocol
  import opened Invariant
  import opened Receiving
  import opened Runs

  function Maybe(k: Option<Key>): set<Key> {
    if k.Some? then {k.value} else {}
  }

  /** Every key in a session file. */
  function Leak(s: State): set<Key> {
    {s.rk, s.nhks, s.nhkr} + Maybe(s.cks) + Maybe(s.ckr) + Maybe(s.hks) + Maybe(s.hkr)
    + s.skipped.Values + (set k | k in s.skipped :: k.0)
  }

  /**
   * The key pairs of steps 0, ..., `top` do not repeat; the initiator's identity `a0` and
   * the thief's own pairs are none of them.
   */
  ghost predicate FreshKeys(e: Ephemerals, a0: Pub, own: set<Pub>, top: nat) {
    && (forall i, j :: 0 <= i <= top && 0 <= j <= top && e(i) == e(j) ==> i == j)
    && (forall i :: 0 <= i <= top ==> e(i) != a0 && e(i) !in own)
    && a0 !in own
  }

  /** Such key pairs exist for every `top` that leaves the 2^256 keys room, with a thief who has one too. */
  lemma FreshKeysExist(top: nat) returns (e: Ephemerals, a0: Pub, own: set<Pub>)
    requires top + 3 <= Pow256(32)
    ensures FreshKeys(e, a0, own, top) && own != {}
  {
    hide LeBytes, Pow256;
    e := i => LeBytes(i + 2, 32);
    a0, own := LeBytes(0, 32), {LeBytes(1, 32)};
    forall i, j | 0 <= i < top + 3 && 0 <= j < top + 3 && LeBytes(i, 32) == LeBytes(j, 32)
      ensures i == j
    {
      LeInjective(i, j, 32);
    }
  }

  /** Step `i`'s Diffie-Hellman output is open to someone holding `held`. */
  predicate DhOpen(e: Ephemerals, held: set<Pub>, i: nat)
    requires i >= 1
  {
    e(i) in held || e(i - 1) in held
  }

  /** Root key `j` follows from root key `p` and the private keys `held`. */
  predicate RootOpen(e: Ephemerals, a0: Pub, held: set<Pub>, p: nat, j: nat) {
    j == p || if j == 0 then a0 in held || e(0) in held
              else RootOpen(e, a0, held, p, j - 1) && DhOpen(e, held, j)
  }

  predicate ChainOpen(e: Ephemerals, a0: Pub, held: set<Pub>, p: nat, i: nat)
    requires i >= 1
  {
    RootOpen(e, a0, held, p, i - 1) && DhOpen(e, held, i)
  }

  // ── What is in the file ────────────────────────────────────────────────────

  lemma HeaderKeyKind(sk: Key, e: Ephemerals, i: nat)
    requires i >= 1
    ensures var hk := Hk(sk, e, i); hk.SharedHka? || hk.SharedNhkb? || hk.NhkOf?
  {
  }

  /** The kinds of key a synchronised session holds. */
  lemma LeakKinds(sk: Key, e: Ephemerals, sent: Log, s: State, k: Key)
    requires KeysInSync(sk, e, s) && StoreInv(sk, e, sent, s) && k in Leak(s)
    ensures || k == s.rk
            || k.SharedHka? || k.SharedNhkb? || k.NhkOf?
            || (k == (if s.cks.Some? then s.cks.value else s.rk))
            || (k == (if s.ckr.Some? then s.ckr.value else s.rk))
            || k in s.skipped.Values
  {
    hide Rk, Ck, CkAfter, Hk;
    HeaderKeyKind(sk, e, Pos(s) + 1);
    HeaderKeyKind(sk, e, Pos(s) + 2);
    if Pos(s) >= 1 {
      HeaderKeyKind(sk, e, Pos(s));
    }
    if Pos(s) >= 2 {
      HeaderKeyKind(sk, e, Pos(s) - 1);
    }
    if key :| key in s.skipped && k == key.0 {
      assert EntryInv(sk, e, sent, s, key);
      HeaderKeyKind(sk, e, HeaderChain(key.0));
    }
  }

  lemma StoredValues(sk: Key, e: Ephemerals, sent: Log, s: State, k: Key)
    requires StoreInv(sk, e, sent, s) && k in s.skipped.Values
    ensures k.Mk? && exists key :: key in s.skipped && s.skipped[key] == k
  {
    var key :| key in s.skipped && s.skipped[key] == k;
    assert EntryInv(sk, e, sent, s, key);
  }

  lemma ChainKeyKind(sk: Key, e: Ephemerals, i: nat, n: nat)
    requires i >= 1
    ensures var ck := CkAfter(Ck(sk, e, i), n); ck.CkNext? || ck.CkOf?
  {
  }

  lemma RootInLeak(sk: Key, e: Ephemerals, sent: Log, s: State, j: nat)
    requires sk.Dh? && KeysInSync(sk, e, s) && StoreInv(sk, e, sent, s)
    ensures Rk(sk, e, j) in Leak(s) <==> j == Pos(s)
  {
    RkFacts(sk, e, j);
    assert Rk(sk, e, j).RkNext? || Rk(sk, e, j).Dh?;
    if Rk(sk, e, j) in Leak(s) {
      NotAChainKey(sk, e, s);
      LeakKinds(sk, e, sent, s, Rk(sk, e, j));
      if Rk(sk, e, j) in s.skipped.Values {
        StoredValues(sk, e, sent, s, Rk(sk, e, j));
      }
    }
  }

  lemma NotAChainKey(sk: Key, e: Ephemerals, s: State)
    requires KeysInSync(sk, e, s)
    ensures s.cks.Some? ==> s.cks.value.CkNext? || s.cks.value.CkOf?
    ensures s.ckr.Some? ==> s.ckr.value.CkNext? || s.ckr.value.CkOf?
  {
    hide Rk, Hk;
    if Pos(s) >= 1 {
      ChainKeyKind(sk, e, Pos(s), s.ns);
    }
    if Pos(s) >= 2 {
      ChainKeyKind(sk, e, Pos(s) - 1, s.nr);
    }
  }

  /** The only Diffie-Hellman output ever kept is the conversation secret, before the first step. */
  lemma DhInLeak(sk: Key, e: Ephemerals, sent: Log, s: State, k: Key)
    requires sk.Dh? && KeysInSync(sk, e, s) && StoreInv(sk, e, sent, s) && k.Dh?
    ensures k in Leak(s) <==> k == sk && Pos(s) == 0
  {
    RkFacts(sk, e, Pos(s));
    if k in Leak(s) {
      NotAChainKey(sk, e, s);
      LeakKinds(sk, e, sent, s, k);
      if k in s.skipped.Values {
        StoredValues(sk, e, sent, s, k);
      }
    }
  }

  lemma ChainKeyInLeak(sk: Key, e: Ephemerals, sent: Log, s: State, i: nat, n: nat)
    requires sk.Dh? && KeysInSync(sk, e, s) && StoreInv(sk, e, sent, s) && i >= 1
    ensures CkAfter(Ck(sk, e, i), n) in Leak(s) <==>
            (i == Pos(s) && n == s.ns) || (Pos(s) >= 2 && i == Pos(s) - 1 && n == s.nr)
  {
    var ck := CkAfter(Ck(sk, e, i), n);
    CkFacts(sk, e, i, n);
    ChainKeyKind(sk, e, i, n);
    if ck in Leak(s) {
      RootKind(sk, e, Pos(s));
      LeakKinds(sk, e, sent, s, ck);
      if ck in s.skipped.Values {
        StoredValues(sk, e, sent, s, ck);
      }
      if Pos(s) >= 1 {
        CkFacts(sk, e, Pos(s), s.ns);
      }
      if Pos(s) >= 2 {
        CkFacts(sk, e, Pos(s) - 1, s.nr);
      }
    }
  }

  lemma RootKind(sk: Key, e: Ephemerals, j: nat)
    requires sk.Dh?
    ensures Rk(sk, e, j).RkNext? || Rk(sk, e, j).Dh?
  {
  }

  lemma MessageKeyInLeak(sk: Key, e: Ephemerals, sent: Log, s: State, id: MsgId)
    requires sk.Dh? && KeysInSync(sk, e, s) && StoreInv(sk, e, sent, s) && id.chain >= 1
    ensures MessageKey(sk, e, id.chain, id.n) in Leak(s) <==> Stored(sk, e, s, id)
  {
    var k := MessageKey(sk, e, id.chain, id.n);
    if k in Leak(s) {
      RootKind(sk, e, Pos(s));
      NotAChainKey(sk, e, s);
      LeakKinds(sk, e, sent, s, k);
      StoredValues(sk, e, sent, s, k);
      var key :| key in s.skipped && s.skipped[key] == k;
      assert EntryInv(sk, e, sent, s, key);
      MessageKeyInjective(sk, e, HeaderChain(key.0), key.1, id.chain, id.n);
    }
    if Stored(sk, e, s, id) {
      assert EntryInv(sk, e, sent, s, KeyFor(sk, e, id));
      HkFacts(sk, e, id.chain);
      assert k in s.skipped.Values;
    }
  }

  // ── What follows from the file and the keys in hand ────────────────────────

  lemma DhExposure(sk: Key, e: Ephemerals, a0: Pub, own: set<Pub>, top: nat, sent: Log, s: State, held: set<Pub>,
        i: nat)
    requires sk == DhOut(a0, e(0)) && FreshKeys(e, a0, own, top) && i >= 1
    requires i <= top
    requires KeysInSync(sk, e, s) && StoreInv(sk, e, sent, s)
    ensures Derivable(Leak(s), held, DhAt(e, i)) <==> DhOpen(e, held, i)
  {
    hide Leak, KeysInSync, StoreInv;
    DhInLeak(sk, e, sent, s, DhAt(e, i));
    assert a0 in sk.pair && a0 !in DhAt(e, i).pair;
    assert DhAt(e, i).pair * held != {} <==> e(i) in held || e(i - 1) in held by {
      assert e(i) in held ==> e(i) in DhAt(e, i).pair * held;
      assert e(i - 1) in held ==> e(i - 1) in DhAt(e, i).pair * held;
    }
  }

  lemma SecretExposure(sk: Key, e: Ephemerals, a0: Pub, sent: Log, s: State, held: set<Pub>)
    requires sk == DhOut(a0, e(0)) && KeysInSync(sk, e, s) && StoreInv(sk, e, sent, s)
    ensures Derivable(Leak(s), held, sk) <==> Pos(s) == 0 || a0 in held || e(0) in held
  {
    hide Leak, KeysInSync, StoreInv;
    DhInLeak(sk, e, sent, s, sk);
    assert sk.pair * held != {} <==> a0 in held || e(0) in held by {
      assert a0 in held ==> a0 in sk.pair * held;
      assert e(0) in held ==> e(0) in sk.pair * held;
    }
  }

  lemma {:induction false} RootExposure(sk: Key, e: Ephemerals, a0: Pub, own: set<Pub>, top: nat, sent: Log, s: State,
        held: set<Pub>, j: nat)
    requires sk == DhOut(a0, e(0)) && FreshKeys(e, a0, own, top)
    requires Pos(s) <= top && j <= top
    requires KeysInSync(sk, e, s) && StoreInv(sk, e, sent, s)
    ensures Derivable(Leak(s), held, Rk(sk, e, j)) <==> RootOpen(e, a0, held, Pos(s), j)
  {
    hide Leak, KeysInSync, StoreInv, FreshKeys;
    RootInLeak(sk, e, sent, s, j);
    if j == 0 {
      SecretExposure(sk, e, a0, sent, s, held);
    } else {
      RootExposure(sk, e, a0, own, top, sent, s, held, j - 1);
      DhExposure(sk, e, a0, own, top, sent, s, held, j);
    }
  }

  lemma {:induction false} ChainKeyExposure(sk: Key, e: Ephemerals, a0: Pub, own: set<Pub>, top: nat, sent: Log,
        s: State,
        held: set<Pub>, i: nat, n: nat)
    requires sk == DhOut(a0, e(0)) && FreshKeys(e, a0, own, top) && i >= 1
    requires Pos(s) <= top && i <= top
    requires KeysInSync(sk, e, s) && StoreInv(sk, e, sent, s)
    ensures Derivable(Leak(s), held, CkAfter(Ck(sk, e, i), n)) <==>
            ChainOpen(e, a0, held, Pos(s), i)
            || (i == Pos(s) && s.ns <= n) || (Pos(s) >= 2 && i == Pos(s) - 1 && s.nr <= n)
  {
    hide Leak, KeysInSync, StoreInv, FreshKeys, RootOpen, DhOpen, Rk;
    ChainKeyInLeak(sk, e, sent, s, i, n);
    if n == 0 {
      RootExposure(sk, e, a0, own, top, sent, s, held, i - 1);
      DhExposure(sk, e, a0, own, top, sent, s, held, i);
    } else {
      ChainKeyExposure(sk, e, a0, own, top, sent, s, held, i, n - 1);
    }
  }

  /** Message `id`'s key can be reached from the session at its current place. */
  ghost predicate Exposed(sk: Key, e: Ephemerals, s: State, id: MsgId) {
    || Stored(sk, e, s, id)
    || (id.chain == Pos(s) && s.ns <= id.n)
    || (Pos(s) >= 2 && id.chain == Pos(s) - 1 && s.nr <= id.n)
  }

  lemma MessageExposure(sk: Key, e: Ephemerals, a0: Pub, own: set<Pub>, top: nat, sent: Log, s: State,
        held: set<Pub>, id: MsgId)
    requires sk == DhOut(a0, e(0)) && FreshKeys(e, a0, own, top) && id.chain >= 1
    requires Pos(s) <= top && id.chain <= top
    requires KeysInSync(sk, e, s) && StoreInv(sk, e, sent, s)
    ensures Derivable(Leak(s), held, MessageKey(sk, e, id.chain, id.n)) <==>
            Exposed(sk, e, s, id) || ChainOpen(e, a0, held, Pos(s), id.chain)
  {
    hide Leak, KeysInSync, StoreInv, FreshKeys, ChainOpen, Ck, CkAfter, Stored;
    MessageKeyInLeak(sk, e, sent, s, id);
    ChainKeyExposure(sk, e, a0, own, top, sent, s, held, id.chain, id.n);
  }

  // ── A stolen session ───────────────────────────────────────────────────────

  /** The session's current private key opens exactly the step it is waiting for. */
  lemma SessionOpens(e: Ephemerals, a0: Pub, own: set<Pub>, top: nat, p: nat, i: nat)
    requires FreshKeys(e, a0, own, top) && i >= 1
    requires p <= top && i <= top
    ensures ChainOpen(e, a0, {e(p)} + own, p, i) <==> i == p + 1
  {
    SessionRoots(e, a0, own, top, p, i - 1);
  }

  lemma {:induction false} SessionRoots(e: Ephemerals, a0: Pub, own: set<Pub>, top: nat, p: nat, j: nat)
    requires FreshKeys(e, a0, own, top)
    requires p <= top && j <= top
    ensures RootOpen(e, a0, {e(p)} + own, p, j) <==> j == p || j == p + 1
  {
    if j > 0 {
      SessionRoots(e, a0, own, top, p, j - 1);
    }
  }

  /** The private keys that come with a session file, plus those the thief made. */
  function HeldWith(s: State, own: set<Pub>): set<Pub> {
    {s.dhsSecret} + own
  }

  lemma KeysAndStore(sk: Key, e: Ephemerals, sys: System, who: Who)
    requires SystemInv(sk, e, sys)
    ensures var s := Get(sys, who).sess;
            KeysInSync(sk, e, s) && StoreInv(sk, e, sys.sent, s) && (who == Initiator <==> Pos(s) % 2 == 1)
  {
    hide LogInv, KeysInSync, StoreInv, InboxInv, CountersInSync;
  }

  /**
   * In every run: from either side's session, whatever is computed from it, a message
   * key can be had if and only if it is stored as skipped, is not yet used on one of
   * the two current chains, or belongs to the very next chain.
   */
  lemma StolenSessionExposes(sk: Key, e: Ephemerals, a0: Pub, own: set<Pub>, top: nat, run: seq<Action>,
        who: Who, id: MsgId)
    requires sk == DhOut(a0, e(0)) && FreshKeys(e, a0, own, top) && ValidRun(sk, e, run) && id.chain >= 1
    requires Pos(Get(After(sk, e, run), who).sess) <= top && id.chain <= top
    ensures var s := Get(After(sk, e, run), who).sess;
            Derivable(Leak(s), HeldWith(s, own), MessageKey(sk, e, id.chain, id.n)) <==>
            Exposed(sk, e, s, id) || id.chain == Pos(s) + 1
  {
    hide Leak, Derivable, Exposed, FreshKeys, SystemInv, StoreInv, ChainOpen, MessageKey;
    RunInv(sk, e, run);
    KeysAndStore(sk, e, After(sk, e, run), who);
    var s := Get(After(sk, e, run), who).sess;
    MessageExposure(sk, e, a0, own, top, After(sk, e, run).sent, s, HeldWith(s, own), id);
    SessionOpens(e, a0, own, top, Pos(s), id.chain);
  }

  /** Sent by this side, or delivered to it. */
  ghost predicate Settled(sys: System, who: Who, id: MsgId) {
    || (WasSent(sys.sent, id) && id.chain >= 1 && (id.chain + Pos(Get(sys, who).sess)) % 2 == 0)
    || (exists d :: d in Get(sys, who).inbox && d.id == id)
  }

  lemma SettledNotExposed(sk: Key, e: Ephemerals, sys: System, who: Who, id: MsgId)
    requires SystemInv(sk, e, sys) && Settled(sys, who, id)
    ensures id.chain >= 1 && id.chain <= Pos(Get(sys, who).sess)
    ensures !Exposed(sk, e, Get(sys, who).sess, id)
  {
    hide LogInv, KeysInSync, EntryInv, StoreShape;
    var p := Get(sys, who);
    if exists d :: d in p.inbox && d.id == id {
      var d :| d in p.inbox && d.id == id;
      assert DeliveryInv(sk, e, sys.sent, p.sess, d);
    } else if Stored(sk, e, p.sess, id) {
      StoredIsPassed(sk, e, sys.sent, p.sess, id);
    }
  }

  /** Forward secrecy: no key of a message already sent or delivered can be computed any more. */
  lemma ForwardSecrecy(sk: Key, e: Ephemerals, a0: Pub, own: set<Pub>, top: nat, run: seq<Action>, who: Who, id: MsgId,
        trace: seq<Key>)
    requires sk == DhOut(a0, e(0)) && FreshKeys(e, a0, own, top) && ValidRun(sk, e, run)
    requires Pos(Get(After(sk, e, run), who).sess) <= top
    requires Settled(After(sk, e, run), who, id)
    requires var s := Get(After(sk, e, run), who).sess; Computes(Leak(s), HeldWith(s, own), trace)
    ensures id.chain >= 1
    ensures MessageKey(sk, e, id.chain, id.n) !in Leak(Get(After(sk, e, run), who).sess)
    ensures MessageKey(sk, e, id.chain, id.n) !in trace
  {
    hide Leak, Computes, SystemInv, Exposed, MessageKey, FreshKeys, Settled;
    RunInv(sk, e, run);
    SettledNotExposed(sk, e, After(sk, e, run), who, id);
    StolenSessionExposes(sk, e, a0, own, top, run, who, id);
    var s, k := Get(After(sk, e, run), who).sess, MessageKey(sk, e, id.chain, id.n);
    if k in trace {
      ComputedIsDerivable(Leak(s), HeldWith(s, own), trace, k);
    }
  }

  /** Healing: two root steps after the theft, nothing stolen helps any more. */
  lemma Healing(sk: Key, e: Ephemerals, a0: Pub, own: set<Pub>, top: nat, run: seq<Action>, who: Who, id: MsgId,
        trace: seq<Key>)
    requires sk == DhOut(a0, e(0)) && FreshKeys(e, a0, own, top) && ValidRun(sk, e, run)
    requires id.chain <= top
    requires var s := Get(After(sk, e, run), who).sess;
             id.chain >= Pos(s) + 2 && Computes(Leak(s), HeldWith(s, own), trace)
    ensures MessageKey(sk, e, id.chain, id.n) !in trace
  {
    hide Leak, Computes, MessageKey, FreshKeys;
    RunInv(sk, e, run);
    LaterNotStored(sk, e, After(sk, e, run), who, id);
    StolenSessionExposes(sk, e, a0, own, top, run, who, id);
    var s, k := Get(After(sk, e, run), who).sess, MessageKey(sk, e, id.chain, id.n);
    if k in trace {
      ComputedIsDerivable(Leak(s), HeldWith(s, own), trace, k);
    }
  }

  lemma LaterNotStored(sk: Key, e: Ephemerals, sys: System, who: Who, id: MsgId)
    requires SystemInv(sk, e, sys) && id.chain >= Pos(Get(sys, who).sess) + 2
    ensures !Stored(sk, e, Get(sys, who).sess, id)
  {
    hide LogInv, KeysInSync, StoreInv, InboxInv;
    if Stored(sk, e, Get(sys, who).sess, id) {
      StoredIsPassed(sk, e, sys.sent, Get(sys, who).sess, id);
    }
  }

  // ── A stolen disk: the session and the long-term identity ──────────────────

  function IdentityOf(e: Ephemerals, a0: Pub, who: Who): Pub {
    if who == Initiator then a0 else e(0)
  }

  function HeldWithDisk(e: Ephemerals, a0: Pub, own: set<Pub>, who: Who, s: State): set<Pub> {
    {s.dhsSecret, IdentityOf(e, a0, who)} + own
  }

  lemma {:induction false} DiskRoots(e: Ephemerals, a0: Pub, own: set<Pub>, top: nat, who: Who, p: nat,
        held: set<Pub>, j: nat)
    requires FreshKeys(e, a0, own, top) && (who == Initiator <==> p % 2 == 1)
    requires p <= top && j <= top
    requires held == {e(p), IdentityOf(e, a0, who)} + own
    ensures RootOpen(e, a0, held, p, j) <==> j == 0 || j == p || j == p + 1 || (who == Responder && j == 1)
  {
    if j > 0 {
      DiskRoots(e, a0, own, top, who, p, held, j - 1);
    }
  }

  lemma DiskOpens(e: Ephemerals, a0: Pub, own: set<Pub>, top: nat, who: Who, p: nat, held: set<Pub>, i: nat)
    requires FreshKeys(e, a0, own, top) && (who == Initiator <==> p % 2 == 1) && i >= 1
    requires p <= top && i <= top
    requires held == {e(p), IdentityOf(e, a0, who)} + own
    ensures ChainOpen(e, a0, held, p, i) <==>
            i == p + 1 || (i == p && p <= 2) || (who == Responder && i == 1)
  {
    DiskRoots(e, a0, own, top, who, p, held, i - 1);
  }

  /** The chains that only the identity key keeps open. */
  predicate DiskGap(who: Who, p: nat, i: nat) {
    (i == p && p <= 2) || (who == Responder && i == 1)
  }

  lemma DiskExposure(sk: Key, e: Ephemerals, a0: Pub, own: set<Pub>, top: nat, sent: Log, s: State, who: Who, id: MsgId)
    requires sk == DhOut(a0, e(0)) && FreshKeys(e, a0, own, top) && id.chain >= 1
    requires Pos(s) <= top && id.chain <= top
    requires KeysInSync(sk, e, s) && StoreInv(sk, e, sent, s) && (who == Initiator <==> Pos(s) % 2 == 1)
    ensures Derivable(Leak(s), HeldWithDisk(e, a0, own, who, s), MessageKey(sk, e, id.chain, id.n)) <==>
            Exposed(sk, e, s, id) || id.chain == Pos(s) + 1 || DiskGap(who, Pos(s), id.chain)
  {
    hide Leak, Derivable, Exposed, FreshKeys, StoreInv, ChainOpen, MessageKey, Rk, Ck, CkAfter, Hk;
    MessageExposure(sk, e, a0, own, top, sent, s, HeldWithDisk(e, a0, own, who, s), id);
    DiskOpens(e, a0, own, top, who, Pos(s), HeldWithDisk(e, a0, own, who, s), id.chain);
  }

  /**
   * With the identity key as well, forward secrecy has exactly these gaps: the
   * responder's whole first receiving chain, for ever, and either side's first sending
   * chain until that side's next root step.
   */
  lemma StolenDiskExposes(sk: Key, e: Ephemerals, a0: Pub, own: set<Pub>, top: nat, run: seq<Action>, who: Who,
        id: MsgId)
    requires sk == DhOut(a0, e(0)) && FreshKeys(e, a0, own, top) && ValidRun(sk, e, run) && id.chain >= 1
    requires Pos(Get(After(sk, e, run), who).sess) <= top && id.chain <= top
    ensures var s := Get(After(sk, e, run), who).sess;
            Derivable(Leak(s), HeldWithDisk(e, a0, own, who, s), MessageKey(sk, e, id.chain, id.n)) <==>
            Exposed(sk, e, s, id) || id.chain == Pos(s) + 1 || DiskGap(who, Pos(s), id.chain)
  {
    hide Leak, Derivable, Exposed, DiskGap, FreshKeys, SystemInv, KeysInSync, StoreInv, MessageKey, HeldWithDisk;
    RunInv(sk, e, run);
    var sys := After(sk, e, run);
    KeysAndStore(sk, e, sys, who);
    DiskExposure(sk, e, a0, own, top, sys.sent, Get(sys, who).sess, who, id);
  }
}
