/**
 * The key schedule both parties share. Root steps are numbered 1, 2, …: the
 * initiator's odd, the responder's even. `e(i)` is the key pair that step i brought
 * in (`e(0)` is the responder's identity key), and chain i is the message chain
 * that step i opens.
 */
module Chains {
  import opened Bytes
  import opened Crypto

  type Ephemerals = nat -> Pub

  function DhAt(e: Ephemerals, i: nat): Key
    requires i >= 1
  {
    DhOut(e(i), e(i - 1))
  }

  function Rk(sk: Key, e: Ephemerals, i: nat): Key {
    if i == 0 then sk else RkNext(Rk(sk, e, i - 1), DhAt(e, i))
  }

  function Ck(sk: Key, e: Ephemerals, i: nat): Key
    requires i >= 1
  {
    CkOf(Rk(sk, e, i - 1), DhAt(e, i))
  }

  /** The chain key after `n` messages. */
  function CkAfter(ck: Key, n: nat): Key {
    if n == 0 then ck else CkNext(CkAfter(ck, n - 1))
  }

  /** The key of message `n` on chain `i`. */
  function MessageKey(sk: Key, e: Ephemerals, i: nat, n: nat): Key
    requires i >= 1
  {
    Mk(CkAfter(Ck(sk, e, i), n))
  }

  /** The header key of chain `i`: shared for the first two, then the nhk of step i - 2. */
  function Hk(sk: Key, e: Ephemerals, i: nat): Key
    requires i >= 1
  {
    if i == 1 then SharedHka(sk)
    else if i == 2 then SharedNhkb(sk)
    else NhkOf(Rk(sk, e, i - 3), DhAt(e, i - 2))
  }

  /** What root step `i + 1` derives. */
  lemma StepDerives(sk: Key, e: Ephemerals, i: nat)
    ensures Rk(sk, e, i + 1) == RkNext(Rk(sk, e, i), DhAt(e, i + 1))
    ensures Ck(sk, e, i + 1) == CkOf(Rk(sk, e, i), DhAt(e, i + 1))
    ensures Hk(sk, e, i + 3) == NhkOf(Rk(sk, e, i), DhAt(e, i + 1))
    ensures CkAfter(Ck(sk, e, i + 1), 0) == Ck(sk, e, i + 1)
  {
  }

  // ── Reading a chain number back off a key ──────────────────────────────────

  function HeaderChain(hk: Key): nat {
    match hk
    case SharedHka(_) => 1
    case SharedNhkb(_) => 2
    case NhkOf(rk, _) => RkDepth(rk) + 3
    case _ => 0
  }

  function ChainOfCk(ck: Key): nat {
    match ck
    case CkNext(c) => ChainOfCk(c)
    case CkOf(rk, _) => RkDepth(rk) + 1
    case _ => 0
  }

  function StepsOfCk(ck: Key): nat {
    match ck
    case CkNext(c) => 1 + StepsOfCk(c)
    case _ => 0
  }

  lemma {:induction false} RkFacts(sk: Key, e: Ephemerals, i: nat)
    requires sk.Dh?
    ensures RkDepth(Rk(sk, e, i)) == i && Root(Rk(sk, e, i)) == sk
  {
    if i > 0 {
      RkFacts(sk, e, i - 1);
    }
  }

  lemma HkFacts(sk: Key, e: Ephemerals, i: nat)
    requires sk.Dh? && i >= 1
    ensures HeaderChain(Hk(sk, e, i)) == i && Root(Hk(sk, e, i)) == sk
  {
    if i >= 3 {
      RkFacts(sk, e, i - 3);
    }
  }

  lemma {:induction false} CkFacts(sk: Key, e: Ephemerals, i: nat, n: nat)
    requires sk.Dh? && i >= 1
    ensures var ck := CkAfter(Ck(sk, e, i), n);
            ChainOfCk(ck) == i && StepsOfCk(ck) == n && Root(ck) == sk
  {
    if n == 0 {
      RkFacts(sk, e, i - 1);
    } else {
      CkFacts(sk, e, i, n - 1);
    }
  }

  /** Distinct chains have distinct header keys. */
  lemma HkInjective(sk: Key, e: Ephemerals, i: nat, j: nat)
    requires sk.Dh? && i >= 1 && j >= 1
    ensures Hk(sk, e, i) == Hk(sk, e, j) <==> i == j
  {
    HkFacts(sk, e, i);
    HkFacts(sk, e, j);
  }

  /** No two messages of a conversation share a key. */
  lemma MessageKeyInjective(sk: Key, e: Ephemerals, i: nat, n: nat, j: nat, m: nat)
    requires sk.Dh? && i >= 1 && j >= 1
    ensures MessageKey(sk, e, i, n) == MessageKey(sk, e, j, m) <==> i == j && n == m
  {
    CkFacts(sk, e, i, n);
    CkFacts(sk, e, j, m);
  }
}
