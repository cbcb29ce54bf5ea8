/**
 * Cryptography as free terms: a key is the expression that computes it, and a box
 * is the record of what was sealed, so two keys are equal only when they are
 * computed the same way and a box opens only under the very key (and associated
 * data) it was sealed with.
 */
module Crypto {
  import opened Bytes
  import opened Wrappers

  /** An x25519 public key; it also names the key pair it belongs to. */
  type Pub = b: seq<byte> | |b| == 32 witness seq(32, _ => 0)

  datatype Key =
    | Dh(pair: set<Pub>)                 // Diffie-Hellman output of two key pairs
    | SharedHka(sk: Key)                 // derive_key(CTX_SHARED_HKA, sk)
    | SharedNhkb(sk: Key)                // derive_key(CTX_SHARED_NHKB, sk)
    | RkNext(rk: Key, dh: Key)           // bytes  0..32 of kdf_rk_he(rk, dh)
    | CkOf(rk: Key, dh: Key)             // bytes 32..64
    | NhkOf(rk: Key, dh: Key)            // bytes 64..96
    | CkNext(ck: Key)                    // kdf_ck(ck).0
    | Mk(ck: Key)                        // kdf_ck(ck).1
    | BoxAnon(dh: Key)                   // lockbox v1 message key
    | BoxEs(dh: Key)                     // lockbox v2 key k0
    | BoxEss(es: Key, ss: Key)           // lockbox v2 key k1

  function DhOut(secret: Pub, peer: Pub): Key {
    Dh({secret, peer})
  }

  lemma DhSymmetric(a: Pub, b: Pub)
    ensures DhOut(a, b) == DhOut(b, a)
  {
    assert {a, b} == {b, a};
  }

  /** With one end fixed, the output determines the other end. */
  lemma DhPeerUnique(me: Pub, a: Pub, b: Pub)
    requires DhOut(me, a) == DhOut(me, b)
    ensures a == b
  {
    assert a in {me, b} && b in {me, a};
  }

  /** The conversation secret a session key was derived from. */
  function Root(k: Key): Key {
    match k
    case SharedHka(sk) => Root(sk)
    case SharedNhkb(sk) => Root(sk)
    case RkNext(rk, _) => Root(rk)
    case CkOf(rk, _) => Root(rk)
    case NhkOf(rk, _) => Root(rk)
    case CkNext(ck) => Root(ck)
    case Mk(ck) => Root(ck)
    case _ => k
  }

  /** How many root steps lie behind a root key. */
  function RkDepth(rk: Key): nat {
    match rk
    case RkNext(prev, _) => 1 + RkDepth(prev)
    case _ => 0
  }

  // ── Ratchet messages ───────────────────────────────────────────────────────

  const HEADER_LEN: nat := 40

  datatype Header = Header(dhPub: Pub, pn: u32, n: u32)

  function HeaderBytes(h: Header): (b: seq<byte>)
    ensures |b| == HEADER_LEN
  {
    h.dhPub + LeBytes(h.pn, 4) + LeBytes(h.n, 4)
  }

  function ParseHeader(b: seq<byte>): Option<Header> {
    if |b| != HEADER_LEN then None
    else
      LeNatBound(b[32..36]);
      LeNatBound(b[36..40]);
      Pow256Values();
      Some(Header(b[..32], LeNat(b[32..36]), LeNat(b[36..40])))
  }

  /** Public key in the first 32 bytes, then `pn`, then `n`; and parsing gives the header back. */
  lemma HeaderRoundTrip(h: Header)
    ensures ParseHeader(HeaderBytes(h)) == Some(h)
    ensures var b := HeaderBytes(h); b[..32] == h.dhPub && LeNat(b[32..36]) == h.pn && LeNat(b[36..40]) == h.n
  {
    HeaderLayout(h.dhPub, LeBytes(h.pn, 4), LeBytes(h.n, 4));
    Pow256Values();
    LeRoundTrip(h.pn, 4);
    LeRoundTrip(h.n, 4);
  }

  lemma HeaderLayout(dhPub: Pub, pn: seq<byte>, n: seq<byte>)
    requires |pn| == 4 && |n| == 4
    ensures var b := dhPub + pn + n; b[..32] == dhPub && b[32..36] == pn && b[36..40] == n
  {
  }

  /** Exactly the 40-byte layouts parse, each to the header it lays out. */
  lemma ParsesExactly(b: seq<byte>, h: Header)
    ensures ParseHeader(b) == Some(h) <==> b == HeaderBytes(h)
  {
    HeaderRoundTrip(h);
    if ParseHeader(b) == Some(h) {
      LeInverse(b[32..36]);
      LeInverse(b[36..40]);
      assert b == b[..32] + b[32..36] + b[36..40];
    }
  }

  /** An encrypted header, or bytes that no key ever sealed. */
  datatype EncHeader =
    | HeaderBox(hk: Key, nonce: seq<byte>, plain: seq<byte>)
    | HeaderJunk(raw: seq<byte>)

  /** A message ciphertext; its associated data is the encrypted header. */
  datatype Ciphertext =
    | MsgBox(mk: Key, ad: EncHeader, plain: seq<byte>)
    | MsgJunk(raw: seq<byte>)

  datatype RatchetMessage = RatchetMessage(encHeader: EncHeader, ciphertext: Ciphertext)

  function Henc(hk: Key, nonce: seq<byte>, h: Header): EncHeader {
    HeaderBox(hk, nonce, HeaderBytes(h))
  }

  function Hdec(hk: Key, enc: EncHeader): Option<Header> {
    if enc.HeaderBox? && enc.hk == hk then ParseHeader(enc.plain) else None
  }

  lemma HdecHenc(k: Key, hk: Key, nonce: seq<byte>, h: Header)
    ensures Hdec(k, Henc(hk, nonce, h)) == if k == hk then Some(h) else None
  {
    HeaderRoundTrip(h);
  }

  function AeadOpen(mk: Key, ct: Ciphertext, ad: EncHeader): Option<seq<byte>> {
    if ct.MsgBox? && ct.mk == mk && ct.ad == ad then Some(ct.plain) else None
  }

  /** A ciphertext opens to `plain` exactly when it was sealed as `plain` under that key and that header. */
  lemma OpensOnlyAsSealed(mk: Key, ct: Ciphertext, ad: EncHeader, plain: seq<byte>)
    ensures AeadOpen(mk, ct, ad) == Some(plain) <==> ct == MsgBox(mk, ad, plain)
  {
  }

  // ── What an observer of leaked keys can compute ────────────────────────────

  /**
   * `k` can be computed from the keys `known`, the key pairs `secrets` whose private
   * half is held, and every public key: by kdf_ck, kdf_rk_he, derive_key and
   * Diffie-Hellman, none of which can be run backwards.
   */
  predicate Derivable(known: set<Key>, secrets: set<Pub>, k: Key) {
    k in known ||
    match k
    case Dh(pair) => pair * secrets != {}
    case SharedHka(sk) => Derivable(known, secrets, sk)
    case SharedNhkb(sk) => Derivable(known, secrets, sk)
    case RkNext(rk, dh) => Derivable(known, secrets, rk) && Derivable(known, secrets, dh)
    case CkOf(rk, dh) => Derivable(known, secrets, rk) && Derivable(known, secrets, dh)
    case NhkOf(rk, dh) => Derivable(known, secrets, rk) && Derivable(known, secrets, dh)
    case CkNext(ck) => Derivable(known, secrets, ck)
    case Mk(ck) => Derivable(known, secrets, ck)
    case BoxAnon(dh) => Derivable(known, secrets, dh)
    case BoxEs(dh) => Derivable(known, secrets, dh)
    case BoxEss(es, ss) => Derivable(known, secrets, es) && Derivable(known, secrets, ss)
  }

  /** One call of a key-derivation primitive on keys already at hand. */
  ghost predicate OneStep(have: set<Key>, secrets: set<Pub>, k: Key) {
    match k
    case Dh(pair) => exists a: Pub, b: Pub :: a in secrets && k == DhOut(a, b)
    case SharedHka(sk) => sk in have
    case SharedNhkb(sk) => sk in have
    case RkNext(rk, dh) => rk in have && dh in have
    case CkOf(rk, dh) => rk in have && dh in have
    case NhkOf(rk, dh) => rk in have && dh in have
    case CkNext(ck) => ck in have
    case Mk(ck) => ck in have
    case BoxAnon(dh) => dh in have
    case BoxEs(dh) => dh in have
    case BoxEss(es, ss) => es in have && ss in have
  }

  /** The keys at hand after computing `trace` one primitive call at a time. */
  ghost predicate Computes(known: set<Key>, secrets: set<Pub>, trace: seq<Key>) {
    |trace| == 0 ||
    (Computes(known, secrets, trace[..|trace| - 1]) &&
     OneStep(known + Elements(trace[..|trace| - 1]), secrets, trace[|trace| - 1]))
  }

  ghost function Elements(trace: seq<Key>): set<Key> {
    set k | k in trace
  }

  lemma StepIsDerivable(known: set<Key>, have: set<Key>, secrets: set<Pub>, k: Key)
    requires OneStep(have, secrets, k) && forall j :: j in have ==> Derivable(known, secrets, j)
    ensures Derivable(known, secrets, k)
  {
    if k.Dh? {
      var a: Pub, b: Pub :| a in secrets && k == DhOut(a, b);
      assert a in k.pair * secrets;
    }
  }

  /** No sequence of primitive calls leaves the derivable keys. */
  lemma {:induction false} ComputedIsDerivable(known: set<Key>, secrets: set<Pub>, trace: seq<Key>, k: Key)
    requires Computes(known, secrets, trace) && k in trace
    ensures Derivable(known, secrets, k)
  {
    hide OneStep;
    var init, last := trace[..|trace| - 1], trace[|trace| - 1];
    assert trace == init + [last];
    forall j | j in known + Elements(init)
      ensures Derivable(known, secrets, j)
    {
      if j in init {
        ComputedIsDerivable(known, secrets, init, j);
      }
    }
    StepIsDerivable(known, known + Elements(init), secrets, last);
  }

  /**
   * Keys of a conversation stay inside it: without either private key behind its secret,
   * and starting from keys of other origin, no key that stems from it can be had.
   */
  lemma {:induction false} KeysStayInside(known: set<Key>, secrets: set<Pub>, sk: Key, k: Key)
    requires sk.Dh? && sk.pair * secrets == {} && (forall j :: j in known ==> Root(j) != sk) && Root(k) == sk
    ensures !Derivable(known, secrets, k)
  {
    match k
    case SharedHka(j) => KeysStayInside(known, secrets, sk, j);
    case SharedNhkb(j) => KeysStayInside(known, secrets, sk, j);
    case RkNext(j, _) => KeysStayInside(known, secrets, sk, j);
    case CkOf(j, _) => KeysStayInside(known, secrets, sk, j);
    case NhkOf(j, _) => KeysStayInside(known, secrets, sk, j);
    case CkNext(j) => KeysStayInside(known, secrets, sk, j);
    case Mk(j) => KeysStayInside(known, secrets, sk, j);
    case _ =>
  }

  /** Every Diffie-Hellman output in the term is one of two key pairs. */
  ghost predicate WellFormed(k: Key) {
    match k
    case Dh(pair) => exists a: Pub, b: Pub :: pair == {a, b}
    case SharedHka(sk) => WellFormed(sk)
    case SharedNhkb(sk) => WellFormed(sk)
    case RkNext(rk, dh) => WellFormed(rk) && WellFormed(dh)
    case CkOf(rk, dh) => WellFormed(rk) && WellFormed(dh)
    case NhkOf(rk, dh) => WellFormed(rk) && WellFormed(dh)
    case CkNext(ck) => WellFormed(ck)
    case Mk(ck) => WellFormed(ck)
    case BoxAnon(dh) => WellFormed(dh)
    case BoxEs(dh) => WellFormed(dh)
    case BoxEss(es, ss) => WellFormed(es) && WellFormed(ss)
  }

  lemma {:induction false} ComputesInTurn(known: set<Key>, secrets: set<Pub>, t1: seq<Key>, t2: seq<Key>)
    requires Computes(known, secrets, t1) && Computes(known, secrets, t2)
    ensures Computes(known, secrets, t1 + t2)
  {
    if |t2| == 0 {
      assert t1 + t2 == t1;
    } else {
      var init, k := t2[..|t2| - 1], t2[|t2| - 1];
      ComputesInTurn(known, secrets, t1, init);
      assert (t1 + t2)[..|t1 + t2| - 1] == t1 + init && (t1 + t2)[|t1 + t2| - 1] == k;
      MoreIsEnough(known + Elements(init), known + Elements(t1 + init), secrets, k);
    }
  }

  lemma MoreIsEnough(have: set<Key>, more: set<Key>, secrets: set<Pub>, k: Key)
    requires have <= more && OneStep(have, secrets, k)
    ensures OneStep(more, secrets, k)
  {
  }

  lemma Extend(known: set<Key>, secrets: set<Pub>, trace: seq<Key>, k: Key)
    requires Computes(known, secrets, trace) && OneStep(known + Elements(trace), secrets, k)
    ensures Computes(known, secrets, trace + [k])
  {
    assert (trace + [k])[..|trace|] == trace;
  }

  /** Conversely, every derivable key is reached by some sequence of primitive calls. */
  lemma {:induction false} DerivableIsComputed(known: set<Key>, secrets: set<Pub>, k: Key) returns (trace: seq<Key>)
    requires Derivable(known, secrets, k) && WellFormed(k)
    ensures Computes(known, secrets, trace) && (k in known || k in trace)
    decreases k
  {
    trace := [];
    if k in known {
      return;
    }
    match k {
      case Dh(pair) =>
        var a: Pub, b: Pub :| pair == {a, b};
        DhSymmetric(a, b);
      case SharedHka(j) => trace := DerivableIsComputed(known, secrets, j);
      case SharedNhkb(j) => trace := DerivableIsComputed(known, secrets, j);
      case CkNext(j) => trace := DerivableIsComputed(known, secrets, j);
      case Mk(j) => trace := DerivableIsComputed(known, secrets, j);
      case BoxAnon(j) => trace := DerivableIsComputed(known, secrets, j);
      case BoxEs(j) => trace := DerivableIsComputed(known, secrets, j);
      case RkNext(i, j) => trace := BothComputed(known, secrets, k, i, j);
      case CkOf(i, j) => trace := BothComputed(known, secrets, k, i, j);
      case NhkOf(i, j) => trace := BothComputed(known, secrets, k, i, j);
      case BoxEss(i, j) => trace := BothComputed(known, secrets, k, i, j);
    }
    Extend(known, secrets, trace, k);
    trace := trace + [k];
  }

  lemma {:induction false} BothComputed(known: set<Key>, secrets: set<Pub>, k: Key, i: Key,
        j: Key) returns (trace: seq<Key>)
    requires Derivable(known, secrets, i) && WellFormed(i) && Derivable(known, secrets, j) && WellFormed(j)
    requires k == RkNext(i, j) || k == CkOf(i, j) || k == NhkOf(i, j) || k == BoxEss(i, j)
    ensures Computes(known, secrets, trace) && (i in known || i in trace) && (j in known || j in trace)
    decreases k, 0
  {
    var t1 := DerivableIsComputed(known, secrets, i);
    var t2 := DerivableIsComputed(known, secrets, j);
    ComputesInTurn(known, secrets, t1, t2);
    trace := t1 + t2;
  }
}
