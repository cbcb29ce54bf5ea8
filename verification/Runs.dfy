/** Every state of every run satisfies the invariant. */
module Runs {
  import opened Bytes
  import opened Wrappers
  import opened Crypto
  import opened Session
  import opened Chains
  import opened Protocol
  import opened Invariant
  import opened Receiving

  lemma PairSend(sk: Key, e: Ephemerals, sent: Log, p: Party, q: Party, pt: seq<byte>, nonce: seq<byte>)
    requires PairInv(sk, e, sent, p, q) && Pos(p.sess) >= 1
    requires p.sess.ns + 1 < U32_LIMIT && |pt| < U32_LIMIT
    ensures var (r, t) := Encrypt(p.sess, pt, nonce);
            && r.Ok? && Pos(t) == Pos(p.sess)
            && PairInv(sk, e, LogSent(sent, Pos(p.sess), Sent(pt, nonce, r.value)), p.(sess := t), q)
  {
    SendPreserves(sk, e, sent, p.sess, p.inbox, pt, nonce);
    var later := LogSent(sent, Pos(p.sess), Sent(pt, nonce, Encrypt(p.sess, pt, nonce).0.value));
    PeerFrame(sk, e, sent, later, q.sess, q.inbox);
  }

  lemma PairUnmoved(sk: Key, e: Ephemerals, sent: Log, p: Party, q: Party, t: State)
    requires PairInv(sk, e, sent, p, q) && Pos(t) == Pos(p.sess) && PartyInv(sk, e, sent, t, p.inbox)
    ensures PairInv(sk, e, sent, p.(sess := t), q)
  {
    hide PartyInv, LogInv;
  }

  lemma PairDelivered(sk: Key, e: Ephemerals, sent: Log, p: Party, q: Party, t: State, id: MsgId, d: Delivery)
    requires PairInv(sk, e, sent, p, q) && Delivered(sk, e, sent, p.sess, p.inbox, t, id)
    requires d == Delivery(id, sent[id.chain][id.n].pt)
    ensures PairInv(sk, e, OpenChain(sent, Pos(t)), Party(t, p.inbox + [d]), q)
    ensures Pos(t) == Pos(p.sess) || Pos(t) == Pos(p.sess) + 2
  {
    hide LogInv, PartyInv;
    PeerFrame(sk, e, sent, OpenChain(sent, Pos(t)), q.sess, q.inbox);
  }

  lemma PairAbsorbs(sk: Key, e: Ephemerals, sent: Log, p: Party, q: Party, id: MsgId, r: Result<seq<byte>, Error>,
        t: State)
    requires PairInv(sk, e, sent, p, q)
    requires match r
             case Err(_) => Pos(t) == Pos(p.sess) && PartyInv(sk, e, sent, t, p.inbox)
             case Ok(pt) => Delivered(sk, e, sent, p.sess, p.inbox, t, id) && pt == sent[id.chain][id.n].pt
    ensures var (p', later) := Absorb(sent, p, id, r, t);
            PairInv(sk, e, later, p', q) && (Pos(p'.sess) == Pos(p.sess) || Pos(p'.sess) == Pos(p.sess) + 2)
  {
    hide PartyInv, LogInv;
    match r
    case Err(_) => PairUnmoved(sk, e, sent, p, q, t);
    case Ok(pt) => PairDelivered(sk, e, sent, p, q, t, id, Delivery(id, pt));
  }

  lemma PairReceive(sk: Key, e: Ephemerals, sent: Log, p: Party, q: Party, msg: RatchetMessage)
    requires PairInv(sk, e, sent, p, q) && Obtainable(sk, sent, msg)
    ensures var (r, t) := Decrypt(p.sess, msg, e(Pos(p.sess) + 2));
            var (p', later) := Absorb(sent, p, IdOf(msg.encHeader), r, t);
            PairInv(sk, e, later, p', q) && (Pos(p'.sess) == Pos(p.sess) || Pos(p'.sess) == Pos(p.sess) + 2)
  {
    hide Decrypt, PartyInv, LogInv, Absorb;
    ReceivePreserves(sk, e, sent, p.sess, p.inbox, msg);
    var (r, t) := Decrypt(p.sess, msg, e(Pos(p.sess) + 2));
    PairAbsorbs(sk, e, sent, p, q, IdOf(msg.encHeader), r, t);
  }

  lemma SendKeepsInv(sk: Key, e: Ephemerals, sys: System, who: Who, pt: seq<byte>, nonce: seq<byte>)
    requires SystemInv(sk, e, sys) && Get(sys, who).sess.ns + 1 < U32_LIMIT && |pt| < U32_LIMIT
    ensures SystemInv(sk, e, DoSend(sys, who, pt, nonce))
  {
    var p, q := Get(sys, who), Get(sys, Other(who));
    if Pos(p.sess) >= 1 {
      PairSend(sk, e, sys.sent, p, q, pt, nonce);
    }
  }

  lemma ReceiveKeepsInv(sk: Key, e: Ephemerals, sys: System, who: Who, msg: RatchetMessage, keep: bool)
    requires SystemInv(sk, e, sys) && Obtainable(sk, sys.sent, msg)
    ensures SystemInv(sk, e, DoReceive(e, sys, who, msg, keep))
  {
    hide Decrypt, PartyInv, LogInv, Absorb;
    var p := Get(sys, who);
    PairReceive(sk, e, sys.sent, p, Get(sys, Other(who)), msg);
    var (r, t) := Decrypt(p.sess, msg, e(Pos(p.sess) + 2));
    var (p', later) := Absorb(sys.sent, p, IdOf(msg.encHeader), r, t);
    SetKeepsInv(sk, e, sys, who, p', later);
  }

  lemma SetKeepsInv(sk: Key, e: Ephemerals, sys: System, who: Who, p: Party, later: Log)
    requires SystemInv(sk, e, sys) && PairInv(sk, e, later, p, Get(sys, Other(who)))
    requires var now := Pos(Get(sys, who).sess); Pos(p.sess) == now || Pos(p.sess) == now + 2
    ensures SystemInv(sk, e, Set(sys, who, p).(sent := later))
  {
    hide PartyInv, LogInv;
    match who
    case Initiator => assert Set(sys, who, p).(sent := later) == System(p, sys.responder, later);
    case Responder => assert Set(sys, who, p).(sent := later) == System(sys.initiator, p, later);
  }

  lemma {:induction false} RunInv(sk: Key, e: Ephemerals, run: seq<Action>)
    requires sk.Dh? && ValidRun(sk, e, run)
    ensures SystemInv(sk, e, After(sk, e, run))
  {
    if |run| == 0 {
      InitInv(sk, e);
    } else {
      var before, act := After(sk, e, run[..|run| - 1]), run[|run| - 1];
      RunInv(sk, e, run[..|run| - 1]);
      match act
      case Send(who, pt, nonce) => SendKeepsInv(sk, e, before, who, pt, nonce);
      case Receive(who, msg, keep) => ReceiveKeepsInv(sk, e, before, who, msg, keep);
    }
  }
}
