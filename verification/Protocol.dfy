/**
 * Two sessions and a hostile network. A run is a list of actions: either side
 * encrypts, or is handed any message the network can put together. The network may
 * drop, reorder, repeat and corrupt messages, mix the parts of different ones, and
 * seal boxes of its own under any key that does not come from this conversation's
 * secret.
 */
module Protocol {
  import opened Bytes
  import opened Wrappers
  import opened Crypto
  import opened Session
  import opened Chains

  /** Message `n` of chain `chain`. */
  datatype MsgId = MsgId(chain: nat, n: nat)

  /** A plaintext, the nonce drawn for its header, and the message made of them. */
  datatype Sent = Sent(pt: seq<byte>, nonce: seq<byte>, msg: RatchetMessage)

  datatype Delivery = Delivery(id: MsgId, pt: seq<byte>)

  datatype Party = Party(sess: State, inbox: seq<Delivery>)

  datatype Who = Initiator | Responder

  /** `sent[i]` logs what was encrypted on chain i, in order. */
  datatype System = System(initiator: Party, responder: Party, sent: seq<seq<Sent>>)

  datatype Action =
    | Send(who: Who, pt: seq<byte>, nonce: seq<byte>)
    | Receive(who: Who, msg: RatchetMessage, keep: bool)

  /** How many root steps a session has taken; it sends on the chain of that number. */
  function Pos(s: State): nat {
    RkDepth(s.rk)
  }

  function Get(sys: System, who: Who): Party {
    match who
    case Initiator => sys.initiator
    case Responder => sys.responder
  }

  function Set(sys: System, who: Who, p: Party): System {
    match who
    case Initiator => sys.(initiator := p)
    case Responder => sys.(responder := p)
  }

  function Other(who: Who): Who {
    if who == Initiator then Responder else Initiator
  }

  /** Which message an encrypted header speaks about. */
  function IdOf(enc: EncHeader): MsgId {
    if !enc.HeaderBox? then MsgId(0, 0)
    else
      match ParseHeader(enc.plain)
      case None => MsgId(0, 0)
      case Some(h) => MsgId(HeaderChain(enc.hk), h.n)
  }

  function Init(sk: Key, e: Ephemerals): System {
    System(Party(InitInitiator(sk, e(1), e(0)), []), Party(InitResponder(sk, e(0)), []), [[], []])
  }

  function LogSent(sent: seq<seq<Sent>>, i: nat, x: Sent): seq<seq<Sent>> {
    if i < |sent| then sent[i := sent[i] + [x]] else sent
  }

  function OpenChain(sent: seq<seq<Sent>>, i: nat): seq<seq<Sent>> {
    if i == |sent| then sent + [[]] else sent
  }

  function DoSend(sys: System, who: Who, pt: seq<byte>, nonce: seq<byte>): System {
    var p := Get(sys, who);
    match Encrypt(p.sess, pt, nonce)
    case (Err(_), s) => Set(sys, who, p.(sess := s))
    case (Ok(msg), s) =>
      Set(sys, who, p.(sess := s)).(sent := LogSent(sys.sent, Pos(p.sess), Sent(pt, nonce, msg)))
  }

  /** A party and the log once a decryption has returned `r` and left the session `t`. */
  function Absorb(sent: seq<seq<Sent>>, p: Party, id: MsgId, r: Result<seq<byte>, Error>, t: State)
    : (Party, seq<seq<Sent>>)
  {
    match r
    case Err(_) => (p.(sess := t), sent)
    case Ok(pt) => (Party(t, p.inbox + [Delivery(id, pt)]), OpenChain(sent, Pos(t)))
  }

  /** `keep` tells whether a session that failed to decrypt is used on or thrown away. */
  function DoReceive(e: Ephemerals, sys: System, who: Who, msg: RatchetMessage, keep: bool): System {
    var p := Get(sys, who);
    var (r, t) := Decrypt(p.sess, msg, e(Pos(p.sess) + 2));
    if r.Err? && !keep then sys
    else
      var (p', later) := Absorb(sys.sent, p, IdOf(msg.encHeader), r, t);
      Set(sys, who, p').(sent := later)
  }

  function Apply(e: Ephemerals, sys: System, act: Action): System {
    match act
    case Send(who, pt, nonce) => DoSend(sys, who, pt, nonce)
    case Receive(who, msg, keep) => DoReceive(e, sys, who, msg, keep)
  }

  // ── What can happen ────────────────────────────────────────────────────────

  ghost predicate WasSent(sent: seq<seq<Sent>>, id: MsgId) {
    id.chain < |sent| && id.n < |sent[id.chain]|
  }

  /**
   * Boxes under a key of this conversation come from it: nobody else can compute such a
   * key (Crypto.KeysStayInside).
   */
  ghost predicate HeaderObtainable(sk: Key, sent: seq<seq<Sent>>, enc: EncHeader) {
    enc.HeaderBox? && Root(enc.hk) == sk ==>
      exists id :: WasSent(sent, id) && sent[id.chain][id.n].msg.encHeader == enc
  }

  ghost predicate CiphertextObtainable(sk: Key, sent: seq<seq<Sent>>, ct: Ciphertext) {
    ct.MsgBox? && Root(ct.mk) == sk ==>
      exists id :: WasSent(sent, id) && sent[id.chain][id.n].msg.ciphertext == ct
  }

  ghost predicate Obtainable(sk: Key, sent: seq<seq<Sent>>, msg: RatchetMessage) {
    HeaderObtainable(sk, sent, msg.encHeader) && CiphertextObtainable(sk, sent, msg.ciphertext)
  }

  /** A u32 counter must not wrap, a plaintext must fit its length prefix. */
  ghost predicate Enabled(sk: Key, sys: System, act: Action) {
    match act
    case Send(who, pt, _) => Get(sys, who).sess.ns + 1 < U32_LIMIT && |pt| < U32_LIMIT
    case Receive(_, msg, _) => Obtainable(sk, sys.sent, msg)
  }

  /** The state after the first `|run|` actions. */
  function After(sk: Key, e: Ephemerals, run: seq<Action>): System {
    if |run| == 0 then Init(sk, e)
    else Apply(e, After(sk, e, run[..|run| - 1]), run[|run| - 1])
  }

  ghost predicate ValidRun(sk: Key, e: Ephemerals, run: seq<Action>) {
    |run| > 0 ==>
      ValidRun(sk, e, run[..|run| - 1]) && Enabled(sk, After(sk, e, run[..|run| - 1]), run[|run| - 1])
  }
}
