/** A first exchange between any two nodes: the runs the other results speak of exist. */
module FirstContact {
  import opened Bytes
  import opened Wrappers
  import opened Crypto
  import opened Session
  import opened Chains
  import opened Protocol
  import opened Invariant
  import opened Receiving
  import opened Guarantees
  import opened Lockbox
  import opened Node
  import opened Routing
  import opened EndToEnd

  /** After one greeting from the initiator has been sent. */
  function Greeted(e: Ephemerals, a0: Pub, hello: seq<byte>, draw: Draw): Net {
    DoSending(e, a0, Start(), Initiator, hello, draw).1
  }

  lemma GreetingIsPossible(e: Ephemerals, a0: Pub, hello: seq<byte>, draw: Draw)
    requires |hello| < U32_LIMIT
    ensures PossibleRun(e, a0, [Sending(Initiator, hello, draw)])
    ensures NetAfter(e, a0, [Sending(Initiator, hello, draw)]) == Greeted(e, a0, hello, draw)
    ensures Possible(e, a0, Start(), Sending(Initiator, hello, draw))
  {
    hide DoSending;
    var run := [Sending(Initiator, hello, draw)];
    assert run[..0] == [];
    assert SessionOf(e, a0, Start(), Initiator).ns == 0;
  }

  lemma FirstLogged(x: Sent)
    ensures LogSent([[], []], 1, x) == [[], [x]]
  {
    assert LogSent([[], []], 1, x)[1] == [x];
  }

  /** The greeting travels in a bootstrap frame, and the log holds what is in it. */
  lemma GreetingSent(e: Ephemerals, a0: Pub, hello: seq<byte>, draw: Draw)
    requires |hello| < U32_LIMIT
    ensures var rm := Encrypt(FreshSession(e, a0, Initiator), hello, draw.nonce).0;
            && rm.Ok?
            && DoSending(e, a0, Start(), Initiator, hello, draw).0 ==
               Ok(BootstrapFrame(Text(
                 SealAuthenticated(a0, e(0), draw.eph, draw.nonce0, draw.nonce1, Carries(rm.value)))))
            && Greeted(e, a0, hello, draw).responder == Start().responder
            && Greeted(e, a0, hello, draw).sent == [[], [Sent(hello, draw.nonce, rm.value)]]
  {
    hide SealAuthenticated;
    FreshPositions(e, a0);
    FirstLogged(Sent(hello, draw.nonce, Encrypt(FreshSession(e, a0, Initiator), hello, draw.nonce).0.value));
    SecretShared(e, a0, Initiator);
  }

  lemma GreetingOpens(e: Ephemerals, a0: Pub, hello: seq<byte>, draw: Draw)
    requires |hello| < U32_LIMIT
    ensures var net := Greeted(e, a0, hello, draw);
            Openable(Secret(e, a0), e, net.sent, SessionOf(e, a0, net, Responder), MsgId(1, 0))
  {
    hide DoSending, Greeted, SealAuthenticated, Encrypt, Stored;
    FreshPositions(e, a0);
    GreetingSent(e, a0, hello, draw);
  }

  /** After the responder got the greeting's frame. */
  function Answered(e: Ephemerals, a0: Pub, hello: seq<byte>, draw: Draw, frame: Frame): Net {
    DoIncoming(e, a0, Greeted(e, a0, hello, draw), Responder, frame, [])
  }

  /** The network can deliver the frame it was given. */
  lemma GreetingArrives(e: Ephemerals, a0: Pub, hello: seq<byte>, draw: Draw)
    requires |hello| < U32_LIMIT
    ensures var frame := DoSending(e, a0, Start(), Initiator, hello, draw).0;
            && frame.Ok? && Possible(e, a0, Greeted(e, a0, hello, draw), Incoming_(Responder, frame.value, []))
            && Inside(e(0), frame.value).Some?
  {
    hide SealAuthenticated, DoSending, Greeted, OpenAuthenticated, Encrypt, FreshSession;
    GreetingSent(e, a0, hello, draw);
    var rm := Encrypt(FreshSession(e, a0, Initiator), hello, draw.nonce).0.value;
    OpensForRecipientOnly(e(0), a0, e(0), draw.eph, draw.nonce0, draw.nonce1, Carries(rm));
    LoggedIsObtainable(Secret(e, a0), Greeted(e, a0, hello, draw).sent, MsgId(1, 0));
  }

  /** Whoever is shown something from its peer keeps a session with it. */
  lemma ShownMeansKept(e: Ephemerals, a0: Pub, net: Net, who: Who, frame: Frame, order: seq<Pub>, pt: seq<byte>)
    requires ShownBy(e, a0, net, who, order, frame) == Some((PeerOf(e, a0, who), pt))
    ensures PeerOf(e, a0, who) in SideOf(DoIncoming(e, a0, net, who, frame, order), who).files
  {
    hide OnFrame, SessionOf, IdOf, Inside, Decrypt, Pos;
    FrameTransaction(Identity(e, a0, who), SideOf(net, who).files, order, frame, NextKey(e, a0, net, who));
  }

  /** The responder shows the greeting and keeps a session from then on. */
  lemma GreetingShown(e: Ephemerals, a0: Pub, hello: seq<byte>, draw: Draw)
    requires |hello| < U32_LIMIT
    ensures var frame := DoSending(e, a0, Start(), Initiator, hello, draw).0;
            && frame.Ok?
            && ShownBy(e, a0, Greeted(e, a0, hello, draw), Responder, [], frame.value) == Some((a0, hello))
            && a0 in Answered(e, a0, hello, draw, frame.value).responder.files
  {
    hide DoSending, Greeted, Possible, PossibleRun, ShownBy, DoIncoming, Encrypt, FreshSession,
          SealAuthenticated, Openable;
    var run := [Sending(Initiator, hello, draw)];
    assert run[..0] == [];
    GreetingIsPossible(e, a0, hello, draw);
    GreetingSent(e, a0, hello, draw);
    GreetingOpens(e, a0, hello, draw);
    FreshPositions(e, a0);
    FreshCounter(e, a0);
    FrameDelivers(e, a0, run, 0, []);
    var frame := DoSending(e, a0, Start(), Initiator, hello, draw).0.value;
    ShownMeansKept(e, a0, Greeted(e, a0, hello, draw), Responder, frame, [], hello);
  }

  lemma FreshCounter(e: Ephemerals, a0: Pub)
    ensures FreshSession(e, a0, Initiator).ns == 0
  {
  }

  function FirstExchange(e: Ephemerals, a0: Pub, hello: seq<byte>, draw: Draw, frame: Frame): seq<Step> {
    [Sending(Initiator, hello, draw), Incoming_(Responder, frame, [])]
  }

  lemma IncomingLog(e: Ephemerals, a0: Pub, net: Net, who: Who, frame: Frame, order: seq<Pub>)
    ensures var sent := DoIncoming(e, a0, net, who, frame, order).sent; sent == net.sent || sent == net.sent + [[]]
  {
    hide OnFrame, SessionOf, IdOf, Inside;
  }

  lemma AnsweredOnce(sk: Key, e: Ephemerals, sys: System, x: Sent)
    requires SystemInv(sk, e, sys) && sys.responder.inbox != []
    requires sys.sent == [[], [x]] || sys.sent == [[], [x]] + [[]]
    ensures ReceivedFromPeer(sys.responder.sess) && sys.responder.sess.ns == 0
  {
    hide StoreInv, InboxInv, LogInv, Rk, Ck, Hk, CkAfter;
    ShownMeansMoved(sk, e, sys);
    assert KeysInSync(sk, e, sys.responder.sess) && CountersInSync(sys.sent, sys.responder.sess);
  }

  /** The responder's session has taken its first root steps and sent nothing yet. */
  lemma JustTurned(e: Ephemerals, a0: Pub, hello: seq<byte>, draw: Draw, frame: Frame)
    requires |hello| < U32_LIMIT && NetInv(e, a0, Answered(e, a0, hello, draw, frame))
    requires a0 in Answered(e, a0, hello, draw, frame).responder.files
    ensures var s := SessionOf(e, a0, Answered(e, a0, hello, draw, frame), Responder);
            ReceivedFromPeer(s) && s.ns == 0
  {
    hide SystemInv, DoSending, DoIncoming, Encrypt, FreshSession, SealAuthenticated, Greeted, StoreRooted, SessionOf;
    GreetingSent(e, a0, hello, draw);
    IncomingLog(e, a0, Greeted(e, a0, hello, draw), Responder, frame, []);
    var x := Sent(hello, draw.nonce, Encrypt(FreshSession(e, a0, Initiator), hello, draw.nonce).0.value);
    AnsweredOnce(Secret(e, a0), e, Abstract(e, a0, Answered(e, a0, hello, draw, frame)), x);
  }

  /**
   * The results above are about something: for any two nodes and any texts, the greeting
   * is shown, and the responder's reply leaves as a bare session frame.
   */
  lemma ReplyIsSessionFrame(e: Ephemerals, a0: Pub, hello: seq<byte>, draw: Draw, reply: seq<byte>, draw2: Draw)
    requires |hello| < U32_LIMIT && |reply| < U32_LIMIT
    ensures var frame := DoSending(e, a0, Start(), Initiator, hello, draw).0;
            && frame.Ok?
            && (var run := FirstExchange(e, a0, hello, draw, frame.value);
                && PossibleRun(e, a0, run) && Possible(e, a0, NetAfter(e, a0, run), Sending(Responder, reply, draw2))
                && DoSending(e, a0, NetAfter(e, a0, run), Responder, reply, draw2).0.Ok?
                && DoSending(e, a0, NetAfter(e, a0, run), Responder, reply, draw2).0.value.SessionFrame?)
  {
    hide DoSending, Greeted, NetInv, ShownBy, DoIncoming, Encrypt, FreshSession, ReceivedFromPeer, SessionOf;
    GreetingIsPossible(e, a0, hello, draw);
    GreetingArrives(e, a0, hello, draw);
    GreetingShown(e, a0, hello, draw);
    var frame := DoSending(e, a0, Start(), Initiator, hello, draw).0.value;
    var run := FirstExchange(e, a0, hello, draw, frame);
    assert run[..1] == [Sending(Initiator, hello, draw)];
    assert NetAfter(e, a0, run) == Answered(e, a0, hello, draw, frame);
    NetRunInv(e, a0, run);
    JustTurned(e, a0, hello, draw, frame);
    CanSend(e, a0, NetAfter(e, a0, run), Responder, reply, draw2);
    FrameSent(e, a0, NetAfter(e, a0, run), Responder, reply, draw2);
  }
}
