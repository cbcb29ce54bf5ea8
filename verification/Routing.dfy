/**
 * Two nodes that talk to each other through their stores, one of them having made
 * first contact. A run of the nodes is a run of the two-party protocol in which a
 * session that fails to decrypt is thrown away, so everything proved there holds here.
 */
module Routing {
  import opened Bytes
  import opened Wrappers
  import opened Crypto
  import opened Session
  import opened Chains
  import opened Protocol
  import opened Invariant
  import opened Receiving
  import opened Runs
  import opened Lockbox
  import opened Node

  /** One node's store, and what its user was shown from the other node. */
  datatype Side = Side(files: Files, inbox: seq<Delivery>)

  datatype Net = Net(initiator: Side, responder: Side, sent: Log)

  datatype Step =
    | Sending(who: Who, pt: seq<byte>, draw: Draw)
    | SendingElsewhere(who: Who, to: Pub, pt: seq<byte>, draw: Draw)
    | Incoming_(who: Who, frame: Frame, order: seq<Pub>)

  function SideOf(net: Net, who: Who): Side {
    match who
    case Initiator => net.initiator
    case Responder => net.responder
  }

  function SetSide(net: Net, who: Who, s: Side, sent: Log): Net {
    match who
    case Initiator => Net(s, net.responder, sent)
    case Responder => Net(net.initiator, s, sent)
  }

  /** The initiator's identity is `a0`, the responder's `e(0)`. */
  function Identity(e: Ephemerals, a0: Pub, who: Who): Pub {
    match who
    case Initiator => a0
    case Responder => e(0)
  }

  function PeerOf(e: Ephemerals, a0: Pub, who: Who): Pub {
    Identity(e, a0, Other(who))
  }

  function Secret(e: Ephemerals, a0: Pub): Key {
    DhOut(a0, e(0))
  }

  function FreshSession(e: Ephemerals, a0: Pub, who: Who): State {
    match who
    case Initiator => InitInitiator(Secret(e, a0), e(1), e(0))
    case Responder => InitResponder(Secret(e, a0), e(0))
  }

  /** The session a side has, or would start with. */
  function SessionOf(e: Ephemerals, a0: Pub, net: Net, who: Who): State {
    var peer := PeerOf(e, a0, who);
    if peer in SideOf(net, who).files then SideOf(net, who).files[peer] else FreshSession(e, a0, who)
  }

  /** The key pair a side generates should the next message make it ratchet. */
  function NextKey(e: Ephemerals, a0: Pub, net: Net, who: Who): Pub {
    e(Pos(SessionOf(e, a0, net, who)) + 2)
  }

  function Abstract(e: Ephemerals, a0: Pub, net: Net): System {
    System(Party(SessionOf(e, a0, net, Initiator), net.initiator.inbox),
           Party(SessionOf(e, a0, net, Responder), net.responder.inbox),
           net.sent)
  }

  function Start(): Net {
    Net(Side(map[], []), Side(map[], []), [[], []])
  }

  function DoSending(e: Ephemerals, a0: Pub, net: Net, who: Who, pt: seq<byte>, draw: Draw)
    : (Result<Frame, Error>, Net)
  {
    var side, peer := SideOf(net, who), PeerOf(e, a0, who);
    var s := SessionOf(e, a0, net, who);
    var (r, files) := SendTo(Identity(e, a0, who), side.files, peer, pt, draw.(newKey := e(1)));
    (r, SetSide(net, who, side.(files := files),
                match Encrypt(s, pt, draw.nonce).0
                case Ok(rm) => LogSent(net.sent, Pos(s), Sent(pt, draw.nonce, rm))
                case Err(_) => net.sent))
  }

  /** The user of a side is shown `d` by the session with the other node. */
  function ShowTo(net: Net, who: Who, files: Files, d: Delivery, reached: nat): Net {
    SetSide(net, who, Side(files, SideOf(net, who).inbox + [d]), OpenChain(net.sent, reached))
  }

  /** The net once a node's user was shown `shown`, its store having become `files`. */
  function Settle(e: Ephemerals, a0: Pub, net: Net, who: Who, rm: Option<RatchetMessage>, shown: Shown,
        files: Files): Net {
    var peer := PeerOf(e, a0, who);
    if shown.Some? && shown.value.0 == peer && peer in files && rm.Some? then
      ShowTo(net, who, files, Delivery(IdOf(rm.value.encHeader), shown.value.1), Pos(files[peer]))
    else
      SetSide(net, who, SideOf(net, who).(files := files), net.sent)
  }

  function DoIncoming(e: Ephemerals, a0: Pub, net: Net, who: Who, frame: Frame, order: seq<Pub>): Net {
    var me := Identity(e, a0, who);
    var (shown, files) := OnFrame(me, SideOf(net, who).files, order, frame, NextKey(e, a0, net, who));
    Settle(e, a0, net, who, Inside(me, frame), shown, files)
  }

  /** A send to a third party. */
  function DoSendingElsewhere(e: Ephemerals, a0: Pub, net: Net, who: Who, to: Pub, pt: seq<byte>, draw: Draw): Net {
    var side := SideOf(net, who);
    SetSide(net, who, side.(files := SendTo(Identity(e, a0, who), side.files, to, pt, draw).1), net.sent)
  }

  function Take(e: Ephemerals, a0: Pub, net: Net, step: Step): Net {
    match step
    case Sending(who, pt, draw) => DoSending(e, a0, net, who, pt, draw).1
    case SendingElsewhere(who, to, pt, draw) => DoSendingElsewhere(e, a0, net, who, to, pt, draw)
    case Incoming_(who, frame, order) => DoIncoming(e, a0, net, who, frame, order)
  }

  /** The responder answers only once it has a session; the network may deliver any frame it can make. */
  ghost predicate Possible(e: Ephemerals, a0: Pub, net: Net, step: Step) {
    match step
    case Sending(who, pt, _) =>
      && (who == Responder ==> a0 in net.responder.files)
      && SessionOf(e, a0, net, who).ns + 1 < U32_LIMIT && |pt| < U32_LIMIT
    case SendingElsewhere(who, to, _, _) => to != PeerOf(e, a0, who)
    case Incoming_(who, frame, order) =>
      && (forall p :: p in order <==> p in SideOf(net, who).files)
      && (Inside(Identity(e, a0, who), frame).Some? ==>
            Obtainable(Secret(e, a0), net.sent, Inside(Identity(e, a0, who), frame).value))
  }

  function NetAfter(e: Ephemerals, a0: Pub, run: seq<Step>): Net {
    if |run| == 0 then Start() else Take(e, a0, NetAfter(e, a0, run[..|run| - 1]), run[|run| - 1])
  }

  ghost predicate PossibleRun(e: Ephemerals, a0: Pub, run: seq<Step>) {
    |run| > 0 ==>
      PossibleRun(e, a0, run[..|run| - 1]) && Possible(e, a0, NetAfter(e, a0, run[..|run| - 1]), run[|run| - 1])
  }

  // ── The invariant ──────────────────────────────────────────────────────────

  ghost predicate NetInv(e: Ephemerals, a0: Pub, net: Net) {
    && SystemInv(Secret(e, a0), e, Abstract(e, a0, net))
    && StoreRooted(a0, net.initiator.files) && StoreRooted(e(0), net.responder.files)
    && PairFilesInv(e, a0, net)
  }

  /** Who has a session on disk, and what that says about the conversation so far. */
  ghost predicate PairFilesInv(e: Ephemerals, a0: Pub, net: Net) {
    && |net.sent| >= 2
    && (e(0) !in net.initiator.files ==> net.sent[1] == [])
    && (a0 in net.responder.files ==> net.responder.inbox != [])
  }

  lemma StartInv(e: Ephemerals, a0: Pub)
    ensures NetInv(e, a0, Start())
  {
    hide SystemInv;
    InitInv(Secret(e, a0), e);
    assert Abstract(e, a0, Start()) == Init(Secret(e, a0), e);
  }

  /** Both ends derive the same secret. */
  lemma SecretShared(e: Ephemerals, a0: Pub, who: Who)
    ensures SecretWith(Identity(e, a0, who), PeerOf(e, a0, who)) == Secret(e, a0)
  {
    DhSymmetric(a0, e(0));
  }

  // ── Sending ────────────────────────────────────────────────────────────────

  /** A send of the node is a send of the protocol. */
  lemma SendingIsSend(e: Ephemerals, a0: Pub, net: Net, who: Who, pt: seq<byte>, draw: Draw)
    requires who == Responder ==> a0 in net.responder.files
    ensures Abstract(e, a0, DoSending(e, a0, net, who, pt, draw).1) == DoSend(Abstract(e, a0, net), who, pt, draw.nonce)
  {
    hide Encrypt, InitInitiator, InitResponder;
    SecretShared(e, a0, who);
    EncryptErrKeeps(SessionOf(e, a0, net, who), pt, draw.nonce);
  }

  lemma EncryptErrKeeps(s: State, pt: seq<byte>, nonce: seq<byte>)
    ensures Encrypt(s, pt, nonce).0.Err? ==> Encrypt(s, pt, nonce).1 == s
    ensures Encrypt(s, pt, nonce).1.rk == s.rk
  {
  }

  lemma SendKeepsRooted(me: Pub, files: Files, peer: Pub, pt: seq<byte>, draw: Draw)
    requires StoreRooted(me, files)
    ensures StoreRooted(me, SendTo(me, files, peer, pt, draw).1)
  {
    hide Rooted, Encrypt, InitInitiator, InitResponder;
    InitRooted(me, peer, draw.newKey);
    EncryptRooted(SecretWith(me, peer), LoadOrInitInitiator(me, files, peer, draw.newKey), pt, draw.nonce);
  }

  /** A responder that was shown anything has answered a message of chain 1. */
  lemma ShownMeansMoved(sk: Key, e: Ephemerals, sys: System)
    requires SystemInv(sk, e, sys) && sys.responder.inbox != []
    ensures Pos(sys.responder.sess) >= 2 && |sys.sent| >= 2
    ensures Pos(sys.responder.sess) == 2 ==> sys.sent[1] != []
  {
    hide KeysInSync, CountersInSync, StoreInv, LogInv;
    var d := sys.responder.inbox[0];
    assert DeliveryInv(sk, e, sys.sent, sys.responder.sess, d);
  }

  lemma SendingKeepsInv(e: Ephemerals, a0: Pub, net: Net, who: Who, pt: seq<byte>, draw: Draw)
    requires NetInv(e, a0, net) && Possible(e, a0, net, Sending(who, pt, draw))
    ensures NetInv(e, a0, DoSending(e, a0, net, who, pt, draw).1)
  {
    hide SystemInv, StoreRooted, Encrypt, InitInitiator;
    SendingIsSend(e, a0, net, who, pt, draw);
    SendKeepsInv(Secret(e, a0), e, Abstract(e, a0, net), who, pt, draw.nonce);
    SendKeepsRooted(Identity(e, a0, who), SideOf(net, who).files, PeerOf(e, a0, who), pt, draw.(newKey := e(1)));
    EncryptErrKeeps(SessionOf(e, a0, net, who), pt, draw.nonce);
    if who == Initiator {
      InitiatorCanSend(e, a0, net, pt, draw.nonce);
    } else {
      ShownMeansMoved(Secret(e, a0), e, Abstract(e, a0, net));
    }
  }

  /** From its first step on, the initiator has a sending chain. */
  lemma InitiatorCanSend(e: Ephemerals, a0: Pub, net: Net, pt: seq<byte>, nonce: seq<byte>)
    requires SystemInv(Secret(e, a0), e, Abstract(e, a0, net))
    ensures Encrypt(SessionOf(e, a0, net, Initiator), pt, nonce).0.Ok?
  {
    hide LogInv, StoreInv, InboxInv, CountersInSync, Rk, Ck, Hk, CkAfter;
    var s := SessionOf(e, a0, net, Initiator);
    assert KeysInSync(Secret(e, a0), e, s) && Pos(s) >= 1;
  }

  // ── Receiving ──────────────────────────────────────────────────────────────

  /** Before anything was sent to it, a session freshly set up to answer accepts nothing. */
  lemma NothingToAnswer(e: Ephemerals, a0: Pub, sent: Log, me: Pub, rm: RatchetMessage, newKey: Pub)
    requires LogInv(Secret(e, a0), e, sent) && sent[1] == [] && Obtainable(Secret(e, a0), sent, rm)
    ensures Decrypt(InitResponder(Secret(e, a0), me), rm, newKey).0.Err?
  {
    hide Prepare, OpenMessage, LogInv;
    var sk, enc := Secret(e, a0), rm.encHeader;
    HkFacts(sk, e, 1);
    if enc.HeaderBox? && enc.hk == SharedHka(sk) {
      assert HeaderObtainable(sk, sent, enc);
      var id :| WasSent(sent, id) && MessageOf(sent, id).encHeader == enc;
      GenuineHeader(sk, e, sent, id);
      HkInjective(sk, e, id.chain, 1);
    }
  }

  /** The state after the session with the other node has tried `rm`. */
  function Tried(e: Ephemerals, a0: Pub, net: Net, who: Who, rm: RatchetMessage): Net {
    var s, side := SessionOf(e, a0, net, who), SideOf(net, who);
    match Decrypt(s, rm, e(Pos(s) + 2))
    case (Ok(pt), t) => ShowTo(net, who, side.files[PeerOf(e, a0, who) := t], Delivery(IdOf(rm.encHeader), pt), Pos(t))
    case (Err(_), _) => net
  }

  lemma TriedIsReceive(e: Ephemerals, a0: Pub, net: Net, who: Who, rm: RatchetMessage)
    ensures Abstract(e, a0, Tried(e, a0, net, who, rm)) == DoReceive(e, Abstract(e, a0, net), who, rm, false)
  {
    hide Decrypt, InitInitiator, InitResponder, IdOf;
  }

  /** `after` differs from `net` only in sessions with third parties. */
  ghost predicate OnlyOthers(e: Ephemerals, a0: Pub, net: Net, who: Who, after: Net) {
    var peer := PeerOf(e, a0, who);
    && after == SetSide(net, who, Side(SideOf(after, who).files, SideOf(net, who).inbox), net.sent)
    && (peer in SideOf(after, who).files <==> peer in SideOf(net, who).files)
    && (peer in SideOf(net, who).files ==> SideOf(after, who).files[peer] == SideOf(net, who).files[peer])
  }

  lemma OthersAreInvisible(e: Ephemerals, a0: Pub, net: Net, who: Who, after: Net)
    requires OnlyOthers(e, a0, net, who, after)
    ensures Abstract(e, a0, after) == Abstract(e, a0, net)
  {
    hide InitInitiator, InitResponder;
  }

  /** `after` is what the protocol makes of `rm`, or something the pair cannot tell from `net`. */
  ghost predicate ReceiveOrNothing(e: Ephemerals, a0: Pub, net: Net, who: Who, rm: Option<RatchetMessage>, after: Net) {
    || (rm.Some? && after == Tried(e, a0, net, who, rm.value))
    || OnlyOthers(e, a0, net, who, after)
  }

  lemma UnchangedIsNothing(e: Ephemerals, a0: Pub, net: Net, who: Who, rm: Option<RatchetMessage>)
    ensures ReceiveOrNothing(e, a0, net, who, rm, Settle(e, a0, net, who, rm, None, SideOf(net, who).files))
  {
    hide SessionOf;
  }

  /** One session's turn, seen from the pair. */
  lemma TurnIsReceiveOrNothing(e: Ephemerals, a0: Pub, net: Net, who: Who, p: Pub, s: State, rm: RatchetMessage)
    requires p == PeerOf(e, a0, who) ==> s == SessionOf(e, a0, net, who)
    ensures var (shown, files) := TrySession(SideOf(net, who).files, p, s, rm, NextKey(e, a0, net, who));
            ReceiveOrNothing(e, a0, net, who, Some(rm), Settle(e, a0, net, who, Some(rm), shown, files))
  {
    hide Decrypt, SessionOf, IdOf;
  }

  /** On the initiator's first contact, a bootstrap frame in the peer's name fails to decrypt. */
  lemma FirstContactFails(e: Ephemerals, a0: Pub, net: Net, rm: RatchetMessage, newKey: Pub)
    requires NetInv(e, a0, net) && Obtainable(Secret(e, a0), net.sent, rm) && e(0) !in net.initiator.files
    ensures TrySession(net.initiator.files, e(0), InitResponder(Secret(e, a0), a0), rm, newKey) ==
            (None, net.initiator.files)
  {
    hide Decrypt, InitResponder, PartyInv, LogInv, StoreRooted, Obtainable;
    NothingToAnswer(e, a0, net.sent, a0, rm, newKey);
  }

  lemma BootstrapSession(e: Ephemerals, a0: Pub, net: Net, who: Who)
    ensures LoadOrInitResponder(Identity(e, a0, who), SideOf(net, who).files, PeerOf(e, a0, who)) ==
            if who == Initiator && e(0) !in net.initiator.files then InitResponder(Secret(e, a0), a0)
            else SessionOf(e, a0, net, who)
  {
    hide InitInitiator, InitResponder;
    SecretShared(e, a0, who);
  }

  lemma BootstrapIsReceive(e: Ephemerals, a0: Pub, net: Net, who: Who, sender: Pub, rm: RatchetMessage)
    requires NetInv(e, a0, net) && Obtainable(Secret(e, a0), net.sent, rm)
    ensures var files := SideOf(net, who).files;
            var s := LoadOrInitResponder(Identity(e, a0, who), files, sender);
            var (shown, files') := TrySession(files, sender, s, rm, NextKey(e, a0, net, who));
            ReceiveOrNothing(e, a0, net, who, Some(rm), Settle(e, a0, net, who, Some(rm), shown, files'))
  {
    hide NetInv, LoadOrInitResponder, TrySession, Obtainable, ReceiveOrNothing, Settle, SessionOf, InitResponder,
        NextKey;
    BootstrapSession(e, a0, net, who);
    var s := LoadOrInitResponder(Identity(e, a0, who), SideOf(net, who).files, sender);
    if sender == PeerOf(e, a0, who) && who == Initiator && e(0) !in net.initiator.files {
      FirstContactFails(e, a0, net, rm, NextKey(e, a0, net, who));
      UnchangedIsNothing(e, a0, net, who, Some(rm));
    } else {
      TurnIsReceiveOrNothing(e, a0, net, who, sender, s, rm);
    }
  }

  lemma SessionIsReceive(e: Ephemerals, a0: Pub, net: Net, who: Who, order: seq<Pub>, rm: RatchetMessage)
    requires StoreRooted(Identity(e, a0, who), SideOf(net, who).files)
    requires forall p :: p in order <==> p in SideOf(net, who).files
    ensures var (shown, files) := TryInOrder(SideOf(net, who).files, order, rm, NextKey(e, a0, net, who));
            ReceiveOrNothing(e, a0, net, who, Some(rm), Settle(e, a0, net, who, Some(rm), shown, files))
  {
    hide StoreRooted, TryInOrder, TrySession, ReceiveOrNothing, Settle, Decrypt, NextKey, InitInitiator, InitResponder;
    var files, key := SideOf(net, who).files, NextKey(e, a0, net, who);
    TryInOrderFinds(Identity(e, a0, who), files, order, rm, key);
    if exists p :: p in order && p in files && Decrypt(files[p], rm, key).0.Ok? {
      var p :| p in order && p in files && Decrypt(files[p], rm, key).0.Ok?;
      TurnIsReceiveOrNothing(e, a0, net, who, p, files[p], rm);
    } else {
      UnchangedIsNothing(e, a0, net, who, Some(rm));
    }
  }

  lemma IncomingIsReceive(e: Ephemerals, a0: Pub, net: Net, who: Who, frame: Frame, order: seq<Pub>)
    requires NetInv(e, a0, net) && Possible(e, a0, net, Incoming_(who, frame, order))
    ensures ReceiveOrNothing(e, a0, net, who, Inside(Identity(e, a0, who), frame),
                             DoIncoming(e, a0, net, who, frame, order))
  {
    hide SystemInv, StoreRooted, TryInOrder, TrySession, Obtainable, ReceiveOrNothing, Settle, SessionOf, NextKey,
        LoadOrInitResponder, OpenAuthenticated;
    var me := Identity(e, a0, who);
    match frame {
      case BootstrapFrame(Text(env)) =>
        match OpenAuthenticated(me, env) {
          case Ok((Carries(rm), Some(sender))) => BootstrapIsReceive(e, a0, net, who, sender, rm);
          case _ => UnchangedIsNothing(e, a0, net, who, Inside(me, frame));
        }
      case SessionFrame(Carries(rm)) => SessionIsReceive(e, a0, net, who, order, rm);
      case _ => UnchangedIsNothing(e, a0, net, who, Inside(me, frame));
    }
  }

  // ── Every run ──────────────────────────────────────────────────────────────

  lemma TriedKeepsInv(e: Ephemerals, a0: Pub, net: Net, who: Who, rm: RatchetMessage)
    requires NetInv(e, a0, net) && Obtainable(Secret(e, a0), net.sent, rm)
    ensures SystemInv(Secret(e, a0), e, Abstract(e, a0, Tried(e, a0, net, who, rm)))
    ensures PairFilesInv(e, a0, Tried(e, a0, net, who, rm))
  {
    hide SystemInv, StoreRooted, Decrypt, InitInitiator, InitResponder, Obtainable, IdOf;
    TriedIsReceive(e, a0, net, who, rm);
    ReceiveKeepsInv(Secret(e, a0), e, Abstract(e, a0, net), who, rm, false);
    LogNeverEmpty(Secret(e, a0), e, Abstract(e, a0, net));
  }

  lemma LogNeverEmpty(sk: Key, e: Ephemerals, sys: System)
    requires SystemInv(sk, e, sys)
    ensures |sys.sent| >= 2
  {
    hide PartyInv;
  }

  lemma TryKeepsRooted(me: Pub, files: Files, p: Pub, s: State, rm: RatchetMessage, newKey: Pub)
    requires StoreRooted(me, files) && Rooted(SecretWith(me, p), s)
    ensures StoreRooted(me, TrySession(files, p, s, rm, newKey).1)
  {
    hide Rooted, Decrypt;
    DecryptRooted(SecretWith(me, p), s, rm, newKey);
  }

  lemma {:induction false} TryInOrderKeepsRooted(me: Pub, files: Files, order: seq<Pub>, rm: RatchetMessage,
        newKey: Pub)
    requires StoreRooted(me, files)
    ensures StoreRooted(me, TryInOrder(files, order, rm, newKey).1)
  {
    hide Rooted, Decrypt, TrySession;
    if |order| > 0 {
      if order[0] in files {
        TryKeepsRooted(me, files, order[0], files[order[0]], rm, newKey);
      }
      TryInOrderKeepsRooted(me, files, order[1..], rm, newKey);
    }
  }

  lemma FrameKeepsRooted(me: Pub, files: Files, order: seq<Pub>, frame: Frame, newKey: Pub)
    requires StoreRooted(me, files)
    ensures StoreRooted(me, OnFrame(me, files, order, frame, newKey).1)
  {
    hide Rooted, TryInOrder, TrySession, InitResponder, OpenAuthenticated;
    match frame {
      case BootstrapFrame(Text(env)) =>
        match OpenAuthenticated(me, env) {
          case Ok((Carries(rm), Some(sender))) =>
            InitRooted(me, sender, newKey);
            TryKeepsRooted(me, files, sender, LoadOrInitResponder(me, files, sender), rm, newKey);
          case _ =>
        }
      case SessionFrame(Carries(rm)) => TryInOrderKeepsRooted(me, files, order, rm, newKey);
      case _ =>
    }
  }

  lemma IncomingKeepsInv(e: Ephemerals, a0: Pub, net: Net, who: Who, frame: Frame, order: seq<Pub>)
    requires NetInv(e, a0, net) && Possible(e, a0, net, Incoming_(who, frame, order))
    ensures NetInv(e, a0, DoIncoming(e, a0, net, who, frame, order))
  {
    hide SystemInv, StoreRooted, OnFrame, Tried, Obtainable, Inside, SessionOf, NextKey;
    var after := DoIncoming(e, a0, net, who, frame, order);
    IncomingIsReceive(e, a0, net, who, frame, order);
    FrameKeepsRooted(Identity(e, a0, who), SideOf(net, who).files, order, frame, NextKey(e, a0, net, who));
    if OnlyOthers(e, a0, net, who, after) {
      OthersAreInvisible(e, a0, net, who, after);
    } else {
      TriedKeepsInv(e, a0, net, who, Inside(Identity(e, a0, who), frame).value);
    }
  }

  /** What a node sends to others is invisible to the pair. */
  lemma ElsewhereKeepsInv(e: Ephemerals, a0: Pub, net: Net, who: Who, to: Pub, pt: seq<byte>, draw: Draw)
    requires NetInv(e, a0, net) && to != PeerOf(e, a0, who)
    ensures NetInv(e, a0, DoSendingElsewhere(e, a0, net, who, to, pt, draw))
  {
    hide SystemInv, StoreRooted, Encrypt, SessionOf, InitInitiator;
    SendKeepsRooted(Identity(e, a0, who), SideOf(net, who).files, to, pt, draw);
    OthersAreInvisible(e, a0, net, who, DoSendingElsewhere(e, a0, net, who, to, pt, draw));
  }

  lemma {:induction false} NetRunInv(e: Ephemerals, a0: Pub, run: seq<Step>)
    requires PossibleRun(e, a0, run)
    ensures NetInv(e, a0, NetAfter(e, a0, run))
  {
    hide NetInv, DoSending, DoIncoming, DoSendingElsewhere, Obtainable;
    if |run| == 0 {
      StartInv(e, a0);
    } else {
      var before := NetAfter(e, a0, run[..|run| - 1]);
      NetRunInv(e, a0, run[..|run| - 1]);
      match run[|run| - 1]
      case Sending(who, pt, draw) => SendingKeepsInv(e, a0, before, who, pt, draw);
      case SendingElsewhere(who, to, pt, draw) => ElsewhereKeepsInv(e, a0, before, who, to, pt, draw);
      case Incoming_(who, frame, order) => IncomingKeepsInv(e, a0, before, who, frame, order);
    }
  }
}
