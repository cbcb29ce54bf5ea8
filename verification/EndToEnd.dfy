/** What two nodes that exchange frames can rely on, in every run with one initiator. */
module EndToEnd {
  import opened Bytes
  import opened Wrappers
  import opened Crypto
  import opened Session
  import opened Chains
  import opened Protocol
  import opened Invariant
  import opened Receiving
  import opened Runs
  import opened Lockbox
  import opened Node
  import opened Routing
  import opened Guarantees

  // ── A plain session frame finds its reader ─────────────────────────────────

  lemma HeardMeansBeyondOne(e: Ephemerals, a0: Pub, net: Net, who: Who)
    requires NetInv(e, a0, net) && ReceivedFromPeer(SessionOf(e, a0, net, who))
    ensures var sys := Abstract(e, a0, net);
            Pos(Get(sys, who).sess) >= 2 && Pos(sys.initiator.sess) % 2 == 1
            && (Pos(Get(sys, who).sess) <= Pos(Get(sys, Other(who)).sess) + 1)
  {
    hide StoreRooted, LogInv, StoreInv, InboxInv, CountersInSync, SessionOf, PairFilesInv;
    assert KeysInSync(Secret(e, a0), e, SessionOf(e, a0, net, who));
  }

  lemma FreshPositions(e: Ephemerals, a0: Pub)
    ensures Pos(FreshSession(e, a0, Initiator)) == 1 && Pos(FreshSession(e, a0, Responder)) == 0
  {
    assert RkDepth(Secret(e, a0)) == 0;
  }

  lemma FreshInitiatorIsNext(e: Ephemerals, a0: Pub, net: Net)
    requires NetInv(e, a0, net) && e(0) !in net.initiator.files
    ensures a0 !in net.responder.files
  {
    hide StoreRooted, PartyInv, LogInv, FreshSession;
    if a0 in net.responder.files {
      FreshPositions(e, a0);
      ShownMeansMoved(Secret(e, a0), e, Abstract(e, a0, net));
      assert false;
    }
  }

  /** A session whose owner has heard from its peer implies that the peer keeps one too. */
  lemma HeardMeansKept(e: Ephemerals, a0: Pub, net: Net, who: Who)
    requires NetInv(e, a0, net) && ReceivedFromPeer(SessionOf(e, a0, net, who))
    requires who == Responder ==> a0 in net.responder.files
    ensures Identity(e, a0, who) in SideOf(net, Other(who)).files
  {
    hide NetInv, FreshSession;
    HeardMeansBeyondOne(e, a0, net, who);
    FreshPositions(e, a0);
    if who == Responder && e(0) !in net.initiator.files {
      FreshInitiatorIsNext(e, a0, net);
    }
  }

  /** What is encrypted next is logged, and the peer's header keys are unaffected. */
  lemma NextIsLogged(sk: Key, e: Ephemerals, sys: System, who: Who, pt: seq<byte>, nonce: seq<byte>)
    requires SystemInv(sk, e, sys) && Encrypt(Get(sys, who).sess, pt, nonce).0.Ok?
    requires Get(sys, who).sess.ns + 1 < U32_LIMIT && |pt| < U32_LIMIT
    ensures var s := Get(sys, who).sess;
            var later, id := DoSend(sys, who, pt, nonce), MsgId(Pos(s), s.ns);
            && SystemInv(sk, e, later) && WasSent(later.sent, id)
            && later.sent[id.chain][id.n] == Sent(pt, nonce, Encrypt(s, pt, nonce).0.value)
            && Get(later, Other(who)) == Get(sys, Other(who))
  {
    hide KeysInSync, StoreInv, InboxInv, LogInv, Encrypt;
    SendKeepsInv(sk, e, sys, who, pt, nonce);
  }

  /** The peer of whoever encrypts can read the header, as soon as it has a receiving position. */
  lemma PeerReadsHeader(sk: Key, e: Ephemerals, sys: System, who: Who, pt: seq<byte>, nonce: seq<byte>)
    requires SystemInv(sk, e, sys) && Encrypt(Get(sys, who).sess, pt, nonce).0.Ok?
    requires Get(sys, who).sess.ns + 1 < U32_LIMIT && |pt| < U32_LIMIT
    ensures DecryptHeader(Get(sys, Other(who)).sess, Encrypt(Get(sys, who).sess, pt, nonce).0.value.encHeader).Some?
  {
    hide KeysInSync, StoreInv, InboxInv, LogInv, Encrypt, DecryptHeader;
    var s, peer := Get(sys, who).sess, Get(sys, Other(who)).sess;
    NextIsLogged(sk, e, sys, who, pt, nonce);
    HeaderTrial(sk, e, DoSend(sys, who, pt, nonce).sent, peer, MsgId(Pos(s), s.ns));
  }

  /**
   * Whenever a node sends a bare session frame, the recipient already keeps a session
   * with the sender, and that session reads the frame's header.
   */
  lemma SessionFrameFindsSession(e: Ephemerals, a0: Pub, run: seq<Step>, who: Who, pt: seq<byte>, draw: Draw,
        rm: RatchetMessage)
    requires PossibleRun(e, a0, run) && Possible(e, a0, NetAfter(e, a0, run), Sending(who, pt, draw))
    requires DoSending(e, a0, NetAfter(e, a0, run), who, pt, draw).0 == Ok(SessionFrame(Carries(rm)))
    ensures var me, theirs := Identity(e, a0, who), SideOf(NetAfter(e, a0, run), Other(who)).files;
            me in theirs && DecryptHeader(theirs[me], rm.encHeader).Some?
  {
    hide SystemInv, StoreRooted, Encrypt, DecryptHeader, ReceivedFromPeer, InitInitiator, InitResponder, NetAfter;
    var net := NetAfter(e, a0, run);
    NetRunInv(e, a0, run);
    SecretShared(e, a0, who);
    HeardMeansKept(e, a0, net, who);
    PeerReadsHeader(Secret(e, a0), e, Abstract(e, a0, net), who, pt, draw.nonce);
  }

  // ── What a frame shows ─────────────────────────────────────────────────────

  lemma CanSend(e: Ephemerals, a0: Pub, net: Net, who: Who, pt: seq<byte>, draw: Draw)
    requires NetInv(e, a0, net) && Possible(e, a0, net, Sending(who, pt, draw))
    ensures Encrypt(SessionOf(e, a0, net, who), pt, draw.nonce).0.Ok?
  {
    hide LogInv, StoreInv, InboxInv, CountersInSync, StoreRooted, SessionOf;
    var sys := Abstract(e, a0, net);
    assert KeysInSync(Secret(e, a0), e, sys.responder.sess);
    if who == Responder {
      ShownMeansMoved(Secret(e, a0), e, sys);
    }
    assert KeysInSync(Secret(e, a0), e, Get(sys, who).sess) && Pos(Get(sys, who).sess) >= 1;
  }

  /** Which frame a node sends. */
  lemma FrameSent(e: Ephemerals, a0: Pub, net: Net, who: Who, pt: seq<byte>, draw: Draw)
    requires NetInv(e, a0, net) && Possible(e, a0, net, Sending(who, pt, draw))
    requires Encrypt(SessionOf(e, a0, net, who), pt, draw.nonce).0.Ok?
    ensures var rm := Encrypt(SessionOf(e, a0, net, who), pt, draw.nonce).0.value;
            DoSending(e, a0, net, who, pt, draw).0 ==
            Ok(if ReceivedFromPeer(SessionOf(e, a0, net, who)) then SessionFrame(Carries(rm))
               else BootstrapFrame(Text(SealAuthenticated(Identity(e, a0, who), PeerOf(e, a0, who), draw.eph,
                   draw.nonce0, draw.nonce1, Carries(rm)))))
  {
    hide Encrypt, NetInv, SealAuthenticated;
    SecretShared(e, a0, who);
  }

  /** A responder that has a session has heard from its peer, so only the initiator bootstraps. */
  lemma AnswererHasHeard(e: Ephemerals, a0: Pub, net: Net, who: Who)
    requires NetInv(e, a0, net) && (who == Responder ==> a0 in net.responder.files)
    requires !ReceivedFromPeer(SessionOf(e, a0, net, who))
    ensures who == Initiator
  {
    hide LogInv, StoreInv, InboxInv, CountersInSync, StoreRooted, SessionOf;
    var sys := Abstract(e, a0, net);
    assert KeysInSync(Secret(e, a0), e, sys.responder.sess);
    if who == Responder {
      ShownMeansMoved(Secret(e, a0), e, sys);
    }
  }

  /** What node `who` shows when it is handed `frame` and lists its sessions in `order`. */
  function ShownBy(e: Ephemerals, a0: Pub, net: Net, who: Who, order: seq<Pub>, frame: Frame): Shown {
    OnFrame(Identity(e, a0, who), SideOf(net, who).files, order, frame, NextKey(e, a0, net, who)).0
  }

  /** `frame` carries `rm` from `who` to its peer, in one of the two forms a node sends. */
  ghost predicate CarriesFrom(e: Ephemerals, a0: Pub, who: Who, frame: Frame, rm: RatchetMessage) {
    || frame == SessionFrame(Carries(rm))
    || (who == Initiator && exists eph, n0, n1 ::
          frame == BootstrapFrame(Text(SealAuthenticated(a0, e(0), eph, n0, n1, Carries(rm)))))
  }

  /** A session frame under the keys of the session with `peer` is that session's business alone. */
  lemma SessionShows(me: Pub, files: Files, order: seq<Pub>, peer: Pub, rm: RatchetMessage, newKey: Pub)
    requires StoreRooted(me, files) && peer in files && peer in order
    requires rm.encHeader.HeaderBox? && Root(rm.encHeader.hk) == SecretWith(me, peer)
    ensures OnFrame(me, files, order, SessionFrame(Carries(rm)), newKey).0 ==
            match Decrypt(files[peer], rm, newKey).0
            case Ok(pt) => Some((peer, pt))
            case Err(_) => None
  {
    hide Decrypt, Rooted, TryInOrder;
    TryInOrderFinds(me, files, order, rm, newKey);
    forall p | p in order && p in files && Decrypt(files[p], rm, newKey).0.Ok?
      ensures p == peer
    {
      AcceptsOwnRoot(SecretWith(me, p), files[p], rm, newKey);
      DhPeerUnique(me, p, peer);
    }
  }

  lemma BootstrapShows(e: Ephemerals, a0: Pub, net: Net, rm: RatchetMessage, eph: Pub, n0: seq<byte>, n1: seq<byte>,
                       order: seq<Pub>)
    ensures var frame := BootstrapFrame(Text(SealAuthenticated(a0, e(0), eph, n0, n1, Carries(rm))));
            ShownBy(e, a0, net, Responder, order, frame) ==
            match Verdict(e, SessionOf(e, a0, net, Responder), rm)
            case Ok(pt) => Some((a0, pt))
            case Err(_) => None
  {
    hide Decrypt, OpenAuthenticated, InitResponder, InitInitiator;
    OpensForRecipientOnly(e(0), a0, e(0), eph, n0, n1, Carries(rm));
    BootstrapSession(e, a0, net, Responder);
  }

  /** The recipient's session opens a logged message exactly when it is openable. */
  lemma LoggedVerdict(sk: Key, e: Ephemerals, sys: System, who: Who, id: MsgId)
    requires SystemInv(sk, e, sys) && WasSent(sys.sent, id)
    ensures var s, r := Get(sys, who).sess, Verdict(e, Get(sys, who).sess, MessageOf(sys.sent, id));
            if Openable(sk, e, sys.sent, s, id) then r == Ok(sys.sent[id.chain][id.n].pt) else r.Err?
    ensures var enc := MessageOf(sys.sent, id).encHeader; enc.HeaderBox? && Root(enc.hk) == sk
  {
    hide LogInv, PartyInv, Decrypt, Stored, WithinReach;
    var p := Get(sys, who);
    GenuineHeader(sk, e, sys.sent, id);
    HkFacts(sk, e, id.chain);
    ReceiveGenuine(sk, e, sys.sent, p.sess, p.inbox, id, MessageOf(sys.sent, id));
  }

  /** Whenever a frame with a logged message arrives, it shows the message if the session can open it, else nothing. */
  lemma FrameShows(e: Ephemerals, a0: Pub, net: Net, who: Who, id: MsgId, frame: Frame, order: seq<Pub>)
    requires NetInv(e, a0, net) && WasSent(net.sent, id) && CarriesFrom(e, a0, who, frame, MessageOf(net.sent, id))
    requires forall p :: p in order <==> p in SideOf(net, Other(who)).files
    requires frame.SessionFrame? ==> Identity(e, a0, who) in SideOf(net, Other(who)).files
    ensures ShownBy(e, a0, net, Other(who), order, frame) ==
            if Openable(Secret(e, a0), e, net.sent, SessionOf(e, a0, net, Other(who)), id)
            then Some((Identity(e, a0, who), net.sent[id.chain][id.n].pt)) else None
  {
    hide SystemInv, StoreRooted, Decrypt, InitInitiator, InitResponder, OnFrame, SealAuthenticated, Openable;
    var them, rm := Other(who), MessageOf(net.sent, id);
    LoggedVerdict(Secret(e, a0), e, Abstract(e, a0, net), them, id);
    SecretShared(e, a0, them);
    if frame.SessionFrame? {
      SessionShows(Identity(e, a0, them), SideOf(net, them).files, order, Identity(e, a0, who), rm, NextKey(e,
            a0, net, them));
    } else {
      var eph, n0, n1 :| frame == BootstrapFrame(Text(SealAuthenticated(a0, e(0), eph, n0, n1, Carries(rm))));
      BootstrapShows(e, a0, net, rm, eph, n0, n1, order);
    }
  }

  // ── Whenever it arrives ────────────────────────────────────────────────────

  /** `later` keeps every logged message and every session of `net`. */
  ghost predicate Continues(net: Net, later: Net) {
    && Extends(net.sent, later.sent)
    && net.initiator.files.Keys <= later.initiator.files.Keys
    && net.responder.files.Keys <= later.responder.files.Keys
  }

  lemma FilesStay(me: Pub, files: Files, order: seq<Pub>, frame: Frame, newKey: Pub)
    ensures files.Keys <= OnFrame(me, files, order, frame, newKey).1.Keys
  {
    hide OnFrame, Decrypt, Inside, Answering;
    FrameTransaction(me, files, order, frame, newKey);
  }

  lemma StepContinues(e: Ephemerals, a0: Pub, net: Net, step: Step)
    ensures Continues(net, Take(e, a0, net, step))
  {
    hide OnFrame, SessionOf, Encrypt, IdOf, Inside, SealAuthenticated, InitInitiator;
    match step
    case Sending(who, pt, draw) =>
    case SendingElsewhere(who, to, pt, draw) =>
    case Incoming_(who, frame, order) =>
      FilesStay(Identity(e, a0, who), SideOf(net, who).files, order, frame, NextKey(e, a0, net, who));
  }

  lemma {:induction false} RunContinues(e: Ephemerals, a0: Pub, run: seq<Step>, k: nat)
    requires k <= |run|
    ensures Continues(NetAfter(e, a0, run[..k]), NetAfter(e, a0, run))
  {
    hide Take;
    if k < |run| {
      var init := run[..|run| - 1];
      RunContinues(e, a0, init, k);
      assert init[..k] == run[..k];
      StepContinues(e, a0, NetAfter(e, a0, init), run[|run| - 1]);
      ExtendsOn(NetAfter(e, a0, run[..k]).sent, NetAfter(e, a0, init).sent, NetAfter(e, a0, run).sent);
    } else {
      assert run[..k] == run;
    }
  }

  lemma ExtendsOn(a: Log, b: Log, c: Log)
    requires Extends(a, b) && Extends(b, c)
    ensures Extends(a, c)
  {
    forall i | 0 <= i < |a| ensures a[i] <= c[i] {
      assert a[i] <= b[i] && b[i] <= c[i];
    }
  }

  lemma {:induction false} PrefixPossible(e: Ephemerals, a0: Pub, run: seq<Step>, k: nat)
    requires PossibleRun(e, a0, run) && k < |run|
    ensures PossibleRun(e, a0, run[..k]) && Possible(e, a0, NetAfter(e, a0, run[..k]), run[k])
  {
    hide Possible, NetAfter;
    if k < |run| - 1 {
      var init := run[..|run| - 1];
      PrefixPossible(e, a0, init, k);
      assert init[..k] == run[..k] && init[k] == run[k];
    }
  }

  /** What a possible send logs, and the frame it goes out in. */
  lemma SendLogsFrame(e: Ephemerals, a0: Pub, net: Net, who: Who, pt: seq<byte>, draw: Draw)
    requires NetInv(e, a0, net) && Possible(e, a0, net, Sending(who, pt, draw))
    ensures var s := SessionOf(e, a0, net, who);
            var id := MsgId(Pos(s), s.ns);
            var (frame, later) := DoSending(e, a0, net, who, pt, draw);
            && frame.Ok? && WasSent(later.sent, id) && later.sent[id.chain][id.n].pt == pt
            && CarriesFrom(e, a0, who, frame.value, MessageOf(later.sent, id))
            && (frame.value.SessionFrame? ==> Identity(e, a0, who) in SideOf(net, Other(who)).files)
  {
    hide SystemInv, StoreRooted, Encrypt, SendTo, SealAuthenticated, ReceivedFromPeer, InitInitiator, InitResponder;
    CanSend(e, a0, net, who, pt, draw);
    FrameSent(e, a0, net, who, pt, draw);
    NextIsLogged(Secret(e, a0), e, Abstract(e, a0, net), who, pt, draw.nonce);
    SendingIsSend(e, a0, net, who, pt, draw);
    if ReceivedFromPeer(SessionOf(e, a0, net, who)) {
      HeardMeansKept(e, a0, net, who);
    } else {
      AnswererHasHeard(e, a0, net, who);
    }
  }

  /**
   * Whatever frame a node sent at step `k` of a run, bootstrap or not, and whatever happened
   * since: handed over at the end of the run, it shows its plaintext under its sender's
   * name if the recipient's session can open the message, and nothing otherwise, in
   * whatever order the recipient lists its sessions.
   */
  lemma FrameDelivers(e: Ephemerals, a0: Pub, run: seq<Step>, k: nat, order: seq<Pub>)
    requires PossibleRun(e, a0, run) && k < |run| && run[k].Sending?
    requires forall p :: p in order <==> p in SideOf(NetAfter(e, a0, run), Other(run[k].who)).files
    ensures var before, net, who := NetAfter(e, a0, run[..k]), NetAfter(e, a0, run), run[k].who;
            var frame := DoSending(e, a0, before, who, run[k].pt, run[k].draw).0;
            var s := SessionOf(e, a0, before, who);
            && frame.Ok?
            && ShownBy(e, a0, net, Other(who), order, frame.value) ==
               if Openable(Secret(e, a0), e, net.sent, SessionOf(e, a0, net, Other(who)), MsgId(Pos(s), s.ns))
               then Some((Identity(e, a0, who), run[k].pt)) else None
  {
    hide NetAfter, NetInv, DoSending, OnFrame, Possible, Openable, SessionOf, CarriesFrom;
    var before, net, who := NetAfter(e, a0, run[..k]), NetAfter(e, a0, run), run[k].who;
    PrefixPossible(e, a0, run, k);
    NetRunInv(e, a0, run[..k]);
    NetRunInv(e, a0, run);
    SendLogsFrame(e, a0, before, who, run[k].pt, run[k].draw);
    var after := DoSending(e, a0, before, who, run[k].pt, run[k].draw).1;
    AfterStep(e, a0, run, k);
    RunContinues(e, a0, run, k);
    RunContinues(e, a0, run, k + 1);
    var s := SessionOf(e, a0, before, who);
    StaysLogged(after.sent, net.sent, MsgId(Pos(s), s.ns));
    FrameShows(e, a0, net, who, MsgId(Pos(s), s.ns), DoSending(e, a0, before, who, run[k].pt,
          run[k].draw).0.value, order);
  }

  lemma AfterStep(e: Ephemerals, a0: Pub, run: seq<Step>, k: nat)
    requires k < |run|
    ensures NetAfter(e, a0, run[..k + 1]) == Take(e, a0, NetAfter(e, a0, run[..k]), run[k])
  {
    hide Take;
    assert run[..k + 1][..k] == run[..k];
  }

  lemma StaysLogged(sent: Log, later: Log, id: MsgId)
    requires Extends(sent, later) && WasSent(sent, id)
    ensures WasSent(later, id) && later[id.chain][id.n] == sent[id.chain][id.n]
  {
    assert sent[id.chain] <= later[id.chain];
  }

  // ── When a node stops bootstrapping ────────────────────────────────────────

  /** The session has heard from the peer exactly when the user was shown something. */
  ghost predicate HeardIffShown(e: Ephemerals, a0: Pub, net: Net, who: Who) {
    ReceivedFromPeer(SessionOf(e, a0, net, who)) <==> SideOf(net, who).inbox != []
  }

  lemma ShownMeansHeard(sk: Key, e: Ephemerals, sys: System, who: Who)
    requires SystemInv(sk, e, sys)
    ensures Get(sys, who).inbox != [] ==> ReceivedFromPeer(Get(sys, who).sess)
    ensures ReceivedFromPeer(Get(sys, who).sess) <==> Pos(Get(sys, who).sess) >= 2
  {
    hide LogInv, StoreInv, CountersInSync, Rk, Ck, Hk, CkAfter;
    var p := Get(sys, who);
    assert KeysInSync(sk, e, p.sess);
    if p.inbox != [] {
      assert DeliveryInv(sk, e, sys.sent, p.sess, p.inbox[0]);
    }
  }

  lemma StartHeard(e: Ephemerals, a0: Pub, who: Who)
    ensures HeardIffShown(e, a0, Start(), who)
  {
  }

  lemma StepHeard(e: Ephemerals, a0: Pub, net: Net, step: Step, who: Who)
    requires NetInv(e, a0, net) && Possible(e, a0, net, step) && HeardIffShown(e, a0, net, who)
    requires NetInv(e, a0, Take(e, a0, net, step))
    ensures HeardIffShown(e, a0, Take(e, a0, net, step), who)
  {
    hide SystemInv, StoreRooted, Encrypt, Obtainable, SessionOf, Tried, DoIncoming, DoSending, DoSendingElsewhere,
      OnlyOthers, ReceivedFromPeer, Inside, PairFilesInv, Pos;
    var sk, after := Secret(e, a0), Take(e, a0, net, step);
    ShownMeansHeard(sk, e, Abstract(e, a0, after), who);
    ShownMeansHeard(sk, e, Abstract(e, a0, net), who);
    match step {
      case Sending(actor, pt, draw) =>
        SendingIsSend(e, a0, net, actor, pt, draw);
        SendKeepsPlace(Abstract(e, a0, net), actor, pt, draw.nonce, who);
      case SendingElsewhere(actor, to, pt, draw) => ElsewhereInvisible(e, a0, net, actor, to, pt, draw);
      case Incoming_(actor, frame, order) =>
        IncomingIsReceive(e, a0, net, actor, frame, order);
        if OnlyOthers(e, a0, net, actor, after) {
          OthersAreInvisible(e, a0, net, actor, after);
        } else {
          TriedIsReceive(e, a0, net, actor, Inside(Identity(e, a0, actor), frame).value);
          ReceiveKeepsPlace(e, Abstract(e, a0, net), actor, Inside(Identity(e, a0, actor), frame).value, who);
        }
    }
  }

  lemma ElsewhereInvisible(e: Ephemerals, a0: Pub, net: Net, who: Who, to: Pub, pt: seq<byte>, draw: Draw)
    requires to != PeerOf(e, a0, who)
    ensures Abstract(e, a0, DoSendingElsewhere(e, a0, net, who, to, pt, draw)) == Abstract(e, a0, net)
  {
    hide Encrypt, SessionOf, InitInitiator;
    OthersAreInvisible(e, a0, net, who, DoSendingElsewhere(e, a0, net, who, to, pt, draw));
  }

  lemma SendKeepsPlace(sys: System, actor: Who, pt: seq<byte>, nonce: seq<byte>, who: Who)
    ensures var later := DoSend(sys, actor, pt, nonce);
            Pos(Get(later, who).sess) == Pos(Get(sys, who).sess) && Get(later, who).inbox == Get(sys, who).inbox
  {
    hide Encrypt, Pos;
    EncryptErrKeeps(Get(sys, actor).sess, pt, nonce);
    SameRootSamePos(Encrypt(Get(sys, actor).sess, pt, nonce).1, Get(sys, actor).sess);
  }

  lemma SameRootSamePos(s: State, t: State)
    ensures s.rk == t.rk ==> Pos(s) == Pos(t)
  {
  }

  lemma ReceiveKeepsPlace(e: Ephemerals, sys: System, actor: Who, msg: RatchetMessage, who: Who)
    ensures var later := DoReceive(e, sys, actor, msg, false);
            || later == sys
            || (actor != who && Get(later, who) == Get(sys, who))
            || (actor == who && Get(later, who).inbox != [])
  {
    hide Decrypt, IdOf, Pos;
    var p := Get(sys, actor);
    var (r, t) := Decrypt(p.sess, msg, e(Pos(p.sess) + 2));
    if r.Ok? {
      var grown := p.inbox + [Delivery(IdOf(msg.encHeader), r.value)];
      assert |grown| > 0;
      assert Get(DoReceive(e, sys, actor, msg, false), actor).inbox == grown;
    }
  }

  lemma {:induction false} RunHeard(e: Ephemerals, a0: Pub, run: seq<Step>, who: Who)
    requires PossibleRun(e, a0, run)
    ensures HeardIffShown(e, a0, NetAfter(e, a0, run), who)
  {
    hide NetInv, HeardIffShown, Possible, Take;
    if |run| == 0 {
      StartHeard(e, a0, who);
    } else {
      var init := run[..|run| - 1];
      RunHeard(e, a0, init, who);
      NetRunInv(e, a0, init);
      NetRunInv(e, a0, run);
      StepHeard(e, a0, NetAfter(e, a0, init), run[|run| - 1], who);
    }
  }

  /**
   * In every run, a node sends bare session frames to its peer exactly from the moment its
   * user was shown something from that peer; until then every frame is a bootstrap frame.
   */
  lemma PlainOnceShown(e: Ephemerals, a0: Pub, run: seq<Step>, who: Who, pt: seq<byte>, draw: Draw)
    requires PossibleRun(e, a0, run) && Possible(e, a0, NetAfter(e, a0, run), Sending(who, pt, draw))
    ensures var f := DoSending(e, a0, NetAfter(e, a0, run), who, pt, draw).0;
            && f.Ok?
            && (f.value.SessionFrame? <==> SideOf(NetAfter(e, a0, run), who).inbox != [])
            && (f.value.BootstrapFrame? <==> SideOf(NetAfter(e, a0, run), who).inbox == [])
  {
    hide NetInv, NetAfter, Possible, DoSending, Encrypt, SessionOf, ReceivedFromPeer, SealAuthenticated, PossibleRun;
    NetRunInv(e, a0, run);
    RunHeard(e, a0, run, who);
    CanSend(e, a0, NetAfter(e, a0, run), who, pt, draw);
    FrameSent(e, a0, NetAfter(e, a0, run), who, pt, draw);
  }

  // ── Every run of nodes ─────────────────────────────────────────────────────

  /** What a user was shown from the other node was sent by it, verbatim, and shown once. */
  lemma ShownAtMostOnce(e: Ephemerals, a0: Pub, run: seq<Step>, who: Who)
    requires PossibleRun(e, a0, run)
    ensures var net := NetAfter(e, a0, run);
            var s, inbox := SessionOf(e, a0, net, who), SideOf(net, who).inbox;
            && (forall a, b :: 0 <= a < b < |inbox| ==> inbox[a].id != inbox[b].id)
            && (forall d :: d in inbox ==>
                  && Incoming(Pos(s), d.id.chain) && WasSent(net.sent, d.id)
                  && d.pt == net.sent[d.id.chain][d.id.n].pt)
  {
    hide KeysInSync, StoreInv, LogInv, CountersInSync, StoreRooted, PairFilesInv, SessionOf, NetAfter;
    NetRunInv(e, a0, run);
    var net := NetAfter(e, a0, run);
    forall d | d in SideOf(net, who).inbox
      ensures Incoming(Pos(SessionOf(e, a0, net, who)), d.id.chain) && WasSent(net.sent, d.id)
      ensures d.pt == net.sent[d.id.chain][d.id.n].pt
    {
      assert DeliveryInv(Secret(e, a0), e, net.sent, SessionOf(e, a0, net, who), d);
    }
  }
}
