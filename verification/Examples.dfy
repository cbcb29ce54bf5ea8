/** Runs that get to the cases other results speak of, the loss of a message first among them. */
module Examples {
  import opened Bytes
  import opened Wrappers
  import opened Crypto
  import opened Session
  import opened Chains
  import opened Protocol
  import opened Invariant
  import opened Receiving
  import opened Runs
  import opened Guarantees
  import opened Completeness
  import opened Secrecy

  const FIRST := MsgId(1, 0)
  const SECOND := MsgId(1, 1)

  /** The initiator, still on its first chain, sends once more. */
  lemma SendsAgain(sk: Key, e: Ephemerals, sys: System, pt: seq<byte>, nonce: seq<byte>)
    requires SystemInv(sk, e, sys) && Pos(sys.initiator.sess) == 1 && |sys.sent| == 2
    requires |sys.sent[1]| + 1 < U32_LIMIT && |pt| < U32_LIMIT
    ensures var t := DoSend(sys, Initiator, pt, nonce);
            && SystemInv(sk, e, t) && Pos(t.initiator.sess) == 1 && t.responder == sys.responder
            && |t.sent| == 2 && |t.sent[1]| == |sys.sent[1]| + 1 && sys.sent[1] <= t.sent[1]
            && t.sent[1][|sys.sent[1]|].pt == pt
    ensures sys.initiator.sess.ns == |sys.sent[1]|
  {
    hide LogInv, KeysInSync, StoreInv, InboxInv;
    SendKeepsInv(sk, e, sys, Initiator, pt, nonce);
    PairSend(sk, e, sys.sent, sys.initiator, sys.responder, pt, nonce);
  }

  function TwoSent(a: seq<byte>, na: seq<byte>, b: seq<byte>, nb: seq<byte>): seq<Action> {
    [Send(Initiator, a, na), Send(Initiator, b, nb)]
  }

  lemma AfterTwo(sk: Key, e: Ephemerals, a: seq<byte>, na: seq<byte>, b: seq<byte>, nb: seq<byte>)
    requires sk.Dh? && |a| < U32_LIMIT && |b| < U32_LIMIT
    ensures ValidRun(sk, e, TwoSent(a, na, b, nb))
    ensures var sys := After(sk, e, TwoSent(a, na, b, nb));
            && |sys.sent| == 2 && |sys.sent[1]| == 2 && sys.sent[1][0].pt == a && sys.sent[1][1].pt == b
            && sys.responder == Init(sk, e).responder && Pos(sys.initiator.sess) == 1
  {
    hide DoSend, SystemInv;
    var one, two := Send(Initiator, a, na), Send(Initiator, b, nb);
    InitInv(sk, e);
    InitiatorStarts(sk, e);
    SendsAgain(sk, e, Init(sk, e), a, na);
    SendsAgain(sk, e, DoSend(Init(sk, e), Initiator, a, na), b, nb);
    StepIsValid(sk, e, [], one);
    StepIsValid(sk, e, [] + [one], two);
    assert [] + [one] + [two] == TwoSent(a, na, b, nb);
  }

  /** The second message arrives first. */
  lemma SecondArrives(sk: Key, e: Ephemerals, a: seq<byte>, na: seq<byte>, b: seq<byte>, nb: seq<byte>)
        returns (run: seq<Action>)
    requires sk.Dh? && |a| < U32_LIMIT && |b| < U32_LIMIT
    ensures |run| == 3 && run[..2] == TwoSent(a, na, b, nb) && ValidRun(sk, e, run)
    ensures var before, sys := After(sk, e, run[..2]), After(sk, e, run);
            && |before.sent| == 2 && |before.sent[1]| == 2
            && run[2] == Receive(Responder, before.sent[1][1].msg, true)
            && |sys.sent| >= 2 && sys.sent[1] == before.sent[1] && sys.sent[1][0].pt == a
            && sys.responder.inbox == [Delivery(SECOND, b)] && Pos(sys.initiator.sess) == 1
            && before.responder == Init(sk, e).responder && Verdict(e, before.responder.sess, before.sent[1][1].msg).Ok?
  {
    hide ValidRun, SystemInv, Decrypt;
    AfterTwo(sk, e, a, na, b, nb);
    var two := TwoSent(a, na, b, nb);
    var sys := After(sk, e, two);
    run := two + [Receive(Responder, sys.sent[1][1].msg, true)];
    assert run[..2] == two;
    LoggedIsObtainable(sk, sys.sent, SECOND);
    StepIsValid(sk, e, two, run[2]);
    RunInv(sk, e, two);
    SecondIsAccepted(sk, e, sys);
  }

  lemma StepIsValid(sk: Key, e: Ephemerals, run: seq<Action>, act: Action)
    requires ValidRun(sk, e, run) && Enabled(sk, After(sk, e, run), act)
    ensures ValidRun(sk, e, run + [act]) && After(sk, e, run + [act]) == Apply(e, After(sk, e, run), act)
  {
    hide Apply, Enabled;
    assert (run + [act])[..|run|] == run;
  }

  lemma SecondIsAccepted(sk: Key, e: Ephemerals, sys: System)
    requires SystemInv(sk, e, sys) && |sys.sent| == 2 && |sys.sent[1]| == 2 && sys.responder == Init(sk, e).responder
    ensures Verdict(e, sys.responder.sess, sys.sent[1][1].msg) == Ok(sys.sent[1][1].pt)
    ensures IdOf(sys.sent[1][1].msg.encHeader) == SECOND
  {
    hide LogInv, PartyInv, Decrypt, Stored;
    var p := sys.responder;
    assert Pos(p.sess) == 0 by {
      assert p.sess.rk == sk && sk.Dh?;
    }
    ReceiveGenuine(sk, e, sys.sent, p.sess, p.inbox, SECOND, MessageOf(sys.sent, SECOND));
    GenuineHeader(sk, e, sys.sent, SECOND);
  }

  /** The first message is then passed over, and its key stored. */
  lemma FirstIsStored(sk: Key, e: Ephemerals, a: seq<byte>, na: seq<byte>, b: seq<byte>, nb: seq<byte>,
        run: seq<Action>)
    requires sk.Dh? && |run| == 3 && ValidRun(sk, e, run) && run[..2] == TwoSent(a, na, b, nb)
    requires var before, sys := After(sk, e, run[..2]), After(sk, e, run);
             && |before.sent| == 2 && |before.sent[1]| == 2
             && run[2] == Receive(Responder, before.sent[1][1].msg, true)
             && before.responder == Init(sk, e).responder && Verdict(e, before.responder.sess,
                   before.sent[1][1].msg).Ok?
             && sys.responder.inbox == [Delivery(SECOND, b)] && Pos(sys.initiator.sess) == 1
    ensures var sys := After(sk, e, run);
            Passed(sys.sent, sys.responder.sess, FIRST) && Stored(sk, e, sys.responder.sess, FIRST)
  {
    hide SystemInv, Stored, Decrypt, Harms;
    RunInv(sk, e, run);
    HeldIffUnharmed(sk, e, run, Responder, FIRST);
    OnlySecondDelivered(sk, e, After(sk, e, run), b);
    EmptyStoreUnharmed(sk, e, run, a, na, b, nb);
  }

  lemma OnlySecondDelivered(sk: Key, e: Ephemerals, sys: System, b: seq<byte>)
    requires SystemInv(sk, e, sys) && sys.responder.inbox == [Delivery(SECOND, b)] && Pos(sys.initiator.sess) == 1
    ensures Passed(sys.sent, sys.responder.sess, FIRST) && !InInbox(sys.responder.inbox, FIRST)
  {
    hide LogInv, KeysInSync, StoreInv, CountersInSync;
    assert DeliveryInv(sk, e, sys.sent, sys.responder.sess, sys.responder.inbox[0]);
  }

  lemma EmptyStoreUnharmed(sk: Key, e: Ephemerals, run: seq<Action>, a: seq<byte>, na: seq<byte>, b: seq<byte>,
        nb: seq<byte>)
    requires |run| == 3 && run[..2] == TwoSent(a, na, b, nb)
    requires run[2].Receive? && run[2].who == Responder && After(sk, e, run[..2]).responder == Init(sk, e).responder
    requires Verdict(e, Init(sk, e).responder.sess, run[2].msg).Ok?
    ensures Unharmed(sk, e, run, Responder, FIRST)
  {
    hide Decrypt, After;
    assert run[..2][..1] == [Send(Initiator, a, na)] && run[..2][..1][..0] == [];
    assert Unharmed(sk, e, run[..2][..1], Responder, FIRST);
    assert Unharmed(sk, e, run[..2], Responder, FIRST);
    assert !Stored(sk, e, Init(sk, e).responder.sess, FIRST);
  }

  /**
   * For all keys and texts: after two messages of which the second arrived first, the
   * first could be decrypted; a junk ciphertext under its header is rejected, and when
   * the session is used on, the first message is rejected as well.
   */
  lemma CorruptionLosesMessage(sk: Key, e: Ephemerals, a: seq<byte>, na: seq<byte>, b: seq<byte>, nb: seq<byte>)
    returns (run: seq<Action>, first: RatchetMessage)
    requires sk.Dh? && |a| < U32_LIMIT && |b| < U32_LIMIT
    ensures |run| == 4 && ValidRun(sk, e, run) && run[3] == Receive(Responder, RatchetMessage(first.encHeader,
          MsgJunk([])), true)
    ensures var before, sys := After(sk, e, run[..3]), After(sk, e, run);
            && |before.sent| >= 2 && |before.sent[1]| == 2 && before.sent[1][0].pt == a
                  && before.sent[1][0].msg == first
            && Verdict(e, before.responder.sess, first) == Ok(a)
            && Verdict(e, before.responder.sess, run[3].msg).Err?
            && Verdict(e, sys.responder.sess, first).Err?
  {
    hide ValidRun, SystemInv, Decrypt, Stored, Passed;
    var three := SecondArrives(sk, e, a, na, b, nb);
    FirstIsStored(sk, e, a, na, b, nb, three);
    var sys := After(sk, e, three);
    first := sys.sent[1][0].msg;
    var bad := RatchetMessage(first.encHeader, MsgJunk([]));
    run := three + [Receive(Responder, bad, true)];
    assert run[..3] == three;
    RunInv(sk, e, three);
    BurnsFirst(sk, e, sys);
    StepIsValid(sk, e, three, run[3]);
  }

  lemma BurnsFirst(sk: Key, e: Ephemerals, sys: System)
    requires SystemInv(sk, e, sys) && WasSent(sys.sent, FIRST) && Stored(sk, e, sys.responder.sess, FIRST)
    ensures var first := MessageOf(sys.sent, FIRST);
            var bad := RatchetMessage(first.encHeader, MsgJunk([]));
            && Obtainable(sk, sys.sent, bad)
            && Verdict(e, sys.responder.sess, first) == Ok(sys.sent[1][0].pt)
            && Verdict(e, sys.responder.sess, bad).Err?
            && Verdict(e, DoReceive(e, sys, Responder, bad, true).responder.sess, first).Err?
  {
    hide LogInv, PartyInv, Decrypt, Stored;
    var p := sys.responder;
    LoggedIsObtainable(sk, sys.sent, FIRST);
    GenuineHeader(sk, e, sys.sent, FIRST);
    CorruptionBurnsStoredKey(sk, e, sys.sent, p.sess, p.inbox, FIRST, MsgJunk([]));
  }

  /** What the secrecy results ask can be had, by a side that has sent and a thief with keys of its own. */
  lemma SecrecyIsAboutSomething(a: seq<byte>, na: seq<byte>, b: seq<byte>, nb: seq<byte>)
    returns (e: Ephemerals, a0: Pub, own: set<Pub>)
    requires |a| < U32_LIMIT && |b| < U32_LIMIT
    ensures var sk, run := DhOut(a0, e(0)), TwoSent(a, na, b, nb);
            && FreshKeys(e, a0, own, 2) && own != {} && ValidRun(sk, e, run)
            && Settled(After(sk, e, run), Initiator, FIRST) && Pos(After(sk, e, run).initiator.sess) == 1
  {
    hide ValidRun, After, FreshKeys, Pow256;
    Pow256Grows(31);
    e, a0, own := FreshKeysExist(2);
    AfterTwo(DhOut(a0, e(0)), e, a, na, b, nb);
  }
}
