/**
 * `RatchetSession` with its own fields, updated in place
 * (crates/darqual-core/src/ratchet.rs:111-515).
 */
module Ratchet {
  import opened Bytes
  import opened Wrappers
  import opened Crypto
  import Padding
  import S = Session

  class RatchetSession {
    var rk: Key
    var dhsSecret: Pub
    var dhsPub: Pub
    var dhr: Option<Pub>
    var cks: Option<Key>
    var ckr: Option<Key>
    var ns: u32
    var nr: u32
    var pn: u32
    var hks: Option<Key>
    var hkr: Option<Key>
    var nhks: Key
    var nhkr: Key
    var skipped: map<S.SkippedKey, Key>
    var skippedOrder: seq<S.SkippedKey>

    function View(): S.State
      reads this
    {
      S.State(rk, dhsSecret, dhsPub, dhr, cks, ckr, ns, nr, pn, hks, hkr, nhks, nhkr, skipped, skippedOrder)
    }

    constructor InitInitiator(sk: Key, newKey: Pub, them: Pub)
      ensures View() == S.InitInitiator(sk, newKey, them)
    {
      var dhOut := DhOut(newKey, them);
      rk, cks, nhks := RkNext(sk, dhOut), Some(CkOf(sk, dhOut)), NhkOf(sk, dhOut);
      dhsSecret, dhsPub, dhr := newKey, newKey, Some(them);
      ckr, ns, nr, pn := None, 0, 0, 0;
      hks, hkr, nhkr := Some(SharedHka(sk)), None, SharedNhkb(sk);
      skipped, skippedOrder := map[], [];
    }

    constructor InitResponder(sk: Key, me: Pub)
      ensures View() == S.InitResponder(sk, me)
    {
      rk, dhsSecret, dhsPub, dhr := sk, me, me, None;
      cks, ckr, ns, nr, pn := None, None, 0, 0, 0;
      hks, hkr, nhks, nhkr := None, None, SharedNhkb(sk), SharedHka(sk);
      skipped, skippedOrder := map[], [];
    }

    /** A copy of a state: `clone`, and what reading a session file back gives. */
    constructor Restore(s: S.State)
      ensures View() == s
    {
      rk, dhsSecret, dhsPub, dhr, cks, ckr := s.rk, s.dhsSecret, s.dhsPub, s.dhr, s.cks, s.ckr;
      ns, nr, pn, hks, hkr, nhks, nhkr := s.ns, s.nr, s.pn, s.hks, s.hkr, s.nhks, s.nhkr;
      skipped, skippedOrder := s.skipped, s.skippedOrder;
    }

    /** `*self = trial`. */
    method Assign(trial: RatchetSession)
      modifies this
      ensures View() == old(trial.View())
    {
      var t := trial.View();
      rk, dhsSecret, dhsPub, dhr, cks, ckr := t.rk, t.dhsSecret, t.dhsPub, t.dhr, t.cks, t.ckr;
      ns, nr, pn, hks, hkr := t.ns, t.nr, t.pn, t.hks, t.hkr;
      nhks, nhkr, skipped, skippedOrder := t.nhks, t.nhkr, t.skipped, t.skippedOrder;
    }

    method Encrypt(plaintext: seq<byte>, nonce: seq<byte>) returns (r: Result<RatchetMessage, S.Error>)
      modifies this
      ensures (r, View()) == S.Encrypt(old(View()), plaintext, nonce)
    {
      if cks.None? {
        return Err(S.NoSendingChain);
      }
      if hks.None? {
        return Err(S.NoSendingHeaderKey);
      }
      var mk := Mk(cks.value);
      cks := Some(CkNext(cks.value));
      var encHeader := Henc(hks.value, nonce, Header(dhsPub, pn, ns));
      ns := BumpU32(ns);
      var padded := Padding.Pad(plaintext);
      return Ok(RatchetMessage(encHeader, MsgBox(mk, encHeader, padded[..])));
    }

    method Decrypt(msg: RatchetMessage, newKey: Pub) returns (r: Result<seq<byte>, S.Error>)
      modifies this
      ensures (r, View()) == S.Decrypt(old(View()), msg, newKey)
    {
      var fast := TrySkippedHe(msg);
      match fast {
        case Err(e) => return Err(e);
        case Ok(Some(pt)) => return Ok(pt);
        case Ok(None) =>
      }
      var trial := new RatchetSession.Restore(View());
      var found := trial.DecryptHeader(msg.encHeader);
      if found.None? {
        return Err(S.UnknownHeaderKey);
      }
      var (header, doRatchet) := found.value;
      if doRatchet {
        var early := trial.SkipMessageKeys(header.pn);
        if early.Err? {
          return Err(early.error);
        }
        trial.DhRatchetHe(header, newKey);
      }
      var late := trial.SkipMessageKeys(header.n);
      if late.Err? {
        return Err(late.error);
      }
      if trial.ckr.None? {
        return Err(S.NoReceivingChain);
      }
      var mk := Mk(trial.ckr.value);
      trial.ckr := Some(CkNext(trial.ckr.value));
      trial.nr := BumpU32(trial.nr);
      var plain := S.OpenMessage(mk, msg);
      if plain.Ok? {
        Assign(trial);
      }
      return plain;
    }

    method DecryptHeader(encHeader: EncHeader) returns (r: Option<(Header, bool)>)
      ensures r == S.DecryptHeader(View(), encHeader)
    {
      if hkr.Some? {
        var h := Hdec(hkr.value, encHeader);
        if h.Some? {
          return Some((h.value, false));
        }
      }
      var h := Hdec(nhkr, encHeader);
      if h.Some? {
        return Some((h.value, true));
      }
      return None;
    }

    /** The stored keys are tried one by one; the result is the same in every order. */
    method FindSkipped(encHeader: EncHeader) returns (hit: Option<S.SkippedKey>)
      ensures hit == S.SkippedHit(View(), encHeader)
    {
      hit := None;
      var untried := skipped.Keys;
      while untried != {}
        invariant untried <= skipped.Keys
        invariant forall k :: k in skipped.Keys - untried ==>
          !(Hdec(k.0, encHeader).Some? && Hdec(k.0, encHeader).value.n == k.1)
        decreases untried
      {
        var key :| key in untried;
        untried := untried - {key};
        var h := Hdec(key.0, encHeader);
        if h.Some? && h.value.n == key.1 {
          return Some(key);
        }
      }
      assert untried == {};
    }

    method TrySkippedHe(msg: RatchetMessage) returns (r: Result<Option<seq<byte>>, S.Error>)
      modifies this
      ensures match S.SkippedHit(old(View()), msg.encHeader)
              case None => r == Ok(None) && View() == old(View())
              case Some(key) =>
                && View() == S.Forget(old(View()), key)
                && r == match S.OpenMessage(old(skipped)[key], msg)
                        case Ok(pt) => Ok(Some(pt))
                        case Err(e) => Err(e)
    {
      var hit := FindSkipped(msg.encHeader);
      if hit.None? {
        return Ok(None);
      }
      var mk := skipped[hit.value];
      skipped := skipped - {hit.value};
      skippedOrder := S.RemoveFirst(skippedOrder, hit.value);
      match S.OpenMessage(mk, msg) {
        case Ok(pt) => return Ok(Some(pt));
        case Err(e) => return Err(e);
      }
    }

    method SkipMessageKeys(until: u32) returns (r: Result<(), S.Error>)
      modifies this
      ensures match S.SkipMessageKeys(old(View()), until)
              case Ok(t) => r == Ok(()) && View() == t
              case Err(e) => r == Err(e) && View() == old(View())
    {
      if ckr.None? {
        return Ok(());
      }
      if until > nr && until - nr > S.MAX_SKIP {
        return Err(S.TooManySkips(until - nr));
      }
      if hkr.None? {
        return Err(S.SkipWithoutHkr);
      }
      SkipTo(until);
      return Ok(());
    }

    method SkipTo(until: u32)
      requires ckr.Some? && hkr.Some?
      modifies this
      ensures View() == S.SkipTo(old(View()), until)
    {
      var ck := ckr.value;
      while nr < until
        invariant hkr == old(hkr) && ckr == old(ckr)
        invariant S.SkipTo(View().(ckr := Some(ck)), until) == S.SkipTo(old(View()), until)
      {
        StoreSkipped(Mk(ck));
        ck := CkNext(ck);
        nr := nr + 1;
      }
      ckr := Some(ck);
    }

    method StoreSkipped(mk: Key)
      requires hkr.Some?
      modifies this`skipped, this`skippedOrder
      ensures (skipped, skippedOrder) ==
              S.Evict(old(skipped)[(hkr.value, nr) := mk], old(skippedOrder) + [(hkr.value, nr)])
    {
      var key := (hkr.value, nr);
      skipped := skipped[key := mk];
      skippedOrder := skippedOrder + [key];
      while |skippedOrder| > S.MAX_SKIP_STORE
        invariant S.Evict(skipped, skippedOrder) == S.Evict(old(skipped)[key := mk], old(skippedOrder) + [key])
      {
        var oldest := skippedOrder[0];
        skippedOrder := skippedOrder[1..];
        skipped := skipped - {oldest};
      }
    }

    method DhRatchetHe(header: Header, newKey: Pub)
      modifies this
      ensures View() == S.DhRatchet(old(View()), header, newKey)
    {
      TurnCounters();
      PromoteHeaderKeys(header);
      DeriveReceivingChain(header);
      OpenSendingChain(header, newKey);
    }

    method TurnCounters()
      modifies this
      ensures View() == old(View()).(pn := old(ns), ns := 0, nr := 0)
    {
      pn := ns;
      ns := 0;
      nr := 0;
    }

    method PromoteHeaderKeys(header: Header)
      modifies this
      ensures View() == old(View()).(hks := Some(old(nhks)), hkr := Some(old(nhkr)), dhr := Some(header.dhPub))
    {
      hks := Some(nhks);
      hkr := Some(nhkr);
      dhr := Some(header.dhPub);
    }

    method DeriveReceivingChain(header: Header)
      modifies this
      ensures var dh := DhOut(old(dhsSecret), header.dhPub);
              View() == old(View()).(rk := RkNext(old(rk), dh), ckr := Some(CkOf(old(rk), dh)),
                  nhkr := NhkOf(old(rk), dh))
    {
      var dhOut := DhOut(dhsSecret, header.dhPub);
      rk, ckr, nhkr := RkNext(rk, dhOut), Some(CkOf(rk, dhOut)), NhkOf(rk, dhOut);
    }

    /** A new key pair and the sending chain it opens. */
    method OpenSendingChain(header: Header, newKey: Pub)
      modifies this
      ensures View() == S.OpenSendingChain(old(View()), header, newKey)
    {
      dhsSecret, dhsPub := newKey, newKey;
      var dhOut := DhOut(newKey, header.dhPub);
      rk, cks, nhks := RkNext(rk, dhOut), Some(CkOf(rk, dhOut)), NhkOf(rk, dhOut);
    }

    method ReceivedFromPeer() returns (r: bool)
      ensures r == S.ReceivedFromPeer(View())
    {
      r := ckr.Some?;
    }
  }
}
