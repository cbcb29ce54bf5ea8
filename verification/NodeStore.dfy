/** The session store and the node's handlers, working in place. */
module NodeStore {
  import opened Bytes
  import opened Wrappers
  import opened Crypto
  import opened Lockbox
  import opened Ratchet
  import N = Node
  import S = Session

  /** Persisted sessions, one per peer; a loaded session is a fresh object. */
  class SessionStore {
    var files: N.Files

    constructor ()
      ensures files == map[]
    {
      files := map[];
    }

    method Load(peer: Pub) returns (r: Option<RatchetSession>)
      ensures r.Some? <==> peer in files
      ensures r.Some? ==> fresh(r.value) && r.value.View() == files[peer]
    {
      if peer !in files {
        return None;
      }
      var s := new RatchetSession.Restore(files[peer]);
      return Some(s);
    }

    method Save(peer: Pub, sess: RatchetSession)
      modifies this
      ensures files == old(files)[peer := sess.View()]
    {
      files := files[peer := sess.View()];
    }

    method LoadOrInitInitiator(me: Pub, peer: Pub, newKey: Pub) returns (s: RatchetSession)
      ensures fresh(s) && s.View() == N.LoadOrInitInitiator(me, files, peer, newKey)
    {
      var found := Load(peer);
      if found.Some? {
        return found.value;
      }
      s := new RatchetSession.InitInitiator(N.SecretWith(me, peer), newKey, peer);
    }

    method LoadOrInitResponder(me: Pub, sender: Pub) returns (s: RatchetSession)
      ensures fresh(s) && s.View() == N.LoadOrInitResponder(me, files, sender)
    {
      var found := Load(sender);
      if found.Some? {
        return found.value;
      }
      s := new RatchetSession.InitResponder(N.SecretWith(me, sender), me);
    }

    /** All sessions, in the order the directory yields its entries. */
    method List(order: seq<Pub>) returns (out: seq<(Pub, RatchetSession)>)
      requires forall p :: p in order ==> p in files
      ensures |out| == |order|
      ensures forall i :: 0 <= i < |out| ==>
        out[i].0 == order[i] && fresh(out[i].1) && out[i].1.View() == files[order[i]]
      ensures forall i, j :: 0 <= i < j < |out| ==> out[i].1 != out[j].1
    {
      out := [];
      for n := 0 to |order|
        invariant |out| == n
        invariant forall i :: 0 <= i < n ==>
          out[i].0 == order[i] && fresh(out[i].1) && out[i].1.View() == files[order[i]]
        invariant forall i, j :: 0 <= i < j < n ==> out[i].1 != out[j].1
      {
        var s := Load(order[n]);
        out := out + [(order[n], s.value)];
      }
    }
  }

  class Node {
    const me: Pub
    const store: SessionStore

    constructor (me: Pub, store: SessionStore)
      ensures this.me == me && this.store == store
    {
      this.me, this.store := me, store;
    }

    method HandleFrame(frame: N.Frame, order: seq<Pub>, newKey: Pub) returns (shown: N.Shown)
      requires forall p :: p in order ==> p in store.files
      modifies store
      ensures (shown, store.files) == N.OnFrame(me, old(store.files), order, frame, newKey)
    {
      match frame {
        case EmptyFrame => return None;
        case UnknownFrame(_) => return None;
        case BootstrapFrame(body) => shown := HandleBootstrap(body, newKey);
        case SessionFrame(payload) => shown := HandleSession(payload, order, newKey);
      }
    }

    method HandleBootstrap(body: N.Body, newKey: Pub) returns (shown: N.Shown)
      modifies store
      ensures (shown, store.files) == N.OnBootstrap(me, old(store.files), body, newKey)
    {
      if body.NotUtf8? {
        return None;
      }
      match OpenAuthenticated(me, body.env) {
        case Err(_) => return None;
        case Ok((_, None)) => return None;
        case Ok((Garbage(_), Some(_))) => return None;
        case Ok((Carries(rm), Some(sender))) =>
          var sess := store.LoadOrInitResponder(me, sender);
          shown := DecryptAndSave(sender, sess, rm, newKey);
      }
    }

    /** The session is saved only if the message was accepted. */
    method DecryptAndSave(peer: Pub, sess: RatchetSession, rm: RatchetMessage, newKey: Pub) returns (shown: N.Shown)
      modifies store, sess
      ensures (shown, store.files) == N.TrySession(old(store.files), peer, old(sess.View()), rm, newKey)
    {
      var r := sess.Decrypt(rm, newKey);
      match r {
        case Err(_) => return None;
        case Ok(pt) =>
          store.Save(peer, sess);
          return Some((peer, pt));
      }
    }

    method HandleSession(payload: Payload, order: seq<Pub>, newKey: Pub) returns (shown: N.Shown)
      requires forall p :: p in order ==> p in store.files
      modifies store
      ensures (shown, store.files) == N.OnFrame(me, old(store.files), order, N.SessionFrame(payload), newKey)
    {
      if payload.Garbage? {
        return None;
      }
      var sessions := store.List(order);
      var i := 0;
      while i < |sessions|
        invariant 0 <= i <= |sessions| && store.files == old(store.files)
        invariant forall j :: i <= j < |sessions| ==>
          sessions[j].0 == order[j] && fresh(sessions[j].1) && sessions[j].1.View() == store.files[order[j]]
        invariant forall j, k :: 0 <= j < k < |sessions| ==> sessions[j].1 != sessions[k].1
        invariant N.TryInOrder(old(store.files), order, payload.rm, newKey) ==
                  N.TryInOrder(old(store.files), order[i..], payload.rm, newKey)
      {
        var (peer, sess) := sessions[i];
        assert order[i..][0] == peer && order[i..][1..] == order[i + 1..];
        shown := DecryptAndSave(peer, sess, payload.rm, newKey);
        if shown.Some? {
          return;
        }
        i := i + 1;
      }
      shown := None;
    }

    method SendCmd(peer: Pub, pt: seq<byte>, draw: N.Draw) returns (r: Result<N.Frame, S.Error>)
      modifies store
      ensures (r, store.files) == N.SendTo(me, old(store.files), peer, pt, draw)
    {
      var hadSession := store.Load(peer);
      var sess := store.LoadOrInitInitiator(me, peer, draw.newKey);
      var received := sess.ReceivedFromPeer();
      var useBootstrap := hadSession.None? || !received;
      var rm := sess.Encrypt(pt, draw.nonce);
      if rm.Err? {
        return Err(rm.error);
      }
      store.Save(peer, sess);
      if useBootstrap {
        var env := SealAuthenticated(me, peer, draw.eph, draw.nonce0, draw.nonce1, Carries(rm.value));
        return Ok(N.BootstrapFrame(N.Text(env)));
      }
      return Ok(N.SessionFrame(Carries(rm.value)));
    }
  }
}
