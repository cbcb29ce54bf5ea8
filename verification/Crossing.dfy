/** Two nodes that both made first contact: the case the other results leave out. */
module Crossing {
  import opened Bytes
  import opened Wrappers
  import opened Crypto
  import opened Session

  /** A session that made first contact and has not heard back. */
  ghost predicate StillCalling(sk: Key, s: State) {
    && s.hks == Some(SharedHka(sk)) && s.cks.Some? && s.hkr.None? && s.ckr.None?
    && s.nhkr == SharedNhkb(sk) && s.skipped == map[]
  }

  lemma CallingStarts(sk: Key, newKey: Pub, them: Pub)
    ensures StillCalling(sk, InitInitiator(sk, newKey, them))
  {
  }

  /** A header under the first shared header key, as every caller seals it. */
  ghost predicate Calls(sk: Key, msg: RatchetMessage) {
    msg.encHeader.HeaderBox? && msg.encHeader.hk == SharedHka(sk)
  }

  datatype Call =
    | Speak(left: bool, pt: seq<byte>, nonce: seq<byte>)
    | Hear(left: bool, which: nat, newKey: Pub)

  /** Two callers, everything they have encrypted, and everything either was shown. */
  datatype Line = Line(left: State, right: State, said: seq<RatchetMessage>, shown: seq<seq<byte>>)

  function Caller(line: Line, left: bool): State {
    if left then line.left else line.right
  }

  function SetCaller(line: Line, left: bool, s: State): Line {
    if left then line.(left := s) else line.(right := s)
  }

  /** Either speaks, or is handed any message said so far, its own included. */
  function Next(line: Line, call: Call): Line {
    match call
    case Speak(left, pt, nonce) =>
      (match Encrypt(Caller(line, left), pt, nonce)
       case (Ok(msg), s) => SetCaller(line, left, s).(said := line.said + [msg])
       case (Err(_), s) => SetCaller(line, left, s))
    case Hear(left, which, newKey) =>
      if which >= |line.said| then line
      else
        match Decrypt(Caller(line, left), line.said[which], newKey)
        case (Ok(pt), s) => SetCaller(line, left, s).(shown := line.shown + [pt])
        case (Err(_), s) => SetCaller(line, left, s)
  }

  function Calling(line: Line, calls: seq<Call>): Line {
    if |calls| == 0 then line else Next(Calling(line, calls[..|calls| - 1]), calls[|calls| - 1])
  }

  ghost predicate NothingHeard(sk: Key, line: Line) {
    && StillCalling(sk, line.left) && StillCalling(sk, line.right)
    && (forall msg :: msg in line.said ==> Calls(sk, msg)) && line.shown == []
  }

  lemma CallerRejects(sk: Key, s: State, msg: RatchetMessage, newKey: Pub)
    requires StillCalling(sk, s) && Calls(sk, msg)
    ensures Decrypt(s, msg, newKey) == (Err(UnknownHeaderKey), s)
  {
  }

  lemma CallerSpeaks(sk: Key, s: State, pt: seq<byte>, nonce: seq<byte>)
    requires StillCalling(sk, s)
    ensures var (r, t) := Encrypt(s, pt, nonce); r.Ok? && Calls(sk, r.value) && StillCalling(sk, t)
  {
  }

  lemma NextKeepsNothing(sk: Key, line: Line, call: Call)
    requires NothingHeard(sk, line)
    ensures NothingHeard(sk, Next(line, call))
  {
    hide Encrypt, Decrypt, StillCalling, Calls;
    match call
    case Speak(left, pt, nonce) => CallerSpeaks(sk, Caller(line, left), pt, nonce);
    case Hear(left, which, newKey) =>
      if which < |line.said| {
        CallerRejects(sk, Caller(line, left), line.said[which], newKey);
      }
  }

  /**
   * Why a run must have one initiator: if both ends made first contact, then whatever is
   * said and delivered, to either of them and in whatever order, neither is ever shown
   * anything.
   */
  lemma {:induction false} CrossingCallsNeverMeet(sk: Key, key1: Pub, them1: Pub, key2: Pub, them2: Pub,
        calls: seq<Call>)
    ensures var start := Line(InitInitiator(sk, key1, them1), InitInitiator(sk, key2, them2), [], []);
            NothingHeard(sk, Calling(start, calls)) && Calling(start, calls).shown == []
  {
    hide Next, StillCalling, InitInitiator;
    var start := Line(InitInitiator(sk, key1, them1), InitInitiator(sk, key2, them2), [], []);
    if |calls| == 0 {
      CallingStarts(sk, key1, them1);
      CallingStarts(sk, key2, them2);
    } else {
      CrossingCallsNeverMeet(sk, key1, them1, key2, them2, calls[..|calls| - 1]);
      NextKeepsNothing(sk, Calling(start, calls[..|calls| - 1]), calls[|calls| - 1]);
    }
  }
}
