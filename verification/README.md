# Darqual, verified

A Dafny model of the parts of Darqual that carry its promises, with proofs of those
promises over all inputs, all runs and every network.

- **The Double Ratchet with header encryption** (`Crypto`, `Session`, `Ratchet`, `Chains`,
  `Protocol`, `Invariant`, `Receiving`, `Runs`, `Guarantees`, `Retention`,
  `Completeness`, `Examples`, `Secrecy`). `Ratchet.RatchetSession` has the fields of the original and
  updates them in place; its methods are proved to compute the state functions of
  `Session`. `Protocol` puts two sessions on a network that drops, reorders, repeats,
  corrupts and recombines messages and seals boxes of its own. The invariant numbers the
  root steps 1, 2, ...: a session at position p sends on chain p, receives on chain p - 1,
  and every key it holds is the shared schedule's for p.
- **Sessions on disk, frames and trial decryption** (`Lockbox`, `Node`, `NodeStore`,
  `Routing`, `EndToEnd`, `FirstContact`, `Crossing`). The store and the frame handlers are classes proved against the
  functions of `Node`; `Routing` shows that a run of two nodes is a run of the protocol.
- **The lockbox bytes and length padding** (`Padding`, `Wire`). `Lockbox` is the symbolic
  envelope that says who can open it; `Wire` is its byte layout.
- **Merkle tree, block and windowed ledger** (`Hashes`, `Merkle`, `Block`, `Ledger`).
- **Proof of work and sortition** (`Pow`, `Election`).

`Bytes`, `Sequences` and `Wrappers` hold fixed-width integers, sequence operations and
`Option`/`Result`.

## How things are modelled

- Keys are free terms, so two keys are equal only when computed the same way; a
  Diffie-Hellman output is the set of its two key pairs; a box records what was sealed and
  opens only under its key and associated data.
- Fresh key pairs come from a function `e` on root-step numbers. Safety, synchrony and
  completeness hold for every `e`; the secrecy results ask that the pairs of the steps up to
  the one concerned be distinct, which `Secrecy.FreshKeysExist` shows can be had.
- `u32` counters and `as u32` casts are explicit. Runs do not send the 2^32nd message of
  one chain; the state functions and the class wrap as the code does.
- A received message is `Obtainable`: any header or ciphertext under a key of this
  conversation was sent in it; everything else is arbitrary, and parts may be mixed.
  `Crypto.KeysStayInside` is the reason: nobody else can compute such a key.
- A failed `decrypt` may be kept (a session in memory) or thrown away (a session that is
  saved only on success, as the node does); runs contain both.
- An ed25519 signature is a term of key, message and nonce; a key holder can sign one
  message with many nonces, and verification accepts them all.
- The proof-of-work hash and the sortition hash are function parameters; ledger hashes are
  free terms.

## Where the code and its documentation differ

- `crates/darqual-tor/src/main.rs:209` calls trying the wrong session safe because `decrypt`
  clones and commits. On the skipped-key path it does not
  (`crates/darqual-core/src/ratchet.rs:431-440`): `Guarantees.FailureLeavesNoTrace` gives
  the exact condition, `Guarantees.CorruptionBurnsStoredKey` the failing family. The node is
  still transactional, because it saves only on success (`Node.FrameTransaction`).
- `THREAT-MODEL.md:73-76` says a seized key cannot decrypt earlier messages. For a stolen
  session that is `Secrecy.ForwardSecrecy`; with the identity key beside it
  `Secrecy.StolenDiskExposes` gives the exact exceptions.
- `validate_chain` is documented as validating the full chain, but anchors at the zero hash
  (`crates/darqual-ledger/src/ledger.rs:110-112`): `Ledger.ChainValidWhilePruneless`.
- `elect` is documented to return nothing when there are fewer valid candidates than seats
  (`crates/darqual-committee/src/election.rs:46`); it returns the valid ones:
  `Election.ElectsSmallest`.
- `crates/darqual-committee/src/vrf.rs:15-20` takes ed25519 signatures to be unique, so that a
  key holder has no choice of output. Verification does not enforce that:
  `Election.TwoSeatsForOneKey`; exactly when seats are distinct is
  `Election.SeatsAreDistinct`.
- `pad` truncates the length of a plaintext of 2^32 bytes or more
  (`crates/darqual-core/src/padding.rs:42`): `Padding.PadRoundTrip`.

## Model

| member | source | states |
|---|---|---|
| Guarantees.Synchrony | crates/darqual-core/src/ratchet.rs:288-338 | In every run, however messages are lost, reordered, repeated, corrupted or recombined, one session is exactly one root step ahead of the other, and the two agree on every root, chain and header key they share. |
| Guarantees.DecryptExactly | crates/darqual-core/src/ratchet.rs:368-401 | In every run and for every message the network can hand over, `decrypt` succeeds if and only if the message was encrypted in this conversation, arrives whole, and is stored as skipped or within `MAX_SKIP` on the way; it then comes from the peer (never a reflection), was not delivered before, and yields its own plaintext. |
| Guarantees.DeliveredAtMostOnce | crates/darqual-core/src/ratchet.rs:368-401 | Over a whole run everything delivered was sent by the peer, verbatim, and no message is delivered twice. |
| Guarantees.StoreIsFaithful | crates/darqual-core/src/ratchet.rs:127-133 | In every reachable state the queue lists the keys of the skipped map exactly once each and oldest first (by chain, then number, the order in which they are filed), at most `MAX_SKIP_STORE` of them, and each value is the message key of a passed-over message of the peer, filed under its header key and number. |
| Guarantees.HeaderNoncesNeverRepeat | crates/darqual-core/src/ratchet.rs:230-247 | In every run that draws distinct nonces, no two headers are sealed under one nonce. |
| Guarantees.FailureLeavesNoTrace | crates/darqual-core/src/ratchet.rs:374-440 | A failed `decrypt` leaves the session unchanged if and only if no stored skipped key answers the header; otherwise it has lost exactly that one entry. |
| Guarantees.CorruptionBurnsStoredKey | crates/darqual-core/src/ratchet.rs:431-440 | The failing family: in every reachable state, a corrupted ciphertext under the genuine header of a stored message is rejected, and if the session is used on, it rejects the genuine message too. |
| Examples.CorruptionLosesMessage | crates/darqual-core/src/ratchet.rs:431-440 | A run that gets there, for all keys and texts: two messages are sent, the second arrives, the first could be decrypted; junk under its header is rejected, and then so is the first message. |
| Guarantees.GoneForGood | crates/darqual-core/src/ratchet.rs:405-443 | In every reachable state, a message that was passed over and is no longer stored is rejected. |
| Guarantees.AcceptedIsBound | crates/darqual-core/src/ratchet.rs:395-396 | For any session and message: what is accepted was sealed with the message's own encrypted header as associated data, and the plaintext returned is what its padded content is prefixed with. |
| Guarantees.OpenFailsExactly | crates/darqual-core/src/ratchet.rs:395-396 | Opening fails for the ciphertext exactly when the key or the associated data does not fit, and for the padding exactly when what was opened is not padded. |
| Guarantees.EncryptFailsExactly | crates/darqual-core/src/ratchet.rs:342-348 | `encrypt` fails exactly without a sending chain or without its header key, each with its own error, and then changes nothing. |
| Guarantees.SkipFailsExactly | crates/darqual-core/src/ratchet.rs:445-458 | Without a receiving chain skipping does nothing; with one it fails exactly beyond 1000 keys, naming how many were demanded, or without a header key. |
| Guarantees.CurrentKeyFirst | crates/darqual-core/src/ratchet.rs:405-417 | A header the current receiving key opens never makes the session ratchet; one that no key opens is refused as unknown and changes nothing. |
| Completeness.UndeliveredStaysDecryptable | crates/darqual-core/src/ratchet.rs:368-474 | After every run, an undelivered message of the peer decrypts to its plaintext if and only if it lies ahead with no gap above `MAX_SKIP`, or it was passed over and no step of the run harmed it: no accepted message pushed its own key out of the full store, and no corrupted ciphertext came under its own stored header in a session that was used on. |
| Completeness.HeldIffUnharmed | crates/darqual-core/src/ratchet.rs:431-474 | In every run, a message a side has moved past is delivered or still in the skipped map if and only if no step harmed that message. |
| Completeness.AcceptedHolds | crates/darqual-core/src/ratchet.rs:445-474 | An accepted message costs a stored key exactly when the keys filed for it and the stored keys not older than that one exceed `MAX_SKIP_STORE`; it loses nothing else. |
| Secrecy.StolenSessionExposes | crates/darqual-core/src/ratchet.rs:180-201 | In every run whose key pairs up to the chain asked about are distinct, the message keys computable from one side's session (all fields, skipped keys and the current DH secret) are exactly those still stored, those not yet used on the two current chains, and those of the very next chain. |
| Examples.SecrecyIsAboutSomething | crates/darqual-core/src/ratchet.rs:288-365 | A run, with distinct key pairs and a thief who has one of its own, in which the sender has sent the message the secrecy results speak of. |
| Secrecy.FreshKeysExist | crates/darqual-core/src/ratchet.rs:269-273 | Key pairs as distinct as the secrecy results ask exist for every number of root steps the 2^256 keys leave room for. |
| Secrecy.ForwardSecrecy | crates/darqual-core/src/ratchet.rs:341-401 | No sequence of `kdf_ck`, `kdf_rk_he`, `derive_key` and `dh` calls from a stolen session yields the key of a message that side has sent or was delivered. |
| Secrecy.Healing | crates/darqual-core/src/ratchet.rs:477-502 | No such sequence yields any message key two or more root steps after the theft. |
| Secrecy.StolenDiskExposes | crates/darqual-core/src/ratchet.rs:316-337 | With the long-term identity key as well, the exact gaps: the responder's whole first receiving chain for ever, and a side's first sending chain until its next root step. |
| Runs.RunInv | crates/darqual-core/src/ratchet.rs:286-502 | The invariant of both sessions and the log of sent messages holds after every run. |
| Runs.SendKeepsInv | crates/darqual-core/src/ratchet.rs:341-365 | One `encrypt` keeps the invariant. |
| Runs.ReceiveKeepsInv | crates/darqual-core/src/ratchet.rs:368-401 | One `decrypt` of anything the network can hand over keeps the invariant, whether a failed session is kept or thrown away. |
| Invariant.InitInv | crates/darqual-core/src/ratchet.rs:288-338 | The two fresh sessions satisfy the invariant. |
| Invariant.EncryptSeals | crates/darqual-core/src/ratchet.rs:341-365 | What `encrypt` emits is sealed under the schedule's header key and message key for its chain and number, its header with the nonce drawn for it, and the header announces the chain's public key, previous length and number. |
| Invariant.SkipPreserves | crates/darqual-core/src/ratchet.rs:445-474 | Skipping as far as the peer has sent keeps keys, counters, store and inbox in step and stops at the demanded number. |
| Invariant.RatchetKeys | crates/darqual-core/src/ratchet.rs:477-502 | The two root steps of `dh_ratchet_he` land on the shared schedule, two positions further. |
| Invariant.RatchetPreserves | crates/darqual-core/src/ratchet.rs:477-502 | A root step keeps the whole invariant once the old receiving chain has been caught up. |
| Invariant.AdvancePreserves | crates/darqual-core/src/ratchet.rs:387-393 | Using the next receiving key delivers a message that was not delivered before and keeps the invariant. |
| Invariant.ForgetPreserves | crates/darqual-core/src/ratchet.rs:431-438 | Removing a used key from map and queue keeps the invariant. |
| Invariant.FileShape | crates/darqual-core/src/ratchet.rs:462-468 | Filing a key later than all stored ones keeps map and queue in step and in order; a full store loses exactly its oldest entry. |
| Invariant.RemoveFirstAt | crates/darqual-core/src/ratchet.rs:436-438 | Removing a key from a queue takes out its first occurrence and leaves all others as they stand. |
| Invariant.RemoveFirstShape | crates/darqual-core/src/ratchet.rs:436-438 | Removing a key from a queue in insertion order leaves the other keys, in insertion order. |
| Receiving.GenuineHeader | crates/darqual-core/src/ratchet.rs:352-357 | A sent header opens under its own chain's key and says which message it is. |
| Receiving.OpensOnlyItself | crates/darqual-core/src/ratchet.rs:395-396 | Under the message key of (chain, n) a genuine header accepts its own ciphertext and no other, so recombined parts are rejected. |
| Receiving.HitIsOwn | crates/darqual-core/src/ratchet.rs:419-430 | The only stored key a genuine header can hit is its own. |
| Receiving.HeaderTrial | crates/darqual-core/src/ratchet.rs:405-417 | Which header key of a synchronised session opens a genuine header: the current chain's, the next chain's, or none. |
| Receiving.ForeignRejected | crates/darqual-core/src/ratchet.rs:405-443 | A header sealed outside the conversation is rejected and leaves the session unchanged. |
| Receiving.FromStore | crates/darqual-core/src/ratchet.rs:419-443 | A message with a stored key: the key is used up whatever the ciphertext, and the plaintext returned only for the genuine one. |
| Receiving.CurrentChain | crates/darqual-core/src/ratchet.rs:385-400 | A message of the current receiving chain is accepted exactly when it is ahead within `MAX_SKIP` and whole; otherwise the session is unchanged. |
| Receiving.NextChain | crates/darqual-core/src/ratchet.rs:381-400 | A message of the peer's next chain is accepted exactly when neither the rest of the old chain nor the start of the new one needs more than `MAX_SKIP` skips and it is whole; otherwise the session is unchanged. |
| Receiving.OutOfSight | crates/darqual-core/src/ratchet.rs:405-417 | Own messages and messages of closed chains that are not stored are rejected and leave the session unchanged. |
| Receiving.ReceivePreserves | crates/darqual-core/src/ratchet.rs:368-401 | Whatever the network delivers, the outcome is either one undelivered message of the peer, verbatim, or a failure that keeps the invariant. |
| Retention.SkippingIsFifo | crates/darqual-core/src/ratchet.rs:460-471 | Skipping appends the passed-over keys in order and keeps the newest `MAX_SKIP_STORE` of the queue. |
| Retention.SkipBudget | crates/darqual-core/src/ratchet.rs:374-396 | For any session at all and any message, accepted or not, the skipping loops turn at most 2 * `MAX_SKIP` times, and at most that many keys are new in the store afterwards. |
| Retention.NextQueue | crates/darqual-core/src/ratchet.rs:381-385 | Across a root step the queue ends as the newest `MAX_SKIP_STORE` of the old queue, the rest of the old chain and the new chain up to the message. |
| Chains.HkInjective | crates/darqual-core/src/ratchet.rs:275-280 | Distinct chains have distinct header keys. |
| Chains.MessageKeyInjective | crates/darqual-core/src/ratchet.rs:180-201 | No two messages of a conversation share a message key. |
| Crypto.HeaderRoundTrip | crates/darqual-core/src/ratchet.rs:71-97 | The 40 header bytes hold the public key, then `pn`, then `n`, little-endian, and parsing gives the header back. |
| Crypto.ParsesExactly | crates/darqual-core/src/ratchet.rs:79-97 | Bytes parse to a header if and only if they are that header's 40-byte layout. |
| Crypto.OpensOnlyAsSealed | crates/darqual-core/src/ratchet.rs:218-224 | A ciphertext opens to a plaintext exactly when it was sealed as that plaintext under that key and that associated data. |
| Crypto.HdecHenc | crates/darqual-core/src/ratchet.rs:230-261 | A sealed header opens to itself under its own key and under no other. |
| Crypto.ComputedIsDerivable | crates/darqual-core/src/ratchet.rs:180-201 | Whatever a sequence of primitive calls reaches is derivable in the term sense used by the secrecy results. |
| Crypto.DerivableIsComputed | crates/darqual-core/src/ratchet.rs:180-201 | Conversely, every derivable key is reached by some sequence of primitive calls. |
| Crypto.KeysStayInside | crates/darqual-core/src/ratchet.rs:180-201 | Without either private key behind a conversation's secret, and starting from keys of other origin, no key that stems from that secret can be derived. |
| Ratchet.RatchetSession.InitInitiator | crates/darqual-core/src/ratchet.rs:288-312 | The initiator's fresh session: one root step taken, a sending chain under `shared_hka`, no receiving chain. |
| Ratchet.RatchetSession.InitResponder | crates/darqual-core/src/ratchet.rs:316-338 | The responder's fresh session, with the two shared header keys crossed. |
| Ratchet.RatchetSession.Encrypt | crates/darqual-core/src/ratchet.rs:341-365 | The fields and the message after one `encrypt`, error cases included, are those of the state function. |
| Ratchet.RatchetSession.Decrypt | crates/darqual-core/src/ratchet.rs:368-401 | Working on a trial copy that is committed only on success, `decrypt` ends in exactly the state and result of the state function. |
| Ratchet.RatchetSession.DecryptHeader | crates/darqual-core/src/ratchet.rs:405-417 | The current receiving header key is tried first, then the next one. |
| Ratchet.RatchetSession.FindSkipped | crates/darqual-core/src/ratchet.rs:420-430 | Trying the stored keys one by one finds the one whose header key opens the header and whose number it names, in whatever order they are tried. |
| Ratchet.RatchetSession.TrySkippedHe | crates/darqual-core/src/ratchet.rs:419-443 | The entry found leaves map and queue before the ciphertext is opened. |
| Ratchet.RatchetSession.SkipMessageKeys | crates/darqual-core/src/ratchet.rs:445-474 | Nothing without a receiving chain; an error without change beyond `MAX_SKIP`; otherwise the chain is advanced and every passed key filed. |
| Ratchet.RatchetSession.SkipTo | crates/darqual-core/src/ratchet.rs:459-472 | The skipping loop ends in the state of the one-at-a-time skipping function. |
| Ratchet.RatchetSession.StoreSkipped | crates/darqual-core/src/ratchet.rs:462-468 | The inner eviction loop drops from the front of the queue until the store fits. |
| Ratchet.RatchetSession.DhRatchetHe | crates/darqual-core/src/ratchet.rs:477-502 | Counters turned, header keys promoted, both root steps taken. |
| NodeStore.SessionStore.Load | crates/darqual-core/src/session.rs:56-65 | A saved session comes back as a new object with the saved state. |
| NodeStore.SessionStore.Save | crates/darqual-core/src/session.rs:68-82 | Exactly the peer's entry is replaced. |
| NodeStore.SessionStore.LoadOrInitInitiator | crates/darqual-core/src/session.rs:86-96 | The saved session, or a fresh initiator's; nothing is written. |
| NodeStore.SessionStore.LoadOrInitResponder | crates/darqual-core/src/session.rs:100-110 | The saved session, or a fresh responder's; nothing is written. |
| NodeStore.SessionStore.List | crates/darqual-core/src/session.rs:121-139 | Every listed file becomes one pair of peer and separately loaded session. |
| NodeStore.Node.HandleFrame | crates/darqual-tor/src/main.rs:111-121 | Dispatch on the version byte; the store and what is shown afterwards are those of the frame function. |
| NodeStore.Node.HandleBootstrap | crates/darqual-tor/src/main.rs:124-178 | Only an authenticated box with a ratchet message reaches a session: the sender's saved one if there is one. |
| NodeStore.Node.HandleSession | crates/darqual-tor/src/main.rs:181-214 | The loop with early return over separately loaded sessions computes the first accepting session of the listing and saves that one only. |
| NodeStore.Node.SendCmd | crates/darqual-tor/src/main.rs:223-259 | The session is advanced and saved, then the frame is a bootstrap frame unless a session existed and has heard from the peer. |
| Node.FrameTransaction | crates/darqual-tor/src/main.rs:164-211 | A frame that shows nothing leaves every saved session untouched; one that shows a plaintext replaces exactly the accepting session by its successor. |
| Node.BootstrapReachesSender | crates/darqual-tor/src/main.rs:124-178 | A bootstrap frame for this node is tried on the sealing sender's saved session, or a fresh responder's, and saves it exactly on success. |
| Node.OtherFramesDropped | crates/darqual-tor/src/main.rs:111-153 | Empty frames, unknown versions, undecodable bodies, anonymous boxes, boxes for others and boxes without a ratchet message show nothing and change nothing. |
| Node.SendsExactly | crates/darqual-tor/src/main.rs:223-259 | What a send to any peer saves and emits: the advanced session, and a bare session frame exactly when a saved session has a receiving chain. |
| Node.NeverReset | crates/darqual-tor/src/main.rs:155-177 | No frame, bootstrap frames included, removes a saved session or takes it back to an earlier root key. |
| Node.DecryptRooted | crates/darqual-core/src/ratchet.rs:368-502 | Whatever arrives, every key of a session, skipped ones included, stays rooted in its pair's secret, and its root position never decreases. |
| Node.AcceptsOwnRoot | crates/darqual-core/src/ratchet.rs:405-443 | A session accepts only headers sealed under keys of its own conversation. |
| Node.AtMostOneAccepts | crates/darqual-tor/src/main.rs:199-211 | No two sessions of a store accept the same message. |
| Node.TryInOrderFinds | crates/darqual-tor/src/main.rs:199-213 | If some listed session accepts, its acceptance is the outcome, wherever the listing puts it; if none does, nothing happens. |
| Node.OrderIsIrrelevant | crates/darqual-tor/src/main.rs:190-211 | The outcome of a session frame and the entry it saves do not depend on the order of the listing. |
| Routing.NetRunInv | crates/darqual-tor/src/main.rs:111-259 | After every run of two nodes with one initiator between them, each also sending to and hearing from others, the protocol invariant holds of the pair and both stores stay rooted. |
| Routing.SendingIsSend | crates/darqual-tor/src/main.rs:223-259 | A send of a node is a send of the two-party protocol. |
| Routing.IncomingIsReceive | crates/darqual-tor/src/main.rs:111-214 | Any incoming frame is, for the pair, either a receive of the protocol whose session is thrown away on failure, or invisible. |
| Routing.FirstContactFails | crates/darqual-tor/src/main.rs:155-176 | Before the initiator has sent, a bootstrap frame in its peer's name is rejected and saves nothing. |
| EndToEnd.FrameSent | crates/darqual-tor/src/main.rs:234-259 | In every reachable state, a send yields a session frame exactly when the session has heard from the peer, and otherwise the message in an authenticated box to the peer. |
| EndToEnd.PlainOnceShown | crates/darqual-tor/src/main.rs:223-259 | In every run, a node's frames to its peer are bare session frames exactly from when its user was shown something from that peer; until then they are bootstrap frames. |
| EndToEnd.SessionFrameFindsSession | crates/darqual-tor/src/main.rs:234-259 | In every run with one initiator, whenever `send_cmd` emits a session frame the recipient already keeps a session with the sender, and that session reads the frame's header. |
| EndToEnd.FrameDelivers | crates/darqual-tor/src/main.rs:111-259 | In every such run, a frame sent at any step and handed over at any later time, whatever happened in between, shows its plaintext under the sender's name if the recipient's session can open the message then, and nothing otherwise, in whatever order the recipient lists its sessions. |
| FirstContact.ReplyIsSessionFrame | crates/darqual-tor/src/main.rs:111-259 | For any two nodes and any texts, the first message is shown by the responder, and its reply leaves as a bare session frame: the runs the other rows speak of exist. |
| EndToEnd.ShownAtMostOnce | crates/darqual-tor/src/main.rs:199-211 | What a user is shown from the other node was sent by it, verbatim, and is shown once. |
| Crossing.CrossingCallsNeverMeet | crates/darqual-core/src/ratchet.rs:305-308 | If both ends made first contact, then whatever they send and whichever of these messages reach either of them, neither is ever shown anything: why a run has one initiator. |
| Lockbox.OpensForRecipientOnly | crates/darqual-core/src/lockbox.rs:135-299 | An authenticated box opens for its recipient alone and names its true sender. |
| Lockbox.AnonymousRoundTrip | crates/darqual-core/src/lockbox.rs:96-117 | An anonymous box opens for its recipient alone and names nobody. |
| Lockbox.OpensExactlyAuthenticated | crates/darqual-core/src/lockbox.rs:258-300 | A box opens as a payload of a sender if and only if it is what that sender seals to this recipient. |
| Lockbox.OpensExactlyAnonymous | crates/darqual-core/src/lockbox.rs:233-256 | A box opens as an anonymous payload if and only if it is what anybody seals to this recipient. |
| Lockbox.SealsWithDrawnNonces | crates/darqual-core/src/lockbox.rs:103-172 | Every part of a box is sealed with the nonce that travels beside it. |
| Lockbox.SenderIsProved | crates/darqual-core/src/lockbox.rs:291-299 | Whoever computed the key of a box that opens as coming from a sender held the sender's or the recipient's private key. |
| Wire.Seal | crates/darqual-core/src/lockbox.rs:96-117 | The buffer built step by step is version, ephemeral key, nonce and ciphertext of the padded message; a degenerate DH output is an error. |
| Wire.SealAuthenticated | crates/darqual-core/src/lockbox.rs:135-180 | The same for version 2, with the sender sealed under the first key and the message under the second. |
| Wire.AnonWireLayout | crates/darqual-core/src/lockbox.rs:107-112 | Version byte, ephemeral key, nonce and ciphertext stand at their places, the message padded and under the key of the ephemeral and the recipient. |
| Wire.AuthWireLayout | crates/darqual-core/src/lockbox.rs:168-175 | The same for version 2: the sender under the first secret with the first nonce, the message under the key of both secrets with the second. |
| Wire.OpensAnonymousExactly | crates/darqual-core/src/lockbox.rs:233-256 | For every wire: it opens as an anonymous message if and only if it is long enough, of version 1, its secret is not zero, and those bytes decrypt to a padded form of the message. |
| Wire.OpensAuthenticatedExactly | crates/darqual-core/src/lockbox.rs:258-300 | For every wire: it opens as a message of a sender if and only if it is long enough, of version 2, neither secret is zero, that sender is sealed under the first secret, and the rest decrypts, under the key of the first secret and the one shared with that sender, to a padded form of the message. |
| Wire.RefusesVersions | crates/darqual-core/src/lockbox.rs:217-225 | Any other version byte is refused by name, and a wire below the minimum of its version as too short. |
| Wire.RefusesContents | crates/darqual-core/src/lockbox.rs:248-293 | A zero secret, a sealed sender that does not open, and one that is not 32 bytes long each meet their own error. |
| Wire.DegenerateIsZero | crates/darqual-core/src/lockbox.rs:81-86 | The secrets refused are exactly the all-zero ones. |
| Wire.Base64Groups | crates/darqual-core/src/lockbox.rs:114-116 | The encoding has four characters for every three bytes begun. |
| Wire.AnonymousRoundTrip | crates/darqual-core/src/lockbox.rs:233-256 | Opening the sealed bytes gives the message cut to its length modulo 2^32, hence the message exactly when it is shorter than 2^32. |
| Wire.AuthenticatedRoundTrip | crates/darqual-core/src/lockbox.rs:258-300 | The same for version 2, together with the sender's key. |
| Wire.ProperExist | crates/darqual-core/src/lockbox.rs:56-76 | Primitives of the kind the byte-level results ask for exist. |
| Wire.LengthTellsBucketOnly | crates/darqual-core/src/lockbox.rs:96-117 | Two anonymous envelopes are equally long exactly when their messages pad to the same bucket. |
| Wire.AuthenticatedLengthTellsBucketOnly | crates/darqual-core/src/lockbox.rs:163-180 | Two authenticated envelopes are equally long exactly when their messages pad to the same bucket. |
| Padding.Pad | crates/darqual-core/src/padding.rs:31-46 | The zeroed buffer with prefix and payload written in place holds the padded plaintext. |
| Padding.Unpad | crates/darqual-core/src/padding.rs:50-69 | Total on every buffer: an error when shorter than its prefix or its claim, otherwise the claimed bytes. |
| Padding.LeastRung | crates/darqual-core/src/padding.rs:32-39 | The bucket is the least rung of the ladder, or the least multiple of its top rung, that holds the need. |
| Padding.BucketLadder | crates/darqual-core/src/padding.rs:25-39 | The bucket, rung by rung: 256, 1024, 4096, 16384, 65536, 262144, then multiples of the last. |
| Padding.PaddedLength | crates/darqual-core/src/padding.rs:29-45 | A padded buffer is exactly its bucket long. |
| Padding.PadLayout | crates/darqual-core/src/padding.rs:41-45 | A padded buffer is the length prefix, the plaintext and zeros, each at its place. |
| Padding.UnpadRefusesExactly | crates/darqual-core/src/padding.rs:50-67 | A buffer is refused as too short exactly below 4 bytes, and for its prefix exactly when that claims more than is there. |
| Padding.PadRoundTrip | crates/darqual-core/src/padding.rs:31-69 | Unpadding undoes padding if and only if the plaintext is shorter than 2^32; a longer one is cut to its length modulo 2^32. |
| Padding.UnpadAcceptsExactly | crates/darqual-core/src/padding.rs:50-69 | A buffer unpads to a plaintext if and only if it starts with that plaintext's length prefix and bytes. |
| Bytes.LeRoundTrip | crates/darqual-core/src/padding.rs:42-60 | Little-endian encoding is undone by decoding on every number that fits its width. |
| Bytes.LeDigits | crates/darqual-core/src/padding.rs:42-43 | Byte i of the encoding is the i-th digit to base 256, lowest first. |
| Bytes.BumpWraps | crates/darqual-core/src/ratchet.rs:358 | A counter of 2^32 - 1 steps to 0. |
| Merkle.MerkleRoot | crates/darqual-ledger/src/merkle.rs:30-61 | The two nested loops compute the root of the perfect tree over the leaves, evened out level by level to a power of two. |
| Merkle.ClimbIsPerfect | crates/darqual-ledger/src/merkle.rs:35-58 | Building layer by layer with the last odd node repeated gives the root of the perfect tree over the expansion. |
| Merkle.ExpandExtends | crates/darqual-ledger/src/merkle.rs:40-56 | The expansion starts with the leaves themselves and contains nothing else. |
| Merkle.ProofOf | crates/darqual-ledger/src/merkle.rs:71-109 | Out of range gives `None`; otherwise the siblings met on the way up from the index. |
| Merkle.ProofsVerify | crates/darqual-ledger/src/merkle.rs:71-126 | For every non-empty list and every index in range, the generated proof is accepted against the separately computed root. |
| Merkle.VerifyProof | crates/darqual-ledger/src/merkle.rs:112-126 | The loop decides whether the walk from the leaf ends at the root. |
| Merkle.AcceptsExactly | crates/darqual-ledger/src/merkle.rs:112-126 | A proof is accepted if and only if the list is not empty, its siblings are as many as the tree is deep and are the hashes beside the path, and the leaf is the expansion's entry at the index modulo 2^depth. |
| Merkle.AcceptedIsMember | crates/darqual-ledger/src/merkle.rs:112-126 | An accepted leaf is one of the leaves, and the one at the index if that is in range. |
| Merkle.SameRoot | crates/darqual-ledger/src/merkle.rs:30-61 | Two lists share a root if and only if both are empty or their expansions are equal. |
| Merkle.RootInjective | crates/darqual-ledger/src/merkle.rs:44-52 | With the number of leaves known, the root determines the leaves. |
| Merkle.RepeatedLastLeaf | crates/darqual-ledger/src/merkle.rs:46-47 | [A, B, C] and [A, B, C, C] share a root. |
| Block.CanonicalInjective | crates/darqual-ledger/src/block.rs:35-41 | Two entries have the same canonical bytes only if they are the same entry. |
| Block.CanonicalLayout | crates/darqual-ledger/src/block.rs:35-41 | Label, envelope and nonce stand at their places. |
| Block.HashCommits | crates/darqual-ledger/src/block.rs:94-102 | Every header field is hashed, in its own place. |
| Block.NewBlock | crates/darqual-ledger/src/block.rs:72-91 | A new block validates and carries what it was given. |
| Block.Validate | crates/darqual-ledger/src/block.rs:105-109 | The recomputed root and the truncated entry count are compared with the header. |
| Block.ValidatePow | crates/darqual-ledger/src/block.rs:115-120 | Every entry meets the difficulty. |
| Block.PowOkExactly | crates/darqual-ledger/src/block.rs:115-120 | That is: the hash of every entry's label, envelope and nonce is, read big-endian, below 2^(256 - difficulty), and the difficulty at most 256. |
| Block.HashBindsContents | crates/darqual-ledger/src/block.rs:94-109 | Two validating blocks with fewer than 2^32 entries each and one hash are the same block. |
| Block.HashBindsAtEqualLength | crates/darqual-ledger/src/block.rs:94-109 | Without that bound, two validating blocks with one hash are the same if and only if they are equally long. |
| Block.CountWraps | crates/darqual-ledger/src/block.rs:75-108 | From 2^32 entries on the `as u32` count wraps: two different validating blocks with one hash. |
| Ledger.Ledger.Append | crates/darqual-ledger/src/ledger.rs:54-80 | The first failing check, in the order validity, link, work, is the error and changes nothing; otherwise the block is appended and the window keeps the newest. |
| Ledger.AcceptsExactly | crates/darqual-ledger/src/ledger.rs:54-80 | After any history a block is accepted if and only if its root and truncated count are its entries', it points to the current tip, and every entry's stamp is below the bound; any other changes nothing. |
| Ledger.RefusesExactly | crates/darqual-ledger/src/ledger.rs:55-69 | Which error a block meets, in the order of the checks. |
| Ledger.Ledger.ValidateChain | crates/darqual-ledger/src/ledger.rs:111-123 | True exactly when every kept block validates and they are linked from the zero hash. |
| Ledger.KeepsNewest | crates/darqual-ledger/src/ledger.rs:54-80 | After any sequence of accepted and rejected appends the ledger holds exactly the last min(window, accepted) accepted blocks, each valid and meeting the difficulty. |
| Ledger.AcceptedIsChain | crates/darqual-ledger/src/ledger.rs:59-76 | The accepted blocks form one chain from genesis if and only if the window is at least 1 or at most one block was accepted. |
| Ledger.KeptIsLinked | crates/darqual-ledger/src/ledger.rs:73-77 | With a window of at least 1, the kept blocks are linked to each other and to the block pruned last. |
| Ledger.ChainValidWhilePruneless | crates/darqual-ledger/src/ledger.rs:111-123 | `validate_chain` returns true if and only if nothing has been pruned, or the window is 0 and nothing is ever kept. |
| Ledger.TipFixesChain | crates/darqual-ledger/src/ledger.rs:83-88 | One tip hash has one chain behind it. |
| Ledger.EqualTipsAgree | crates/darqual-ledger/src/ledger.rs:54-88 | Two ledgers with windows of at least 1 and equal tip hashes, whose accepted blocks have fewer than 2^32 entries each, accepted the same blocks all along, whatever else they were offered, and the shorter window holds a suffix of the longer. |
| Pow.LeadingZeroBits | crates/darqual-core/src/pow.rs:48-59 | The byte loop returns at least d exactly when the hash, read big-endian, has nothing in its d highest bits. |
| Pow.PowIsNumericBound | crates/darqual-core/src/pow.rs:63-69 | A stamp is valid if and only if the difficulty is at most 256 and the hash is below 2^(256 - difficulty); so validity is downward closed in the difficulty. |
| Pow.StampLayout | crates/darqual-core/src/pow.rs:35-42 | The stamped bytes are the domain, the label, the envelope and the nonce, each at its place. |
| Pow.StampBindsAll | crates/darqual-core/src/pow.rs:35-42 | Two stamps cover the same bytes only for the same label, envelope and nonce. |
| Pow.Mint | crates/darqual-core/src/pow.rs:76-87 | The nonce returned is the least valid one; no nonce at all is valid in the case that panics. |
| Election.IndependentIffUncontested | crates/darqual-committee/src/election.rs:48-62 | The committees of every size are the same for every permutation of the candidates if and only if no two different keys hold verified claims with one output. |
| Election.ContestIsCollision | crates/darqual-committee/src/vrf.rs:46-60 | Such a contested output is exactly a collision of the output hash on signatures of the seed by two different keys. |
| Election.Elect | crates/darqual-committee/src/election.rs:48-62 | The committee is the keys of min(size, verified) verified entries of the list, by ascending output, and no verified entry left out has a smaller output than a seated one. |
| Election.ElectsSmallest | crates/darqual-committee/src/election.rs:48-62 | The first entries of the ranking are such seats: min(size, verified) verified entries, sorted, none left out smaller. |
| Election.VerifiesExactly | crates/darqual-committee/src/vrf.rs:46-51 | A claim verifies if and only if its own key signed this seed and its output is that signature's. |
| Election.SeatsAreSigned | crates/darqual-committee/src/election.rs:48-62 | Every seat belongs to a listed claim that its own key signed over this seed. |
| Election.SeatsAreDistinct | crates/darqual-committee/src/election.rs:48-62 | Committees of every size have distinct members if and only if no key has two verified entries in the list. |
| Election.TwoSeatsForOneKey | crates/darqual-committee/src/vrf.rs:46-51 | A key holder who signs one seed with two nonces has two verifying claims and takes two seats. |
| Election.LargerCommitteeExtends | crates/darqual-committee/src/election.rs:57-61 | The committee of size k is a prefix of that of size k + 1. |
| Election.TieBreaksByPosition | crates/darqual-committee/src/election.rs:55 | Two tied keys listed the other way round give different committees of some size. |
| Election.SortSorts | crates/darqual-committee/src/election.rs:55 | The stable sort orders by output and keeps every candidate. |

## Left out

- Routing.NetRunInv: runs have one initiator; the responder sends only once it has a session. Two crossing initiators are outside the protocol (`Crossing.CrossingCallsNeverMeet`).
- Secrecy.ForwardSecrecy: symbolic, about what key-derivation and Diffie-Hellman calls can compute; no probabilistic or computational claim. The key pairs of the run up to the session's position are distinct, as random generation makes them.
- Node.AtMostOneAccepts: distinct key bytes give distinct Diffie-Hellman outputs. x25519 has several encodings of one point (it ignores the top bit), and `handle_bootstrap` files a session under the sender bytes as they come, so a peer that uses two encodings of its key can hold two sessions with one secret; that is not modelled.
- NodeStore.SessionStore.Load: a file that cannot be read or decoded, an error in the source, does not occur.
- NodeStore.SessionStore.Save: always succeeds; the source goes on after a failed save of a received message.
- NodeStore.SessionStore.List: the order of the listing is a parameter; a failing listing, unreadable session files and junk file names, which the source skips, do not occur.
- Ledger.EqualTipsAgree: asks for fewer than 2^32 entries per accepted block, because of `Block.CountWraps`, and for windows of at least 1, because a ledger with window 0 forgets every block and expects the zero hash again (`Ledger.AcceptedIsChain`).
- Merkle.AcceptsExactly: hashes never collide. A leaf and a header have no domain separation from each other (a header whose epoch is a multiple of 256 starts with the leaf byte); nothing in the model compares the two.
- Wire.Seal: the envelope string is not built; base64 and the "dqbox1" prefix appear through their length only; parsing an envelope string into wire bytes is not modelled.
- Wire.SealAuthenticated: the same.
- The insides of x25519, BLAKE3, ChaCha20-Poly1305 and Ed25519, including AEAD size limits and the AEAD's and the file system's own errors: sealing and saving succeed.
- In `Node` and `Lockbox` a degenerate Diffie-Hellman output does not occur; the check for it is modelled in `Wire`.
- Bincode, TOML, hex and UTF-8 decoding: a frame body, a session file or an opened plaintext is either the value it encodes or garbage. A session file that cannot be read, and a failing directory listing, are not modelled.
- Tor and network I/O, timeouts, the accept loop, the command line, tracing, wall-clock time (the block's creation time is a parameter).
- `Ledger::get`, `Block::has_label`, `Block::fetch`, `LedgerEntry::mint`, `is_member`, `seed_for_epoch`: one-line searches and concatenations.
- The standard library's stable sort is a function here, proved to sort stably; its in-place algorithm is not part of this model.
- Zeroization, Debug redaction, file permissions and atomic renames.
- Identity files, contact cards, dead-drop labels, keywheel, cover traffic, erasure coding and availability sampling.
