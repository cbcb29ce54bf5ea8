/** Blocks of the ledger (crates/darqual-ledger/src/block.rs). */
module Block {
  import opened Bytes
  import opened Hashes
  import opened Merkle
  import opened Pow

  datatype LedgerEntry = LedgerEntry(drop: Label, envelope: seq<byte>, nonce: u64)

  datatype BlockHeader = BlockHeader(epoch: u64, prevHash: Hash, merkleRoot: Hash, nMessages: u32, createdUnix: u64)

  datatype Block = Block(header: BlockHeader, entries: seq<LedgerEntry>)

  /** label || envelope || nonce in eight little-endian bytes. */
  function CanonicalBytes(x: LedgerEntry): seq<byte> {
    x.drop + x.envelope + LeBytes(x.nonce, 8)
  }

  /** Label, envelope, nonce, each at its place. */
  lemma CanonicalLayout(x: LedgerEntry)
    ensures var b := CanonicalBytes(x);
            && |b| == 24 + |x.envelope|
            && b[..16] == x.drop && b[16..16 + |x.envelope|] == x.envelope
            && LeNat(b[16 + |x.envelope|..]) == x.nonce
  {
    hide LeBytes, LeNat, Pow256;
    Pow256Values();
    LeRoundTrip(x.nonce, 8);
    assert CanonicalBytes(x)[16 + |x.envelope|..] == LeBytes(x.nonce, 8);
  }

  /** The layout has one variable part, so it can be taken apart again. */
  lemma CanonicalInjective(x: LedgerEntry, y: LedgerEntry)
    ensures CanonicalBytes(x) == CanonicalBytes(y) <==> x == y
  {
    hide LeBytes;
    if CanonicalBytes(x) == CanonicalBytes(y) {
      Layout(x.drop, x.envelope, LeBytes(x.nonce, 8));
      Layout(y.drop, y.envelope, LeBytes(y.nonce, 8));
      Pow256Values();
      LeInjective(x.nonce, y.nonce, 8);
    }
  }

  lemma Layout(drop: Label, envelope: seq<byte>, nonce: seq<byte>)
    requires |nonce| == 8
    ensures var b := drop + envelope + nonce;
            |b| >= 24 && b[..16] == drop && b[16..|b| - 8] == envelope && b[|b| - 8..] == nonce
  {
  }

  function Contents(entries: seq<LedgerEntry>): (leaves: seq<seq<byte>>)
    ensures |leaves| == |entries|
  {
    seq(|entries|, i requires 0 <= i < |entries| => CanonicalBytes(entries[i]))
  }

  lemma ContentsInjective(a: seq<LedgerEntry>, b: seq<LedgerEntry>)
    requires Contents(a) == Contents(b)
    ensures a == b
  {
    assert |a| == |Contents(a)| == |Contents(b)| == |b|;
    forall i | 0 <= i < |a| ensures a[i] == b[i] {
      assert Contents(a)[i] == Contents(b)[i];
      CanonicalInjective(a[i], b[i]);
    }
  }

  /** The hash of the header; every field has a fixed width. */
  function BlockHash(b: Block): Hash {
    HeaderHash(b.header.epoch, b.header.prevHash, b.header.merkleRoot, b.header.nMessages, b.header.createdUnix)
  }

  /** Each header field is hashed, in its own place. */
  lemma HashCommits(b: Block)
    ensures BlockHash(b).HeaderHash?
    ensures BlockHash(b).epoch == b.header.epoch && BlockHash(b).prevHash == b.header.prevHash
    ensures BlockHash(b).merkleRoot == b.header.merkleRoot && BlockHash(b).nMessages == b.header.nMessages
    ensures BlockHash(b).createdUnix == b.header.createdUnix
  {
  }

  predicate Valid(b: Block) {
    RootOf(Contents(b.entries)) == b.header.merkleRoot && TruncU32(|b.entries|) == b.header.nMessages
  }

  predicate PowOk(hash: HashFunction, b: Block, difficulty: u32) {
    forall x :: x in b.entries ==> PowValid(hash, x.drop, x.envelope, x.nonce, difficulty)
  }

  /** The hash of every entry's label, envelope and nonce is, as a number, below the bound. */
  ghost predicate Worked(hash: HashFunction, b: Block, difficulty: u32) {
    forall i :: 0 <= i < |b.entries| ==> WorkedAt(hash, b.entries[i], difficulty)
  }

  ghost predicate WorkedAt(hash: HashFunction, x: LedgerEntry, difficulty: u32) {
    difficulty <= 256 && BeNat(hash(Stamped(x.drop, x.envelope, x.nonce))) < Pow2(256 - difficulty)
  }

  lemma PowOkExactly(hash: HashFunction, b: Block, difficulty: u32)
    ensures PowOk(hash, b, difficulty) <==> Worked(hash, b, difficulty)
  {
    hide PowValid, Stamped;
    forall i | 0 <= i < |b.entries|
      ensures b.entries[i] in b.entries
      ensures PowValid(hash, b.entries[i].drop, b.entries[i].envelope, b.entries[i].nonce, difficulty) <==>
              WorkedAt(hash, b.entries[i], difficulty)
    {
      PowIsNumericBound(hash, b.entries[i].drop, b.entries[i].envelope, b.entries[i].nonce, difficulty);
    }
  }

  method NewBlock(epoch: u64, prevHash: Hash, entries: seq<LedgerEntry>, now: u64) returns (b: Block)
    ensures Valid(b) && b.entries == entries
    ensures b.header.epoch == epoch && b.header.prevHash == prevHash && b.header.createdUnix == now
  {
    var root := MerkleRoot(Contents(entries));
    return Block(BlockHeader(epoch, prevHash, root, TruncU32(|entries|), now), entries);
  }

  method Validate(b: Block) returns (ok: bool)
    ensures ok == Valid(b)
  {
    var computed := MerkleRoot(Contents(b.entries));
    return computed == b.header.merkleRoot && TruncU32(|b.entries|) == b.header.nMessages;
  }

  method ValidatePow(hash: HashFunction, b: Block, difficulty: u32) returns (ok: bool)
    ensures ok == PowOk(hash, b, difficulty)
  {
    if difficulty == 0 {
      return true;
    }
    for i := 0 to |b.entries|
      invariant forall k :: 0 <= k < i ==>
                  PowValid(hash, b.entries[k].drop, b.entries[k].envelope, b.entries[k].nonce, difficulty)
    {
      var x := b.entries[i];
      ok := CheckPow(hash, x.drop, x.envelope, x.nonce, difficulty);
      if !ok {
        return false;
      }
    }
    return true;
  }

  // ── What a block hash commits to ───────────────────────────────────────────

  /** Two validating blocks with one hash are the same block exactly when they are equally long. */
  lemma HashBindsAtEqualLength(a: Block, b: Block)
    requires Valid(a) && Valid(b) && BlockHash(a) == BlockHash(b)
    ensures a == b <==> |a.entries| == |b.entries|
  {
    if |a.entries| == |b.entries| {
      RootInjective(Contents(a.entries), Contents(b.entries));
      ContentsInjective(a.entries, b.entries);
    }
  }

  /** With fewer than 2^32 entries each, the hashed count sees to that. */
  lemma HashBindsContents(a: Block, b: Block)
    requires Valid(a) && Valid(b) && BlockHash(a) == BlockHash(b)
    requires |a.entries| < U32_LIMIT && |b.entries| < U32_LIMIT
    ensures a == b
  {
    HashBindsAtEqualLength(a, b);
  }

  lemma {:induction false} DepthIs(n: nat, d: nat)
    requires d >= 1 && Pow2(d - 1) < n <= Pow2(d)
    ensures Depth(n) == d
    decreases d
  {
    if d > 1 {
      DepthIs((n + 1) / 2, d - 1);
    }
  }

  /** Lists that repeat one leaf share a root when their trees are equally deep. */
  lemma RepeatedLeafRoot(x: seq<byte>, m: nat, n: nat)
    requires m > 0 && n > 0 && Depth(m) == Depth(n)
    ensures RootOf(seq(m, _ => x)) == RootOf(seq(n, _ => x))
  {
    var a, b := seq(m, _ => x), seq(n, _ => x);
    assert Expand(a) == Expand(b);
    SameRoot(a, b);
  }

  lemma WrappingDepths()
    ensures Depth(2 * U32_LIMIT + 1) == 34 && Depth(3 * U32_LIMIT + 1) == 34
  {
    hide Pow2, Depth;
    Pow2Of32();
    DepthIs(2 * U32_LIMIT + 1, 34);
    DepthIs(3 * U32_LIMIT + 1, 34);
  }

  lemma RepeatedContents(x: LedgerEntry, n: nat)
    ensures Contents(seq(n, _ => x)) == seq(n, _ => CanonicalBytes(x))
  {
    hide CanonicalBytes;
  }

  /** From 2^32 entries on the count wraps, and two different validating blocks share a hash. */
  lemma CountWraps(x: LedgerEntry, epoch: u64, prevHash: Hash, now: u64) returns (a: Block, b: Block)
    ensures Valid(a) && Valid(b) && BlockHash(a) == BlockHash(b) && a != b
  {
    hide Contents, CanonicalBytes, RootOf, Depth;
    var m, n := 2 * U32_LIMIT + 1, 3 * U32_LIMIT + 1;
    WrappingDepths();
    RepeatedLeafRoot(CanonicalBytes(x), m, n);
    RepeatedContents(x, m);
    RepeatedContents(x, n);
    var xs, ys := seq(m, _ => x), seq(n, _ => x);
    var header := BlockHeader(epoch, prevHash, RootOf(Contents(xs)), TruncU32(m), now);
    a, b := Block(header, xs), Block(header, ys);
    assert |a.entries| != |b.entries|;
  }

  lemma Pow2Of32()
    ensures Pow2(32) == U32_LIMIT && Pow2(33) == 2 * U32_LIMIT && Pow2(34) == 4 * U32_LIMIT
  {
    Pow2Eight(0);
    Pow2Eight(8);
    Pow2Eight(16);
    Pow2Eight(24);
  }
}
