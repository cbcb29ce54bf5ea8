/** The hot-window ledger (crates/darqual-ledger/src/ledger.rs). */
module Ledger {
  import opened Bytes
  import opened Wrappers
  import opened Hashes
  import opened Merkle
  import opened Pow
  import opened Block
  import opened Sequences

  datatype LedgerError =
    | InvalidBlock
    | BrokenChain(expected: Hash, got: Hash)
    | InvalidPow(difficulty: u32)

  datatype Rules = Rules(window: nat, difficulty: u32, hash: HashFunction)

  function Tip(blocks: seq<Block>): Hash {
    if |blocks| == 0 then Zeros else BlockHash(blocks[|blocks| - 1])
  }

  /** What stands in the way of appending `block`, in the order the checks are made. */
  function Objection(rules: Rules, blocks: seq<Block>, block: Block): Option<LedgerError> {
    if !Valid(block) then Some(InvalidBlock)
    else if block.header.prevHash != Tip(blocks) then Some(BrokenChain(Tip(blocks), block.header.prevHash))
    else if !PowOk(rules.hash, block, rules.difficulty) then Some(InvalidPow(rules.difficulty))
    else None
  }

  /** Every block points back to the one before it, the first to `prev`. */
  predicate Linked(prev: Hash, blocks: seq<Block>) {
    forall i :: 0 <= i < |blocks| ==> LinkAt(prev, blocks, i)
  }

  predicate LinkAt(prev: Hash, blocks: seq<Block>, i: nat)
    requires i < |blocks|
  {
    blocks[i].header.prevHash == if i == 0 then prev else BlockHash(blocks[i - 1])
  }

  predicate AllValid(blocks: seq<Block>) {
    forall i :: 0 <= i < |blocks| ==> Valid(blocks[i])
  }

  class Ledger {
    var blocks: seq<Block>
    const rules: Rules

    constructor (window: nat, hash: HashFunction)
      ensures blocks == [] && rules == Rules(window, 0, hash)
    {
      blocks, rules := [], Rules(window, 0, hash);
    }

    constructor WithPow(window: nat, difficulty: u32, hash: HashFunction)
      ensures blocks == [] && rules == Rules(window, difficulty, hash)
    {
      blocks, rules := [], Rules(window, difficulty, hash);
    }

    method TipHash() returns (tip: Hash)
      ensures tip == Tip(blocks)
    {
      if |blocks| > 0 {
        return BlockHash(blocks[|blocks| - 1]);
      }
      return Zeros;
    }

    method Append(block: Block) returns (r: Result<(), LedgerError>)
      modifies this
      ensures match Objection(rules, old(blocks), block)
              case Some(x) => r == Err(x) && blocks == old(blocks)
              case None => r == Ok(()) && blocks == LastN(old(blocks) + [block], rules.window)
    {
      var valid := Validate(block);
      if !valid {
        return Err(InvalidBlock);
      }
      var expectedPrev := TipHash();
      if block.header.prevHash != expectedPrev {
        return Err(BrokenChain(expectedPrev, block.header.prevHash));
      }
      var worked := ValidatePow(rules.hash, block, rules.difficulty);
      if !worked {
        return Err(InvalidPow(rules.difficulty));
      }
      blocks := blocks + [block];
      if |blocks| > rules.window {
        var drainCount := |blocks| - rules.window;
        blocks := blocks[drainCount..];
      }
      return Ok(());
    }

    method ValidateChain() returns (ok: bool)
      ensures ok == (AllValid(blocks) && Linked(Zeros, blocks))
    {
      hide Valid;
      var chain := blocks;
      var prev := Zeros;
      for i := 0 to |chain|
        invariant prev == if i == 0 then Zeros else BlockHash(chain[i - 1])
        invariant forall k :: 0 <= k < i ==> Valid(chain[k])
        invariant forall k :: 0 <= k < i ==> LinkAt(Zeros, chain, k)
      {
        var block := chain[i];
        var valid := Validate(block);
        if !valid {
          return false;
        }
        if block.header.prevHash != prev {
          assert !LinkAt(Zeros, chain, i);
          return false;
        }
        prev := BlockHash(block);
      }
      return true;
    }
  }

  // ── Whole histories ────────────────────────────────────────────────────────

  /** What a ledger keeps, and every block it ever accepted, after `offered` was offered in order. */
  function History(rules: Rules, offered: seq<Block>): (seq<Block>, seq<Block>) {
    if |offered| == 0 then ([], [])
    else
      var (kept, accepted) := History(rules, offered[..|offered| - 1]);
      var block := offered[|offered| - 1];
      if Objection(rules, kept, block).Some? then (kept, accepted)
      else (LastN(kept + [block], rules.window), accepted + [block])
  }

  function Kept(rules: Rules, offered: seq<Block>): seq<Block> {
    History(rules, offered).0
  }

  function Accepted(rules: Rules, offered: seq<Block>): seq<Block> {
    History(rules, offered).1
  }

  /** Which refusal a block meets, spelled out in the order of the checks. */
  lemma RefusesExactly(rules: Rules, blocks: seq<Block>, b: Block)
    ensures Objection(rules, blocks, b) == Some(InvalidBlock) <==>
            !(RootOf(Contents(b.entries)) == b.header.merkleRoot && |b.entries| % U32_LIMIT == b.header.nMessages)
    ensures Objection(rules, blocks, b) == Some(BrokenChain(Tip(blocks), b.header.prevHash)) <==>
            && RootOf(Contents(b.entries)) == b.header.merkleRoot && |b.entries| % U32_LIMIT == b.header.nMessages
            && b.header.prevHash != Tip(blocks)
    ensures Objection(rules, blocks, b).None? <==> Admissible(rules, Tip(blocks), b)
    ensures Objection(rules, blocks, b).Some? && Valid(b) && b.header.prevHash == Tip(blocks) ==>
              Objection(rules, blocks, b) == Some(InvalidPow(rules.difficulty))
  {
    hide RootOf, Contents, PowOk, Worked;
    PowOkExactly(rules.hash, b, rules.difficulty);
  }

  /** The block's root and count are its entries', it points to `tip`, and every stamp's hash is below the bound. */
  ghost predicate Admissible(rules: Rules, tip: Hash, b: Block) {
    && RootOf(Contents(b.entries)) == b.header.merkleRoot && |b.entries| % U32_LIMIT == b.header.nMessages
    && b.header.prevHash == tip && Worked(rules.hash, b, rules.difficulty)
  }

  /** After any history, exactly the admissible blocks are accepted; any other changes nothing. */
  lemma AcceptsExactly(rules: Rules, offered: seq<Block>, b: Block)
    ensures Admissible(rules, Tip(Kept(rules, offered)), b) <==>
            Accepted(rules, offered + [b]) == Accepted(rules, offered) + [b]
    ensures !Admissible(rules, Tip(Kept(rules, offered)), b) ==> History(rules, offered + [b]) == History(rules,
          offered)
  {
    hide Admissible, Objection;
    assert (offered + [b])[..|offered|] == offered;
    RefusesExactly(rules, Kept(rules, offered), b);
    assert |Accepted(rules, offered)| != |Accepted(rules, offered) + [b]|;
  }

  lemma TipOfLastN(blocks: seq<Block>, n: nat)
    ensures n >= 1 ==> Tip(LastN(blocks, n)) == Tip(blocks)
  {
  }

  lemma LinkedGrows(prev: Hash, blocks: seq<Block>, block: Block)
    ensures Linked(prev, blocks + [block]) <==>
            Linked(prev, blocks) && block.header.prevHash == if |blocks| == 0 then prev else Tip(blocks)
  {
    var all := blocks + [block];
    assert forall i :: 0 <= i < |blocks| ==> LinkAt(prev, all, i) == LinkAt(prev, blocks, i);
    assert LinkAt(prev, all, |blocks|) <==> block.header.prevHash == if |blocks| == 0 then prev else Tip(blocks);
  }

  /** After any run, the ledger holds the last `window` accepted blocks. */
  lemma {:induction false} KeepsNewest(rules: Rules, offered: seq<Block>)
    ensures Kept(rules, offered) == LastN(Accepted(rules, offered), rules.window)
    ensures forall b :: b in Accepted(rules, offered) ==>
              b in offered && Valid(b) && PowOk(rules.hash, b, rules.difficulty)
  {
    hide Valid, PowOk;
    if |offered| > 0 {
      var before, block := offered[..|offered| - 1], offered[|offered| - 1];
      KeepsNewest(rules, before);
      LastNOfLastN(Accepted(rules, before), [block], rules.window);
    }
  }

  /**
   * They form one chain from genesis, whatever was offered in between, exactly when the
   * window is not empty (or nothing was accepted after the first block).
   */
  lemma {:induction false} AcceptedIsChain(rules: Rules, offered: seq<Block>)
    ensures Linked(Zeros, Accepted(rules, offered)) <==> rules.window >= 1 || |Accepted(rules, offered)| <= 1
  {
    hide Valid, PowOk, LastN;
    if |offered| > 0 {
      var before, block := offered[..|offered| - 1], offered[|offered| - 1];
      AcceptedIsChain(rules, before);
      KeepsNewest(rules, before);
      TipOfLastN(Accepted(rules, before), rules.window);
      LinkedGrows(Zeros, Accepted(rules, before), block);
    }
  }

  /** `validate_chain` holds exactly while nothing has been pruned (or nothing is ever kept). */
  lemma ChainValidWhilePruneless(rules: Rules, offered: seq<Block>)
    ensures var kept := Kept(rules, offered);
            AllValid(kept) && Linked(Zeros, kept) <==>
            rules.window == 0 || |Accepted(rules, offered)| <= rules.window
  {
    hide Valid, PowOk;
    var all := Accepted(rules, offered);
    KeepsNewest(rules, offered);
    AcceptedIsChain(rules, offered);
    if |all| > rules.window >= 1 {
      assert LinkAt(Zeros, all, |all| - rules.window);
      assert !LinkAt(Zeros, Kept(rules, offered), 0);
    }
  }

  /** The blocks a ledger keeps are linked to each other and to the block last pruned. */
  lemma KeptIsLinked(rules: Rules, offered: seq<Block>)
    requires rules.window >= 1
    ensures var all, kept := Accepted(rules, offered), Kept(rules, offered);
            |kept| <= |all| && Linked(Tip(all[..|all| - |kept|]), kept)
  {
    hide Valid, PowOk;
    KeepsNewest(rules, offered);
    AcceptedIsChain(rules, offered);
    var all, kept := Accepted(rules, offered), Kept(rules, offered);
    var pruned := |all| - |kept|;
    forall i | 0 <= i < |kept| ensures LinkAt(Tip(all[..pruned]), kept, i) {
      assert LinkAt(Zeros, all, pruned + i);
    }
  }

  // ── Agreement ──────────────────────────────────────────────────────────────

  predicate Countable(blocks: seq<Block>) {
    forall b :: b in blocks ==> |b.entries| < U32_LIMIT
  }

  /** A tip hash fixes the whole chain behind it. */
  lemma {:induction false} TipFixesChain(a: seq<Block>, b: seq<Block>)
    requires Linked(Zeros, a) && Linked(Zeros, b) && Tip(a) == Tip(b)
    requires AllValid(a) && AllValid(b) && Countable(a) && Countable(b)
    ensures a == b
  {
    hide Valid;
    if |a| > 0 && |b| > 0 {
      var x, y := a[|a| - 1], b[|b| - 1];
      HashBindsContents(x, y);
      LinkedGrows(Zeros, a[..|a| - 1], x);
      LinkedGrows(Zeros, b[..|b| - 1], y);
      assert a == a[..|a| - 1] + [x] && b == b[..|b| - 1] + [y];
      TipFixesChain(a[..|a| - 1], b[..|b| - 1]);
    }
  }

  /**
   * Two ledgers with equal tip hashes accepted the same blocks all along, whatever else
   * they were offered, under whatever windows and difficulties; so the shorter of their
   * windows holds a suffix of the other's.
   */
  lemma EqualTipsAgree(rules1: Rules, offered1: seq<Block>, rules2: Rules, offered2: seq<Block>)
    requires rules1.window >= 1 && rules2.window >= 1
    requires Countable(Accepted(rules1, offered1)) && Countable(Accepted(rules2, offered2))
    requires Tip(Kept(rules1, offered1)) == Tip(Kept(rules2, offered2))
    ensures Accepted(rules1, offered1) == Accepted(rules2, offered2)
    ensures rules1.window <= rules2.window ==>
              Kept(rules1, offered1) == LastN(Kept(rules2, offered2), rules1.window)
  {
    hide Valid, PowOk, LastN;
    var a, b := Accepted(rules1, offered1), Accepted(rules2, offered2);
    KeepsNewest(rules1, offered1);
    KeepsNewest(rules2, offered2);
    AcceptedIsChain(rules1, offered1);
    AcceptedIsChain(rules2, offered2);
    TipOfLastN(a, rules1.window);
    TipOfLastN(b, rules2.window);
    TipFixesChain(a, b);
    ShorterTail(a, rules1.window, rules2.window);
  }

  lemma ShorterTail<T>(s: seq<T>, m: nat, n: nat)
    ensures m <= n ==> LastN(s, m) == LastN(LastN(s, n), m)
  {
  }
}
