/** The Merkle tree of crates/darqual-ledger/src/merkle.rs. */
module Merkle {
  import opened Bytes
  import opened Wrappers
  import opened Hashes

  datatype MerkleProof = MerkleProof(index: nat, siblings: seq<Hash>)

  function LeafHashes(leaves: seq<seq<byte>>): (layer: seq<Hash>)
    ensures |layer| == |leaves|
  {
    seq(|leaves|, i requires 0 <= i < |leaves| => Leaf(leaves[i]))
  }

  /** The parent of position `i` of the next layer; a last odd node is its own sibling. */
  function Parent(layer: seq<Hash>, i: nat): Hash
    requires 2 * i < |layer|
  {
    Node(layer[2 * i], if 2 * i + 1 < |layer| then layer[2 * i + 1] else layer[2 * i])
  }

  function Up(layer: seq<Hash>): (next: seq<Hash>)
    ensures |next| == (|layer| + 1) / 2
  {
    seq((|layer| + 1) / 2, i requires 0 <= i < (|layer| + 1) / 2 => Parent(layer, i))
  }

  function Climb(layer: seq<Hash>): Hash
    requires |layer| > 0
    decreases |layer|
  {
    if |layer| == 1 then layer[0] else Climb(Up(layer))
  }

  function SiblingIndex(idx: nat, len: nat): nat {
    if idx % 2 == 1 then idx - 1 else if idx + 1 < len then idx + 1 else idx
  }

  /** The siblings met on the way up from position `idx`. */
  function Siblings(layer: seq<Hash>, idx: nat): seq<Hash>
    requires idx < |layer|
    decreases |layer|
  {
    if |layer| == 1 then []
    else [layer[SiblingIndex(idx, |layer|)]] + Siblings(Up(layer), idx / 2)
  }

  function Combine(current: Hash, sibling: Hash, idx: nat): Hash {
    if idx % 2 == 0 then Node(current, sibling) else Node(sibling, current)
  }

  /** Where a walk up from `current` at position `idx` ends. */
  function Fold(current: Hash, idx: nat, siblings: seq<Hash>): Hash
    decreases |siblings|
  {
    if |siblings| == 0 then current
    else Fold(Combine(current, siblings[0], idx), idx / 2, siblings[1..])
  }

  // ── The loops ──────────────────────────────────────────────────────────────

  method MerkleRoot(leaves: seq<seq<byte>>) returns (root: Hash)
    ensures root == RootOf(leaves)
    ensures leaves == [] ==> root == EmptyRoot
  {
    if |leaves| == 0 {
      return EmptyRoot;
    }
    var layer := LeafHashes(leaves);
    while |layer| > 1
      invariant |layer| > 0 && Climb(layer) == Climb(LeafHashes(leaves))
      decreases |layer|
    {
      var next: seq<Hash> := [];
      var i := 0;
      while i < |layer|
        invariant i == 2 * |next| && |next| <= (|layer| + 1) / 2
        invariant next == Up(layer)[..|next|]
      {
        if i + 1 < |layer| {
          next := next + [Node(layer[i], layer[i + 1])];
        } else {
          next := next + [Node(layer[i], layer[i])];
        }
        i := i + 2;
      }
      assert next == Up(layer);
      layer := next;
    }
    root := layer[0];
    ClimbIsPerfect(LeafHashes(leaves));
    ExpandHashes(leaves);
  }

  lemma SiblingsStep(found: seq<Hash>, layer: seq<Hash>, idx: nat)
    requires idx < |layer| && |layer| > 1
    ensures found + Siblings(layer, idx) ==
            found + [layer[SiblingIndex(idx, |layer|)]] + Siblings(Up(layer), idx / 2)
  {
  }

  method ProofOf(leaves: seq<seq<byte>>, index: nat) returns (proof: Option<MerkleProof>)
    ensures index >= |leaves| ==> proof.None?
    ensures index < |leaves| ==> proof == Some(MerkleProof(index, Siblings(LeafHashes(leaves), index)))
  {
    if |leaves| == 0 || index >= |leaves| {
      return None;
    }
    var layer := LeafHashes(leaves);
    var idx: nat := index;
    var siblings: seq<Hash> := [];
    ghost var all := Siblings(layer, idx);
    while |layer| > 1
      invariant 0 <= idx < |layer|
      invariant siblings + Siblings(layer, idx) == all
      decreases |layer|
    {
      var siblingIdx := if idx % 2 == 0 then (if idx + 1 < |layer| then idx + 1 else idx) else idx - 1;
      SiblingsStep(siblings, layer, idx);
      siblings := siblings + [layer[siblingIdx]];
      var next: seq<Hash> := [];
      var i := 0;
      while i < |layer|
        invariant i == 2 * |next| && |next| <= (|layer| + 1) / 2
        invariant next == Up(layer)[..|next|]
      {
        if i + 1 < |layer| {
          next := next + [Node(layer[i], layer[i + 1])];
        } else {
          next := next + [Node(layer[i], layer[i])];
        }
        i := i + 2;
      }
      assert next == Up(layer);
      idx := idx / 2;
      layer := next;
    }
    assert siblings == siblings + Siblings(layer, idx);
    return Some(MerkleProof(index, siblings));
  }

  method VerifyProof(root: Hash, leaf: seq<byte>, proof: MerkleProof) returns (ok: bool)
    ensures ok == Accepts(root, leaf, proof)
  {
    var current := Leaf(leaf);
    var idx := proof.index;
    var n := 0;
    while n < |proof.siblings|
      invariant n <= |proof.siblings|
      invariant Fold(current, idx, proof.siblings[n..]) == Fold(Leaf(leaf), proof.index, proof.siblings)
    {
      var sibling := proof.siblings[n];
      current := if idx % 2 == 0 then Node(current, sibling) else Node(sibling, current);
      idx := idx / 2;
      n := n + 1;
    }
    return current == root;
  }

  predicate Accepts(root: Hash, leaf: seq<byte>, proof: MerkleProof) {
    Fold(Leaf(leaf), proof.index, proof.siblings) == root
  }

  // ── The reference: a perfect tree over an expanded list ────────────────────

  function Depth(n: nat): nat {
    if n <= 1 then 0 else 1 + Depth((n + 1) / 2)
  }

  /** Which of `n` entries stands at position `j` once every odd level was evened out. */
  function Origin(n: nat, j: nat): (k: nat)
    requires n > 0
    ensures k < n
  {
    if n == 1 then 0
    else
      var k := 2 * Origin((n + 1) / 2, j / 2) + j % 2;
      if k < n then k else k - 1
  }

  /** `xs` with its last entries repeated, level by level, up to a power of two. */
  function Expand<T>(xs: seq<T>): (ys: seq<T>)
    requires |xs| > 0
    ensures |ys| == Pow2(Depth(|xs|))
  {
    seq(Pow2(Depth(|xs|)), j requires 0 <= j => xs[Origin(|xs|, j)])
  }

  /** The root of a perfect binary tree, halves first. */
  function Perfect(layer: seq<Hash>, d: nat): Hash
    requires |layer| == Pow2(d)
  {
    if d == 0 then layer[0]
    else Node(Perfect(layer[..Pow2(d - 1)], d - 1), Perfect(layer[Pow2(d - 1)..], d - 1))
  }

  function RootOf(leaves: seq<seq<byte>>): Hash {
    if |leaves| == 0 then EmptyRoot
    else Perfect(LeafHashes(Expand(leaves)), Depth(|leaves|))
  }

  /** The entries themselves come first in their expansion; the rest are copies of them. */
  lemma {:induction false} OriginKeeps(n: nat, j: nat)
    requires j < n
    ensures Origin(n, j) == j
  {
    if n > 1 {
      OriginKeeps((n + 1) / 2, j / 2);
    }
  }

  lemma {:induction false} DepthBounds(n: nat)
    ensures n <= Pow2(Depth(n))
  {
    if n > 1 {
      DepthBounds((n + 1) / 2);
    }
  }

  lemma ExpandExtends<T>(xs: seq<T>)
    requires |xs| > 0
    ensures xs <= Expand(xs) && (forall y :: y in Expand(xs) ==> y in xs)
  {
    DepthBounds(|xs|);
    forall j | 0 <= j < |xs| ensures Expand(xs)[j] == xs[j] {
      OriginKeeps(|xs|, j);
    }
  }

  lemma ExpandHashes(leaves: seq<seq<byte>>)
    requires |leaves| > 0
    ensures Expand(LeafHashes(leaves)) == LeafHashes(Expand(leaves))
  {
  }

  lemma OriginChildren(n: nat, j: nat)
    requires n > 1
    ensures var k := Origin((n + 1) / 2, j);
            && Origin(n, 2 * j) == 2 * k
            && Origin(n, 2 * j + 1) == if 2 * k + 1 < n then 2 * k + 1 else 2 * k
  {
    assert 2 * j / 2 == j && 2 * j % 2 == 0;
    assert (2 * j + 1) / 2 == j && (2 * j + 1) % 2 == 1;
  }

  /** Evening out commutes with going up one layer. */
  lemma ExpandUp(layer: seq<Hash>)
    requires |layer| > 1
    ensures Up(Expand(layer)) == Expand(Up(layer))
  {
    hide Origin;
    var half := Expand(Up(layer));
    assert |Expand(layer)| == 2 * |half|;
    forall j | 0 <= j < |half| ensures Up(Expand(layer))[j] == half[j] {
      OriginChildren(|layer|, j);
    }
  }

  /** Halves first or pairs first, a perfect tree has one root. */
  lemma {:induction false} PerfectUp(layer: seq<Hash>, d: nat)
    requires d > 0 && |layer| == Pow2(d)
    ensures |Up(layer)| == Pow2(d - 1) && Perfect(layer, d) == Perfect(Up(layer), d - 1)
  {
    if d > 1 {
      var h := Pow2(d - 1);
      PerfectUp(layer[..h], d - 1);
      PerfectUp(layer[h..], d - 1);
      assert Up(layer)[..h / 2] == Up(layer[..h]);
      assert Up(layer)[h / 2..] == Up(layer[h..]);
    }
  }

  /** The layer loop computes the root of the perfect tree over the expansion. */
  lemma {:induction false} ClimbIsPerfect(layer: seq<Hash>)
    requires |layer| > 0
    ensures Climb(layer) == Perfect(Expand(layer), Depth(|layer|))
    decreases |layer|
  {
    if |layer| > 1 {
      ClimbIsPerfect(Up(layer));
      ExpandUp(layer);
      PerfectUp(Expand(layer), Depth(|layer|));
    }
  }

  // ── Proofs ─────────────────────────────────────────────────────────────────

  lemma {:induction false} SiblingsLead(layer: seq<Hash>, idx: nat)
    requires idx < |layer|
    ensures Fold(layer[idx], idx, Siblings(layer, idx)) == Climb(layer)
    decreases |layer|
  {
    if |layer| > 1 {
      assert Combine(layer[idx], layer[SiblingIndex(idx, |layer|)], idx) == Up(layer)[idx / 2];
      SiblingsLead(Up(layer), idx / 2);
    }
  }

  /** Every generated proof is accepted. */
  lemma ProofsVerify(leaves: seq<seq<byte>>, index: nat)
    requires index < |leaves|
    ensures Accepts(RootOf(leaves), leaves[index], MerkleProof(index, Siblings(LeafHashes(leaves), index)))
  {
    SiblingsLead(LeafHashes(leaves), index);
    ClimbIsPerfect(LeafHashes(leaves));
    ExpandHashes(leaves);
  }

  /** The index above the lowest `k` levels; its parity says left or right there. */
  function Bit(idx: nat, k: nat): nat {
    Shift(idx, Pow2(k))
  }

  function Shift(idx: nat, p: nat): nat
    requires p > 0
  {
    idx / p
  }

  /** The half of a perfect layer that the parity of `bit` chooses. */
  function Half(layer: seq<Hash>, d: nat, bit: nat): (half: seq<Hash>)
    requires d > 0 && |layer| == Pow2(d)
    ensures |half| == Pow2(d - 1)
  {
    if bit % 2 == 0 then layer[..Pow2(d - 1)] else layer[Pow2(d - 1)..]
  }

  /** The hashes beside the path from the root of a perfect tree down to position `idx`. */
  function Path(layer: seq<Hash>, d: nat, idx: nat): (path: seq<Hash>)
    requires |layer| == Pow2(d)
    ensures |path| == d
    decreases d
  {
    if d == 0 then []
    else
      var bit := Bit(idx, d - 1);
      Path(Half(layer, d, bit), d - 1, idx) + [Perfect(Half(layer, d, bit + 1), d - 1)]
  }

  lemma Halve(idx: nat, h: nat)
    requires h > 0
    ensures idx % (2 * h) == idx % h + (if idx / h % 2 == 0 then 0 else h)
    ensures idx % (2 * h) < 2 * h
  {
    var q, r := idx / h, idx % h;
    assert idx == 2 * h * (q / 2) + (h * (q % 2) + r);
    QuotientIs(idx, 2 * h, q / 2, h * (q % 2) + r);
  }

  /** The last sibling is the one below the root. */
  lemma {:induction false} FoldLast(current: Hash, idx: nat, siblings: seq<Hash>)
    requires |siblings| > 0
    ensures var k := |siblings| - 1;
            Fold(current, idx, siblings) == Combine(Fold(current, idx, siblings[..k]), siblings[k], Bit(idx, k))
    decreases |siblings|
  {
    var k := |siblings| - 1;
    if k > 0 {
      var next := Combine(current, siblings[0], idx);
      FoldLast(next, idx / 2, siblings[1..]);
      assert siblings[1..][..k - 1] == siblings[..k][1..];
      assert Bit(idx, k) == idx / 2 / Pow2(k - 1) by {
        DivDiv(idx, Pow2(k - 1));
      }
    }
  }

  lemma DivDiv(x: nat, h: nat)
    requires h > 0
    ensures x / (2 * h) == x / 2 / h
  {
    var q, r := x / 2 / h, x / 2 % h;
    assert x == (2 * h) * q + (2 * r + x % 2);
    QuotientIs(x, 2 * h, q, 2 * r + x % 2);
  }

  ghost predicate Leaves(layer: seq<Hash>) {
    forall h :: h in layer ==> h.Leaf?
  }

  lemma WalkStep(layer: seq<Hash>, d: nat, current: Hash, idx: nat, siblings: seq<Hash>)
    requires d > 0 && |layer| == Pow2(d) && |siblings| > 0
    ensures var k := |siblings| - 1;
            var bit := Bit(idx, k);
            Fold(current, idx, siblings) == Perfect(layer, d) <==>
              && Fold(current, idx, siblings[..k]) == Perfect(Half(layer, d, bit), d - 1)
              && siblings[k] == Perfect(Half(layer, d, bit + 1), d - 1)
  {
    hide Fold;
    FoldLast(current, idx, siblings);
  }

  lemma PathStep(layer: seq<Hash>, d: nat, idx: nat, siblings: seq<Hash>)
    requires d > 0 && |layer| == Pow2(d) && |siblings| > 0
    ensures var k := |siblings| - 1;
            var bit := Bit(idx, k);
            siblings == Path(layer, d, idx) <==>
              && k == d - 1
              && siblings[..k] == Path(Half(layer, d, bit), d - 1, idx)
              && siblings[k] == Perfect(Half(layer, d, bit + 1), d - 1)
  {
    hide Perfect, Half, Bit;
    var k := |siblings| - 1;
    assert siblings == siblings[..k] + [siblings[k]];
  }

  /** The entry of a perfect layer an index leads to, halving from the top. */
  function Entry(layer: seq<Hash>, d: nat, idx: nat): Hash
    requires |layer| == Pow2(d)
  {
    if d == 0 then layer[0] else Entry(Half(layer, d, Bit(idx, d - 1)), d - 1, idx)
  }

  /** It stands at the place the low bits of the index name. */
  lemma {:induction false} EntryPlace(layer: seq<Hash>, d: nat, idx: nat)
    requires |layer| == Pow2(d)
    ensures idx % Pow2(d) < |layer| && Entry(layer, d, idx) == layer[idx % Pow2(d)]
    decreases d
  {
    if d > 0 {
      Halve(idx, Pow2(d - 1));
      EntryPlace(Half(layer, d, Bit(idx, d - 1)), d - 1, idx);
    }
  }

  /** In a perfect tree, a walk ends at the root only along the true path, from the true leaf. */
  lemma {:induction false} WalkIsPath(layer: seq<Hash>, d: nat, leaf: seq<byte>, idx: nat, siblings: seq<Hash>)
    requires |layer| == Pow2(d) && Leaves(layer)
    ensures Fold(Leaf(leaf), idx, siblings) == Perfect(layer, d) <==>
            siblings == Path(layer, d, idx) && Leaf(leaf) == Entry(layer, d, idx)
    decreases d
  {
    hide Half, Bit;
    if d == 0 {
      LeafOnlyAlone(layer, leaf, idx, siblings);
    } else if |siblings| == 0 {
      assert Perfect(layer, d).Node?;
    } else {
      var k := |siblings| - 1;
      WalkStep(layer, d, Leaf(leaf), idx, siblings);
      PathStep(layer, d, idx, siblings);
      HalfLeaves(layer, d, Bit(idx, k));
      WalkIsPath(Half(layer, d, Bit(idx, k)), d - 1, leaf, idx, siblings[..k]);
    }
  }

  lemma HalfLeaves(layer: seq<Hash>, d: nat, bit: nat)
    requires d > 0 && |layer| == Pow2(d) && Leaves(layer)
    ensures Leaves(Half(layer, d, bit))
  {
  }

  lemma LeafOnlyAlone(layer: seq<Hash>, leaf: seq<byte>, idx: nat, siblings: seq<Hash>)
    requires |layer| == 1 && Leaves(layer)
    ensures Fold(Leaf(leaf), idx, siblings) == layer[0] <==> siblings == [] && Leaf(leaf) == layer[0]
  {
    if |siblings| > 0 {
      FoldLast(Leaf(leaf), idx, siblings);
      assert layer[0] in layer;
    }
  }

  /** The position an index leads to: only its low bits are read. */
  function Place(leaves: seq<seq<byte>>, index: nat): (place: nat)
    requires |leaves| > 0
    ensures place < |Expand(leaves)|
  {
    index % Pow2(Depth(|leaves|))
  }

  /**
   * Exactly which proofs are accepted: as many siblings as the tree is deep, each the
   * hash beside the path, and the leaf is what the expansion holds at the index's place.
   */
  lemma AcceptsExactly(leaves: seq<seq<byte>>, leaf: seq<byte>, proof: MerkleProof)
    ensures Accepts(RootOf(leaves), leaf, proof) <==>
            && |leaves| > 0
            && proof.siblings == Path(LeafHashes(Expand(leaves)), Depth(|leaves|), proof.index)
            && leaf == Expand(leaves)[Place(leaves, proof.index)]
  {
    if |leaves| > 0 {
      WalkIsPath(LeafHashes(Expand(leaves)), Depth(|leaves|), leaf, proof.index, proof.siblings);
      EntryPlace(LeafHashes(Expand(leaves)), Depth(|leaves|), proof.index);
    } else {
      FoldIsNoConstant(Leaf(leaf), proof.index, proof.siblings);
    }
  }

  lemma {:induction false} FoldIsNoConstant(current: Hash, idx: nat, siblings: seq<Hash>)
    requires current.Leaf? || current.Node?
    ensures Fold(current, idx, siblings) != EmptyRoot
    decreases |siblings|
  {
    if |siblings| > 0 {
      FoldIsNoConstant(Combine(current, siblings[0], idx), idx / 2, siblings[1..]);
    }
  }

  /** An accepted leaf is one of the leaves, and at an index in range it is the one there. */
  lemma AcceptedIsMember(leaves: seq<seq<byte>>, leaf: seq<byte>, proof: MerkleProof)
    requires Accepts(RootOf(leaves), leaf, proof)
    ensures leaf in leaves
    ensures proof.index < |leaves| ==> leaf == leaves[proof.index]
  {
    AcceptsExactly(leaves, leaf, proof);
    ExpandExtends(leaves);
    DepthBounds(|leaves|);
    if proof.index < |leaves| {
      QuotientIs(proof.index, Pow2(Depth(|leaves|)), 0, proof.index);
    }
  }

  // ── What a root says about its leaves ──────────────────────────────────────

  lemma SingleLeaf(a: seq<Hash>, d: nat)
    requires |a| == Pow2(d) && Leaves(a)
    ensures Perfect(a, d).Leaf? <==> d == 0
  {
    assert a[0] in a;
  }

  lemma {:induction false} PerfectInjective(a: seq<Hash>, d: nat, b: seq<Hash>, f: nat)
    requires |a| == Pow2(d) && |b| == Pow2(f) && Leaves(a) && Leaves(b)
    requires Perfect(a, d) == Perfect(b, f)
    ensures d == f && a == b
  {
    SingleLeaf(a, d);
    SingleLeaf(b, f);
    if d > 0 && f > 0 {
      var h, g := Pow2(d - 1), Pow2(f - 1);
      PerfectInjective(a[..h], d - 1, b[..g], f - 1);
      PerfectInjective(a[h..], d - 1, b[g..], f - 1);
      assert a == a[..h] + a[h..] && b == b[..g] + b[g..];
    } else {
      assert a == [a[0]] && b == [b[0]];
    }
  }

  lemma LeafHashesInjective(a: seq<seq<byte>>, b: seq<seq<byte>>)
    requires LeafHashes(a) == LeafHashes(b)
    ensures a == b
  {
    assert |a| == |LeafHashes(a)|;
    forall i | 0 <= i < |a| ensures a[i] == b[i] {
      assert LeafHashes(a)[i] == LeafHashes(b)[i];
    }
  }

  /** Two lists share a root exactly when their expansions are the same list. */
  lemma SameRoot(a: seq<seq<byte>>, b: seq<seq<byte>>)
    ensures RootOf(a) == RootOf(b) <==> (a == [] && b == []) || (a != [] && b != [] && Expand(a) == Expand(b))
  {
    if a != [] && b != [] {
      if RootOf(a) == RootOf(b) {
        PerfectInjective(LeafHashes(Expand(a)), Depth(|a|), LeafHashes(Expand(b)), Depth(|b|));
        LeafHashesInjective(Expand(a), Expand(b));
      } else if Expand(a) == Expand(b) {
        Pow2Injective(Depth(|a|), Depth(|b|));
      }
    }
  }

  /** With the number of leaves known, the root determines them. */
  lemma RootInjective(a: seq<seq<byte>>, b: seq<seq<byte>>)
    requires |a| == |b| && RootOf(a) == RootOf(b)
    ensures a == b
  {
    SameRoot(a, b);
    if a != [] {
      ExpandExtends(a);
      ExpandExtends(b);
    }
  }

  lemma OddAndEven(x: seq<Hash>, y: seq<Hash>)
    requires |x| == 3 && y == x + [x[2]]
    ensures Climb(x) == Climb(y)
  {
    assert Up(x) == Up(y);
  }

  /** Without it, it does not: an odd list and the list with its last leaf repeated share a root. */
  lemma RepeatedLastLeaf(a: seq<byte>, b: seq<byte>, c: seq<byte>)
    ensures RootOf([a, b, c]) == RootOf([a, b, c, c])
  {
    var x, y := [a, b, c], [a, b, c, c];
    OddAndEven(LeafHashes(x), LeafHashes(y));
    ClimbIsPerfect(LeafHashes(x));
    ClimbIsPerfect(LeafHashes(y));
    ExpandHashes(x);
    ExpandHashes(y);
  }
}
