/** Committee election by sortition (crates/darqual-committee/src/election.rs and vrf.rs). */
module Election {
  import opened Bytes
  import opened Pow
  import opened Sequences

  /**
   * An ed25519 signature as the term that made it, or bytes nobody signed. Signing picks a
   * nonce; verification does not see how it was picked (RFC 8032, sections 5.1.6 and 5.1.7).
   */
  datatype Proof = Signature(signer: seq<byte>, message: seq<byte>, nonce: seq<byte>) | NoSignature(raw: seq<byte>)

  /** blake3(DOMAIN || proof): any function from proofs to digests. */
  type OutputOf = Proof -> Digest

  datatype Candidate = Candidate(edPub: seq<byte>, output: Digest, proof: Proof)

  /** The claim of a key holder who signs with `nonce`; honest signing has one nonce per key and message. */
  function ClaimWith(hash: OutputOf, edPub: seq<byte>, seed: seq<byte>, nonce: seq<byte>): Candidate {
    Candidate(edPub, hash(Signature(edPub, seed, nonce)), Signature(edPub, seed, nonce))
  }

  predicate VerifyEd(edPub: seq<byte>, message: seq<byte>, proof: Proof) {
    proof.Signature? && proof.signer == edPub && proof.message == message
  }

  predicate VrfVerify(hash: OutputOf, seed: seq<byte>, c: Candidate) {
    VerifyEd(c.edPub, seed, c.proof) && hash(c.proof) == c.output
  }

  /** A claim verifies exactly when its own key signed this seed and the output is that signature's. */
  lemma VerifiesExactly(hash: OutputOf, seed: seq<byte>, c: Candidate)
    ensures VrfVerify(hash, seed, c) <==> exists nonce :: c == ClaimWith(hash, c.edPub, seed, nonce)
  {
    if VrfVerify(hash, seed, c) {
      assert c == ClaimWith(hash, c.edPub, seed, c.proof.nonce);
    }
  }

  function Verified(hash: OutputOf, seed: seq<byte>, cs: seq<Candidate>): (r: seq<Candidate>)
    ensures forall c :: c in r <==> c in cs && VrfVerify(hash, seed, c)
  {
    if |cs| == 0 then []
    else (if VrfVerify(hash, seed, cs[0]) then [cs[0]] else []) + Verified(hash, seed, cs[1..])
  }

  /** Insertion before every candidate whose output is not smaller. */
  function Insert(c: Candidate, sorted: seq<Candidate>): seq<Candidate> {
    if |sorted| == 0 || LexLe(c.output, sorted[0].output) then [c] + sorted
    else [sorted[0]] + Insert(c, sorted[1..])
  }

  /** The stable sort by output. */
  function SortByOutput(cs: seq<Candidate>): seq<Candidate> {
    if |cs| == 0 then [] else Insert(cs[0], SortByOutput(cs[1..]))
  }

  function KeyOf(c: Candidate): seq<byte> {
    c.edPub
  }

  function Keys(cs: seq<Candidate>): (keys: seq<seq<byte>>)
    ensures |keys| == |cs|
  {
    Map(KeyOf, cs)
  }

  function Take<T>(s: seq<T>, n: nat): seq<T> {
    if n <= |s| then s[..n] else s
  }

  function Ranking(hash: OutputOf, candidates: seq<Candidate>, seed: seq<byte>): seq<Candidate> {
    SortByOutput(Verified(hash, seed, candidates))
  }

  function Committee(hash: OutputOf, candidates: seq<Candidate>, seed: seq<byte>, size: nat): seq<seq<byte>> {
    Keys(Take(Ranking(hash, candidates, seed), size))
  }

  // ── The sort ───────────────────────────────────────────────────────────────

  predicate Sorted(s: seq<Candidate>) {
    forall i, j :: 0 <= i < j < |s| ==> LexLe(s[i].output, s[j].output)
  }

  lemma LexOrder(a: Digest, b: Digest, c: Digest)
    ensures LexLe(a, b) || LexLe(b, a)
    ensures LexLe(a, b) && LexLe(b, c) ==> LexLe(a, c)
    ensures LexLe(a, b) && LexLe(b, a) ==> a == b
  {
    LexIsNumeric(a, b);
    LexIsNumeric(b, a);
    LexIsNumeric(b, c);
    LexIsNumeric(a, c);
  }

  lemma FirstStaysFirst(c: Candidate, s: seq<Candidate>, rest: seq<Candidate>)
    requires |s| > 0 && Sorted(s) && LexLe(s[0].output, c.output)
    requires multiset(rest) == multiset(s[1..]) + multiset{c}
    ensures forall j :: 0 <= j < |rest| ==> LexLe(s[0].output, rest[j].output)
  {
    forall j | 0 <= j < |rest| ensures LexLe(s[0].output, rest[j].output) {
      assert rest[j] in multiset(rest);
      assert rest[j] in s[1..] || rest[j] == c;
    }
  }

  lemma {:induction false} InsertKeepsSorted(c: Candidate, s: seq<Candidate>)
    requires Sorted(s)
    ensures Sorted(Insert(c, s)) && multiset(Insert(c, s)) == multiset(s) + multiset{c}
    ensures |Insert(c, s)| == |s| + 1
  {
    if |s| > 0 {
      LexOrder(c.output, s[0].output, s[0].output);
      assert s == [s[0]] + s[1..];
      if LexLe(c.output, s[0].output) {
        forall j | 0 <= j < |s| ensures LexLe(c.output, s[j].output) {
          LexOrder(c.output, s[0].output, s[j].output);
        }
      } else {
        InsertKeepsSorted(c, s[1..]);
        FirstStaysFirst(c, s, Insert(c, s[1..]));
      }
    }
  }

  lemma {:induction false} SortSorts(cs: seq<Candidate>)
    ensures Sorted(SortByOutput(cs)) && multiset(SortByOutput(cs)) == multiset(cs)
    ensures |SortByOutput(cs)| == |cs|
  {
    if |cs| > 0 {
      SortSorts(cs[1..]);
      InsertKeepsSorted(cs[0], SortByOutput(cs[1..]));
      assert cs == [cs[0]] + cs[1..];
    }
  }

  // ── Who is elected ─────────────────────────────────────────────────────────

  /** The committee is the first `size` keys of one ranking, so a larger committee only adds members. */
  lemma LargerCommitteeExtends(hash: OutputOf, candidates: seq<Candidate>, seed: seq<byte>, size: nat)
    ensures Committee(hash, candidates, seed, size) <= Committee(hash, candidates, seed, size + 1)
  {
  }

  /**
   * `seats` are `size` verified entries of the list, or all there are, in the order of
   * their outputs; no verified entry left out has a smaller output than a seated one.
   */
  ghost predicate Seated(hash: OutputOf, candidates: seq<Candidate>, seed: seq<byte>, size: nat,
        seats: seq<Candidate>) {
    var valid := Verified(hash, seed, candidates);
    && |seats| == (if size <= |valid| then size else |valid|)
    && Sorted(seats) && multiset(seats) <= multiset(valid)
    && forall i, c :: 0 <= i < |seats| && c in multiset(valid) - multiset(seats) ==> LexLe(seats[i].output, c.output)
  }

  lemma ElectsSmallest(hash: OutputOf, candidates: seq<Candidate>, seed: seq<byte>, size: nat)
    ensures Seated(hash, candidates, seed, size, Take(Ranking(hash, candidates, seed), size))
  {
    hide Verified, SortByOutput;
    var valid, ranking := Verified(hash, seed, candidates), Ranking(hash, candidates, seed);
    SortSorts(valid);
    var seats := Take(ranking, size);
    var others := ranking[|seats|..];
    assert ranking == seats + others;
    assert multiset(valid) - multiset(seats) == multiset(others);
    FirstAreSmallest(seats, others);
  }

  lemma FirstAreSmallest(seats: seq<Candidate>, others: seq<Candidate>)
    requires Sorted(seats + others)
    ensures Sorted(seats)
    ensures forall i, c :: 0 <= i < |seats| && c in multiset(others) ==> LexLe(seats[i].output, c.output)
  {
    var all := seats + others;
    forall i, c | 0 <= i < |seats| && c in multiset(others) ensures LexLe(seats[i].output, c.output) {
      var j :| 0 <= j < |others| && others[j] == c;
      assert all[i] == seats[i] && all[|seats| + j] == c;
    }
    forall i, j | 0 <= i < j < |seats| ensures LexLe(seats[i].output, seats[j].output) {
      assert all[i] == seats[i] && all[j] == seats[j];
    }
  }

  /** Nobody is seated on a claim signed over another seed, or by another key. */
  lemma SeatsAreSigned(hash: OutputOf, candidates: seq<Candidate>, seed: seq<byte>, size: nat, c: Candidate)
    requires c in Take(Ranking(hash, candidates, seed), size)
    ensures c in candidates && exists nonce :: c == ClaimWith(hash, c.edPub, seed, nonce)
  {
    var valid, ranking := Verified(hash, seed, candidates), Ranking(hash, candidates, seed);
    SortSorts(valid);
    assert c in multiset(ranking) && c in valid;
    VerifiesExactly(hash, seed, c);
  }

  /** The committee, with the entries that won its seats. */
  method Elect(hash: OutputOf, candidates: seq<Candidate>, seed: seq<byte>, size: nat)
    returns (committee: seq<seq<byte>>, ghost seats: seq<Candidate>)
    ensures |committee| == |seats| && forall i :: 0 <= i < |seats| ==> committee[i] == seats[i].edPub
    ensures Seated(hash, candidates, seed, size, seats)
    ensures committee == Committee(hash, candidates, seed, size)
  {
    var valid := Verified(hash, seed, candidates);
    valid := SortByOutput(valid);
    ElectsSmallest(hash, candidates, seed, size);
    seats := Take(valid, size);
    committee := Keys(Take(valid, size));
  }

  // ── Order independence ─────────────────────────────────────────────────────

  lemma {:induction false} VerifiedCounts(hash: OutputOf, seed: seq<byte>, cs: seq<Candidate>, c: Candidate)
    ensures multiset(Verified(hash, seed, cs))[c] == if VrfVerify(hash, seed, c) then multiset(cs)[c] else 0
  {
    if |cs| > 0 {
      VerifiedCounts(hash, seed, cs[1..], c);
      assert cs == [cs[0]] + cs[1..];
    }
  }

  lemma VerifiedOfPermutation(hash: OutputOf, seed: seq<byte>, a: seq<Candidate>, b: seq<Candidate>)
    requires multiset(a) == multiset(b)
    ensures multiset(Verified(hash, seed, a)) == multiset(Verified(hash, seed, b))
  {
    forall c ensures multiset(Verified(hash, seed, a))[c] == multiset(Verified(hash, seed, b))[c] {
      VerifiedCounts(hash, seed, a, c);
      VerifiedCounts(hash, seed, b, c);
    }
  }

  ghost predicate TiesAreEqual(s: seq<Candidate>) {
    forall a, b :: a in s && b in s && a.output == b.output ==> a == b
  }

  lemma TailMultiset(s: seq<Candidate>)
    requires |s| > 0
    ensures s == [s[0]] + s[1..] && multiset(s[1..]) == multiset(s) - multiset{s[0]}
  {
    assert s == [s[0]] + s[1..];
  }

  lemma {:induction false} SortedIsUnique(s: seq<Candidate>, t: seq<Candidate>)
    requires Sorted(s) && Sorted(t) && multiset(s) == multiset(t) && TiesAreEqual(s)
    ensures s == t
  {
    assert |multiset(s)| == |s| && |multiset(t)| == |t|;
    if |s| > 0 {
      assert s[0] in multiset(t) && t[0] in multiset(s);
      FirstIsLeast(s, t[0]);
      FirstIsLeast(t, s[0]);
      LexOrder(s[0].output, t[0].output, s[0].output);
      TailMultiset(s);
      TailMultiset(t);
      SortedIsUnique(s[1..], t[1..]);
    }
  }

  lemma FirstIsLeast(s: seq<Candidate>, c: Candidate)
    requires Sorted(s) && c in s
    ensures LexLe(s[0].output, c.output)
  {
    LexOrder(c.output, c.output, c.output);
  }

  /** Two different keys hold verified claims with one output. */
  ghost predicate Contested(hash: OutputOf, seed: seq<byte>, cs: seq<Candidate>) {
    exists a, b :: a in cs && b in cs && VrfVerify(hash, seed, a) && VrfVerify(hash, seed, b)
                   && a.output == b.output && a.edPub != b.edPub
  }

  ghost predicate OrderIndependent(hash: OutputOf, seed: seq<byte>, cs: seq<Candidate>) {
    forall other, size :: multiset(other) == multiset(cs) ==>
                            Committee(hash, other, seed, size) == Committee(hash, cs, seed, size)
  }

  /** A candidate without its proof. */
  function Bare(c: Candidate): Candidate {
    c.(proof := NoSignature([]))
  }

  /** Of sorted rearrangements in which ties share a key, the keys agree place by place. */
  lemma SortedKeysAgree(s: seq<Candidate>, t: seq<Candidate>)
    requires Sorted(s) && Sorted(t) && multiset(s) == multiset(t)
    requires forall a, b :: a in s && b in s && a.output == b.output ==> a.edPub == b.edPub
    ensures Keys(s) == Keys(t)
  {
    MapRearranged(Bare, s, t);
    SortedIsUnique(Map(Bare, s), Map(Bare, t));
    assert |s| == |Map(Bare, s)| == |Map(Bare, t)| == |t|;
    forall i | 0 <= i < |s| ensures s[i].edPub == t[i].edPub {
      assert Map(Bare, s)[i] == Map(Bare, t)[i];
    }
  }

  lemma UncontestedIsIndependent(hash: OutputOf, seed: seq<byte>, cs: seq<Candidate>, other: seq<Candidate>)
    requires !Contested(hash, seed, cs) && multiset(other) == multiset(cs)
    ensures Keys(Ranking(hash, other, seed)) == Keys(Ranking(hash, cs, seed))
  {
    var s, t := Ranking(hash, cs, seed), Ranking(hash, other, seed);
    VerifiedOfPermutation(hash, seed, cs, other);
    SortSorts(Verified(hash, seed, cs));
    SortSorts(Verified(hash, seed, other));
    forall a, b | a in s && b in s && a.output == b.output ensures a.edPub == b.edPub {
      assert a in multiset(s) && b in multiset(s);
      assert a in Verified(hash, seed, cs) && b in Verified(hash, seed, cs);
    }
    SortedKeysAgree(s, t);
  }

  /** Where a candidate goes: after everything smaller, before everything else. */
  function Rank(c: Candidate, sorted: seq<Candidate>): (i: nat)
    ensures i <= |sorted|
  {
    if |sorted| == 0 || LexLe(c.output, sorted[0].output) then 0 else 1 + Rank(c, sorted[1..])
  }

  lemma {:induction false} InsertAtRank(c: Candidate, s: seq<Candidate>)
    ensures Insert(c, s) == s[..Rank(c, s)] + [c] + s[Rank(c, s)..]
  {
    if |s| > 0 && !LexLe(c.output, s[0].output) {
      InsertAtRank(c, s[1..]);
      assert s[..Rank(c, s)] == [s[0]] + s[1..][..Rank(c, s[1..])];
    }
  }

  /** Of two candidates with one output, the one listed first is ranked first. */
  lemma {:induction false} EarlierTieWins(a: Candidate, b: Candidate, s: seq<Candidate>)
    requires a.output == b.output
    ensures Rank(b, s) == Rank(a, s) == Rank(a, Insert(b, s))
    ensures Insert(a, Insert(b, s)) == s[..Rank(a, s)] + [a, b] + s[Rank(a, s)..]
  {
    LexOrder(a.output, a.output, a.output);
    InsertAtRank(b, s);
    if |s| > 0 && !LexLe(a.output, s[0].output) {
      EarlierTieWins(a, b, s[1..]);
      assert s[..Rank(a, s)] == [s[0]] + s[1..][..Rank(a, s[1..])];
    }
    InsertAtRank(a, Insert(b, s));
  }

  /** Listing two tied candidates the other way round changes who sits at their rank. */
  lemma TieBreaksByPosition(hash: OutputOf, seed: seq<byte>, a: Candidate, b: Candidate,
        rest: seq<Candidate>) returns (size: nat)
    requires VrfVerify(hash, seed, a) && VrfVerify(hash, seed, b) && a.output == b.output && a.edPub != b.edPub
    ensures Committee(hash, [a, b] + rest, seed, size) != Committee(hash, [b, a] + rest, seed, size)
  {
    var s := SortByOutput(Verified(hash, seed, rest));
    var i := Rank(a, s);
    RankingOfPair(hash, seed, a, b, rest);
    RankingOfPair(hash, seed, b, a, rest);
    EarlierTieWins(a, b, s);
    EarlierTieWins(b, a, s);
    size := i + 1;
    assert Committee(hash, [a, b] + rest, seed, size)[i] == a.edPub;
    assert Committee(hash, [b, a] + rest, seed, size)[i] == b.edPub;
  }

  lemma RankingStep(hash: OutputOf, seed: seq<byte>, c: Candidate, rest: seq<Candidate>)
    requires VrfVerify(hash, seed, c)
    ensures Ranking(hash, [c] + rest, seed) == Insert(c, Ranking(hash, rest, seed))
  {
    assert ([c] + rest)[1..] == rest;
    var valid := Verified(hash, seed, rest);
    assert ([c] + valid)[1..] == valid;
  }

  lemma RankingOfPair(hash: OutputOf, seed: seq<byte>, a: Candidate, b: Candidate, rest: seq<Candidate>)
    requires VrfVerify(hash, seed, a) && VrfVerify(hash, seed, b)
    ensures Ranking(hash, [a, b] + rest, seed) == Insert(a, Insert(b, SortByOutput(Verified(hash, seed, rest))))
  {
    hide VrfVerify, SortByOutput, Verified, Insert;
    assert [a, b] + rest == [a] + ([b] + rest);
    RankingStep(hash, seed, a, [b] + rest);
    RankingStep(hash, seed, b, rest);
  }

  lemma PickTwo(cs: seq<Candidate>, a: Candidate, b: Candidate) returns (rest: seq<Candidate>)
    requires a in cs && b in cs && a != b
    ensures multiset([a, b] + rest) == multiset(cs) && multiset([b, a] + rest) == multiset(cs)
  {
    var b1, b2 := PickOne(cs, a);
    assert b in multiset(cs);
    var c1, c2 := PickOne(b1 + b2, b);
    rest := c1 + c2;
    assert multiset([a, b] + rest) == multiset([a, b]) + multiset(rest);
    assert multiset([b, a] + rest) == multiset([b, a]) + multiset(rest);
  }

  /** The committees do not depend on the order of the list exactly when no output is contested. */
  lemma IndependentIffUncontested(hash: OutputOf, seed: seq<byte>, cs: seq<Candidate>)
    ensures OrderIndependent(hash, seed, cs) <==> !Contested(hash, seed, cs)
  {
    hide Committee, Ranking;
    if Contested(hash, seed, cs) {
      var a, b :| a in cs && b in cs && VrfVerify(hash, seed, a) && VrfVerify(hash, seed, b)
                  && a.output == b.output && a.edPub != b.edPub;
      var rest := PickTwo(cs, a, b);
      var size := TieBreaksByPosition(hash, seed, a, b, rest);
      assert Committee(hash, [a, b] + rest, seed, size) != Committee(hash, cs, seed, size)
          || Committee(hash, [b, a] + rest, seed, size) != Committee(hash, cs, seed, size);
    } else {
      forall other, size | multiset(other) == multiset(cs)
        ensures Committee(hash, other, seed, size) == Committee(hash, cs, seed, size)
      {
        SameRankingSameCommittee(hash, seed, cs, other, size);
      }
    }
  }

  lemma SameRankingSameCommittee(hash: OutputOf, seed: seq<byte>, cs: seq<Candidate>, other: seq<Candidate>, size: nat)
    requires !Contested(hash, seed, cs) && multiset(other) == multiset(cs)
    ensures Committee(hash, other, seed, size) == Committee(hash, cs, seed, size)
  {
    hide Ranking;
    UncontestedIsIndependent(hash, seed, cs, other);
    TakeKeys(Ranking(hash, cs, seed), size);
    TakeKeys(Ranking(hash, other, seed), size);
  }

  lemma TakeKeys(s: seq<Candidate>, size: nat)
    ensures Keys(Take(s, size)) == Take(Keys(s), size)
  {
  }

  /** A contested output is a collision of the hash on signatures of the seed by two different keys. */
  lemma ContestIsCollision(hash: OutputOf, seed: seq<byte>, cs: seq<Candidate>)
    ensures Contested(hash, seed, cs) <==>
            exists a, b :: a in cs && b in cs && VrfVerify(hash, seed, a) && VrfVerify(hash, seed, b)
                           && a.proof.signer != b.proof.signer && hash(a.proof) == hash(b.proof)
  {
  }

  // ── One key, one seat ──────────────────────────────────────────────────────

  /** No committee has a repeated member exactly when no key has two verified entries in the list. */
  lemma SeatsAreDistinct(hash: OutputOf, seed: seq<byte>, cs: seq<Candidate>)
    ensures (forall size :: NoRepeats(Committee(hash, cs, seed, size))) <==> NoRepeats(Keys(Verified(hash, seed, cs)))
  {
    hide Verified, SortByOutput, Sorted;
    var valid, ranking := Verified(hash, seed, cs), Ranking(hash, cs, seed);
    SortSorts(valid);
    MapRearranged(KeyOf, ranking, valid);
    NoRepeatsCounts(Keys(ranking));
    NoRepeatsCounts(Keys(valid));
    assert Take(ranking, |ranking|) == ranking;
    forall size: nat | NoRepeats(Keys(ranking)) ensures NoRepeats(Committee(hash, cs, seed, size)) {
      TakeKeys(ranking, size);
    }
    assert Committee(hash, cs, seed, |ranking|) == Keys(ranking);
  }

  /** And that can fail: whoever signs one seed with two nonces takes two seats. */
  lemma TwoSeatsForOneKey(hash: OutputOf, edPub: seq<byte>, seed: seq<byte>, nonce1: seq<byte>, nonce2: seq<byte>)
    requires nonce1 != nonce2
    ensures var a, b := ClaimWith(hash, edPub, seed, nonce1), ClaimWith(hash, edPub, seed, nonce2);
            a != b && Committee(hash, [a, b], seed, 2) == [edPub, edPub]
  {
    var a, b := ClaimWith(hash, edPub, seed, nonce1), ClaimWith(hash, edPub, seed, nonce2);
    RankingOfPair(hash, seed, a, b, []);
    assert [a, b] + [] == [a, b];
    assert |Ranking(hash, [a, b], seed)| == 2;
  }
}
