/** Tails, images and repeats of sequences. */
module Sequences {
  /** The last `n` elements. */
  function LastN<T>(s: seq<T>, n: nat): (r: seq<T>)
    ensures |r| == if |s| <= n then |s| else n
  {
    if |s| <= n then s else s[|s| - n..]
  }

  lemma LastNOfLastN<T>(s: seq<T>, t: seq<T>, n: nat)
    ensures LastN(LastN(s, n) + t, n) == LastN(s + t, n)
  {
    var r := LastN(s, n);
    assert s == s[..|s| - |r|] + r;
    assert s + t == s[..|s| - |r|] + (r + t);
    if |r + t| > n {
      assert (s + t)[|s + t| - n..] == (r + t)[|r + t| - n..];
    } else if |s| > n {
      assert t == [] && r + t == r && s + t == s;
    }
  }

  lemma LastNStep<T>(order: seq<T>, x: T, rest: seq<T>, n: nat)
    ensures LastN(LastN(order + [x], n) + rest, n) == LastN(order + ([x] + rest), n)
  {
    LastNOfLastN(order + [x], rest, n);
    assert order + [x] + rest == order + ([x] + rest);
  }

  function Map<T, U>(f: T -> U, s: seq<T>): (r: seq<U>)
    ensures |r| == |s| && forall i :: 0 <= i < |s| ==> r[i] == f(s[i])
  {
    seq(|s|, i requires 0 <= i < |s| => f(s[i]))
  }

  lemma MapConcat<T, U>(f: T -> U, s: seq<T>, t: seq<T>)
    ensures Map(f, s + t) == Map(f, s) + Map(f, t)
  {
  }

  lemma PickOne<T>(s: seq<T>, x: T) returns (before: seq<T>, behind: seq<T>)
    requires x in s
    ensures s == before + [x] + behind
    ensures multiset(s) == multiset{x} + multiset(before + behind)
  {
    var i :| 0 <= i < |s| && s[i] == x;
    before, behind := s[..i], s[i + 1..];
    assert s == before + ([x] + behind);
  }

  lemma MapPicked<T, U>(f: T -> U, s: seq<T>, before: seq<T>, x: T, behind: seq<T>)
    requires s == before + [x] + behind
    ensures multiset(Map(f, s)) == multiset{f(x)} + multiset(Map(f, before + behind))
  {
    MapConcat(f, before, behind);
    assert Map(f, s) == Map(f, before) + ([f(x)] + Map(f, behind));
  }

  /** Images of rearrangements are rearrangements of each other. */
  lemma {:induction false} MapRearranged<T, U>(f: T -> U, s: seq<T>, t: seq<T>)
    requires multiset(s) == multiset(t)
    ensures multiset(Map(f, s)) == multiset(Map(f, t))
    decreases |s|
  {
    hide Map;
    if |s| > 0 {
      var s1, s2 := PickOne(s, s[0]);
      assert s[0] in multiset(t);
      var t1, t2 := PickOne(t, s[0]);
      MapPicked(f, s, s1, s[0], s2);
      MapPicked(f, t, t1, s[0], t2);
      assert multiset(s1 + s2) == multiset(s) - multiset{s[0]};
      assert multiset(t1 + t2) == multiset(t) - multiset{s[0]};
      MapRearranged(f, s1 + s2, t1 + t2);
    } else {
      assert |multiset(t)| == 0;
    }
  }

  ghost predicate NoRepeats<T(!new)>(s: seq<T>) {
    forall i, j :: 0 <= i < j < |s| ==> s[i] != s[j]
  }

  lemma {:induction false} NoRepeatsCounts<T(!new)>(s: seq<T>)
    ensures NoRepeats(s) <==> forall x :: multiset(s)[x] <= 1
  {
    if |s| > 0 {
      var x, rest := s[0], s[1..];
      assert s == [x] + rest;
      NoRepeatsCounts(rest);
      if NoRepeats(s) {
        assert NoRepeats(rest) && x !in rest;
      } else if NoRepeats(rest) {
        assert x in rest;
        assert multiset(s)[x] >= 2;
      } else {
        var y :| multiset(rest)[y] > 1;
        assert multiset(s)[y] > 1;
      }
    }
  }
}
