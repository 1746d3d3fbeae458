/** Generic facts about sequences used by the cipher and leaderboard models:
    duplicate-freeness, first occurrences and first-occurrence de-duplication
    (the order in which a JavaScript `Set` or object keeps what was added). */
module Seqs {

  /** No element occurs twice. */
  predicate Distinct<T(==)>(s: seq<T>) {
    forall i, j :: 0 <= i < j < |s| ==> s[i] != s[j]
  }

  /** Index of the first occurrence of `x` in `s`. */
  function FirstIndex<T(==)>(s: seq<T>, x: T): (r: nat)
    requires x in s
    ensures r < |s| && s[r] == x
    ensures forall k :: 0 <= k < r ==> s[k] != x
  {
    if s[0] == x then 0 else 1 + FirstIndex(s[1..], x)
  }

  /** The distinct elements of `s`, each once, in the order of their first
      occurrence in `s` (what `[...new Set(s)]` yields). */
  function Dedup<T(==,!new)>(s: seq<T>): (r: seq<T>)
    ensures Distinct(r)
    ensures forall x :: x in r <==> x in s
    ensures forall i, j :: 0 <= i < j < |r| ==> FirstIndex(s, r[i]) < FirstIndex(s, r[j])
    decreases |s|
  {
    if s == [] then []
    else
      var init, x := s[..|s| - 1], s[|s| - 1];
      assert s == init + [x];
      DedupStep(init, x, Dedup(init));
      if x in Dedup(init) then Dedup(init) else Dedup(init) + [x]
  }

  /** What `Dedup` promises of `u` for `s`. */
  ghost predicate DedupOf<T(!new)>(u: seq<T>, s: seq<T>) {
    && Distinct(u)
    && (forall x :: x in u <==> x in s)
    && (forall i, j :: 0 <= i < j < |u| ==> FirstIndex(s, u[i]) < FirstIndex(s, u[j]))
  }

  /** One more element keeps the promise: it is added when it is new. */
  lemma DedupStep<T(!new)>(init: seq<T>, x: T, u: seq<T>)
    requires DedupOf(u, init)
    ensures DedupOf(if x in u then u else u + [x], init + [x])
  {
    var s := init + [x];
    forall y | y in init ensures FirstIndex(init, y) == FirstIndex(s, y) {
      FirstIndexOfPrefix(s, init, y);
    }
    if x !in u {
      assert FirstIndex(s, x) == |init|;
      var r := u + [x];
      forall i, j | 0 <= i < j < |r| ensures FirstIndex(s, r[i]) < FirstIndex(s, r[j]) {
        assert r[i] == u[i] && u[i] in init;
        if j < |u| {
          assert r[j] == u[j] && u[j] in init;
        }
      }
    }
  }

  /** `slice(0, n)`: the first `n` elements, or all when there are fewer. */
  function Take<T>(s: seq<T>, n: nat): (r: seq<T>)
    ensures |r| == if |s| < n then |s| else n
    ensures r == s[..|r|]
  {
    s[..if |s| < n then |s| else n]
  }

  /** De-duplication takes one element more as `Set.add` does: a new value
      goes to the end, a repeated one changes nothing. */
  lemma DedupSnoc<T(!new)>(s: seq<T>, x: T)
    ensures Dedup(s + [x]) == if x in s then Dedup(s) else Dedup(s) + [x]
  {
    assert (s + [x])[..|s|] == s;
  }

  /** The first occurrence of an element of a prefix is the same in the whole sequence. */
  lemma FirstIndexOfPrefix<T>(s: seq<T>, p: seq<T>, x: T)
    requires p <= s && x in p
    ensures FirstIndex(p, x) == FirstIndex(s, x)
  {
    var i, j := FirstIndex(p, x), FirstIndex(s, x);
    assert s[i] == x;
    assert j <= i;
    assert p[j] == x;
  }

  /** A distinct sequence holds each value at most once. */
  lemma {:induction false} DistinctMultiplicity<T>(s: seq<T>, x: T)
    requires Distinct(s)
    ensures multiset(s)[x] <= 1
    decreases |s|
  {
    if s != [] {
      var init := s[..|s| - 1];
      assert s == init + [s[|s| - 1]];
      assert Distinct(init);
      DistinctMultiplicity(init, x);
      if x == s[|s| - 1] {
        assert x !in init;
      }
    }
  }

  /** Two occurrences of one value give it multiplicity at least two. */
  lemma RepeatedMultiplicity<T>(s: seq<T>, i: nat, j: nat)
    requires i < j < |s| && s[i] == s[j]
    ensures multiset(s)[s[i]] >= 2
  {
    assert s == s[..j] + [s[j]] + s[j + 1..];
    assert s[i] in multiset(s[..j]);
  }

  /** A permutation of a duplicate-free sequence is duplicate-free. */
  lemma PermutationKeepsDistinct<T>(a: seq<T>, b: seq<T>)
    requires multiset(a) == multiset(b) && Distinct(a)
    ensures Distinct(b)
  {
    forall i, j | 0 <= i < j < |b| ensures b[i] != b[j] {
      if b[i] == b[j] {
        RepeatedMultiplicity(b, i, j);
        DistinctMultiplicity(a, b[i]);
      }
    }
  }
}
