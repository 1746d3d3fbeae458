/** A stable insertion sort, used as the model of JavaScript's
    `Array.prototype.sort` with a comparator: `lt(a, b)` holds when the
    comparator returns a negative number for `(a, b)`, so `a` must come first.
    The language guarantees the library sort is stable, and a stable sort's
    output is fixed by its input, so this is the same ordering. */
module Sorting {

  /** `lt` is a strict order: irreflexive and transitive. */
  ghost predicate StrictOrder<T(!new)>(lt: (T, T) -> bool) {
    && (forall x :: !lt(x, x))
    && (forall x, y, z :: lt(x, y) && lt(y, z) ==> lt(x, z))
  }

  /** No element is strictly before an element that precedes it. */
  predicate SortedBy<T>(s: seq<T>, lt: (T, T) -> bool) {
    forall i, j :: 0 <= i < j < |s| ==> !lt(s[j], s[i])
  }

  /** Number of leading elements of `s` that `x` is not strictly before:
      the position `x` takes when inserted after its equals. */
  function Rank<T>(x: T, s: seq<T>, lt: (T, T) -> bool): (k: nat)
    ensures k <= |s|
    ensures forall i :: 0 <= i < k ==> !lt(x, s[i])
    ensures k < |s| ==> lt(x, s[k])
  {
    if s == [] || lt(x, s[0]) then 0 else 1 + Rank(x, s[1..], lt)
  }

  /** Inserts `x` before the first element it is strictly before. */
  function Insert<T>(x: T, s: seq<T>, lt: (T, T) -> bool): (r: seq<T>)
    ensures multiset(r) == multiset(s) + multiset{x}
  {
    if s == [] || lt(x, s[0]) then [x] + s
    else
      assert s == [s[0]] + s[1..];
      [s[0]] + Insert(x, s[1..], lt)
  }

  /** Stable sort: each element in turn is inserted after its equals. */
  function Sort<T>(s: seq<T>, lt: (T, T) -> bool): (r: seq<T>)
    ensures multiset(r) == multiset(s)
    decreases |s|
  {
    if s == [] then []
    else
      var init, last := s[..|s| - 1], s[|s| - 1];
      assert s == init + [last];
      Insert(last, Sort(init, lt), lt)
  }

  /** `x` lands at its rank, with everything else in its old order. */
  lemma {:induction false} InsertAt<T>(x: T, s: seq<T>, lt: (T, T) -> bool)
    ensures Insert(x, s, lt) == s[..Rank(x, s, lt)] + [x] + s[Rank(x, s, lt)..]
  {
    if s != [] && !lt(x, s[0]) {
      var t := s[1..];
      InsertAt(x, t, lt);
      assert s == [s[0]] + t;
      ConsSplit(s[0], t, Rank(x, t, lt), x);
    }
  }

  /** Splitting after position `k + 1` of `[a] + t` is splitting `t` after `k`. */
  lemma ConsSplit<T>(a: T, t: seq<T>, k: nat, x: T)
    requires k <= |t|
    ensures [a] + (t[..k] + [x] + t[k..]) == ([a] + t)[..k + 1] + [x] + ([a] + t)[k + 1..]
  {
    assert ([a] + t)[..k + 1] == [a] + t[..k];
    assert ([a] + t)[k + 1..] == t[k..];
  }

  /** Inserting into a sorted sequence keeps it sorted. */
  lemma {:induction false} InsertSorted<T(!new)>(x: T, s: seq<T>, lt: (T, T) -> bool)
    requires StrictOrder(lt) && SortedBy(s, lt)
    ensures SortedBy(Insert(x, s, lt), lt)
  {
    InsertAt(x, s, lt);
    var k := Rank(x, s, lt);
    var r := Insert(x, s, lt);
    assert |r| == |s| + 1;
    assert forall i :: 0 <= i < k ==> r[i] == s[i];
    assert r[k] == x;
    assert forall i :: k < i < |r| ==> r[i] == s[i - 1];
    forall i, j | 0 <= i < j < |r| ensures !lt(r[j], r[i]) {
      if j == k {
        assert r[i] == s[i];
      } else if i == k {
        // x is strictly before s[k], which nothing after it precedes
        assert r[j] == s[j - 1] && lt(x, s[k]);
      } else {
        var si := if i < k then i else i - 1;
        var sj := if j < k then j else j - 1;
        assert r[i] == s[si] && r[j] == s[sj] && si < sj;
      }
    }
  }

  /** The sort's result is sorted. */
  lemma {:induction false} SortSorted<T(!new)>(s: seq<T>, lt: (T, T) -> bool)
    requires StrictOrder(lt)
    ensures SortedBy(Sort(s, lt), lt)
    decreases |s|
  {
    if s != [] {
      SortSorted(s[..|s| - 1], lt);
      InsertSorted(s[|s| - 1], Sort(s[..|s| - 1], lt), lt);
    }
  }

  /** An element that no earlier element is after keeps its place at the end. */
  lemma RankOfLast<T>(init: seq<T>, last: T, lt: (T, T) -> bool)
    requires SortedBy(init + [last], lt)
    ensures Insert(last, init, lt) == init + [last]
  {
    var s := init + [last];
    assert forall i :: 0 <= i < |init| ==> !lt(last, init[i]) by {
      forall i | 0 <= i < |init| ensures !lt(last, init[i]) {
        assert s[i] == init[i] && s[|init|] == last;
      }
    }
    var k := Rank(last, init, lt);
    assert k == |init|;
    InsertAt(last, init, lt);
    assert init[..k] == init;
  }

  /** Sorting an already sorted sequence changes nothing (stability). */
  lemma {:induction false} SortOfSorted<T>(s: seq<T>, lt: (T, T) -> bool)
    requires SortedBy(s, lt)
    ensures Sort(s, lt) == s
    decreases |s|
  {
    if s != [] {
      var init, last := s[..|s| - 1], s[|s| - 1];
      assert s == init + [last];
      assert SortedBy(init, lt);
      SortOfSorted(init, lt);
      RankOfLast(init, last, lt);
    }
  }

  /** Sorting a sorted sequence with one element appended is a single insertion. */
  lemma SortAppend<T>(s: seq<T>, x: T, lt: (T, T) -> bool)
    requires SortedBy(s, lt)
    ensures Sort(s + [x], lt) == Insert(x, s, lt)
  {
    assert (s + [x])[..|s|] == s;
    SortOfSorted(s, lt);
  }
}
