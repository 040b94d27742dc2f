/**
 Sorting with a comparator closure, `names.sort(before)`. The library's
 algorithm is not visible, so the model gives its contract (the output is a
 permutation of the input in which no element is preceded by one it should
 come before), one algorithm that meets it, and the fact that under a strict
 total order the contract has exactly one solution: every algorithm, and every
 way of writing the comparator, yields the same sequence.
 */
module ComparatorSort {

  // What the sort asks of its comparator `before`: never both ways round
  // (enough for the sort to produce an ordered permutation), and for a unique
  // result also transitive and deciding between any two different elements.

  ghost predicate Asymmetric<T(!new)>(before: (T, T) -> bool) {
    forall x, y :: before(x, y) ==> !before(y, x)
  }

  ghost predicate Transitive<T(!new)>(before: (T, T) -> bool) {
    forall x, y, z :: before(x, y) && before(y, z) ==> before(x, z)
  }

  ghost predicate Connected<T(!new)>(before: (T, T) -> bool) {
    forall x, y :: x != y ==> before(x, y) || before(y, x)
  }

  ghost predicate StrictTotalOrder<T(!new)>(before: (T, T) -> bool) {
    Asymmetric(before) && Transitive(before) && Connected(before)
  }

  /** No adjacent pair is out of order: the later element never comes before the earlier. */
  predicate Ordered<T>(s: seq<T>, before: (T, T) -> bool) {
    forall i :: 0 < i < |s| ==> !before(s[i], s[i - 1])
  }

  /** The library sort's contract: `r` is `s` rearranged into comparator order. */
  ghost predicate IsSortOf<T>(s: seq<T>, r: seq<T>, before: (T, T) -> bool) {
    multiset(r) == multiset(s) && Ordered(r, before)
  }

  /** Inserts `x` in front of the first element it comes before. */
  function Insert<T(!new)>(x: T, s: seq<T>, before: (T, T) -> bool): (r: seq<T>)
    requires Asymmetric(before) && Ordered(s, before)
    ensures multiset(r) == multiset(s) + multiset{x}
    ensures Ordered(r, before)
    ensures r[0] == x || (|s| > 0 && r[0] == s[0])
  {
    if |s| == 0 || before(x, s[0]) then
      [x] + s
    else
      var tail := Insert(x, s[1..], before);
      assert s == [s[0]] + s[1..];
      [s[0]] + tail
  }

  /** Insertion sort: one algorithm that meets the library contract. */
  function Sort<T(!new)>(s: seq<T>, before: (T, T) -> bool): (r: seq<T>)
    requires Asymmetric(before)
    ensures IsSortOf(s, r, before)
  {
    if |s| == 0 then
      []
    else
      assert s == [s[0]] + s[1..];
      Insert(s[0], Sort(s[1..], before), before)
  }

  /** In an ordered sequence under a strict total order, nothing comes before the head. */
  lemma {:induction false} HeadFirst<T(!new)>(s: seq<T>, before: (T, T) -> bool, k: int)
    requires StrictTotalOrder(before) && Ordered(s, before)
    requires 0 <= k < |s|
    ensures !before(s[k], s[0])
  {
    if k > 0 {
      HeadFirst(s, before, k - 1);
      if s[k - 1] != s[0] {
        // s[0] strictly before s[k - 1], which s[k] does not come before
        assert before(s[0], s[k - 1]);
      }
    }
  }

  /** Two ordered rearrangements of the same elements start with the same element. */
  lemma SameHead<T(!new)>(a: seq<T>, b: seq<T>, before: (T, T) -> bool)
    requires StrictTotalOrder(before)
    requires Ordered(a, before) && Ordered(b, before)
    requires multiset(a) == multiset(b) && |a| > 0
    ensures |b| > 0 && a[0] == b[0]
  {
    assert a[0] in multiset(b);
    var j :| 0 <= j < |b| && b[j] == a[0];
    assert b[0] in multiset(a);
    var i :| 0 <= i < |a| && a[i] == b[0];
    HeadFirst(a, before, i);
    HeadFirst(b, before, j);
  }

  /** Removing equal heads leaves equal multisets. */
  lemma SameTails<T>(a: seq<T>, b: seq<T>)
    requires multiset(a) == multiset(b) && |a| > 0 && |b| > 0 && a[0] == b[0]
    ensures multiset(a[1..]) == multiset(b[1..])
  {
    assert a == [a[0]] + a[1..] && b == [b[0]] + b[1..];
    assert multiset(a[1..]) == multiset(a) - multiset{a[0]};
    assert multiset(b[1..]) == multiset(b) - multiset{b[0]};
  }

  /** Under a strict total order the sort contract determines the output: two
      ordered rearrangements of the same elements are equal. */
  lemma {:induction false} SortUnique<T(!new)>(a: seq<T>, b: seq<T>, before: (T, T) -> bool)
    requires StrictTotalOrder(before)
    requires Ordered(a, before) && Ordered(b, before)
    requires multiset(a) == multiset(b)
    ensures a == b
  {
    if |a| > 0 {
      SameHead(a, b, before);
      SameTails(a, b);
      SortUnique(a[1..], b[1..], before);
      assert a == [a[0]] + a[1..] && b == [b[0]] + b[1..];
    } else {
      assert |multiset(b)| == 0;
    }
  }

  /** Any output meeting the contract is the output of `Sort`. */
  lemma SortContractDeterminesResult<T(!new)>(s: seq<T>, r: seq<T>, before: (T, T) -> bool)
    requires StrictTotalOrder(before)
    requires IsSortOf(s, r, before)
    ensures r == Sort(s, before)
  {
    SortUnique(r, Sort(s, before), before);
  }
}
