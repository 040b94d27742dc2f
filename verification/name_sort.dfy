/**
 The sorting section of the playground: `names.sort(backwards)` and its seven
 rewritings, which pass the same comparison `s1 > s2` as a named function, as a
 closure expression (with explicit types, with inferred types, with an implicit
 return, with shorthand argument names, as a trailing closure) or as the
 operator `>` itself. In the model these are three Dafny forms: the named
 predicate, a lambda, and the predicate standing for the operator.
 */
module NameSort {
  import opened LexOrder
  import opened ComparatorSort

  const Names: seq<string> := ["Chris", "Alex", "Ewa", "Barry", "Daniella"]

  /** The names in descending order. */
  const ReversedNames: seq<string> := ["Ewa", "Daniella", "Chris", "Barry", "Alex"]

  /** `backwards(s1, s2)`: `s1` goes first when it is the greater string. */
  predicate Backwards(s1: string, s2: string): (r: bool)
    ensures r <==> BeforeAtFirstDifference(s2, s1)
  {
    Greater(s1, s2)
  }

  /** A comparator that answers like `s1 > s2` on every pair of strings. */
  ghost predicate IsDescending(before: (string, string) -> bool) {
    forall s1, s2 :: before(s1, s2) == Greater(s1, s2)
  }

  /** Descending order on strings is a strict total order. */
  lemma DescendingIsStrictTotalOrder(before: (string, string) -> bool)
    requires IsDescending(before)
    ensures StrictTotalOrder(before)
  {
    forall x, y | before(x, y)
      ensures !before(y, x)
    {
      LessAsymmetric(y, x);
    }
    forall x, y, z | before(x, y) && before(y, z)
      ensures before(x, z)
    {
      LessTransitive(z, y, x);
    }
    forall x, y | x != y
      ensures before(x, y) || before(y, x)
    {
      LessConnected(x, y);
    }
  }

  /** Each name in `ReversedNames` is greater than the one after it. */
  lemma ReversedNamesDescend()
    ensures forall i :: 0 < i < |ReversedNames| ==> Greater(ReversedNames[i - 1], ReversedNames[i])
  {
    assert Less("Daniella", "Ewa") && Less("Chris", "Daniella");
    assert Less("Barry", "Chris") && Less("Alex", "Barry");
  }

  /** `ReversedNames` is ordered for any comparator that behaves like `>`. */
  lemma ReversedNamesOrdered(before: (string, string) -> bool)
    requires IsDescending(before)
    ensures Ordered(ReversedNames, before)
  {
    ReversedNamesDescend();
    forall i | 0 < i < |ReversedNames|
      ensures !before(ReversedNames[i], ReversedNames[i - 1])
    {
      LessAsymmetric(ReversedNames[i], ReversedNames[i - 1]);
    }
  }

  lemma ReversedNamesPermuteNames()
    ensures multiset(ReversedNames) == multiset(Names)
  {
  }

  /** Whatever algorithm the library uses, any output meeting the sort contract
      for a descending comparator is `ReversedNames`. */
  lemma DescendingSortOfNames(before: (string, string) -> bool, r: seq<string>)
    requires IsDescending(before)
    requires IsSortOf(Names, r, before)
    ensures r == ReversedNames
  {
    DescendingIsStrictTotalOrder(before);
    ReversedNamesOrdered(before);
    ReversedNamesPermuteNames();
    SortUnique(r, ReversedNames, before);
  }

  /** `names.sort(c)` for a comparator `c` that behaves like `>`. */
  function SortNames(before: (string, string) -> bool): (r: seq<string>)
    requires IsDescending(before)
    ensures r == ReversedNames
  {
    DescendingIsStrictTotalOrder(before);
    var r := Sort(Names, before);
    DescendingSortOfNames(before, r);
    r
  }

  /** `reversed` through `reversed8`: the named function, a closure, and the operator. */
  method SortVariants() returns (byFunction: seq<string>, byClosure: seq<string>, byOperator: seq<string>)
    ensures byFunction == ReversedNames
    ensures byClosure == ReversedNames
    ensures byOperator == ReversedNames
  {
    byFunction := SortNames(Backwards);
    byClosure := SortNames((s1, s2) => Greater(s1, s2));
    byOperator := SortNames(Greater);
  }
}
