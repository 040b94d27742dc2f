/**
 The capturing counter of `makeIncrementer(forIncrement:)`. The returned
 closure captures the local `runningTotal` by reference, so the captured
 variable outlives the factory call and is shared by every reference to the
 same closure. Here the closure is a heap object: its `runningTotal` is a
 mutable field, a second reference to it is an alias, and a second factory call
 allocates a second, independent object.

 Swift's `Int` is 64 bits wide and `+=` traps on overflow; calling the counter
 therefore requires the new total to fit.
 */
module Incrementers {

  const IntMin: int := -0x8000_0000_0000_0000
  const IntMax: int := 0x7fff_ffff_ffff_ffff

  /** The value fits in a Swift `Int`. */
  predicate IsInt(v: int) {
    IntMin <= v <= IntMax
  }

  /** The closure `incrementer` together with the variables it captured. */
  class Incrementer {
    const amount: int
    var runningTotal: int

    /** The captured total starts at 0. */
    constructor (amount: int)
      requires IsInt(amount)
      ensures this.amount == amount && runningTotal == 0
    {
      this.amount := amount;
      runningTotal := 0;
    }

    /** One call: add `amount` to the running total and return the new total. */
    method Call() returns (total: int)
      requires IsInt(runningTotal + amount)
      modifies this
      ensures runningTotal == old(runningTotal) + amount
      ensures total == runningTotal
    {
      runningTotal := runningTotal + amount;
      total := runningTotal;
    }
  }

  /** `makeIncrementer(forIncrement: amount)`: a fresh closure with its own total. */
  method MakeIncrementer(amount: int) returns (inc: Incrementer)
    requires IsInt(amount)
    ensures fresh(inc)
    ensures inc.amount == amount && inc.runningTotal == 0
  {
    inc := new Incrementer(amount);
  }

  /** A non-negative factor keeps the sign of the other. */
  lemma ProductSign(a: int, b: int)
    requires a >= 0
    ensures b >= 0 ==> a * b >= 0
    ensures b <= 0 ==> a * b <= 0
  {
  }

  /** A multiple of `amount` between the first and the k-th fits when both ends do. */
  lemma MultipleFits(amount: int, j: int, k: int)
    requires 1 <= j <= k
    requires IsInt(amount) && IsInt(k * amount)
    ensures IsInt(j * amount)
  {
    assert k * amount == j * amount + (k - j) * amount;
    ProductSign(j, amount);
    ProductSign(k - j, amount);
  }

  /** Calls a counter `k` times; the i-th call (from 0) returns the old total plus (i + 1) amounts. */
  method CallRepeatedly(inc: Incrementer, k: nat) returns (totals: seq<int>)
    requires IsInt(inc.amount)
    requires inc.runningTotal == 0 && IsInt(k * inc.amount)
    modifies inc
    ensures |totals| == k
    ensures forall i :: 0 <= i < k ==> totals[i] == (i + 1) * inc.amount
    ensures inc.runningTotal == k * inc.amount
  {
    totals := [];
    var i := 0;
    while i < k
      invariant 0 <= i <= k
      invariant inc.runningTotal == i * inc.amount
      invariant |totals| == i
      invariant forall j :: 0 <= j < i ==> totals[j] == (j + 1) * inc.amount
    {
      MultipleFits(inc.amount, i + 1, k);
      var t := inc.Call();
      totals := totals + [t];
      i := i + 1;
    }
  }

  /** A fresh counter's k-th call returns k times its amount. */
  method FreshCounterTotals(amount: int, k: nat) returns (totals: seq<int>)
    requires IsInt(amount) && IsInt(k * amount)
    ensures |totals| == k
    ensures forall i :: 0 <= i < k ==> totals[i] == (i + 1) * amount
  {
    var inc := MakeIncrementer(amount);
    totals := CallRepeatedly(inc, k);
  }

  /** Two factory calls give independent totals; a copied reference shares its
      total with the original. After `n` calls to the first counter, one call to
      a second counter returns its own amount and leaves the first untouched, so
      a call through a copy of the first reference continues the first counter's
      sequence. The next call through the original reference then sees the
      call made through the copy. */
  method IndependentButAliased(amount: int, otherAmount: int, n: nat)
    returns (other: int, viaAlias: int, viaOriginal: int)
    requires IsInt(amount) && IsInt(otherAmount) && IsInt((n + 2) * amount)
    ensures other == otherAmount
    ensures viaAlias == (n + 1) * amount
    ensures viaOriginal == (n + 2) * amount
  {
    var first := MakeIncrementer(amount);
    var _ := CallRepeatedly(first, n);
    var second := MakeIncrementer(otherAmount);
    other := second.Call();
    MultipleFits(amount, n + 1, n + 2);
    var alias := first;
    viaAlias := alias.Call();
    viaOriginal := first.Call();
  }

  /** The playground's script: `incrementByTen` three times, `incrementBySeven`
      once, `incrementByTen` again, then the copy `alsoIncrementByTen`. */
  method CapturingValues() returns (ten: seq<int>, seven: int, tenAgain: int, alsoTen: int)
    ensures ten == [10, 20, 30]
    ensures seven == 7
    ensures tenAgain == 40
    ensures alsoTen == 50
  {
    var incrementByTen := MakeIncrementer(10);
    var a := incrementByTen.Call();
    var b := incrementByTen.Call();
    var c := incrementByTen.Call();
    ten := [a, b, c];
    var incrementBySeven := MakeIncrementer(7);
    seven := incrementBySeven.Call();
    tenAgain := incrementByTen.Call();
    var alsoIncrementByTen := incrementByTen;
    alsoTen := alsoIncrementByTen.Call();
  }
}
