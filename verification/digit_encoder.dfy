/**
 The digit-name encoder: the closure passed to `numbers.map`, which turns each
 positive integer into the English names of its decimal digits, most
 significant digit first (16 becomes "OneSix").

 The closure's loop builds the result from the least significant end: it
 prepends the name of the last digit and divides by ten. The model states its meaning through
 an independent reference: the decimal digit sequence of the number, whose
 value is the number again, spelled name by name.
 */
module DigitEncoder {

  /** The `digitNames` dictionary. */
  const DigitNames: map<int, string> := map[
    0 := "Zero", 1 := "One", 2 := "Two", 3 := "Three", 4 := "Four",
    5 := "Five", 6 := "Six", 7 := "Seven", 8 := "Eight", 9 := "Nine"
  ]

  predicate IsDigit(d: int) {
    0 <= d <= 9
  }

  predicate AllDigits(ds: seq<int>) {
    forall i :: 0 <= i < |ds| ==> IsDigit(ds[i])
  }

  /** A digit sequence without leading zeros; the empty sequence stands for 0. */
  predicate Canonical(ds: seq<int>) {
    AllDigits(ds) && (|ds| > 0 ==> ds[0] != 0)
  }

  /** Every key the loop can look up is in the dictionary: for a positive
      `number`, `number % 10` is a digit, so the forced unwrap never fails. */
  lemma LookupNeverFails(number: int)
    requires number > 0
    ensures IsDigit(number % 10) && number % 10 in DigitNames
  {
  }

  /** The decimal digits of `n`, most significant first; no digits for n <= 0,
      which is exactly when the source's `while number > 0` loop never runs. */
  function Digits(n: int): (ds: seq<int>)
    ensures n > 0 ==> |ds| > 0 && Canonical(ds)
    ensures n <= 0 ==> ds == []
    decreases n
  {
    if n <= 0 then [] else Digits(n / 10) + [n % 10]
  }

  /** The number a most-significant-first digit sequence denotes. */
  function Value(ds: seq<int>): int
  {
    if ds == [] then 0 else 10 * Value(ds[..|ds| - 1]) + ds[|ds| - 1]
  }

  lemma {:induction false} ValueNonNegative(ds: seq<int>)
    requires AllDigits(ds)
    ensures Value(ds) >= 0
  {
    if ds != [] {
      ValueNonNegative(ds[..|ds| - 1]);
    }
  }

  /** A canonical non-empty digit sequence denotes a positive number. */
  lemma {:induction false} ValuePositive(ds: seq<int>)
    requires Canonical(ds) && |ds| > 0
    ensures Value(ds) > 0
  {
    if |ds| > 1 {
      ValuePositive(ds[..|ds| - 1]);
    }
  }

  /** `Digits` is sound: the digits of a non-negative n denote n. */
  lemma {:induction false} DigitsValue(n: int)
    requires n >= 0
    ensures Value(Digits(n)) == n
  {
    if n > 0 {
      var ds := Digits(n);
      assert ds[..|ds| - 1] == Digits(n / 10);
      DigitsValue(n / 10);
    }
  }

  /** `Digits` is complete: every canonical digit sequence is the digit
      sequence of the number it denotes. */
  lemma {:induction false} ValueDigits(ds: seq<int>)
    requires Canonical(ds)
    ensures Digits(Value(ds)) == ds
  {
    if ds != [] {
      var init, last := ds[..|ds| - 1], ds[|ds| - 1];
      assert ds == init + [last];
      assert Canonical(init);
      ValueNonNegative(init);
      ValuePositive(ds);
      ValueDigits(init);
      var v := Value(ds);
      assert v == 10 * Value(init) + last;
      assert v / 10 == Value(init) && v % 10 == last;
    }
  }

  /** The names of a digit sequence, concatenated in order. */
  function Spell(ds: seq<int>): string
    requires AllDigits(ds)
  {
    if ds == [] then "" else DigitNames[ds[0]] + Spell(ds[1..])
  }

  lemma {:induction false} SpellAppend(a: seq<int>, b: seq<int>)
    requires AllDigits(a) && AllDigits(b)
    ensures Spell(a + b) == Spell(a) + Spell(b)
  {
    if a == [] {
      assert a + b == b;
    } else {
      assert (a + b)[0] == a[0];
      assert (a + b)[1..] == a[1..] + b;
      SpellAppend(a[1..], b);
    }
  }

  /** The encoding of `n` as the names of its decimal digits. */
  function Encode(n: int): string
  {
    Spell(Digits(n))
  }

  /** No digit name is a prefix of another, so a spelling can be read back
      name by name. */
  lemma NamesPrefixFree(d: int, e: int, rest: string, rest': string)
    requires IsDigit(d) && IsDigit(e)
    requires DigitNames[d] + rest == DigitNames[e] + rest'
    ensures d == e
  {
    var s := DigitNames[d] + rest;
    assert s[..2] == DigitNames[d][..2];
    assert s[..2] == DigitNames[e][..2];
    LeadingPairsDistinct(d, e);
  }

  /** The first two letters already tell the ten names apart. */
  lemma LeadingPairsDistinct(d: int, e: int)
    requires IsDigit(d) && IsDigit(e)
    requires DigitNames[d][..2] == DigitNames[e][..2]
    ensures d == e
  {
    assert DigitNames[0][..2] == "Ze" && DigitNames[1][..2] == "On";
    assert DigitNames[2][..2] == "Tw" && DigitNames[3][..2] == "Th";
    assert DigitNames[4][..2] == "Fo" && DigitNames[5][..2] == "Fi";
    assert DigitNames[6][..2] == "Si" && DigitNames[7][..2] == "Se";
    assert DigitNames[8][..2] == "Ei" && DigitNames[9][..2] == "Ni";
    assert d in {0, 1, 2, 3, 4, 5, 6, 7, 8, 9};
    assert e in {0, 1, 2, 3, 4, 5, 6, 7, 8, 9};
  }

  /** Different digit sequences have different spellings. */
  lemma {:induction false} SpellInjective(a: seq<int>, b: seq<int>)
    requires AllDigits(a) && AllDigits(b)
    requires Spell(a) == Spell(b)
    ensures a == b
  {
    if a != [] && b != [] {
      NamesPrefixFree(a[0], b[0], Spell(a[1..]), Spell(b[1..]));
      var k := |DigitNames[a[0]]|;
      assert Spell(a[1..]) == Spell(a)[k..];
      assert Spell(b[1..]) == Spell(b)[k..];
      SpellInjective(a[1..], b[1..]);
      assert a == [a[0]] + a[1..] && b == [b[0]] + b[1..];
    }
  }

  /** On non-negative numbers the encoding is one-to-one: two numbers get the
      same string exactly when they are equal. */
  lemma EncodeInjective(m: int, n: int)
    requires m >= 0 && n >= 0
    ensures Encode(m) == Encode(n) <==> m == n
  {
    if Encode(m) == Encode(n) {
      SpellInjective(Digits(m), Digits(n));
      DigitsValue(m);
      DigitsValue(n);
    }
  }

  /** The closure body: while the number is positive, prepend the name of its
      last digit and drop that digit. For positive `number` the source's truncating `%` and `/` agree with
      Dafny's, and the loop only runs on positive values. */
  method EncodeNumber(n: int) returns (output: string)
    ensures output == Spell(Digits(n))
    ensures n > 0 ==> Value(Digits(n)) == n && Canonical(Digits(n))
    ensures n <= 0 ==> output == ""
  {
    var number := n;
    output := "";
    while number > 0
      invariant Spell(Digits(number)) + output == Spell(Digits(n))
      decreases number
    {
      LookupNeverFails(number);
      SpellAppend(Digits(number / 10), [number % 10]);
      output := DigitNames[number % 10] + output;
      number := number / 10;
    }
    if n > 0 {
      DigitsValue(n);
    }
  }

  /** `numbers.map { ... }`: the closure applied to each element, in order. */
  method MapEncode(numbers: seq<int>) returns (strings: seq<string>)
    ensures |strings| == |numbers|
    ensures forall i :: 0 <= i < |numbers| ==> strings[i] == Encode(numbers[i])
  {
    strings := [];
    var i := 0;
    while i < |numbers|
      invariant 0 <= i <= |numbers|
      invariant |strings| == i
      invariant forall j :: 0 <= j < i ==> strings[j] == Encode(numbers[j])
    {
      var s := EncodeNumber(numbers[i]);
      strings := strings + [s];
      i := i + 1;
    }
  }

  const Numbers: seq<int> := [16, 58, 510]

  /** The sample values: 16, 58 and 510 spell "OneSix", "FiveEight", "FiveOneZero". */
  lemma SampleEncodings()
    ensures Encode(16) == "OneSix"
    ensures Encode(58) == "FiveEight"
    ensures Encode(510) == "FiveOneZero"
  {
  }

  /** `let strings = numbers.map { ... }` on the sample numbers. */
  method Strings() returns (strings: seq<string>)
    ensures strings == ["OneSix", "FiveEight", "FiveOneZero"]
  {
    strings := MapEncode(Numbers);
    SampleEncodings();
  }
}
