# Closures playground, modelled in Dafny

The Swift playground `Closures.playground/Contents.swift` walks through closure
syntax. Four pieces of its logic are modelled and proved here:

- **Digit-name encoder** (`digit_encoder.dfy`, module `DigitEncoder`). The
  closure passed to `numbers.map` spells a number with the English names of its
  decimal digits, most significant first. The loop is a method with a loop
  invariant. Its result is tied to an independent reference: the number's
  decimal digit sequence, whose value is the number again, spelled name by
  name. The encoding is proved one-to-one on non-negative numbers.
- **Capturing counter** (`incrementer.dfy`, module `Incrementers`).
  `makeIncrementer(forIncrement:)` becomes a factory returning a fresh heap
  object. The captured `runningTotal` is a mutable field of that object, so a
  copied reference is a real alias. Swift's 64-bit `Int` traps on overflow;
  each call therefore requires the new total to fit.
- **Comparator sort** (`lex_order.dfy`, `comparator_sort.dfy`,
  `name_sort.dfy`). `names.sort(backwards)` and its seven rewritings. The
  library sort is given by its contract: the output is a permutation of the
  input, and no element comes right after one it should precede. Insertion sort
  meets that contract. Under a strict total order the contract has exactly one
  solution. So every algorithm and every spelling of the comparator give
  `["Ewa", "Daniella", "Chris", "Barry", "Alex"]`.
- **Deferred evaluation** (`deferred.dfy`, module `Deferred`). Every closure
  passed to `someFunctionWithNoescapeClosure`, `someFunctionWithEscapingClosure`,
  `serveCustomer` or `collectCustomerProviders`, or stored as
  `customerProvider`, does one of two things. It removes the head of
  `customersInLine`, or it sets `x` on the `SomeClass` instance. Each such closure is a `Thunk` value, `PopHead` or `SetX(v)`.
  Building one does nothing. Its effect happens only when `Run` is applied to
  it. The captured variables form one `Env` value that is threaded through the
  calls. Registries such as `completionHandlers` and `customerProviders` are
  sequences of thunks, and `RunAll` runs them in order.

## Model

| member | source | states |
|---|---|---|
| DigitEncoder.LookupNeverFails | Closures.playground/Contents.swift:55-66 | for every positive `number`, `number % 10` is a digit and a key of `digitNames`, so the forced unwrap cannot fail |
| DigitEncoder.Digits | Closures.playground/Contents.swift:65-68 | a positive number has a non-empty digit sequence with no leading zero, all entries in 0..9; a number <= 0 has none, matching the loop that never runs |
| DigitEncoder.DigitsValue | Closures.playground/Contents.swift:65-68 | the digits the loop strips off with `% 10` and `/= 10` denote the original number |
| DigitEncoder.ValueDigits | Closures.playground/Contents.swift:65-68 | every digit sequence without leading zeros is the digit sequence of the number it denotes, so digits and non-negative numbers are in one-to-one correspondence |
| DigitEncoder.NamesPrefixFree | Closures.playground/Contents.swift:55-58 | no name in `digitNames` is a prefix of another: two spellings that start with names d and e are equal only if d = e |
| DigitEncoder.SpellInjective | Closures.playground/Contents.swift:55-58 | different digit sequences have different spellings |
| DigitEncoder.EncodeNumber | Closures.playground/Contents.swift:62-70 | the loop's output is the names of the number's decimal digits, most significant first, and those digits denote the number; the output is "" for n <= 0 |
| DigitEncoder.EncodeInjective | Closures.playground/Contents.swift:62-70 | on non-negative numbers, two numbers get the same string if and only if they are equal |
| DigitEncoder.MapEncode | Closures.playground/Contents.swift:62-70 | `numbers.map` yields one string per number, position by position, each the encoding of that number |
| DigitEncoder.SampleEncodings | Closures.playground/Contents.swift:60-70 | 16, 58 and 510 spell "OneSix", "FiveEight" and "FiveOneZero" |
| DigitEncoder.Strings | Closures.playground/Contents.swift:60-62 | `strings` is `["OneSix", "FiveEight", "FiveOneZero"]` |
| Incrementers.MakeIncrementer | Closures.playground/Contents.swift:74-81 | the factory returns a newly allocated counter with the given amount and a total of 0 |
| Incrementers.Incrementer.Call | Closures.playground/Contents.swift:76-79 | one call adds `amount` to the captured total and returns the new total |
| Incrementers.CallRepeatedly | Closures.playground/Contents.swift:76-80 | calling a counter that starts at 0 k times returns amount, 2 amount, ..., k amount, and leaves the total at k amount |
| Incrementers.FreshCounterTotals | Closures.playground/Contents.swift:74-87 | the i-th call of a freshly made counter returns i times its amount |
| Incrementers.IndependentButAliased | Closures.playground/Contents.swift:89-95 | a call to a second counter returns its own amount and does not disturb the first; a call through a copied reference continues the first counter's sequence, and the next call through the original sees that call, so the copy shares the total rather than duplicating it |
| Incrementers.CapturingValues | Closures.playground/Contents.swift:84-95 | `incrementByTen` yields 10, 20, 30; `incrementBySeven` yields 7; `incrementByTen` then yields 40 and `alsoIncrementByTen` yields 50 |
| LexOrder.CommonPrefix | Closures.playground/Contents.swift:19 | the result is the length of the longest common prefix: the strings agree before it and, where both go on, differ at it |
| LexOrder.LessAtFirstDifference | Closures.playground/Contents.swift:19 | `a < b` holds exactly when, at the first position where the strings differ, `a` has ended while `b` goes on, or `a` has the smaller character |
| LexOrder.Greater | Closures.playground/Contents.swift:19 | `s1 > s2` holds exactly when, at the first position where the strings differ, `s2` has ended while `s1` goes on, or `s1` has the larger character |
| NameSort.Backwards | Closures.playground/Contents.swift:18-20 | `s1` goes first exactly when it is the greater string: at the first difference `s2` has ended, or `s1` has the larger character |
| LexOrder.LessIrreflexive | Closures.playground/Contents.swift:18-20 | no string is less than itself |
| LexOrder.LessAsymmetric | Closures.playground/Contents.swift:18-20 | if a < b then not b < a |
| LexOrder.LessTransitive | Closures.playground/Contents.swift:18-20 | a < b and b < c imply a < c |
| LexOrder.LessConnected | Closures.playground/Contents.swift:18-20 | any two different strings are ordered one way or the other |
| ComparatorSort.Insert | Closures.playground/Contents.swift:22 | inserting into an ordered sequence gives an ordered sequence with exactly one more occurrence of the element |
| ComparatorSort.Sort | Closures.playground/Contents.swift:22 | for any asymmetric comparator the result is a permutation of the input with no adjacent pair out of comparator order |
| ComparatorSort.SameHead | Closures.playground/Contents.swift:22-51 | under a strict total order, two ordered rearrangements of the same elements start with the same element |
| ComparatorSort.SortUnique | Closures.playground/Contents.swift:22-51 | under a strict total order, two ordered rearrangements of the same elements are equal |
| ComparatorSort.SortContractDeterminesResult | Closures.playground/Contents.swift:22-51 | any output meeting the sort contract for a strict total order equals the insertion-sort output, whatever algorithm produced it |
| NameSort.DescendingIsStrictTotalOrder | Closures.playground/Contents.swift:18-20 | a comparator that answers like `s1 > s2` is asymmetric, transitive and connected |
| NameSort.DescendingSortOfNames | Closures.playground/Contents.swift:16-22 | any sorted permutation of `names` under a `>` comparator is `["Ewa", "Daniella", "Chris", "Barry", "Alex"]` |
| NameSort.SortNames | Closures.playground/Contents.swift:22-51 | `names.sort(c)` with any comparator that behaves like `>` returns the names in descending order |
| NameSort.SortVariants | Closures.playground/Contents.swift:22-51 | the named function `backwards`, an inline closure and the operator `>` all give the same descending order |
| Deferred.Run | Closures.playground/Contents.swift:117-136 | invoking `PopHead` returns the current head and leaves the rest of the line with `x` unchanged; invoking `SetX(v)` sets `x` to v and leaves the line alone |
| Deferred.RunAll | Closures.playground/Contents.swift:164-166 | running a registry yields one result per stored closure, and the line loses exactly as many customers as there are `PopHead` closures, from the front |
| Deferred.RunAllAppend | Closures.playground/Contents.swift:108-111 | running a registry with one closure appended runs the old registry, then the new closure in the state the others left behind |
| Deferred.PopsServeInOrder | Closures.playground/Contents.swift:155-166 | head-removing closures run in order serve the customers in the order they stand in line |
| Deferred.CallNoescape | Closures.playground/Contents.swift:104-106 | the non-escaping closure's effect is complete when the call returns, and the closure is kept in no registry |
| Deferred.CallEscaping | Closures.playground/Contents.swift:108-111 | the escaping closure is appended to `completionHandlers` and none of the captured variables change |
| Deferred.DoSomething | Closures.playground/Contents.swift:114-120 | after `doSomething()`, `x` is 200, the line is unchanged, and `{ self.x = 100 }` is stored at the end of `completionHandlers` |
| Deferred.RunFirstHandler | Closures.playground/Contents.swift:127 | with no handler stored nothing happens; otherwise the first handler runs and stays stored |
| Deferred.HandlerRunsOnlyWhenInvoked | Closures.playground/Contents.swift:114-128 | starting from no handlers, `x` is 200 after `doSomething()` and becomes 100 only when the stored handler runs |
| Deferred.ServeCustomer | Closures.playground/Contents.swift:143-152 | serving through a `PopHead` provider, in either overload, returns the current head and removes exactly that customer |
| Deferred.CollectCustomerProvider | Closures.playground/Contents.swift:155-158 | collecting an escaping autoclosure appends it to `customerProviders` and changes none of the captured variables |
| Deferred.ServeCollected | Closures.playground/Contents.swift:164-166 | serving the collected providers yields one result per provider, removes that many customers from the front, and leaves both registries in place |
| Deferred.CollectTwoThenServe | Closures.playground/Contents.swift:155-166 | collecting two head-removing autoclosures leaves the line untouched; serving them later removes the first two customers, first come first served |
| Deferred.EscapingScript | Closures.playground/Contents.swift:122-128 | `instance.x` is 200 after `doSomething()` and 100 after `completionHandlers.first?()` |
| Deferred.AutoclosureScript | Closures.playground/Contents.swift:133-166 | the line has 5, 5, then 4 customers around `customerProvider`; the customers are served Chris, Alex, Ewa, Barry, Daniella; 2 closures are collected while 2 customers are still in line |

## Left out

- `import UIKit` and every `print`: presentation only. The printed values are
  returned as results of the script methods instead.
- The static checks behind `@noescape`, `@autoclosure` and
  `@autoclosure(escaping)`: Dafny has no lifetime discipline for closures. Only
  their observable effect is modelled, namely when a closure runs and what it
  changes.
- The algorithm and stability of the library `sort`: only its contract is
  visible. Insertion sort stands in for it. `ComparatorSort.SortUnique` shows
  the choice does not matter for a strict total order.
- Swift's Unicode-aware `String` comparison: strings are compared
  lexicographically by character.
- A trap from `removeAtIndex(0)` on an empty array: `Run` and its callers
  require a non-empty line instead of modelling the trap.
- Int overflow in the digit encoder: the loop only divides a positive number
  by 10, which cannot overflow.
- Incrementers.Incrementer.Call: a trap on overflow of `runningTotal += amount`
  is modelled as a precondition that the new total fits in 64 bits, not as a
  runtime failure.
- Deferred.SetX: only the single `SomeClass` instance of the playground is
  modelled. Its `x` is one field of `Env`, and a stored handler does not
  record which `self` it captured. With several instances, a handler stored by
  one instance's `doSomething()` would set the same shared `x`.
- The separate Swift types of the two registries, `[() -> Void]` and
  `[() -> String]`: both hold `Thunk` values, and a `SetX` thunk returns
  `Done`.
- Each rewriting of the comparator closure (explicit types, inferred types,
  implicit return, shorthand `$0 > $1`, trailing closure) is pure syntax. All of
  them denote the same lambda `(s1, s2) => Greater(s1, s2)`.

## Notes on the source

- In the sorted result no element is greater than the element just before it.
  `Ordered` states exactly this for the comparator `s1 > s2`.
- A stored closure can be invoked any number of times. The playground, like
  `RunAll`, invokes each one once.
