/**
 Escaping closures, non-escaping closures and autoclosures. Every closure
 passed to `someFunctionWithNoescapeClosure`, `someFunctionWithEscapingClosure`,
 `serveCustomer` or `collectCustomerProviders`, or stored as `customerProvider`,
 has one of two bodies: remove and return the head of the global
 `customersInLine` queue, or assign to `x` of the one `SomeClass` instance.
 Such a closure is therefore a tagged value, `Thunk`; building one does
 nothing, and its body takes effect only when `Run` is applied to it. The
 variables the closures capture by reference form one environment value,
 `Env`, which `Run` threads from call to call.
 */
module Deferred {

  /** A zero-argument closure body. */
  datatype Thunk =
    | PopHead       // removes and returns the head of `customersInLine`; a `() -> String`
    | SetX(v: int)  // assigns v to `x` of the `SomeClass` instance; a `() -> Void`

  /** The captured variables: the global queue and `instance.x`. */
  datatype Env = Env(customersInLine: seq<string>, x: int)

  /** What invoking a closure returns: a customer's name, or nothing. */
  datatype Outcome = Served(name: string) | Done

  /** `removeAtIndex(0)` on an empty array traps; the model requires a head instead. */
  predicate CanRun(t: Thunk, e: Env) {
    t.PopHead? ==> |e.customersInLine| > 0
  }

  /** Invokes a closure in the environment current at the time of the call. */
  function Run(t: Thunk, e: Env): (r: (Env, Outcome))
    requires CanRun(t, e)
    ensures t.PopHead? ==> r.1.Served? && [r.1.name] + r.0.customersInLine == e.customersInLine
    ensures t.PopHead? ==> r.0.x == e.x
    ensures t.SetX? ==> r == (Env(e.customersInLine, t.v), Done)
  {
    match t
    case PopHead =>
      assert [e.customersInLine[0]] + e.customersInLine[1..] == e.customersInLine;
      (e.(customersInLine := e.customersInLine[1..]), Served(e.customersInLine[0]))
    case SetX(v) => (e.(x := v), Done)
  }

  /** How many of the closures remove a customer. */
  function Pops(ts: seq<Thunk>): nat {
    if ts == [] then 0 else (if ts[0].PopHead? then 1 else 0) + Pops(ts[1..])
  }

  /** Invokes each stored closure once, first to last, as a `for ... in` loop over a registry does. */
  function RunAll(ts: seq<Thunk>, e: Env): (r: (Env, seq<Outcome>))
    requires Pops(ts) <= |e.customersInLine|
    ensures |r.1| == |ts|
    ensures r.0.customersInLine == e.customersInLine[Pops(ts)..]
  {
    if ts == [] then
      (e, [])
    else
      var (e1, o) := Run(ts[0], e);
      var (e2, os) := RunAll(ts[1..], e1);
      (e2, [o] + os)
  }

  lemma {:induction false} PopsAppend(ts: seq<Thunk>, t: Thunk)
    ensures Pops(ts + [t]) == Pops(ts) + Pops([t])
  {
    if ts != [] {
      assert (ts + [t])[1..] == ts[1..] + [t];
      PopsAppend(ts[1..], t);
    } else {
      assert ts + [t] == [t];
    }
  }

  /** Running a registry with one more closure at the end runs the old registry,
      then the new closure in the environment the old ones left behind. */
  lemma {:induction false} RunAllAppend(ts: seq<Thunk>, t: Thunk, e: Env)
    requires Pops(ts + [t]) <= |e.customersInLine|
    ensures Pops(ts) <= |e.customersInLine|
    ensures CanRun(t, RunAll(ts, e).0)
    ensures RunAll(ts + [t], e)
         == (Run(t, RunAll(ts, e).0).0, RunAll(ts, e).1 + [Run(t, RunAll(ts, e).0).1])
  {
    PopsAppend(ts, t);
    if ts == [] {
      assert ts + [t] == [t];
      var (e1, o) := Run(t, e);
      assert [t][1..] == [];
      assert RunAll([t], e) == (e1, [o] + []);
      assert [o] + [] == [] + [o];
    } else {
      assert (ts + [t])[0] == ts[0];
      assert (ts + [t])[1..] == ts[1..] + [t];
      var (e1, o) := Run(ts[0], e);
      RunAllAppend(ts[1..], t, e1);
      var (e2, os) := RunAll(ts[1..], e1);
      assert RunAll(ts, e) == (e2, [o] + os);
      assert RunAll(ts + [t], e) == (Run(t, e2).0, [o] + (os + [Run(t, e2).1]));
      assert [o] + (os + [Run(t, e2).1]) == ([o] + os) + [Run(t, e2).1];
    }
  }

  /** Closures that each remove the head, run in order, serve the customers in
      the order they stand in line. */
  lemma {:induction false} PopsServeInOrder(ts: seq<Thunk>, e: Env)
    requires forall i :: 0 <= i < |ts| ==> ts[i] == PopHead
    requires |ts| <= |e.customersInLine|
    ensures Pops(ts) == |ts|
    ensures forall i :: 0 <= i < |ts| ==> RunAll(ts, e).1[i] == Served(e.customersInLine[i])
  {
    if ts != [] {
      var e1 := Run(ts[0], e).0;
      PopsServeInOrder(ts[1..], e1);
      assert e1.customersInLine == e.customersInLine[1..];
      forall i | 0 <= i < |ts|
        ensures RunAll(ts, e).1[i] == Served(e.customersInLine[i])
      {
        if i > 0 {
          assert RunAll(ts, e).1[i] == RunAll(ts[1..], e1).1[i - 1];
        }
      }
    }
  }

  /** The state of the playground the closures act on. */
  datatype Playground = Playground(
    env: Env,
    completionHandlers: seq<Thunk>,  // `completionHandlers: [() -> Void]`
    customerProviders: seq<Thunk>    // `customerProviders: [() -> String]`
  )

  /** `someFunctionWithNoescapeClosure(_:)`: the closure runs before the call returns. */
  function CallNoescape(p: Playground, closure: Thunk): (r: Playground)
    requires CanRun(closure, p.env)
    ensures r.completionHandlers == p.completionHandlers && r.customerProviders == p.customerProviders
    ensures r.env == Run(closure, p.env).0
  {
    var (e, _) := Run(closure, p.env);
    p.(env := e)
  }

  /** `someFunctionWithEscapingClosure(_:)`: the closure is stored, not run. */
  function CallEscaping(p: Playground, completionHandler: Thunk): (r: Playground)
    ensures r.env == p.env && r.customerProviders == p.customerProviders
    ensures r.completionHandlers == p.completionHandlers + [completionHandler]
  {
    p.(completionHandlers := p.completionHandlers + [completionHandler])
  }

  /** `SomeClass.doSomething()`: hands an escaping closure that sets `x` to 100
      and a non-escaping one that sets it to 200. */
  function DoSomething(p: Playground): (r: Playground)
    ensures r.env.x == 200 && r.env.customersInLine == p.env.customersInLine
    ensures r.completionHandlers == p.completionHandlers + [SetX(100)]
    ensures r.customerProviders == p.customerProviders
  {
    CallNoescape(CallEscaping(p, SetX(100)), SetX(200))
  }

  /** `completionHandlers.first?()`: runs the first stored handler, if there is
      one, and keeps it stored. */
  function RunFirstHandler(p: Playground): (r: Playground)
    requires |p.completionHandlers| > 0 ==> CanRun(p.completionHandlers[0], p.env)
    ensures |p.completionHandlers| == 0 ==> r == p
    ensures |p.completionHandlers| > 0 ==> r == p.(env := Run(p.completionHandlers[0], p.env).0)
  {
    if |p.completionHandlers| == 0 then p
    else p.(env := Run(p.completionHandlers[0], p.env).0)
  }

  /** Starting with no stored handlers, `doSomething()` leaves `x` at 200, and
      running the first stored handler, the one it stored, sets `x` to 100. */
  lemma HandlerRunsOnlyWhenInvoked(p: Playground)
    requires p.completionHandlers == []
    ensures DoSomething(p).env.x == 200
    ensures RunFirstHandler(DoSomething(p)).env.x == 100
    ensures RunFirstHandler(DoSomething(p)).env.customersInLine == p.env.customersInLine
  {
  }

  /** `serveCustomer(_:)`, both the closure and the `@autoclosure` overload: the
      argument was wrapped unevaluated and is evaluated once, inside the call. */
  function ServeCustomer(p: Playground, customerProvider: Thunk): (r: (Playground, Outcome))
    requires CanRun(customerProvider, p.env)
    ensures r.0.completionHandlers == p.completionHandlers && r.0.customerProviders == p.customerProviders
    ensures customerProvider.PopHead? ==>
      && r.1 == Served(p.env.customersInLine[0])
      && r.0.env == p.env.(customersInLine := p.env.customersInLine[1..])
  {
    var (e, o) := Run(customerProvider, p.env);
    (p.(env := e), o)
  }

  /** `collectCustomerProviders(_:)` with an escaping autoclosure: the argument
      expression is stored unevaluated, so no customer leaves the line. */
  function CollectCustomerProvider(p: Playground, customerProvider: Thunk): (r: Playground)
    ensures r.env == p.env && r.completionHandlers == p.completionHandlers
    ensures r.customerProviders == p.customerProviders + [customerProvider]
  {
    p.(customerProviders := p.customerProviders + [customerProvider])
  }

  /** The loop that calls every collected provider, in registration order. */
  function ServeCollected(p: Playground): (r: (Playground, seq<Outcome>))
    requires Pops(p.customerProviders) <= |p.env.customersInLine|
    ensures |r.1| == |p.customerProviders|
    ensures r.0.env.customersInLine == p.env.customersInLine[Pops(p.customerProviders)..]
    ensures r.0.completionHandlers == p.completionHandlers
    ensures r.0.customerProviders == p.customerProviders
  {
    var (e, os) := RunAll(p.customerProviders, p.env);
    (p.(env := e), os)
  }

  /** Two escaping autoclosures that remove the head are collected without
      touching the line; served later, in registration order, they remove the
      first two customers, first come first served. */
  lemma CollectTwoThenServe(p: Playground)
    requires p.customerProviders == [] && |p.env.customersInLine| >= 2
    ensures var c := CollectCustomerProvider(CollectCustomerProvider(p, PopHead), PopHead);
      && c.env == p.env
      && |c.customerProviders| == 2
      && Pops(c.customerProviders) == 2
      && ServeCollected(c).1 == [Served(p.env.customersInLine[0]), Served(p.env.customersInLine[1])]
      && ServeCollected(c).0.env.customersInLine == p.env.customersInLine[2..]
  {
    var c := CollectCustomerProvider(CollectCustomerProvider(p, PopHead), PopHead);
    PopsServeInOrder(c.customerProviders, c.env);
  }

  const Line: seq<string> := ["Chris", "Alex", "Ewa", "Barry", "Daniella"]

  /** `instance.doSomething()` then `completionHandlers.first?()`: the value of
      `instance.x` after each. */
  method EscapingScript() returns (xAfterDoSomething: int, xAfterHandler: int)
    ensures xAfterDoSomething == 200
    ensures xAfterHandler == 100
  {
    var p := Playground(Env(Line, 10), [], []);
    p := DoSomething(p);
    xAfterDoSomething := p.env.x;
    p := RunFirstHandler(p);
    xAfterHandler := p.env.x;
  }

  /** The autoclosure walk-through, from `customersInLine` being filled to the
      loop over `customerProviders`: the queue length printed before and after
      building `customerProvider` and after calling it, the customers served,
      and the number of closures collected before any of them runs. */
  method AutoclosureScript() returns (counts: seq<int>, served: seq<Outcome>, collected: int, lineWhenCollected: int)
    ensures counts == [5, 5, 4]
    ensures served == [Served("Chris"), Served("Alex"), Served("Ewa"), Served("Barry"), Served("Daniella")]
    ensures collected == 2
    ensures lineWhenCollected == 2
  {
    var p := Playground(Env(Line, 10), [], []);
    counts := [|p.env.customersInLine|];
    var customerProvider := PopHead;
    counts := counts + [|p.env.customersInLine|];
    var (e1, o1) := Run(customerProvider, p.env);
    p := p.(env := e1);
    counts := counts + [|p.env.customersInLine|];
    var (p2, o2) := ServeCustomer(p, PopHead);
    var (p3, o3) := ServeCustomer(p2, PopHead);
    p := p3;
    served := [o1, o2, o3];
    var before := p;
    p := CollectCustomerProvider(p, PopHead);
    p := CollectCustomerProvider(p, PopHead);
    collected := |p.customerProviders|;
    lineWhenCollected := |p.env.customersInLine|;
    CollectTwoThenServe(before);
    var rest := ServeCollected(p).1;
    served := served + rest;
  }
}
