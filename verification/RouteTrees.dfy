/**
 Router trees as NewRoute and Subrouter of pkg/eggs/kmux build them, where they are well-formed, and what happens
 where they are not.
 */
module RouteTrees {
  import opened Options
  import opened RouteMatching
  import opened RouteSelection

  /**
   A router that NewRoute and Subrouter put together: its routes start with the matchers `conf` that the router has
   from the route above it, and a subrouter gets those that its route has by then. No route gets matchers after its
   subrouter.
   */
  ghost predicate Built(r: Router, conf: seq<Matcher>)
    decreases r
  {
    BuiltRoutes(r.routes, conf)
  }

  ghost predicate BuiltRoutes(routes: seq<Route>, conf: seq<Matcher>)
    decreases routes
  {
    routes == [] || (BuiltRoute(routes[0], conf) && BuiltRoutes(routes[1..], conf))
  }

  ghost predicate BuiltRoute(r: Route, conf: seq<Matcher>)
    decreases r
  {
    if IsLeaf(r.matchers) then conf <= r.matchers
    else
      && IsLeaf(Before(r.matchers)) && conf <= Before(r.matchers)
      && BuiltMatcher(r.matchers[|r.matchers| - 1], Before(r.matchers))
  }

  ghost predicate BuiltMatcher(m: Matcher, conf: seq<Matcher>)
    decreases m
  {
    m.Sub? ==> Built(m.router, conf)
  }

  /** No router behind a method matcher handles refusals. */
  predicate Quiet(r: Router)
    decreases r
  {
    QuietRoutes(r.routes)
  }

  predicate QuietRoutes(routes: seq<Route>)
    decreases routes
  {
    routes == [] || (QuietRoute(routes[0]) && QuietRoutes(routes[1..]))
  }

  predicate QuietRoute(r: Route)
    decreases r
  {
    IsLeaf(r.matchers) || QuietMatcher(r.matchers[|r.matchers| - 1], OnlyTests(Before(r.matchers)))
  }

  predicate QuietMatcher(m: Matcher, onlyTests: bool)
    decreases m
  {
    m.Sub? ==> (onlyTests || Silent(Entries(m.router))) && Quiet(m.router)
  }

  lemma {:induction false} PrefixCarries(conf: seq<Matcher>, ms: seq<Matcher>, inner: seq<Matcher>)
    requires conf <= ms
    ensures Carried(conf, ms) && (Carried(ms, inner) ==> Carried(conf, inner))
  {
    assert forall i :: 0 <= i < |conf| ==> conf[i] == ms[i];
  }

  lemma {:induction false} DeepenKeeps(es: seq<Entry>, layer: Layer, ms: seq<Matcher>)
    ensures Silent(Deepen(es, layer)) <==> Silent(es)
    ensures LeavesCarry(Deepen(es, layer), ms) <==> LeavesCarry(es, ms)
    decreases |es|
  {
    if es != [] {
      var d := Deepen(es, layer);
      DeepenKeeps(es[1..], layer, ms);
      assert es == [es[0]] + es[1..] && d == [d[0]] + Deepen(es[1..], layer);
      hide Carried, HandlesNothing;
      ConcatKeeps([es[0]], es[1..], ms);
      ConcatKeeps([d[0]], Deepen(es[1..], layer), ms);
    }
  }

  lemma {:induction false} ConcatKeeps(a: seq<Entry>, b: seq<Entry>, ms: seq<Matcher>)
    ensures Silent(a + b) <==> Silent(a) && Silent(b)
    ensures LeavesCarry(a + b, ms) <==> LeavesCarry(a, ms) && LeavesCarry(b, ms)
  {
    hide Carried, HandlesNothing;
    assert forall i :: 0 <= i < |a| ==> (a + b)[i] == a[i];
    assert forall i :: 0 <= i < |b| ==> (a + b)[|a| + i] == b[i];
  }

  /** Every leaf route of such a tree carries the matchers that the router started with. */
  lemma {:induction false} BuiltLeavesCarry(r: Router, conf: seq<Matcher>)
    requires Built(r, conf)
    ensures LeavesCarry(Entries(r), conf)
    decreases r
  {
    RoutesCarry(r.routes, r, conf);
    ConcatKeeps(EntriesOfRoutes(r.routes, r), [Fallback(r, [])], conf);
  }

  lemma {:induction false} RoutesCarry(routes: seq<Route>, home: Router, conf: seq<Matcher>)
    requires BuiltRoutes(routes, conf)
    ensures LeavesCarry(EntriesOfRoutes(routes, home), conf)
    decreases routes
  {
    if routes != [] {
      RouteCarries(routes[0], home, conf);
      RoutesCarry(routes[1..], home, conf);
      ConcatKeeps(EntriesOfRoute(routes[0], home), EntriesOfRoutes(routes[1..], home), conf);
    }
  }

  lemma {:induction false} RouteCarries(r: Route, home: Router, conf: seq<Matcher>)
    requires BuiltRoute(r, conf)
    ensures LeavesCarry(EntriesOfRoute(r, home), conf)
    decreases r
  {
    var ms := r.matchers;
    if IsLeaf(ms) {
      PrefixCarries(conf, ms, ms);
    } else {
      MatcherCarries(ms[|ms| - 1], Layer(r, home), Before(ms));
      FewerCarried(EntriesOfRoute(r, home), conf, Before(ms));
    }
  }

  lemma {:induction false} MatcherCarries(m: Matcher, layer: Layer, conf: seq<Matcher>)
    requires BuiltMatcher(m, conf)
    ensures LeavesCarry(EntriesOfMatcher(m, layer), conf)
    decreases m
  {
    if m.Sub? {
      BuiltLeavesCarry(m.router, conf);
      DeepenKeeps(Entries(m.router), layer, conf);
    }
  }

  lemma {:induction false} FewerCarried(es: seq<Entry>, conf: seq<Matcher>, ms: seq<Matcher>)
    requires conf <= ms && LeavesCarry(es, ms)
    ensures LeavesCarry(es, conf)
  {
    forall i | 0 <= i < |es| && es[i].Leaf? ensures Carried(conf, es[i].route.matchers) {
      PrefixCarries(conf, ms, es[i].route.matchers);
    }
  }

  /** Such a tree is well-formed exactly if no router behind a method matcher handles refusals. */
  lemma {:induction false} BuiltIsWellFormedIff(r: Router, conf: seq<Matcher>)
    requires Built(r, conf)
    ensures WellFormed(r) <==> Quiet(r)
    decreases r
  {
    BuiltRoutesAre(r.routes, conf);
  }

  lemma {:induction false} BuiltRoutesAre(routes: seq<Route>, conf: seq<Matcher>)
    requires BuiltRoutes(routes, conf)
    ensures WellFormedRoutes(routes) <==> QuietRoutes(routes)
    decreases routes
  {
    if routes != [] {
      BuiltRouteIs(routes[0], conf);
      BuiltRoutesAre(routes[1..], conf);
    }
  }

  lemma {:induction false} BuiltRouteIs(r: Route, conf: seq<Matcher>)
    requires BuiltRoute(r, conf)
    ensures WellFormedRoute(r) <==> QuietRoute(r)
    decreases r
  {
    if !IsLeaf(r.matchers) {
      BuiltMatcherIs(r.matchers[|r.matchers| - 1], Before(r.matchers));
    }
  }

  lemma {:induction false} BuiltMatcherIs(m: Matcher, conf: seq<Matcher>)
    requires BuiltMatcher(m, conf)
    ensures WellFormedMatcher(m) && (OnlyTests(conf) || CarriedBehind(conf, m)) <==> QuietMatcher(m, OnlyTests(conf))
    decreases m
  {
    if m.Sub? {
      BuiltLeavesCarry(m.router, conf);
      BuiltIsWellFormedIff(m.router, conf);
    }
  }

  /** With handlers for refusals at the root only, every tree that is built in this way is well-formed. */
  lemma {:induction false} BuiltIsWellFormed(r: Router, conf: seq<Matcher>)
    requires Built(r, conf) && OnlyRootHandlers(r)
    ensures WellFormed(r)
  {
    var n := |Entries(r)| - 1;
    assert Entries(r)[..n] == EntriesOfRoutes(r.routes, r);
    BuiltIsWellFormedIff(r, conf);
    RoutesAreQuiet(r.routes, r);
  }

  lemma {:induction false} RoutesAreQuiet(routes: seq<Route>, home: Router)
    requires Silent(EntriesOfRoutes(routes, home))
    ensures QuietRoutes(routes)
    decreases routes
  {
    if routes != [] {
      ConcatKeeps(EntriesOfRoute(routes[0], home), EntriesOfRoutes(routes[1..], home), []);
      RouteIsQuiet(routes[0], home);
      RoutesAreQuiet(routes[1..], home);
    }
  }

  lemma {:induction false} RouteIsQuiet(r: Route, home: Router)
    requires Silent(EntriesOfRoute(r, home))
    ensures QuietRoute(r)
    decreases r
  {
    if !IsLeaf(r.matchers) {
      MatcherIsQuiet(r.matchers[|r.matchers| - 1], Layer(r, home), OnlyTests(Before(r.matchers)));
    }
  }

  lemma {:induction false} MatcherIsQuiet(m: Matcher, layer: Layer, onlyTests: bool)
    requires Silent(EntriesOfMatcher(m, layer))
    ensures QuietMatcher(m, onlyTests)
    decreases m
  {
    if m.Sub? {
      var below := EntriesOfRoutes(m.router.routes, m.router);
      DeepenKeeps(Entries(m.router), layer, []);
      ConcatKeeps(below, [Fallback(m.router, [])], []);
      RoutesAreQuiet(m.router.routes, m.router);
    }
  }

  // What goes wrong otherwise ---------------------------------------------------------------------

  function PlainRoute(name: string, matchers: seq<Matcher>): Route {
    Route(name, false, matchers, Some(Base(name)), _ => map[], _ => None)
  }

  function PlainRouter(routes: seq<Route>): Router { Router(routes, [], None, None) }

  function Never(req: Request): bool { false }

  const Inner := PlainRoute("inner", [])
  const Second := PlainRoute("second", [])
  const BadTest: Matcher := Test(Never)
  const InnerRouter := PlainRouter([Inner])

  /** A subrouter that matches, then a test that fails; then a route that matches. */
  const TestAfter := PlainRouter([PlainRoute("first", [Sub(InnerRouter), BadTest]), Second])

  /** A subrouter that matches, then a method matcher that fails; then a route that matches. */
  const MethodAfter := PlainRouter([PlainRoute("first", [Sub(InnerRouter), Methods([])]), Second])

  /** A subrouter with a handler for "not found" behind a method matcher, which its only route carries along. */
  const Handling := Router([PlainRoute("inner", [Methods([]), BadTest])], [], Some(Base("missing")), None)
  const MethodBefore := PlainRouter([PlainRoute("first", [Methods([]), Sub(Handling)])])

  const Filled := State(Some("inner"), Some(Base("inner")), Some(map[]), NoErr)

  lemma {:induction false} InnerAnswers(req: Request)
    ensures RouterResult(InnerRouter, req, Start) == (true, Filled)
  {
    assert RunMatchers(Inner.matchers, req, Start, false) == (true, false, Start);
    assert RouteResult(Inner, req, Start) == (true, Filled);
  }

  /** With a test after a subrouter the wrong handler answers: the subrouter's leaf has filled in the match
      before the test fails, and the route that then matches keeps it. */
  lemma {:induction false} TestAfterSubrouterMisdirects(req: Request)
    ensures RouterResult(TestAfter, req, Start)
         == (true, State(Some("inner"), Some(Base("inner")), Some(map[]), NoErr))
  {
    var first := TestAfter.routes[0];
    InnerAnswers(req);
    assert first.matchers[1..] == [BadTest];
    assert RunMatchers([BadTest], req, Filled, false) == (false, false, Filled);
    assert RunMatchers(first.matchers, req, Start, false) == (false, false, Filled);
    assert RouteResult(first, req, Start) == (false, Filled);
    assert RunMatchers(Second.matchers, req, Filled, false) == (true, false, Filled);
    assert RouteResult(Second, req, Filled) == (true, Filled);
    assert TestAfter.routes[1..] == [Second];
    assert TryRoutes([Second], TestAfter, req, Filled) == (true, Filled);
  }

  /** With a method matcher after a subrouter the wrong route is reported for the handler that answers. */
  lemma {:induction false} MethodAfterSubrouterMisreports(req: Request)
    ensures RouterResult(MethodAfter, req, Start)
         == (true, State(Some("inner"), Some(Base("second")), Some(map[]), NoErr))
  {
    var first := MethodAfter.routes[0];
    var st, answer := Filled.(err := MethodMismatch), Filled.(handler := Some(Base("second")));
    InnerAnswers(req);
    assert first.matchers[1..] == [Methods([])] && [Methods([])][1..] == [];
    assert RunMatchers([], req, Filled, true) == (true, true, Filled);
    assert RunMatchers([Methods([])], req, Filled, false) == (true, true, Filled);
    assert RunMatchers(first.matchers, req, Start, false) == (true, true, Filled);
    assert RouteResult(first, req, Start) == (false, st);
    assert RunMatchers(Second.matchers, req, st, false) == (true, false, st);
    assert RouteResult(Second, req, st) == (true, answer);
    assert MethodAfter.routes[1..] == [Second];
    assert TryRoutes([Second], MethodAfter, req, st) == (true, answer);
  }

  lemma {:induction false} HandlingAnswers(req: Request)
    ensures RouterResult(Handling, req, Start) == (true, Start.(handler := Some(Base("missing")), err := NotFound))
  {
    var inner := Handling.routes[0];
    assert inner.matchers[1..] == [BadTest];
    assert RunMatchers([BadTest], req, Start, true) == (false, true, Start);
    assert RunMatchers(inner.matchers, req, Start, false) == (false, true, Start);
    assert RouteResult(inner, req, Start) == (false, Start);
    assert Handling.routes[1..] == [];
    assert TryRoutes([], Handling, req, Start) == Refuse(Handling, Start);
    assert TryRoutes(Handling.routes, Handling, req, Start) == Refuse(Handling, Start);
  }

  /** With a handler for refusals behind a method matcher, "method not allowed" is reported although no leaf fails in
      its method only. */
  lemma {:induction false} HandlerBehindMethodMisreports(req: Request)
    ensures RouterResult(MethodBefore, req, Start) == (false, State(None, Some(Base("missing")), None, MethodMismatch))
    ensures forall i :: 0 <= i < |Entries(MethodBefore)| ==> !OnlyMethodFails(Entries(MethodBefore)[i], req)
  {
    var first := MethodBefore.routes[0];
    var missing := Start.(handler := Some(Base("missing")), err := NotFound);
    HandlingAnswers(req);
    assert first.matchers[1..] == [Sub(Handling)] && [Sub(Handling)][1..] == [];
    assert RunMatchers([], req, missing, true) == (true, true, missing);
    assert RunMatchers([Sub(Handling)], req, Start, true) == (true, true, missing);
    assert RunMatchers(first.matchers, req, Start, false) == (true, true, missing);
    assert RouteResult(first, req, Start) == (false, missing.(err := MethodMismatch));
    assert MethodBefore.routes[1..] == [];
    var st := missing.(err := MethodMismatch);
    assert TryRoutes([], MethodBefore, req, st) == (false, st);
    assert TryRoutes(MethodBefore.routes, MethodBefore, req, Start) == (false, st);
    HandlingEntries();
  }

  lemma {:induction false} HandlingEntries()
    ensures var inner, first := Handling.routes[0], MethodBefore.routes[0];
            Entries(MethodBefore) == [Leaf(inner, Handling, [Layer(first, MethodBefore)]),
                                      Fallback(Handling, [Layer(first, MethodBefore)]), Fallback(MethodBefore, [])]
    ensures exists i :: 0 <= i < |Handling.routes[0].matchers| && Handling.routes[0].matchers[i] == BadTest
  {
    var inner, first := Handling.routes[0], MethodBefore.routes[0];
    var layer := Layer(first, MethodBefore);
    assert Handling.routes[1..] == [] && MethodBefore.routes[1..] == [];
    assert inner.matchers[1] == BadTest && first.matchers[1].Sub?;
    assert EntriesOfRoutes([], Handling) == [] && EntriesOfRoute(inner, Handling) == [Leaf(inner, Handling, [])];
    assert EntriesOfRoutes(Handling.routes, Handling) == [Leaf(inner, Handling, [])];
    assert Entries(Handling) == [Leaf(inner, Handling, []), Fallback(Handling, [])];
    assert Entries(Handling)[1..] == [Fallback(Handling, [])] && Entries(Handling)[1..][1..] == [];
    assert EntriesOfRoute(first, MethodBefore) == Deepen(Entries(Handling), layer);
    assert [] + [layer] == [layer];
    assert Deepen(Entries(Handling)[1..], layer) == [Fallback(Handling, [layer])];
    assert Deepen(Entries(Handling), layer) == [Leaf(inner, Handling, [layer]), Fallback(Handling, [layer])];
    assert EntriesOfRoutes([], MethodBefore) == [];
    assert EntriesOfRoutes(MethodBefore.routes, MethodBefore) == EntriesOfRoute(first, MethodBefore);
  }

  /** It is a tree that Subrouter builds. */
  lemma {:induction false} MethodBeforeIsBuilt()
    ensures Built(MethodBefore, []) && !Quiet(MethodBefore)
  {
    var inner, first := Handling.routes[0], MethodBefore.routes[0];
    assert Handling.routes[1..] == [] && MethodBefore.routes[1..] == [];
    assert Before(first.matchers) == [Methods([])] && first.matchers[1] == Sub(Handling);
    assert IsLeaf(inner.matchers) && inner.matchers[..1] == [Methods([])] && [Methods([])] <= inner.matchers;
    assert BuiltRoute(inner, [Methods([])]);
    assert BuiltRoutes(Handling.routes, [Methods([])]);
    assert BuiltMatcher(first.matchers[1], [Methods([])]);
    assert BuiltRoute(first, []);
    var n := |Entries(Handling)| - 1;
    assert Entries(Handling)[n] == Fallback(Handling, []);
    assert !OnlyTests([Methods([])]) by {
      assert !([Methods([])][0].Test?);
    }
    assert !QuietRoute(first);
  }
}
