/**
 The declarative reading of a match. A router tree is a flat list of entries, fixed before any request
 arrives: its leaf routes in depth-first order and, after the routes of each router, that router's own
 handlers for "not found" and "method not allowed". `RouterSelects` shows that the matching code picks
 from this list as `Select` does, for every request and every well-formed tree.
 */
module RouteSelection {
  import opened Options
  import opened RouteMatching

  // Well-formed trees ---------------------------------------------------------------------------

  predicate IsLeaf(ms: seq<Matcher>) {
    forall i :: 0 <= i < |ms| ==> !ms[i].Sub?
  }

  /** What stands before the last matcher. */
  function Before(ms: seq<Matcher>): seq<Matcher>
    requires ms != []
  {
    ms[..|ms| - 1]
  }

  /** A subrouter is the last matcher of its route. Only tests stand before it, or the leaf routes behind it carry the
      method matchers before it, as Subrouter makes them do, and no router behind it handles refusals. */
  predicate WellFormedRoute(r: Route)
    decreases r
  {
    IsLeaf(r.matchers)
    || (r.matchers != []
        && IsLeaf(Before(r.matchers))
        && WellFormedMatcher(r.matchers[|r.matchers| - 1])
        && (OnlyTests(Before(r.matchers))
            || CarriedBehind(Before(r.matchers), r.matchers[|r.matchers| - 1])))
  }

  predicate OnlyTests(ms: seq<Matcher>) { forall i :: 0 <= i < |ms| ==> ms[i].Test? }

  predicate WellFormedMatcher(m: Matcher)
    decreases m
  {
    m.Sub? ==> WellFormed(m.router)
  }

  predicate WellFormedRoutes(routes: seq<Route>)
    decreases routes
  {
    routes == [] || (WellFormedRoute(routes[0]) && WellFormedRoutes(routes[1..]))
  }

  predicate WellFormed(r: Router)
    decreases r
  {
    WellFormedRoutes(r.routes)
  }

  // Entries -------------------------------------------------------------------------------------

  /** `via` is a route of `within` that leads to a subrouter. */
  datatype Layer = Layer(via: Route, within: Router)

  /** A leaf route of router `home`, or the handlers of `home`; `outer` leads out, innermost first. */
  datatype Entry =
    | Leaf(route: Route, home: Router, outer: seq<Layer>)
    | Fallback(home: Router, outer: seq<Layer>)

  function Deepen(es: seq<Entry>, layer: Layer): seq<Entry> {
    if es == [] then [] else [es[0].(outer := es[0].outer + [layer])] + Deepen(es[1..], layer)
  }

  function EntriesOfMatcher(m: Matcher, layer: Layer): seq<Entry>
    decreases m
  {
    if m.Sub? then Deepen(Entries(m.router), layer) else []
  }

  function EntriesOfRoute(r: Route, home: Router): seq<Entry>
    decreases r
  {
    if IsLeaf(r.matchers) then [Leaf(r, home, [])]
    else EntriesOfMatcher(r.matchers[|r.matchers| - 1], Layer(r, home))
  }

  function EntriesOfRoutes(routes: seq<Route>, home: Router): seq<Entry>
    decreases routes
  {
    if routes == [] then [] else EntriesOfRoute(routes[0], home) + EntriesOfRoutes(routes[1..], home)
  }

  function Entries(r: Router): seq<Entry>
    decreases r
  {
    EntriesOfRoutes(r.routes, r) + [Fallback(r, [])]
  }

  // Methods before a subrouter ------------------------------------------------------------------

  /** Every method matcher of `ms` has its like among `inner`. */
  predicate Carried(ms: seq<Matcher>, inner: seq<Matcher>) {
    forall i :: 0 <= i < |ms| && ms[i].Methods? ==>
      exists j :: 0 <= j < |inner| && inner[j].Methods? && inner[j].allowed == ms[i].allowed
  }

  predicate HandlesNothing(r: Router) { r.notFound.None? && r.notAllowed.None? }

  /** No entry handles a refusal. */
  predicate Silent(es: seq<Entry>) { forall i :: 0 <= i < |es| && es[i].Fallback? ==> HandlesNothing(es[i].home) }

  predicate LeavesCarry(es: seq<Entry>, ms: seq<Matcher>) {
    forall i :: 0 <= i < |es| && es[i].Leaf? ==> Carried(ms, es[i].route.matchers)
  }

  predicate CarriedBehind(ms: seq<Matcher>, m: Matcher) {
    m.Sub? ==> Silent(Entries(m.router)) && LeavesCarry(Entries(m.router), ms)
  }

  // Selection -----------------------------------------------------------------------------------

  predicate TestsHold(ms: seq<Matcher>, req: Request) {
    forall i :: 0 <= i < |ms| && ms[i].Test? ==> ms[i].test(req)
  }

  predicate MethodsHold(ms: seq<Matcher>, req: Request) {
    forall i :: 0 <= i < |ms| && ms[i].Methods? ==> req.verb in ms[i].allowed
  }

  predicate Open(r: Route, req: Request) { !r.disabled && TestsHold(r.matchers, req) }

  /** Everything but the method lets the request through to this entry. */
  predicate Reached(e: Entry, req: Request) {
    && (e.Leaf? ==> Open(e.route, req))
    && (forall i :: 0 <= i < |e.outer| ==> Open(e.outer[i].via, req))
  }

  /** The whole matcher chain of a leaf holds. */
  predicate Holds(e: Entry, req: Request) {
    e.Leaf? && Reached(e, req) && MethodsHold(e.route.matchers, req)
  }

  predicate OnlyMethodFails(e: Entry, req: Request) {
    e.Leaf? && Reached(e, req) && !MethodsHold(e.route.matchers, req)
  }

  /** A route and its router put their variables, redirect and middlewares around an inner result. */
  function Dress(layer: Layer, req: Request, st: State): State {
    WrapState(layer.within, Succeed(layer.via, req, st))
  }

  function DressAll(outer: seq<Layer>, req: Request, st: State): State {
    if outer == [] then st else Dress(outer[|outer| - 1], req, DressAll(outer[..|outer| - 1], req, st))
  }

  /** What a leaf that holds answers. */
  function LeafAnswer(e: Entry, req: Request): State
    requires e.Leaf?
  {
    DressAll(e.outer, req, Dress(Layer(e.route, e.home), req, Start))
  }

  /** What the handlers of a router answer, if it has the one that is needed. */
  function FallbackAnswer(e: Entry, req: Request, mismatch: bool): Option<State>
    requires e.Fallback?
  {
    var h := if mismatch then e.home.notAllowed else e.home.notFound;
    if h.None? then None
    else Some(DressAll(e.outer, req, Start.(handler := h, err := if mismatch then MethodMismatch else NotFound)))
  }

  datatype Choice = Chosen(st: State) | Nothing(mismatch: bool)

  /** The first entry that answers. `mismatch`: some leaf before it fits in everything but the method. */
  function Select(es: seq<Entry>, req: Request, mismatch: bool): Choice
    decreases |es|
  {
    if es == [] then Nothing(mismatch)
    else
      var e := es[0];
      if !Reached(e, req) then Select(es[1..], req, mismatch)
      else if e.Leaf? then
        if MethodsHold(e.route.matchers, req) then Chosen(LeafAnswer(e, req)) else Select(es[1..], req, true)
      else
        match FallbackAnswer(e, req, mismatch)
        case Some(st) => Chosen(st)
        case None => Select(es[1..], req, mismatch)
  }

  function Pending(mismatch: bool): State {
    Start.(err := if mismatch then MethodMismatch else NoErr)
  }

  function Result(c: Choice): (bool, State) {
    match c
    case Chosen(st) => (true, st)
    case Nothing(mismatch) => (false, Start.(err := if mismatch then MethodMismatch else NotFound))
  }

  // Matching selects ----------------------------------------------------------------------------

  lemma {:induction false} SelectConcat(a: seq<Entry>, b: seq<Entry>, req: Request, mismatch: bool)
    ensures Select(a + b, req, mismatch)
         == match Select(a, req, mismatch)
            case Chosen(st) => Chosen(st)
            case Nothing(mm) => Select(b, req, mm)
    decreases |a|
  {
    if a == [] {
      assert a + b == b;
    } else {
      assert (a + b)[0] == a[0] && (a + b)[1..] == a[1..] + b;
      SelectConcat(a[1..], b, req, mismatch);
      SelectConcat(a[1..], b, req, true);
    }
  }

  /** Entering a subrouter: nothing answers behind a closed route, and an open route dresses the answer. */
  lemma {:induction false} SelectDeepened(es: seq<Entry>, layer: Layer, req: Request, mismatch: bool)
    ensures Select(Deepen(es, layer), req, mismatch)
         == if !Open(layer.via, req) then Nothing(mismatch)
            else match Select(es, req, mismatch)
                 case Chosen(st) => Chosen(Dress(layer, req, st))
                 case Nothing(mm) => Nothing(mm)
    decreases |es|
  {
    if es != [] {
      hide Dress, Succeed, WrapState, TestsHold, MethodsHold, Open;
      var e, d := es[0], es[0].(outer := es[0].outer + [layer]);
      assert Deepen(es, layer)[0] == d && Deepen(es, layer)[1..] == Deepen(es[1..], layer);
      assert d.outer[|e.outer|] == layer && d.outer[..|e.outer|] == e.outer;
      assert Reached(d, req) <==> Reached(e, req) && Open(layer.via, req) by {
        if Reached(d, req) {
          forall i | 0 <= i < |e.outer| ensures Open(e.outer[i].via, req) {
            assert d.outer[i] == e.outer[i];
          }
        }
      }
      SelectDeepened(es[1..], layer, req, mismatch);
      SelectDeepened(es[1..], layer, req, true);
    }
  }

  lemma {:induction false} HoldFirst(ms: seq<Matcher>, req: Request)
    requires ms != []
    ensures TestsHold(ms, req) <==> (ms[0].Test? ==> ms[0].test(req)) && TestsHold(ms[1..], req)
    ensures MethodsHold(ms, req) <==> (ms[0].Methods? ==> req.verb in ms[0].allowed) && MethodsHold(ms[1..], req)
  {
    var rest := ms[1..];
    forall i | 0 < i < |ms| ensures ms[i] == rest[i - 1] {
    }
    forall i | 0 <= i < |rest| ensures rest[i] == ms[i + 1] {
    }
  }

  lemma {:induction false} LeafRuns(ms: seq<Matcher>, req: Request, st: State, mismatch: bool)
    requires IsLeaf(ms) && !st.err.NotFound?
    ensures var (ran, mm, st') := RunMatchers(ms, req, st, mismatch);
            st' == st && ran == TestsHold(ms, req) && (ran ==> mm == (mismatch || !MethodsHold(ms, req)))
    decreases |ms|
  {
    if ms != [] {
      var fails := ms[0].Methods? && req.verb !in ms[0].allowed;
      LeafRuns(ms[1..], req, st, mismatch || fails);
      HoldFirst(ms, req);
    }
  }

  /** The matchers before a subrouter either let the request through to it, or stop the route. */
  lemma {:induction false} ParentRuns(ms: seq<Matcher>, req: Request, st: State, mismatch: bool)
    requires ms != [] && IsLeaf(Before(ms)) && ms[|ms| - 1].Sub? && !st.err.NotFound?
    ensures var (ran, mm, st') := RunMatchers(ms, req, st, mismatch);
            var (ok, inner) := MatcherResult(ms[|ms| - 1], req, st);
            if !TestsHold(ms, req) then !ran && st' == st
            else ran == ok && (if ok then mm == (mismatch || !MethodsHold(ms, req)) && st' == inner else st' == Forget(inner))
    decreases |ms|
  {
    if |ms| == 1 {
      assert ms[1..] == [];
    } else {
      var fails := ms[0].Methods? && req.verb !in ms[0].allowed;
      assert Before(ms[1..]) == Before(ms)[1..] && ms[0] == Before(ms)[0];
      ParentRuns(ms[1..], req, st, mismatch || fails);
      HoldFirst(ms, req);
    }
  }

  /** Matching a route of `home` does what selecting among its entries says. */
  ghost predicate AsSelected(r: Route, home: Router, req: Request, mismatch: bool) {
    var (ok, st') := RouteResult(r, req, Pending(mismatch));
    match Select(EntriesOfRoute(r, home), req, mismatch)
    case Chosen(st) => ok && WrapState(home, st') == st
    case Nothing(mm) => !ok && st' == Pending(mm)
  }

  lemma {:induction false} ParentEntries(r: Route, home: Router)
    requires r.matchers != [] && r.matchers[|r.matchers| - 1].Sub?
    ensures EntriesOfRoute(r, home) == Deepen(Entries(r.matchers[|r.matchers| - 1].router), Layer(r, home))
  {
  }

  /**
   A route over a well-formed subrouter, with tests and methods before it, does what selecting says exactly if the
   methods hold, or the route is closed to the request anyway, or no entry behind it answers.
   */
  lemma {:induction false} ParentSelectsIff(r: Route, home: Router, req: Request, mismatch: bool)
    requires r.matchers != [] && IsLeaf(Before(r.matchers))
    requires var last := r.matchers[|r.matchers| - 1]; last.Sub? && WellFormedMatcher(last)
    ensures var last := r.matchers[|r.matchers| - 1];
            AsSelected(r, home, req, mismatch) <==>
            (Open(r, req) && Select(Entries(last.router), req, mismatch).Chosen? ==> MethodsHold(r.matchers, req))
    decreases r, 0
  {
    var ms := r.matchers;
    var last, layer := ms[|ms| - 1], Layer(r, home);
    ParentEntries(r, home);
    SelectDeepened(Entries(last.router), layer, req, mismatch);
    ParentRuns(ms, req, Pending(mismatch), false);
    if Open(r, req) {
      RouterSelects(last.router, req, mismatch);
      hide TestsHold, MethodsHold, Select, RunMatchers;
    } else {
      assert RouteResult(r, req, Pending(mismatch)) == (false, Pending(mismatch));
    }
  }

  /** Without handlers for refusals, what is behind a method that is missed and carried along does not answer. */
  lemma {:induction false} NoneHolds(es: seq<Entry>, ms: seq<Matcher>, req: Request, mismatch: bool)
    requires Silent(es) && LeavesCarry(es, ms) && !MethodsHold(ms, req)
    ensures Select(es, req, mismatch).Nothing?
    decreases |es|
  {
    if es != [] {
      if es[0].Leaf? {
        CarriedFails(ms, es[0].route.matchers, req);
      }
      NoneHolds(es[1..], ms, req, mismatch);
      NoneHolds(es[1..], ms, req, true);
    }
  }

  lemma {:induction false} CarriedFails(ms: seq<Matcher>, inner: seq<Matcher>, req: Request)
    requires Carried(ms, inner) && !MethodsHold(ms, req)
    ensures !MethodsHold(inner, req)
  {
    var i :| 0 <= i < |ms| && ms[i].Methods? && req.verb !in ms[i].allowed;
    var j :| 0 <= j < |inner| && inner[j].Methods? && inner[j].allowed == ms[i].allowed;
  }

  lemma {:induction false} RouteSelects(r: Route, home: Router, req: Request, mismatch: bool)
    requires WellFormedRoute(r)
    ensures AsSelected(r, home, req, mismatch)
    decreases r, 1
  {
    var ms := r.matchers;
    if IsLeaf(ms) {
      LeafSelects(r, home, req, mismatch);
    } else {
      var last, pre := ms[|ms| - 1], Before(ms);
      assert last.Sub?;
      ParentSelectsIff(r, home, req, mismatch);
      if !MethodsHold(ms, req) {
        assert !OnlyTests(pre) && !MethodsHold(pre, req);
        NoneHolds(Entries(last.router), pre, req, mismatch);
      }
    }
  }

  lemma {:induction false} LeafSelects(r: Route, home: Router, req: Request, mismatch: bool)
    requires IsLeaf(r.matchers)
    ensures AsSelected(r, home, req, mismatch)
  {
    var e := Leaf(r, home, []);
    LeafRuns(r.matchers, req, Pending(mismatch), false);
    assert EntriesOfRoute(r, home)[1..] == [];
    assert Select([], req, mismatch) == Nothing(mismatch);
    assert Select([], req, true) == Nothing(true);
    assert Succeed(r, req, Pending(mismatch)) == Succeed(r, req, Start);
  }

  lemma {:induction false} RoutesSelect(routes: seq<Route>, home: Router, req: Request, mismatch: bool)
    requires WellFormedRoutes(routes)
    ensures TryRoutes(routes, home, req, Pending(mismatch))
         == Result(Select(EntriesOfRoutes(routes, home) + [Fallback(home, [])], req, mismatch))
    decreases routes
  {
    var fallback := [Fallback(home, [])];
    if routes == [] {
      assert [] + fallback == fallback && fallback[1..] == [];
      assert Select([], req, mismatch) == Nothing(mismatch);
    } else {
      hide WrapState, EntriesOfRoute, RouteResult;
      RouteSelects(routes[0], home, req, mismatch);
      var first, rest := EntriesOfRoute(routes[0], home), EntriesOfRoutes(routes[1..], home);
      assert EntriesOfRoutes(routes, home) + fallback == first + (rest + fallback);
      SelectConcat(first, rest + fallback, req, mismatch);
      match Select(first, req, mismatch)
      case Chosen(_) =>
      case Nothing(mm) => RoutesSelect(routes[1..], home, req, mm);
    }
  }

  /** Router.Match answers as the first entry that answers, for every request and well-formed tree. */
  lemma {:induction false} RouterSelects(r: Router, req: Request, mismatch: bool)
    requires WellFormed(r)
    ensures RouterResult(r, req, Pending(mismatch)) == Result(Select(Entries(r), req, mismatch))
    decreases r
  {
    RoutesSelect(r.routes, r, req, mismatch);
  }

  // Routers whose only custom handlers are at the root --------------------------------------------

  /** No router below the root has a handler of its own for refusals. */
  predicate OnlyRootHandlers(r: Router) {
    Silent(Entries(r)[..|Entries(r)| - 1])
  }

  lemma {:induction false} SelectFirst(es: seq<Entry>, req: Request, mismatch: bool, i: nat)
    requires i < |es| && Holds(es[i], req)
    requires forall j :: 0 <= j < i ==> !Holds(es[j], req)
    requires forall j :: 0 <= j < i && es[j].Fallback? ==> es[j].home.notFound.None? && es[j].home.notAllowed.None?
    ensures Select(es, req, mismatch) == Chosen(LeafAnswer(es[i], req))
    decreases i
  {
    if i > 0 {
      SelectFirst(es[1..], req, mismatch, i - 1);
      SelectFirst(es[1..], req, true, i - 1);
    }
  }

  /** The first leaf in depth-first order whose whole matcher chain holds answers the request. */
  lemma {:induction false} FirstLeafAnswers(r: Router, req: Request, i: nat)
    requires WellFormed(r) && OnlyRootHandlers(r)
    requires i < |Entries(r)| && Holds(Entries(r)[i], req)
    requires forall j :: 0 <= j < i ==> !Holds(Entries(r)[j], req)
    ensures RouterResult(r, req, Start) == (true, LeafAnswer(Entries(r)[i], req))
  {
    RouterSelects(r, req, false);
    SelectFirst(Entries(r), req, false, i);
  }

  lemma {:induction false} SelectNone(es: seq<Entry>, req: Request, mismatch: bool)
    requires forall j :: 0 <= j < |es| ==> !Holds(es[j], req)
    requires forall j :: 0 <= j < |es| && es[j].Fallback? ==> es[j].home.notFound.None? && es[j].home.notAllowed.None?
    ensures Select(es, req, mismatch)
         == Nothing(mismatch || exists j :: 0 <= j < |es| && OnlyMethodFails(es[j], req))
    decreases |es|
  {
    if es != [] {
      SelectNone(es[1..], req, mismatch);
      SelectNone(es[1..], req, true);
      assert es == [es[0]] + es[1..];
      if OnlyMethodFails(es[0], req) {
        assert exists j :: 0 <= j < |es| && OnlyMethodFails(es[j], req);
      } else if exists j :: 0 <= j < |es| && OnlyMethodFails(es[j], req) {
        var j :| 0 <= j < |es| && OnlyMethodFails(es[j], req);
        assert OnlyMethodFails(es[1..][j - 1], req);
      }
    }
  }

  function Refusal(r: Router, mismatch: bool): (bool, State) {
    var h := if mismatch then r.notAllowed else r.notFound;
    (h.Some?, Start.(handler := h, err := if mismatch then MethodMismatch else NotFound))
  }

  /** When no leaf holds: "method not allowed" iff some leaf fails in its method only, else "not found". */
  lemma {:induction false} NoLeafAnswers(r: Router, req: Request)
    requires WellFormed(r) && OnlyRootHandlers(r)
    requires forall j :: 0 <= j < |Entries(r)| ==> !Holds(Entries(r)[j], req)
    ensures RouterResult(r, req, Start)
         == Refusal(r, exists j :: 0 <= j < |Entries(r)| && OnlyMethodFails(Entries(r)[j], req))
  {
    var n := |Entries(r)| - 1;
    var below, root := Entries(r)[..n], Entries(r)[n];
    assert Entries(r) == below + [root] && root == Fallback(r, []);
    RouterSelects(r, req, false);
    SelectConcat(below, [root], req, false);
    SelectNone(below, req, false);
    assert (exists j :: 0 <= j < |below| && OnlyMethodFails(below[j], req))
      <==> (exists j :: 0 <= j < |Entries(r)| && OnlyMethodFails(Entries(r)[j], req)) by {
      if j :| 0 <= j < |below| && OnlyMethodFails(below[j], req) {
        assert OnlyMethodFails(Entries(r)[j], req);
      }
      if j :| 0 <= j < |Entries(r)| && OnlyMethodFails(Entries(r)[j], req) {
        assert OnlyMethodFails(below[j], req);
      }
    }
    assert [root][1..] == [];
    assert Select([], req, false) == Nothing(false) && Select([], req, true) == Nothing(true);
  }

  // The order of middlewares ----------------------------------------------------------------------

  /** Every middleware on the way to an entry, the root's first. */
  function Middlewares(outer: seq<Layer>): seq<string> {
    if outer == [] then [] else outer[|outer| - 1].within.middlewares + Middlewares(outer[..|outer| - 1])
  }

  lemma {:induction false} WrapConcat(a: seq<string>, b: seq<string>, h: Option<Handler>)
    ensures Wrap(a + b, h) == Wrap(a, Wrap(b, h))
  {
    if a == [] {
      assert a + b == b;
    } else {
      assert (a + b)[0] == a[0] && (a + b)[1..] == a[1..] + b;
      WrapConcat(a[1..], b, h);
    }
  }

  predicate NoRedirect(e: Entry, req: Request) {
    && (e.Leaf? ==> e.route.redirect(req).None?)
    && (forall i :: 0 <= i < |e.outer| ==> e.outer[i].via.redirect(req).None?)
  }

  lemma {:induction false} WrapKeepsSome(a: seq<string>, h: Option<Handler>)
    ensures h.Some? ==> Wrap(a, h).Some?
  {
  }

  lemma {:induction false} DressAllWraps(outer: seq<Layer>, req: Request, st: State)
    requires forall i :: 0 <= i < |outer| ==> outer[i].via.redirect(req).None?
    requires st.err.NoErr? && st.handler.Some? && st.route.Some?
    ensures var d := DressAll(outer, req, st);
            d.err.NoErr? && d.handler.Some? && d.route == st.route
            && d.handler == Wrap(Middlewares(outer), st.handler)
  {
    if outer != [] {
      var init, last := outer[..|outer| - 1], outer[|outer| - 1];
      DressAllWraps(init, req, st);
      WrapConcat(last.within.middlewares, Middlewares(init), st.handler);
      WrapKeepsSome(last.within.middlewares, DressAll(init, req, st).handler);
    }
  }

  /** A leaf with a handler answers as itself, behind every middleware of its routers, inner ones inside. */
  lemma {:induction false} LeafAnswerIs(e: Entry, req: Request)
    requires e.Leaf? && e.route.handler.Some? && NoRedirect(e, req)
    ensures var a := LeafAnswer(e, req);
            a.route == Some(e.route.name) && a.err.NoErr?
            && a.handler == Wrap(Middlewares(e.outer) + e.home.middlewares, e.route.handler)
  {
    var inner := Dress(Layer(e.route, e.home), req, Start);
    WrapKeepsSome(e.home.middlewares, e.route.handler);
    DressAllWraps(e.outer, req, inner);
    WrapConcat(Middlewares(e.outer), e.home.middlewares, e.route.handler);
  }

  // What is lost ----------------------------------------------------------------------------------

  /** The handler that answers behind `outer` where the innermost state has none: that of the first route which has
      one, or the first middleware before it, and the middlewares from there on. */
  function HandlerOf(outer: seq<Layer>): Option<Handler> {
    if outer == [] then None
    else
      var last, inner := outer[|outer| - 1], HandlerOf(outer[..|outer| - 1]);
      Wrap(last.within.middlewares, if inner.Some? then inner else last.via.handler)
  }

  lemma {:induction false} HandlerOfFirst(outer: seq<Layer>)
    requires outer != [] && outer[0].via.handler.Some?
    ensures HandlerOf(outer) == Wrap(Middlewares(outer), outer[0].via.handler) && HandlerOf(outer).Some?
    decreases |outer|
  {
    var init, last := outer[..|outer| - 1], outer[|outer| - 1];
    if init == [] {
      WrapConcat(last.within.middlewares, Middlewares(init), last.via.handler);
      WrapKeepsSome(last.within.middlewares, last.via.handler);
    } else {
      assert init[0] == outer[0];
      HandlerOfFirst(init);
      WrapConcat(last.within.middlewares, Middlewares(init), outer[0].via.handler);
      WrapKeepsSome(last.within.middlewares, HandlerOf(init));
    }
  }

  lemma {:induction false} MismatchDressed(outer: seq<Layer>, req: Request, st: State)
    requires outer != [] && st.err.MethodMismatch? && st.vars.None? && st.route.None?
    ensures forall h :: DressAll(outer, req, st) == DressAll(outer, req, st.(handler := h))
    ensures (forall i :: 0 <= i < |outer| ==> outer[i].via.redirect(req).None?) ==>
              DressAll(outer, req, st).err.NoErr? && DressAll(outer, req, st).handler == HandlerOf(outer)
    decreases |outer|
  {
    var init, last := outer[..|outer| - 1], outer[|outer| - 1];
    if init == [] {
      assert forall s :: DressAll(init, req, s) == s;
    } else {
      MismatchDressed(init, req, st);
    }
  }

  /**
   A "method not allowed" handler of a subrouter never answers, however deep it is: the routes that lead to the
   subrouter take the request for a match, and what they answer is the same whatever that handler is. It is the
   handler of the route that leads to the subrouter, or where that has none, whatever comes next on the way out.
   */
  lemma {:induction false} InnerNotAllowedHandlerIsLost(e: Entry, req: Request, other: Handler)
    requires e.Fallback? && e.outer != [] && e.home.notAllowed.Some?
    ensures FallbackAnswer(e, req, true).Some?
    ensures FallbackAnswer(e, req, true) == FallbackAnswer(Fallback(e.home.(notAllowed := Some(other)), e.outer), req, true)
    ensures NoRedirect(e, req) ==>
              var a := FallbackAnswer(e, req, true).value;
              && a.err.NoErr? && a.handler == HandlerOf(e.outer)
              && (e.outer[0].via.handler.Some? ==> a.handler == Wrap(Middlewares(e.outer), e.outer[0].via.handler))
  {
    hide HandlerOf, DressAll, Wrap, Middlewares;
    var st := Start.(handler := e.home.notAllowed, err := MethodMismatch);
    MismatchDressed(e.outer, req, st);
    assert DressAll(e.outer, req, st) == DressAll(e.outer, req, st.(handler := Some(other)));
    if e.outer[0].via.handler.Some? {
      HandlerOfFirst(e.outer);
    }
  }

  // What a refused route leaves behind ------------------------------------------------------------

  /** The match object names a route or a handler. */
  predicate Touched(st: State) { st.route.Some? || st.handler.Some? }

  lemma {:induction false} WrapTouched(r: Router, st: State)
    ensures Touched(st) ==> Touched(WrapState(r, st))
    ensures st.route.Some? ==> WrapState(r, st).route.Some?
  {
    WrapKeepsSome(r.middlewares, st.handler);
  }

  /** A router that matches names one of them, and nothing makes it forget both. */
  lemma {:induction false} RoutesTouch(routes: seq<Route>, r: Router, req: Request, st: State)
    ensures var (ok, st') := TryRoutes(routes, r, req, st); ok || Touched(st) ==> Touched(st')
    decreases routes
  {
    if routes != [] {
      var (ok, st') := RouteResult(routes[0], req, st);
      RouteKeeps(routes[0], req, st);
      WrapTouched(r, st');
      hide WrapState, RouteResult;
      RoutesTouch(routes[1..], r, req, st');
    }
  }

  lemma {:induction false} RouteKeeps(r: Route, req: Request, st: State)
    ensures var (ok, st') := RouteResult(r, req, st); ok || Touched(st) ==> Touched(st')
    decreases r
  {
    MatchersKeep(r.matchers, req, st, false);
    hide RunMatchers;
  }

  lemma {:induction false} MatchersKeep(ms: seq<Matcher>, req: Request, st: State, mismatch: bool)
    ensures Touched(st) ==> Touched(RunMatchers(ms, req, st, mismatch).2)
    decreases ms
  {
    if ms != [] {
      var (ok, st') := MatcherResult(ms[0], req, st);
      MatcherKeeps(ms[0], req, st);
      hide MatcherResult;
      MatchersKeep(ms[1..], req, st', mismatch);
      MatchersKeep(ms[1..], req, st', true);
    }
  }

  lemma {:induction false} MatcherKeeps(m: Matcher, req: Request, st: State)
    ensures Touched(st) ==> Touched(MatcherResult(m, req, st).1)
    decreases m
  {
    if m.Sub? {
      RoutesTouch(m.router.routes, m.router, req, st);
    }
  }

  /** The tests before the first subrouter hold, and one of its entries answers. */
  predicate SubrouterMatches(ms: seq<Matcher>, req: Request, mismatch: bool) {
    ms != []
    && match ms[0]
       case Test(test) => test(req) && SubrouterMatches(ms[1..], req, mismatch)
       case Methods(_) => SubrouterMatches(ms[1..], req, mismatch)
       case Sub(router) => Select(Entries(router), req, mismatch).Chosen?
  }

  lemma {:induction false} RunTouches(ms: seq<Matcher>, req: Request, mm: bool, mismatch: bool)
    requires forall i :: 0 <= i < |ms| ==> WellFormedMatcher(ms[i])
    ensures Touched(RunMatchers(ms, req, Pending(mm), mismatch).2) <==> SubrouterMatches(ms, req, mm)
    decreases |ms|
  {
    if ms != [] {
      var m := ms[0];
      if m.Sub? {
        assert WellFormedMatcher(m);
        RouterSelects(m.router, req, mm);
        RoutesTouch(m.router.routes, m.router, req, Pending(mm));
        hide Select, WellFormed, TryRoutes;
        MatchersKeep(ms[1..], req, RouterResult(m.router, req, Pending(mm)).1, mismatch);
      } else {
        RunTouches(ms[1..], req, mm, mismatch);
        RunTouches(ms[1..], req, mm, true);
      }
    }
  }

  /**
   A route whose subrouters are well-formed, with its matchers in any order, leaves something behind for the routes
   after it when it refuses a request exactly if its first subrouter is reached and matches: the test or the method
   that refuses the request is then one that its place in the chain lets come too late.
   */
  lemma {:induction false} RefusedLeavesTraceIff(r: Route, req: Request, mismatch: bool)
    requires !r.disabled && forall i :: 0 <= i < |r.matchers| ==> WellFormedMatcher(r.matchers[i])
    requires !RouteResult(r, req, Pending(mismatch)).0
    ensures Touched(RouteResult(r, req, Pending(mismatch)).1) <==> SubrouterMatches(r.matchers, req, mismatch)
  {
    RunTouches(r.matchers, req, mismatch, false);
  }

  lemma {:induction false} RunForgets(ms: seq<Matcher>, req: Request, st: State, mismatch: bool)
    ensures var (ran, _, st') := RunMatchers(ms, req, st, mismatch); !ran ==> !st'.err.NotFound?
    decreases |ms|
  {
    if ms != [] {
      var st' := MatcherResult(ms[0], req, st).1;
      RunForgets(ms[1..], req, st', mismatch);
      RunForgets(ms[1..], req, st', true);
    }
  }

  /** What the next leaf that fits answers then: the handler left behind, unless a method was missed, and under the
      name left behind. */
  lemma {:induction false} LeftoverAnswers(r: Route, next: Route, rest: seq<Route>, home: Router, req: Request, mismatch: bool)
    requires !RouteResult(r, req, Pending(mismatch)).0
    requires !next.disabled && IsLeaf(next.matchers) && TestsHold(next.matchers, req) && MethodsHold(next.matchers, req)
    requires next.redirect(req).None?
    ensures var (_, left) := RouteResult(r, req, Pending(mismatch));
            var (ok, a) := TryRoutes([r, next] + rest, home, req, Pending(mismatch));
            && ok && a.err.NoErr?
            && a.route == (if left.route.Some? then left.route else Some(next.name))
            && a.handler == Wrap(home.middlewares,
                                 if left.handler.Some? && left.err.NoErr? then left.handler else next.handler)
  {
    var routes := [r, next] + rest;
    var left := RouteResult(r, req, Pending(mismatch)).1;
    RunForgets(r.matchers, req, Pending(mismatch), false);
    LeafRuns(next.matchers, req, left, false);
    assert routes[1..] == [next] + rest && ([next] + rest)[0] == next;
    hide RunMatchers, TestsHold, MethodsHold, IsLeaf;
    assert RouteResult(next, req, left) == (true, Succeed(next, req, left));
  }
}
