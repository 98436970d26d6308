/**
 Request routing: Router.Match and Route.Match of pkg/eggs/kmux.

 The functions follow the state that matching threads through a RouteMatch; `RouteMatch` is that
 object, with the matching methods. `Entries` flattens a router tree into an ordered list, without
 looking at any request, and `Select` picks from that list: the declarative reading of a match.
 */
module RouteMatching {
  import opened Options

  /** The parts of an HTTP request that matchers look at. */
  datatype Request = Request(verb: string, host: string, path: string, query: string,
                             headers: map<string, seq<string>>)

  type Vars = map<string, string>

  /** A handler, possibly behind a middleware; a middleware can be put around no handler at all. */
  datatype Handler = Base(name: string) | Behind(middleware: string, next: Option<Handler>)

  datatype Matcher =
    | Test(test: Request -> bool)      // path, host, query, header and scheme matchers
    | Methods(allowed: seq<string>)
    | Sub(router: Router)

  /** `disabled`: build-only, or built with an error. `vars` and `redirect` are what setMatch extracts
      from the request and where strict slash sends it. */
  datatype Route = Route(name: string, disabled: bool, matchers: seq<Matcher>, handler: Option<Handler>,
                         vars: Request -> Vars, redirect: Request -> Option<Handler>)

  datatype Router = Router(routes: seq<Route>, middlewares: seq<string>,
                           notFound: Option<Handler>, notAllowed: Option<Handler>)

  datatype MatchErr = NoErr | MethodMismatch | NotFound

  /** The contents of a RouteMatch. */
  datatype State = State(route: Option<string>, handler: Option<Handler>, vars: Option<Vars>, err: MatchErr)

  const Start := State(None, None, None, NoErr)

  // What the code does --------------------------------------------------------------------------

  /** The middlewares of a router around a handler, the first one outermost. */
  function Wrap(middlewares: seq<string>, h: Option<Handler>): Option<Handler> {
    if middlewares == [] then h
    else Some(Behind(middlewares[0], Wrap(middlewares[1..], h)))
  }

  function WrapState(r: Router, st: State): State {
    if st.err.NoErr? then st.(handler := Wrap(r.middlewares, st.handler)) else st
  }

  /** Route.Match once every matcher has passed. */
  function Succeed(r: Route, req: Request, st: State): State {
    var handler := if st.err.MethodMismatch? || st.handler.None? then r.handler else st.handler;
    var vars := (if st.vars.Some? then st.vars.value else map[]) + r.vars(req);
    State(if st.route.None? then Some(r.name) else st.route,
          if r.redirect(req).Some? then r.redirect(req) else handler,
          Some(vars),
          if st.err.MethodMismatch? then NoErr else st.err)
  }

  /** Router.Match once every route has been refused. */
  function Refuse(r: Router, st: State): (bool, State) {
    if st.err.MethodMismatch? then
      if r.notAllowed.Some? then (true, st.(handler := r.notAllowed)) else (false, st)
    else if r.notFound.Some? then (true, st.(handler := r.notFound, err := NotFound))
    else (false, st.(err := NotFound))
  }

  /** The matcher loop of Route.Match. `mismatch` is the local matchErr; the result says whether the loop
      ran to the end, and the final mismatch. */
  function RunMatchers(ms: seq<Matcher>, req: Request, st: State, mismatch: bool): (bool, bool, State)
    decreases ms
  {
    if ms == [] then (true, mismatch, st)
    else
      var (ok, st') := MatcherResult(ms[0], req, st);
      if ok then RunMatchers(ms[1..], req, st', mismatch)
      else if ms[0].Methods? then RunMatchers(ms[1..], req, st', true)
      else (false, mismatch, Forget(st'))
  }

  /** matcher.Match */
  function MatcherResult(m: Matcher, req: Request, st: State): (bool, State)
    decreases m
  {
    match m
    case Test(test) => (test(req), st)
    case Methods(allowed) => (req.verb in allowed, st)
    case Sub(router) => RouterResult(router, req, st)
  }

  function Forget(st: State): State {
    if st.err.NotFound? then st.(err := NoErr) else st
  }

  function RouteResult(r: Route, req: Request, st: State): (bool, State)
    decreases r
  {
    if r.disabled then (false, st)
    else
      var (ran, mismatch, st') := RunMatchers(r.matchers, req, st, false);
      if !ran then (false, st')
      else if mismatch then (false, st'.(err := MethodMismatch))
      else (true, Succeed(r, req, st'))
  }

  function TryRoutes(routes: seq<Route>, r: Router, req: Request, st: State): (bool, State)
    decreases routes
  {
    if routes == [] then Refuse(r, st)
    else
      var (ok, st') := RouteResult(routes[0], req, st);
      if ok then (true, WrapState(r, st')) else TryRoutes(routes[1..], r, req, st')
  }

  function RouterResult(r: Router, req: Request, st: State): (bool, State)
    decreases r
  {
    TryRoutes(r.routes, r, req, st)
  }

  class RouteMatch {
    var route: Option<string>
    var handler: Option<Handler>
    var vars: Option<Vars>
    var err: MatchErr

    ghost function Contents(): State
      reads this
    {
      State(route, handler, vars, err)
    }

    constructor ()
      ensures Contents() == Start
    {
      route, handler, vars, err := None, None, None, NoErr;
    }

    /** Router.Match */
    method MatchRouter(r: Router, req: Request) returns (ok: bool)
      modifies this
      ensures (ok, Contents()) == RouterResult(r, req, old(Contents()))
      decreases r
    {
      var i := 0;
      while i < |r.routes|
        invariant i <= |r.routes|
        invariant TryRoutes(r.routes[i..], r, req, Contents()) == RouterResult(r, req, old(Contents()))
      {
        assert r.routes[i..][0] == r.routes[i] && r.routes[i..][1..] == r.routes[i + 1..];
        var matched := MatchRoute(r.routes[i], req);
        if matched {
          if err.NoErr? {
            ghost var inner := handler;
            var j := |r.middlewares|;
            assert r.middlewares[j..] == [];
            while j > 0
              invariant 0 <= j <= |r.middlewares|
              invariant handler == Wrap(r.middlewares[j..], inner)
              invariant Contents() == State(route, handler, vars, err) && err.NoErr?
              invariant (true, WrapState(r, Contents().(handler := inner)))
                     == RouterResult(r, req, old(Contents()))
            {
              j := j - 1;
              assert r.middlewares[j..][0] == r.middlewares[j] && r.middlewares[j..][1..] == r.middlewares[j + 1..];
              handler := Some(Behind(r.middlewares[j], handler));
            }
            assert r.middlewares[0..] == r.middlewares;
          }
          return true;
        }
        i := i + 1;
      }
      assert r.routes[i..] == [];
      if err.MethodMismatch? {
        if r.notAllowed.Some? {
          handler := r.notAllowed;
          return true;
        }
        return false;
      }
      if r.notFound.Some? {
        handler, err := r.notFound, NotFound;
        return true;
      }
      err := NotFound;
      return false;
    }

    /** Route.Match */
    method MatchRoute(r: Route, req: Request) returns (ok: bool)
      modifies this
      ensures (ok, Contents()) == RouteResult(r, req, old(Contents()))
      decreases r
    {
      if r.disabled {
        return false;
      }
      var mismatch := false;
      var i := 0;
      while i < |r.matchers|
        invariant i <= |r.matchers|
        invariant RunMatchers(r.matchers[i..], req, Contents(), mismatch)
               == RunMatchers(r.matchers, req, old(Contents()), false)
      {
        var m := r.matchers[i];
        assert r.matchers[i..][0] == m && r.matchers[i..][1..] == r.matchers[i + 1..];
        var matched := MatchOne(m, req);
        if !matched {
          if m.Methods? {
            mismatch := true;
          } else {
            if err.NotFound? {
              err := NoErr;
            }
            return false;
          }
        }
        i := i + 1;
      }
      assert r.matchers[i..] == [];
      if mismatch {
        err := MethodMismatch;
        return false;
      }
      if err.MethodMismatch? {
        err, handler := NoErr, r.handler;
      }
      if route.None? {
        route := Some(r.name);
      }
      if handler.None? {
        handler := r.handler;
      }
      if vars.None? {
        vars := Some(map[]);
      }
      SetMatch(r, req);
      return true;
    }

    /** matcher.Match */
    method MatchOne(m: Matcher, req: Request) returns (ok: bool)
      modifies this
      ensures (ok, Contents()) == MatcherResult(m, req, old(Contents()))
      decreases m
    {
      match m
      case Test(test) => ok := test(req);
      case Methods(allowed) => ok := req.verb in allowed;
      case Sub(router) => ok := MatchRouter(router, req);
    }

    /** routeRegexpGroup.setMatch */
    method SetMatch(r: Route, req: Request)
      requires vars.Some?
      modifies this`vars, this`handler
      ensures vars == Some(old(vars.value) + r.vars(req))
      ensures handler == if r.redirect(req).Some? then r.redirect(req) else old(handler)
    {
      vars := Some(vars.value + r.vars(req));
      if r.redirect(req).Some? {
        handler := r.redirect(req);
      }
    }
  }
}
