/** What an answer carries besides its handler: variables, redirects and the answers of handlers for refusals. The
    answers are those of RouteSelection; setMatch of pkg/eggs/kmux/regexp.go and Route.Match. */
module RouteAnswers {
  import opened Options
  import opened RouteMatching
  import opened RouteSelection

  /** The layers on the way out from a leaf, that of the leaf first. */
  function Way(e: Entry): (layers: seq<Layer>)
    requires e.Leaf?
  {
    [Layer(e.route, e.home)] + e.outer
  }

  lemma {:induction false} AnswerIsDressed(e: Entry, req: Request)
    requires e.Leaf?
    ensures LeafAnswer(e, req) == DressAll(Way(e), req, Start)
  {
    DressFirst(Layer(e.route, e.home), e.outer, req, Start);
  }

  lemma {:induction false} DressFirst(first: Layer, outer: seq<Layer>, req: Request, st: State)
    ensures DressAll([first] + outer, req, st) == DressAll(outer, req, Dress(first, req, st))
    decreases |outer|
  {
    var all := [first] + outer;
    if outer == [] {
      assert all[..0] == [] && DressAll([], req, st) == st;
    } else {
      assert all[..|all| - 1] == [first] + outer[..|outer| - 1];
      DressFirst(first, outer[..|outer| - 1], req, st);
    }
  }

  // Variables -----------------------------------------------------------------------------------

  function VarsOf(st: State): Vars { if st.vars.Some? then st.vars.value else map[] }

  /** A layer keeps the variables and adds its own over them. */
  lemma {:induction false} DressVars(layer: Layer, req: Request, st: State, n: string)
    ensures Dress(layer, req, st).vars.Some?
    ensures var v := VarsOf(Dress(layer, req, st));
            && (n in v <==> n in layer.via.vars(req) || n in VarsOf(st))
            && (n in v ==> v[n] == if n in layer.via.vars(req) then layer.via.vars(req)[n] else VarsOf(st)[n])
  {
  }

  /** Layer i is the last that sets the variable. */
  predicate SetLast(layers: seq<Layer>, i: nat, req: Request, n: string) {
    && i < |layers| && n in layers[i].via.vars(req)
    && forall j :: i < j < |layers| ==> n !in layers[j].via.vars(req)
  }

  predicate Unset(layers: seq<Layer>, req: Request, n: string) {
    forall j :: 0 <= j < |layers| ==> n !in layers[j].via.vars(req)
  }

  /** The value that the last of the layers gives it. */
  function LastValue(layers: seq<Layer>, req: Request, n: string): Option<string> {
    if layers == [] then None
    else
      var vars := layers[|layers| - 1].via.vars(req);
      if n in vars then Some(vars[n]) else LastValue(layers[..|layers| - 1], req, n)
  }

  lemma {:induction false} DressAllVars(layers: seq<Layer>, req: Request, n: string)
    ensures layers != [] ==> DressAll(layers, req, Start).vars.Some?
    ensures var v := VarsOf(DressAll(layers, req, Start));
            LastValue(layers, req, n) == if n in v then Some(v[n]) else None
    decreases |layers|
  {
    if layers != [] {
      var init, last := layers[..|layers| - 1], layers[|layers| - 1];
      DressAllVars(init, req, n);
      DressVars(last, req, DressAll(init, req, Start), n);
      hide Dress;
    }
  }

  lemma {:induction false} LastValueAt(layers: seq<Layer>, req: Request, n: string, i: nat)
    requires SetLast(layers, i, req, n)
    ensures LastValue(layers, req, n) == Some(layers[i].via.vars(req)[n])
    decreases |layers|
  {
    if i < |layers| - 1 {
      var init := layers[..|layers| - 1];
      assert forall j :: 0 <= j < |init| ==> init[j] == layers[j];
      LastValueAt(init, req, n, i);
    }
  }

  lemma {:induction false} NoLastValue(layers: seq<Layer>, req: Request, n: string)
    requires Unset(layers, req, n)
    ensures LastValue(layers, req, n) == None
    decreases |layers|
  {
    if layers != [] {
      NoLastValue(layers[..|layers| - 1], req, n);
    }
  }

  lemma {:induction false} SomeSetsLast(layers: seq<Layer>, req: Request, n: string) returns (i: nat)
    requires !Unset(layers, req, n)
    ensures SetLast(layers, i, req, n)
    decreases |layers|
  {
    i := |layers| - 1;
    if n !in layers[i].via.vars(req) {
      var init := layers[..i];
      var k :| 0 <= k < |layers| && n in layers[k].via.vars(req);
      assert init[k] == layers[k];
      i := SomeSetsLast(init, req, n);
    }
  }

  /**
   The variables of an answer are those that the leaf route and the routes leading to it extract. One that several of
   them extract has the value of the outermost.
   */
  lemma {:induction false} AnswerVars(e: Entry, req: Request, n: string)
    requires e.Leaf?
    ensures var a, way := LeafAnswer(e, req), Way(e);
            && a.vars.Some?
            && (n in a.vars.value <==> exists i :: 0 <= i < |way| && n in way[i].via.vars(req))
            && forall i: nat :: SetLast(way, i, req, n) ==> n in a.vars.value && a.vars.value[n] == way[i].via.vars(req)[n]
  {
    AnswerIsDressed(e, req);
    DressAllVars(Way(e), req, n);
    hide DressAll, LeafAnswer, LastValue;
    forall i: nat | SetLast(Way(e), i, req, n) ensures LastValue(Way(e), req, n) == Some(Way(e)[i].via.vars(req)[n]) {
      LastValueAt(Way(e), req, n, i);
    }
    if Unset(Way(e), req, n) {
      NoLastValue(Way(e), req, n);
    } else {
      var i := SomeSetsLast(Way(e), req, n);
    }
  }

  // Redirects -----------------------------------------------------------------------------------

  lemma {:induction false} MiddlewaresFrom(outer: seq<Layer>, i: nat)
    requires i <= |outer| && outer != []
    ensures i < |outer| ==>
              Middlewares(outer[i..]) == outer[|outer| - 1].within.middlewares + Middlewares(outer[..|outer| - 1][i..])
  {
    if i < |outer| {
      var s := outer[i..];
      assert s[|s| - 1] == outer[|outer| - 1] && s[..|s| - 1] == outer[..|outer| - 1][i..];
    }
  }

  /** A redirect of an outer route replaces the handler, whatever it was. The middlewares behind it are lost, those
      before it stay. */
  lemma {:induction false} OuterRedirectAnswers(outer: seq<Layer>, req: Request, st: State, i: nat)
    requires i < |outer| && outer[i].via.redirect(req).Some? && st.err.NoErr?
    requires forall j :: i < j < |outer| ==> outer[j].via.redirect(req).None?
    ensures var a := DressAll(outer, req, st);
            a.err.NoErr? && a.handler == Wrap(Middlewares(outer[i..]), outer[i].via.redirect(req)) && a.handler.Some?
    decreases |outer|
  {
    var init, last := outer[..|outer| - 1], outer[|outer| - 1];
    var redirect, mine := outer[i].via.redirect(req), last.within.middlewares;
    MiddlewaresFrom(outer, i);
    NoErrStays(init, req, st);
    if i == |init| {
      assert init[i..] == [] && mine + [] == mine;
      WrapKeepsSome(mine, redirect);
    } else {
      OuterRedirectAnswers(init, req, st, i);
      WrapConcat(mine, Middlewares(init[i..]), redirect);
      WrapKeepsSome(mine, DressAll(init, req, st).handler);
    }
  }

  lemma {:induction false} NoErrStays(outer: seq<Layer>, req: Request, st: State)
    requires st.err.NoErr?
    ensures DressAll(outer, req, st).err.NoErr?
    decreases |outer|
  {
    if outer != [] {
      NoErrStays(outer[..|outer| - 1], req, st);
    }
  }

  /** The answer of a leaf to a request that strict slash redirects: the redirect of the outermost route that has one. */
  lemma {:induction false} RedirectAnswers(e: Entry, req: Request, i: nat)
    requires e.Leaf? && i < |e.outer| && e.outer[i].via.redirect(req).Some?
    requires forall j :: i < j < |e.outer| ==> e.outer[j].via.redirect(req).None?
    ensures LeafAnswer(e, req).handler == Wrap(Middlewares(e.outer[i..]), e.outer[i].via.redirect(req))
    ensures LeafAnswer(e, req).err.NoErr?
  {
    OuterRedirectAnswers(e.outer, req, Dress(Layer(e.route, e.home), req, Start), i);
  }

  lemma {:induction false} LeafRedirectAnswers(e: Entry, req: Request)
    requires e.Leaf? && e.route.redirect(req).Some?
    requires forall j :: 0 <= j < |e.outer| ==> e.outer[j].via.redirect(req).None?
    ensures LeafAnswer(e, req).handler == Wrap(Middlewares(e.outer) + e.home.middlewares, e.route.redirect(req))
  {
    var inner := Dress(Layer(e.route, e.home), req, Start);
    WrapKeepsSome(e.home.middlewares, e.route.redirect(req));
    DressAllWraps(e.outer, req, inner);
    WrapConcat(Middlewares(e.outer), e.home.middlewares, e.route.redirect(req));
  }

  // Refusals ------------------------------------------------------------------------------------

  lemma {:induction false} NotFoundDressed(outer: seq<Layer>, req: Request, st: State)
    requires st.err.NotFound? && st.handler.Some? && st.route.None?
    requires forall i :: 0 <= i < |outer| ==> outer[i].via.redirect(req).None?
    ensures var a := DressAll(outer, req, st);
            && a.err.NotFound? && a.handler == st.handler
            && a.route == if outer == [] then None else Some(outer[0].via.name)
    decreases |outer|
  {
    if outer != [] {
      var init := outer[..|outer| - 1];
      assert init != [] ==> init[0] == outer[0];
      NotFoundDressed(init, req, st);
    }
  }

  /** A handler for "not found" answers as it is, behind no middleware at any level, and the error stays. */
  lemma {:induction false} NotFoundAnswerIs(e: Entry, req: Request)
    requires e.Fallback? && NoRedirect(e, req)
    ensures FallbackAnswer(e, req, false).Some? <==> e.home.notFound.Some?
    ensures e.home.notFound.Some? ==>
              var a := FallbackAnswer(e, req, false).value;
              && a.handler == e.home.notFound && a.err.NotFound?
              && a.route == if e.outer == [] then None else Some(e.outer[0].via.name)
  {
    if e.home.notFound.Some? {
      NotFoundDressed(e.outer, req, Start.(handler := e.home.notFound, err := NotFound));
    }
  }

  /** A method-not-allowed handler of the root answers as it is, and the error stays. */
  lemma {:induction false} NotAllowedAnswerIs(e: Entry, req: Request)
    requires e.Fallback? && e.outer == []
    ensures FallbackAnswer(e, req, true).Some? <==> e.home.notAllowed.Some?
    ensures e.home.notAllowed.Some? ==>
              FallbackAnswer(e, req, true).value == State(None, e.home.notAllowed, None, MethodMismatch)
  {
  }
}
