/**
 Exactly when building a URL and matching it are inverse, and from which values a URL is built: route templates
 with default patterns in pkg/eggs/kmux/regexp.go.
 */
module RouteExact {
  import opened RouteTemplate
  import opened RouteUrl
  import opened SplitJoin

  ghost predicate DefaultPatterns(r: RouteRegexp) {
    forall i :: 0 <= i < |r.parts| ==> r.parts[i].pattern.None?
  }

  /** A template that newRouteRegexp accepted, with default patterns and no % in its literals. */
  ghost predicate Default(r: RouteRegexp) { Parsed(r) && PlainLiterals(r) && DefaultPatterns(r) && !r.kind.Query? }

  /** Every literal between two variables contains the separator. */
  predicate LiteralsSeparate(r: RouteRegexp) {
    forall i :: 0 < i < |r.parts| ==> Separator(r.kind) in r.parts[i].raw
  }

  /** No value is empty or contains the separator. */
  predicate Good(vs: seq<string>, c: char) { forall i :: 0 <= i < |vs| ==> vs[i] != "" && c !in vs[i] }

  ghost predicate Defaults(vars: seq<Var>, kind: Kind) {
    forall i :: 0 <= i < |vars| ==> vars[i].allowed == DefaultClass(kind)
  }

  lemma {:induction false} RunStops(s: string, kind: Kind)
    ensures Run(s, DefaultClass(kind)) < |s| <==> Separator(kind) in s
  {
    if s != "" {
      RunStops(s[1..], kind);
      assert s == [s[0]] + s[1..];
    }
  }

  lemma {:induction false} SeparatedIff(vars: seq<Var>, kind: Kind)
    requires Defaults(vars, kind)
    ensures Separated(vars) <==> forall i :: 0 < i < |vars| ==> Separator(kind) in vars[i].raw
    decreases |vars|
  {
    if |vars| > 1 {
      var rest := vars[1..];
      RunStops(vars[1].raw, kind);
      SeparatedIff(rest, kind);
      assert forall i :: 0 < i < |rest| ==> rest[i] == vars[i + 1];
      assert forall i :: 1 < i < |vars| ==> vars[i] == rest[i - 1];
    }
  }

  lemma {:induction false} GoodIffValid(vars: seq<Var>, kind: Kind, vs: seq<string>)
    requires |vs| == |vars| && Defaults(vars, kind)
    ensures AllValid(vars, vs) <==> Good(vs, Separator(kind))
    decreases |vars|
  {
    if vars != [] {
      assert InClass(vs[0], vars[0].allowed) <==> Separator(kind) !in vs[0];
      GoodIffValid(vars[1..], kind, vs[1..]);
      assert vs == [vs[0]] + vs[1..];
    }
  }

  /** What compiling does to such a template. */
  lemma {:induction false} Compiled(r: RouteRegexp, custom: string -> Class)
    requires DefaultPatterns(r)
    ensures var vars := Compile(r, custom).vars;
            Defaults(vars, r.kind) && forall i :: 0 <= i < |vars| ==> vars[i].raw == r.parts[i].raw
    ensures Separated(Compile(r, custom).vars) <==> LiteralsSeparate(r)
  {
    var vars := Compile(r, custom).vars;
    forall i | 0 <= i < |vars| ensures vars[i].raw == r.parts[i].raw && vars[i].allowed == DefaultClass(r.kind) {
      RawsKept(r.parts, r.kind, custom, i);
    }
    SeparatedIff(vars, r.kind);
  }

  lemma {:induction false} NoBadValue(vars: seq<Var>, vs: seq<string>, k: nat)
    requires |vs| == |vars| && k <= |vars|
    ensures FirstBad(vars, vs, k) == |vars| <==> AllValid(vars[k..], vs[k..])
    decreases |vars| - k
  {
    if k < |vars| {
      assert vars[k..][0] == vars[k] && vars[k..][1..] == vars[k + 1..];
      assert vs[k..][0] == vs[k] && vs[k..][1..] == vs[k + 1..];
      NoBadValue(vars, vs, k + 1);
    }
  }

  /** The text that url puts together. */
  function UrlText(r: RouteRegexp, custom: string -> Class, vs: seq<string>): string
    requires |vs| == |r.parts|
  {
    Build(Compile(r, custom).vars, r.tail + Slash(r.endSlash), vs)
  }

  /** It is returned when it matches, or when each value is good. */
  lemma {:induction false} UrlWhen(r: RouteRegexp, custom: string -> Class, vs: seq<string>)
    requires Default(r) && |vs| == |r.parts|
    ensures var u := UrlOf(r, Compile(r, custom), vs);
            && (u.Url? <==> Find(Compile(r, custom), 0, UrlText(r, custom, vs)).Some? || Good(vs, Separator(r.kind)))
            && (u.Url? ==> u.url == UrlText(r, custom, vs))
  {
    var re := Compile(r, custom);
    UrlIsBuilt(r, custom, vs);
    Compiled(r, custom);
    assert re.vars[0..] == re.vars && vs[0..] == vs;
    NoBadValue(re.vars, vs, 0);
    GoodIffValid(re.vars, r.kind, vs);
  }

  // Literals must separate ----------------------------------------------------------------------

  /** Two lists that differ only around one literal, and not in the text around it, build the same URL. */
  lemma {:induction false} SameBuild(vars: seq<Var>, tail: string, a: seq<string>, b: seq<string>, i: nat)
    requires |a| == |b| == |vars| && 0 < i < |vars|
    requires a[..i - 1] == b[..i - 1] && a[i + 1..] == b[i + 1..]
    requires a[i - 1] + vars[i].raw + a[i] == b[i - 1] + vars[i].raw + b[i]
    ensures Build(vars, tail, a) == Build(vars, tail, b)
    decreases i
  {
    if i == 1 {
      var rest := Build(vars[2..], tail, a[2..]);
      assert vars[1..][1..] == vars[2..] && a[1..][1..] == a[2..] && b[1..][1..] == b[2..];
      TwoBuilt(vars[0].raw, a[0], vars[1].raw, a[1], rest);
      TwoBuilt(vars[0].raw, b[0], vars[1].raw, b[1], rest);
    } else {
      assert a[0] == a[..i - 1][0] == b[..i - 1][0] == b[0];
      assert a[1..][..i - 2] == a[..i - 1][1..] && b[1..][..i - 2] == b[..i - 1][1..];
      assert a[1..][i..] == a[i + 1..] && b[1..][i..] == b[i + 1..];
      SameBuild(vars[1..], tail, a[1..], b[1..], i - 1);
    }
  }

  lemma {:induction false} TwoBuilt(p: string, x: string, literal: string, y: string, rest: string)
    ensures p + x + (literal + y + rest) == p + (x + literal + y) + rest
  {
  }

  /** A value for every part, `x` and `y` around literal `i`. */
  function Around(n: nat, i: nat, x: string, y: string): (vs: seq<string>)
    requires 0 < i < n
    ensures |vs| == n && vs[i - 1] == x && vs[i] == y
    ensures forall j :: 0 <= j < n && j != i && j != i - 1 ==> vs[j] == "a"
  {
    seq(n, j => if j == i - 1 then x else if j == i then y else "a")
  }

  lemma {:induction false} SameAround(vars: seq<Var>, tail: string, i: nat, x: string, y: string, x': string, y': string)
    requires 0 < i < |vars| && x + vars[i].raw + y == x' + vars[i].raw + y'
    ensures Build(vars, tail, Around(|vars|, i, x, y)) == Build(vars, tail, Around(|vars|, i, x', y'))
  {
    var a, b := Around(|vars|, i, x, y), Around(|vars|, i, x', y');
    assert a[..i - 1] == b[..i - 1] && a[i + 1..] == b[i + 1..];
    SameBuild(vars, tail, a, b, i);
  }

  lemma {:induction false} Shuffled(literal: string)
    ensures "x" + literal + ("x" + literal + "x") == ("x" + literal + "x") + literal + "x"
    ensures "" + literal + ("x" + literal + "x") == (literal + "x") + literal + "x"
  {
    assert "x" + literal + ("x" + literal + "x") == "x" + literal + "x" + literal + "x";
    assert "" + literal == literal;
    assert literal + ("x" + literal + "x") == literal + "x" + literal + "x";
  }

  /** A literal without the separator is ambiguous: two lists of good values build the same URL, and so does one
      with an empty value. */
  lemma {:induction false} AmbiguousWithoutSeparator(r: RouteRegexp, custom: string -> Class, i: nat)
    requires DefaultPatterns(r) && 0 < i < |r.parts| && Separator(r.kind) !in r.parts[i].raw
    ensures var literal, n, c := r.parts[i].raw, |r.parts|, Separator(r.kind);
            && Good(Around(n, i, "x", "x" + literal + "x"), c)
            && Good(Around(n, i, "x" + literal + "x", "x"), c)
            && Good(Around(n, i, literal + "x", "x"), c)
            && UrlText(r, custom, Around(n, i, "x", "x" + literal + "x"))
               == UrlText(r, custom, Around(n, i, "x" + literal + "x", "x"))
            && UrlText(r, custom, Around(n, i, "", "x" + literal + "x"))
               == UrlText(r, custom, Around(n, i, literal + "x", "x"))
  {
    var literal := r.parts[i].raw;
    var vars, tail := Compile(r, custom).vars, r.tail + Slash(r.endSlash);
    Compiled(r, custom);
    Shuffled(literal);
    SameAround(vars, tail, i, "x", "x" + literal + "x", "x" + literal + "x", "x");
    SameAround(vars, tail, i, "", "x" + literal + "x", literal + "x", "x");
  }

  // The round trip ------------------------------------------------------------------------------

  /**
   For a template with default patterns, any tail and strict slash or not: every list of good values comes back
   from its URL exactly if every literal between two variables contains the separator.
   */
  lemma {:induction false} RoundTripIff(r: RouteRegexp, custom: string -> Class)
    requires Default(r)
    ensures (forall vs :: |vs| == |r.parts| && Good(vs, Separator(r.kind)) ==> RoundTrips(r, custom, vs))
            <==> LiteralsSeparate(r)
  {
    var re := Compile(r, custom);
    Compiled(r, custom);
    if LiteralsSeparate(r) {
      forall vs | |vs| == |r.parts| && Good(vs, Separator(r.kind)) ensures RoundTrips(r, custom, vs) {
        GoodIffValid(re.vars, r.kind, vs);
        MatchesItself(r, custom, vs);
      }
    } else {
      var i :| 0 < i < |r.parts| && Separator(r.kind) !in r.parts[i].raw;
      AmbiguousWithoutSeparator(r, custom, i);
      var literal, n := r.parts[i].raw, |r.parts|;
      var a, b := Around(n, i, "x", "x" + literal + "x"), Around(n, i, "x" + literal + "x", "x");
      UrlWhen(r, custom, a);
      UrlWhen(r, custom, b);
      assert a[i] != b[i];
      assert !(RoundTrips(r, custom, a) && RoundTrips(r, custom, b));
    }
  }

  // When a URL is built -------------------------------------------------------------------------

  lemma {:induction false} BuildTail(vars: seq<Var>, tail: string, more: string, vs: seq<string>)
    requires |vs| == |vars|
    ensures Build(vars, tail + more, vs) == Build(vars, tail, vs) + more
    decreases |vars|
  {
    if vars != [] {
      BuildTail(vars[1..], tail, more, vs[1..]);
    }
  }

  lemma {:induction false} CountBuild(c: char, vars: seq<Var>, tail: string, a: seq<string>, b: seq<string>)
    requires |a| == |b| == |vars|
    ensures Occurrences(Build(vars, tail, a), c) + TotalOccurrences(b, c)
            == Occurrences(Build(vars, tail, b), c) + TotalOccurrences(a, c)
    decreases |vars|
  {
    if vars != [] {
      OccurrencesConcat(vars[0].raw + a[0], Build(vars[1..], tail, a[1..]), c);
      OccurrencesConcat(vars[0].raw, a[0], c);
      OccurrencesConcat(vars[0].raw + b[0], Build(vars[1..], tail, b[1..]), c);
      OccurrencesConcat(vars[0].raw, b[0], c);
      CountBuild(c, vars[1..], tail, a[1..], b[1..]);
    }
  }

  lemma {:induction false} GoodCounts(vs: seq<string>, c: char)
    ensures Good(vs, c) <==> TotalOccurrences(vs, c) == 0 && forall i :: 0 <= i < |vs| ==> vs[i] != ""
  {
    NoneOccurIff(vs, c);
  }

  lemma {:induction false} RunSkips(v: string, rest: string, allowed: Class)
    requires InClass(v, allowed)
    ensures Run(v + rest, allowed) == |v| + Run(rest, allowed)
    decreases |v|
  {
    if v == "" {
      assert v + rest == rest;
    } else {
      assert (v + rest)[1..] == v[1..] + rest;
      RunSkips(v[1..], rest, allowed);
    }
  }

  lemma {:induction false} RunStaysInside(literal: string, rest: string, allowed: Class)
    requires Run(literal, allowed) < |literal|
    ensures Run(literal + rest, allowed) == Run(literal, allowed)
    decreases |literal|
  {
    if allowed(literal[0]) {
      assert (literal + rest)[1..] == literal[1..] + rest;
      RunStaysInside(literal[1..], rest, allowed);
    }
  }

  lemma {:induction false} SamePrefix(raw: string, x: string, y: string)
    requires raw + x == raw + y
    ensures x == y
  {
    assert (raw + x)[|raw|..] == x && (raw + y)[|raw|..] == y;
  }

  /** Where a literal that stops the variable follows, the value before it is determined. */
  lemma {:induction false} SameFront(literal: string, allowed: Class, a: string, restA: string, b: string, restB: string)
    requires InClass(a, allowed) && InClass(b, allowed) && Run(literal, allowed) < |literal|
    requires a + (literal + restA) == b + (literal + restB)
    ensures a == b
  {
    RunSkips(a, literal + restA, allowed);
    RunSkips(b, literal + restB, allowed);
    RunStaysInside(literal, restA, allowed);
    RunStaysInside(literal, restB, allowed);
    assert (a + (literal + restA))[..|a|] == a && (b + (literal + restB))[..|b|] == b;
  }

  /** Two lists without the separator that build the same URL are equal. */
  lemma {:induction false} BuildIsInjective(vars: seq<Var>, kind: Kind, tail: string, a: seq<string>, b: seq<string>)
    requires |a| == |b| == |vars| && Defaults(vars, kind) && Separated(vars)
    requires TotalOccurrences(a, Separator(kind)) == 0 && TotalOccurrences(b, Separator(kind)) == 0
    requires Build(vars, tail, a) == Build(vars, tail, b)
    ensures a == b
    decreases |vars|
  {
    if vars != [] {
      var restA, restB := Build(vars[1..], tail, a[1..]), Build(vars[1..], tail, b[1..]);
      FirstValue(vars, kind, tail, a, b);
      SamePrefix(vars[0].raw + a[0], restA, restB);
      BuildIsInjective(vars[1..], kind, tail, a[1..], b[1..]);
      assert a == [a[0]] + a[1..] && b == [b[0]] + b[1..];
    }
  }

  lemma {:induction false} FirstValue(vars: seq<Var>, kind: Kind, tail: string, a: seq<string>, b: seq<string>)
    requires vars != [] && |a| == |b| == |vars| && Defaults(vars, kind) && Separated(vars)
    requires TotalOccurrences(a, Separator(kind)) == 0 && TotalOccurrences(b, Separator(kind)) == 0
    requires Build(vars, tail, a) == Build(vars, tail, b)
    ensures a[0] == b[0]
  {
    var restA, restB := Build(vars[1..], tail, a[1..]), Build(vars[1..], tail, b[1..]);
    OccursIff(a[0], Separator(kind));
    OccursIff(b[0], Separator(kind));
    assert Build(vars, tail, a) == vars[0].raw + (a[0] + restA);
    assert Build(vars, tail, b) == vars[0].raw + (b[0] + restB);
    SamePrefix(vars[0].raw, a[0] + restA, b[0] + restB);
    if |vars| > 1 {
      var literal := vars[1].raw;
      var moreA, moreB := a[1] + Build(vars[1..][1..], tail, a[1..][1..]), b[1] + Build(vars[1..][1..], tail, b[1..][1..]);
      assert restA == literal + moreA && restB == literal + moreB;
      SameFront(literal, DefaultClass(kind), a[0], moreA, b[0], moreB);
    } else {
      assert restA == restB == tail;
      assert (a[0] + restA)[..|a[0]|] == a[0] && (b[0] + restB)[..|b[0]|] == b[0];
    }
  }

  /** A decomposition under an anchored expression rebuilds the string, up to the optional slash. */
  lemma {:induction false} DecompositionBuilds(re: Regexp, k: nat, s: string, cs: seq<string>)
    requires k <= |re.vars| && re.anchored && Decomposes(re, k, s, cs)
    ensures |cs| == |re.vars| - k && AllValid(re.vars[k..], cs)
    ensures s == Build(re.vars[k..], re.tail, cs) || (re.strictSlash && s == Build(re.vars[k..], re.tail + "/", cs))
    decreases |re.vars| - k
  {
    if k < |re.vars| {
      var head := re.vars[k].raw + cs[0];
      assert re.vars[k..][0] == re.vars[k] && re.vars[k..][1..] == re.vars[k + 1..];
      DecompositionBuilds(re, k + 1, s[|head|..], cs[1..]);
      assert s == head + s[|head|..];
    }
  }

  /** And the other way: what is built from valid values decomposes. */
  lemma {:induction false} BuiltDecomposes(re: Regexp, k: nat, tail: string, cs: seq<string>)
    requires k <= |re.vars| && |cs| == |re.vars| - k && AllValid(re.vars[k..], cs) && TailMatches(re, tail)
    ensures Decomposes(re, k, Build(re.vars[k..], tail, cs), cs)
    decreases |re.vars| - k
  {
    if k < |re.vars| {
      var head, rest := re.vars[k].raw + cs[0], Build(re.vars[k + 1..], tail, cs[1..]);
      assert re.vars[k..][0] == re.vars[k] && re.vars[k..][1..] == re.vars[k + 1..];
      BuiltDecomposes(re, k + 1, tail, cs[1..]);
      assert (head + rest)[|head|..] == rest;
    }
  }

  /** The URL of `vs` is that of good values with a slash behind it. */
  ghost predicate Swallowed(r: RouteRegexp, custom: string -> Class, vs: seq<string>)
    requires |vs| == |r.parts|
  {
    exists cs :: |cs| == |r.parts| && Good(cs, '/') && UrlText(r, custom, vs) == UrlText(r, custom, cs) + "/"
  }

  /** The template lets the optional slash swallow the end of a value. */
  predicate Swallows(r: RouteRegexp) { r.strictSlash && !r.endSlash && r.tail == "" && r.parts != [] }

  /**
   Which URLs are built: for a path or host template whose literals separate, those of good values, and with a
   strict slash and a variable at the end also those that are such a URL with a slash behind it.
   */
  lemma {:induction false} UrlOfValues(r: RouteRegexp, custom: string -> Class, vs: seq<string>)
    requires Default(r) && !r.kind.Prefix? && LiteralsSeparate(r) && |vs| == |r.parts|
    ensures UrlOf(r, Compile(r, custom), vs).Url?
            <==> Good(vs, Separator(r.kind)) || (Swallows(r) && Swallowed(r, custom, vs))
  {
    var re := Compile(r, custom);
    var s := UrlText(r, custom, vs);
    UrlWhen(r, custom, vs);
    if Find(re, 0, s).Some? {
      MatchedIsGood(r, custom, vs);
    }
    if Swallows(r) && Swallowed(r, custom, vs) {
      SwallowedMatches(r, custom, vs);
    }
  }

  lemma {:induction false} GoodTextMatches(r: RouteRegexp, custom: string -> Class, tail: string, cs: seq<string>)
    requires Default(r) && |cs| == |r.parts| && Good(cs, Separator(r.kind)) && TailMatches(Compile(r, custom), tail)
    ensures Find(Compile(r, custom), 0, Build(Compile(r, custom).vars, tail, cs)).Some?
  {
    var re := Compile(r, custom);
    Compiled(r, custom);
    GoodIffValid(re.vars, r.kind, cs);
    assert re.vars[0..] == re.vars;
    BuiltDecomposes(re, 0, tail, cs);
    FindIsComplete(re, 0, Build(re.vars, tail, cs), cs);
  }

  lemma {:induction false} SwallowedMatches(r: RouteRegexp, custom: string -> Class, vs: seq<string>)
    requires Default(r) && |vs| == |r.parts| && Swallows(r) && Swallowed(r, custom, vs)
    ensures Find(Compile(r, custom), 0, UrlText(r, custom, vs)).Some?
  {
    var cs :| |cs| == |r.parts| && Good(cs, '/') && UrlText(r, custom, vs) == UrlText(r, custom, cs) + "/";
    BuildTail(Compile(r, custom).vars, r.tail, "/", cs);
    assert r.tail + "" == r.tail;
    GoodTextMatches(r, custom, r.tail + "/", cs);
  }

  lemma {:induction false} MatchedIsGood(r: RouteRegexp, custom: string -> Class, vs: seq<string>)
    requires Default(r) && !r.kind.Prefix? && LiteralsSeparate(r) && |vs| == |r.parts|
    requires Find(Compile(r, custom), 0, UrlText(r, custom, vs)).Some?
    ensures Good(vs, Separator(r.kind)) || (Swallows(r) && Swallowed(r, custom, vs))
  {
    var re, s := Compile(r, custom), UrlText(r, custom, vs);
    var cs := Find(re, 0, s).value;
    Compiled(r, custom);
    FindIsSound(re, 0, s);
    assert re.vars[0..] == re.vars;
    DecompositionBuilds(re, 0, s, cs);
    GoodIffValid(re.vars, r.kind, cs);
    BuildTail(re.vars, r.tail, Slash(r.endSlash), vs);
    BuildTail(re.vars, r.tail, Slash(r.endSlash), cs);
    BuildTail(re.vars, r.tail, "/", cs);
    hide Find, Decomposes, Separated, AllValid, Parsed;
    CasesOfSlash(r, re.vars, vs, cs);
    if Swallows(r) && !Good(vs, Separator(r.kind)) {
      assert UrlText(r, custom, vs) == UrlText(r, custom, cs) + "/";
    }
  }

  /** Values that build what good values build are those; with one slash more on one side it depends. */
  lemma {:induction false} CasesOfSlash(r: RouteRegexp, vars: seq<Var>, vs: seq<string>, cs: seq<string>)
    requires Parsed(r) && |vs| == |cs| == |vars| == |r.parts| && Defaults(vars, r.kind) && Separated(vars)
    requires Good(cs, Separator(r.kind))
    requires var s := Build(vars, r.tail, vs) + Slash(r.endSlash);
             s == Build(vars, r.tail, cs) || (r.strictSlash && s == Build(vars, r.tail, cs) + "/")
    ensures Good(vs, Separator(r.kind)) || (Swallows(r) && Build(vars, r.tail, vs) == Build(vars, r.tail, cs) + "/")
  {
    var c, a, b := Separator(r.kind), Build(vars, r.tail, vs), Build(vars, r.tail, cs);
    CountBuild(c, vars, r.tail, vs, cs);
    GoodCounts(vs, c);
    GoodCounts(cs, c);
    OneSlashMore(a, b);
    if a == b {
      BuildIsInjective(vars, r.kind, r.tail, vs, cs);
    } else if r.tail != "" {
      TextEndsWithTail(vars, r.tail, vs);
    }
  }

  lemma {:induction false} OneSlashMore(a: string, b: string)
    ensures a + "/" == b + "/" ==> a == b
    ensures a + "/" == b ==> Occurrences(b, '/') == Occurrences(a, '/') + 1
    ensures a + "" == a
  {
    OccurrencesConcat(a, "/", '/');
    assert Occurrences("/", '/') == 1;
    assert (a + "/")[..|a|] == a && (b + "/")[..|b|] == b;
  }

  lemma {:induction false} TextEndsWithTail(vars: seq<Var>, tail: string, vs: seq<string>)
    requires |vs| == |vars| && tail != ""
    ensures var s := Build(vars, tail, vs); s != "" && s[|s| - 1] == tail[|tail| - 1]
  {
    assert "" + tail == tail;
    BuildTail(vars, "", tail, vs);
  }

  /** `more` behind the last value. */
  function OnLast(cs: seq<string>, more: string): (vs: seq<string>)
    requires cs != []
    ensures |vs| == |cs|
  {
    cs[..|cs| - 1] + [cs[|cs| - 1] + more]
  }

  lemma {:induction false} BuildOnLast(vars: seq<Var>, tail: string, cs: seq<string>, more: string)
    requires |cs| == |vars| > 0
    ensures Build(vars, tail, OnLast(cs, more)) == Build(vars, more + tail, cs)
    decreases |vars|
  {
    var vs := OnLast(cs, more);
    if |vars| > 1 {
      assert vs[1..] == OnLast(cs[1..], more);
      BuildOnLast(vars[1..], tail, cs[1..], more);
    } else {
      assert vars[0].raw + (cs[0] + more) + tail == vars[0].raw + cs[0] + (more + tail);
    }
  }

  /** Values that are not good and build a URL, wherever the condition below fails. */
  lemma {:induction false} BadValuesBuild(r: RouteRegexp, custom: string -> Class) returns (vs: seq<string>)
    requires Default(r) && !(LiteralsSeparate(r) && !Swallows(r) && (r.kind.Prefix? ==> r.parts == []))
    ensures |vs| == |r.parts| && !Good(vs, Separator(r.kind)) && UrlOf(r, Compile(r, custom), vs).Url?
  {
    var re, n := Compile(r, custom), |r.parts|;
    if !LiteralsSeparate(r) {
      var i :| 0 < i < n && Separator(r.kind) !in r.parts[i].raw;
      var literal := r.parts[i].raw;
      AmbiguousWithoutSeparator(r, custom, i);
      vs := Around(n, i, "", "x" + literal + "x");
      assert vs[i - 1] == "";
      GoodTextMatches(r, custom, r.tail + Slash(r.endSlash), Around(n, i, literal + "x", "x"));
    } else {
      var cs := seq(n, j => "x");
      var more := if r.kind.Prefix? then r.tail + "/" else "/";
      vs := OnLast(cs, more);
      assert vs[n - 1] == "x" + more && more[|more| - 1] == '/' && '/' in vs[n - 1];
      assert r.tail + Slash(r.endSlash) == r.tail;
      BuildOnLast(re.vars, r.tail, cs, more);
      assert r.kind.Prefix? ==> r.tail <= more + r.tail;
      GoodTextMatches(r, custom, more + r.tail, cs);
    }
    UrlWhen(r, custom, vs);
  }

  /**
   A template with default patterns builds URLs from good values and no others exactly if every literal between
   two variables contains the separator, no optional slash follows a variable, and it is no prefix with variables.
   */
  lemma {:induction false} UrlIsBuiltIff(r: RouteRegexp, custom: string -> Class)
    requires Default(r)
    ensures (forall vs :: |vs| == |r.parts| ==>
               (UrlOf(r, Compile(r, custom), vs).Url? <==> Good(vs, Separator(r.kind))))
            <==> LiteralsSeparate(r) && !Swallows(r) && (r.kind.Prefix? ==> r.parts == [])
  {
    if LiteralsSeparate(r) && !Swallows(r) && (r.kind.Prefix? ==> r.parts == []) {
      forall vs | |vs| == |r.parts|
        ensures UrlOf(r, Compile(r, custom), vs).Url? <==> Good(vs, Separator(r.kind))
      {
        if r.kind.Prefix? {
          UrlWhen(r, custom, vs);
        } else {
          UrlOfValues(r, custom, vs);
        }
      }
    } else {
      var vs := BadValuesBuild(r, custom);
    }
  }

  /** With an optional slash after the last variable and a last value that is not empty: a URL is built from good
      values and from those with one slash behind the last. */
  lemma {:induction false} SlashBehindLast(r: RouteRegexp, custom: string -> Class, vs: seq<string>)
    requires Default(r) && LiteralsSeparate(r) && Swallows(r) && |vs| == |r.parts| && vs[|vs| - 1] != ""
    ensures UrlOf(r, Compile(r, custom), vs).Url? <==>
            Good(vs, '/') || exists us :: us != [] && Good(us, '/') && vs == OnLast(us, "/")
  {
    var vars, n := Compile(r, custom).vars, |vs|;
    assert r.tail + Slash(r.endSlash) == "";
    UrlOfValues(r, custom, vs);
    if us :| us != [] && Good(us, '/') && vs == OnLast(us, "/") {
      OnLastText(vars, us);
      assert UrlText(r, custom, vs) == UrlText(r, custom, us) + "/";
    }
    if Swallowed(r, custom, vs) {
      var cs :| |cs| == n && Good(cs, '/') && UrlText(r, custom, vs) == UrlText(r, custom, cs) + "/";
      Compiled(r, custom);
      OnlyLastHasSlash(vars, r.kind, vs, cs);
    }
  }

  lemma {:induction false} OnLastText(vars: seq<Var>, us: seq<string>)
    requires |us| == |vars| > 0
    ensures Build(vars, "", OnLast(us, "/")) == Build(vars, "", us) + "/"
  {
    assert "/" + "" == "" + "/" == "/";
    BuildOnLast(vars, "", us, "/");
    BuildTail(vars, "", "/", us);
  }

  lemma {:induction false} OnlyLastHasSlash(vars: seq<Var>, kind: Kind, vs: seq<string>, cs: seq<string>)
    requires |vs| == |cs| == |vars| > 0 && Defaults(vars, kind) && Separated(vars) && kind.Path?
    requires Good(cs, '/') && vs[|vs| - 1] != "" && Build(vars, "", vs) == Build(vars, "", cs) + "/"
    ensures vs == OnLast(cs, "/")
  {
    var n := |vs|;
    var w := vs[n - 1];
    var us, o := vs[..n - 1] + [w[..|w| - 1]], w[|w| - 1];
    assert w[..|w| - 1] + [o] == w;
    assert OnLast(us, [o]) == vs[..n - 1] + [w] == vs;
    assert [o] + "" == "" + [o] == [o];
    BuildOnLast(vars, "", us, [o]);
    BuildTail(vars, "", [o], us);
    var a, b := Build(vars, "", us), Build(vars, "", cs);
    assert (a + [o])[..|a|] == a && (a + [o])[|a|] == o;
    assert (b + "/")[..|b|] == b && (b + "/")[|b|] == '/';
    CountBuild('/', vars, "", us, cs);
    GoodCounts(cs, '/');
    BuildIsInjective(vars, kind, "", us, cs);
  }

  // Templates with single slashes between the variables ------------------------------------------

  /** Nothing but a slash between two variables, as in /{a}/{b}. */
  predicate SingleSlashes(r: RouteRegexp) { forall i :: 0 < i < |r.parts| ==> r.parts[i].raw == "/" }

  lemma {:induction false} BuildIsJoin(vars: seq<Var>, vs: seq<string>)
    requires |vs| == |vars| > 0 && forall i :: 0 < i < |vars| ==> vars[i].raw == "/"
    ensures Build(vars, "", vs) == vars[0].raw + Join(vs, "/")
    decreases |vars|
  {
    var raw := vars[0].raw;
    if |vars| > 1 {
      BuildIsJoin(vars[1..], vs[1..]);
      assert raw + vs[0] + ("/" + Join(vs[1..], "/")) == raw + (vs[0] + "/" + Join(vs[1..], "/"));
    } else {
      assert raw + vs[0] + "" == raw + vs[0];
    }
  }

  lemma {:induction false} JoinSnoc(cs: seq<string>)
    requires cs != []
    ensures Join(cs + [""], "/") == Join(cs, "/") + "/"
  {
    if |cs| == 1 {
      assert (cs + [""])[1..] == [""];
      assert cs[0] + "/" + "" == cs[0] + "/";
    } else {
      assert (cs + [""])[1..] == cs[1..] + [""];
      JoinSnoc(cs[1..]);
    }
  }

  lemma {:induction false} JoinInverts(s: string)
    ensures Join(Split(s, '/'), "/") == s
  {
    if s != "" {
      var rest := Split(s[1..], '/');
      JoinInverts(s[1..]);
      assert [s[0]] + s[1..] == s;
      if s[0] == '/' {
        assert ([""] + rest)[1..] == rest;
        assert "" + "/" + s[1..] == s;
      } else if |rest| > 1 {
        assert ([[s[0]] + rest[0]] + rest[1..])[1..] == rest[1..];
        assert [s[0]] + rest[0] + "/" + Join(rest[1..], "/") == [s[0]] + (rest[0] + "/" + Join(rest[1..], "/"));
      }
    }
  }

  /**
   For those with an optional slash at the end, whatever the values: a URL is built from values that are good, or
   that give, split at their slashes, as many good pieces as there are variables and then an empty one. So /{a}/{b}
   takes "x/y" and "", too, and makes them /x/y/.
   */
  lemma {:induction false} SlashedPieces(r: RouteRegexp, custom: string -> Class, vs: seq<string>)
    requires Default(r) && SingleSlashes(r) && Swallows(r) && |vs| == |r.parts|
    ensures UrlOf(r, Compile(r, custom), vs).Url? <==>
            Good(vs, '/') || exists us :: |us| == |vs| && Good(us, '/') && Split(Join(vs, "/"), '/') == us + [""]
  {
    var vars := Compile(r, custom).vars;
    assert r.tail + Slash(r.endSlash) == "";
    Compiled(r, custom);
    UrlOfValues(r, custom, vs);
    forall us | |us| == |vs| && Good(us, '/')
      ensures UrlText(r, custom, vs) == UrlText(r, custom, us) + "/" <==> Split(Join(vs, "/"), '/') == us + [""]
    {
      BuildIsJoin(vars, vs);
      BuildIsJoin(vars, us);
      SamePieces(vars[0].raw, vs, us);
    }
  }

  lemma {:induction false} SamePieces(raw: string, vs: seq<string>, us: seq<string>)
    requires us != [] && Good(us, '/')
    ensures raw + Join(vs, "/") == raw + Join(us, "/") + "/" <==> Split(Join(vs, "/"), '/') == us + [""]
  {
    assert raw + Join(us, "/") + "/" == raw + (Join(us, "/") + "/");
    JoinSnoc(us);
    SplitInverts(us + [""], '/');
    JoinInverts(Join(vs, "/"));
    if raw + Join(vs, "/") == raw + Join(us, "/") + "/" {
      SamePrefix(raw, Join(vs, "/"), Join(us, "/") + "/");
    }
  }
}
