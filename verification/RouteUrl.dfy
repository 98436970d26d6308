/**
 Matching a compiled route template, and building a URL from it: routeRegexp.url, extractVars and the
 meaning of the regular expressions that newRouteRegexp assembles, in pkg/eggs/kmux/regexp.go.

 A variable pattern is a non-empty run of characters of a class: [^/]+ and [^.]+ by default, [0-9]+ and
 the like when given.
 */
module RouteUrl {
  import opened Options
  import opened RouteTemplate

  type Class = char -> bool

  datatype Var = Var(raw: string, name: string, allowed: Class)

  /** `anchored` is the final `$`, `strictSlash` the `[/]?` before it. */
  datatype Regexp = Regexp(vars: seq<Var>, tail: string, strictSlash: bool, anchored: bool)

  function Separator(kind: Kind): char { if kind.Host? then '.' else '/' }

  function DefaultClass(kind: Kind): Class { c => c != Separator(kind) }

  /** `custom` says what class a given pattern stands for. */
  function CompileParts(parts: seq<Part>, kind: Kind, custom: string -> Class): (vars: seq<Var>)
    ensures |vars| == |parts|
  {
    if parts == [] then []
    else
      var p := parts[0];
      [Var(p.raw, p.name, if p.pattern.Some? then custom(p.pattern.value) else DefaultClass(kind))]
      + CompileParts(parts[1..], kind, custom)
  }

  function Compile(r: RouteRegexp, custom: string -> Class): Regexp {
    Regexp(CompileParts(r.parts, r.kind, custom), r.tail, r.strictSlash, !r.kind.Prefix?)
  }

  // Matching ------------------------------------------------------------------------------------

  predicate InClass(s: string, allowed: Class) { forall i :: 0 <= i < |s| ==> allowed(s[i]) }

  predicate Valid(v: string, allowed: Class) { v != "" && InClass(v, allowed) }

  /** The length of the longest prefix in the class. */
  function Run(s: string, allowed: Class): (n: nat)
    ensures n <= |s| && InClass(s[..n], allowed) && (n < |s| ==> !allowed(s[n]))
  {
    if s == "" || !allowed(s[0]) then 0
    else
      var n := Run(s[1..], allowed);
      assert s[..n + 1] == [s[0]] + s[1..][..n];
      n + 1
  }

  predicate TailMatches(re: Regexp, s: string) {
    if re.anchored then s == re.tail || (re.strictSlash && s == re.tail + "/") else re.tail <= s
  }

  /** FindStringSubmatch from variable k on: leftmost-first, each run as long as possible. */
  function Find(re: Regexp, k: nat, s: string): (r: Option<seq<string>>)
    requires k <= |re.vars|
    ensures r.Some? ==> |r.value| == |re.vars| - k
    decreases |re.vars| - k, 1, 0
  {
    if k == |re.vars| then if TailMatches(re, s) then Some([]) else None
    else
      var v := re.vars[k];
      if v.raw <= s then FindRun(re, k, s[|v.raw|..], Run(s[|v.raw|..], v.allowed)) else None
  }

  /** The runs of variable k of length n and less, the longest first. */
  function FindRun(re: Regexp, k: nat, s: string, n: nat): (r: Option<seq<string>>)
    requires k < |re.vars| && n <= |s|
    ensures r.Some? ==> |r.value| == |re.vars| - k
    decreases |re.vars| - k, 0, n
  {
    if n == 0 then None
    else
      match Find(re, k + 1, s[n..])
      case Some(cs) => Some([s[..n]] + cs)
      case None => FindRun(re, k, s, n - 1)
  }

  /** `s` splits into literals, captures `cs` and the tail, as the expression asks. */
  predicate Decomposes(re: Regexp, k: nat, s: string, cs: seq<string>)
    requires k <= |re.vars|
    decreases |re.vars| - k
  {
    if k == |re.vars| then cs == [] && TailMatches(re, s)
    else
      var v := re.vars[k];
      && cs != [] && Valid(cs[0], v.allowed)
      && v.raw + cs[0] <= s
      && Decomposes(re, k + 1, s[|v.raw + cs[0]|..], cs[1..])
  }

  lemma {:induction false} Cut(s: string, a: string, b: string)
    requires |a| <= |s|
    ensures a + b <= s <==> a <= s && b <= s[|a|..]
    ensures a + b <= s ==> s[|a + b|..] == s[|a|..][|b|..]
  {
  }

  /** A match found is a match. */
  lemma {:induction false} FindIsSound(re: Regexp, k: nat, s: string)
    requires k <= |re.vars| && Find(re, k, s).Some?
    ensures Decomposes(re, k, s, Find(re, k, s).value)
    decreases |re.vars| - k, 1, 0
  {
    if k < |re.vars| {
      var v := re.vars[k];
      var rest := s[|v.raw|..];
      FindRunIsSound(re, k, rest, Run(rest, v.allowed));
      Cut(s, v.raw, Find(re, k, s).value[0]);
    }
  }

  lemma {:induction false} FindRunIsSound(re: Regexp, k: nat, s: string, n: nat)
    requires k < |re.vars| && n <= |s| && InClass(s[..n], re.vars[k].allowed) && FindRun(re, k, s, n).Some?
    ensures var cs := FindRun(re, k, s, n).value;
            Valid(cs[0], re.vars[k].allowed) && cs[0] <= s && Decomposes(re, k + 1, s[|cs[0]|..], cs[1..])
    decreases |re.vars| - k, 0, n
  {
    if Find(re, k + 1, s[n..]).Some? {
      FindIsSound(re, k + 1, s[n..]);
      var rest := Find(re, k + 1, s[n..]).value;
      assert ([s[..n]] + rest)[1..] == rest;
    } else {
      FindRunIsSound(re, k, s, n - 1);
    }
  }

  /** If there is a match, one is found. */
  lemma {:induction false} FindIsComplete(re: Regexp, k: nat, s: string, cs: seq<string>)
    requires k <= |re.vars| && Decomposes(re, k, s, cs)
    ensures Find(re, k, s).Some?
    decreases |re.vars| - k, 1, 0
  {
    if k < |re.vars| {
      var v := re.vars[k];
      var rest := s[|v.raw|..];
      Cut(s, v.raw, cs[0]);
      RunIsLongest(rest, v.allowed, |cs[0]|);
      FindRunIsComplete(re, k, rest, Run(rest, v.allowed), cs);
    }
  }

  lemma {:induction false} RunIsLongest(s: string, allowed: Class, n: nat)
    requires n <= |s| && InClass(s[..n], allowed)
    ensures n <= Run(s, allowed)
  {
    if n > 0 {
      assert s[..n][0] == s[0];
      assert s[1..][..n - 1] == s[..n][1..];
      RunIsLongest(s[1..], allowed, n - 1);
    }
  }

  lemma {:induction false} FindRunIsComplete(re: Regexp, k: nat, s: string, n: nat, cs: seq<string>)
    requires k < |re.vars| && n <= |s| && cs != [] && 0 < |cs[0]| <= n
    requires Decomposes(re, k + 1, s[|cs[0]|..], cs[1..])
    ensures FindRun(re, k, s, n).Some?
    decreases |re.vars| - k, 0, n
  {
    if |cs[0]| == n {
      FindIsComplete(re, k + 1, s[n..], cs[1..]);
    } else {
      FindRunIsComplete(re, k, s, n - 1, cs);
    }
  }

  // Building ------------------------------------------------------------------------------------

  /** The literals from variable k on with the values between them. */
  function Build(vars: seq<Var>, tail: string, vs: seq<string>): string
    requires |vs| == |vars|
  {
    if vars == [] then tail else vars[0].raw + vs[0] + Build(vars[1..], tail, vs[1..])
  }

  /** The literal holds a character that the variable cannot contain; a run of the variable ends there at the
      latest. */
  predicate Stops(v: Var, literal: string) { Run(literal, v.allowed) < |literal| }

  /** Every literal between two variables stops the first of them. */
  predicate Separated(vars: seq<Var>)
    decreases |vars|
  {
    |vars| <= 1 || (Stops(vars[0], vars[1].raw) && Separated(vars[1..]))
  }

  predicate AllValid(vars: seq<Var>, vs: seq<string>)
    requires |vs| == |vars|
    decreases |vars|
  {
    vars == [] || (Valid(vs[0], vars[0].allowed) && AllValid(vars[1..], vs[1..]))
  }

  /** The last variable cannot take a slash from the end: it contains none, or the tail is not made of slashes. */
  predicate LastStopsAtSlash(re: Regexp) {
    re.vars == [] || !re.vars[|re.vars| - 1].allowed('/') || exists i :: 0 <= i < |re.tail| && re.tail[i] != '/'
  }

  /** A URL built from valid values matches, and its captures are exactly those values, whatever the tail. */
  lemma {:induction false} BuildThenFind(re: Regexp, k: nat, vs: seq<string>, slash: bool)
    requires k <= |re.vars| && |vs| == |re.vars| - k
    requires slash ==> re.anchored && re.strictSlash && LastStopsAtSlash(re)
    requires Separated(re.vars[k..]) && AllValid(re.vars[k..], vs)
    ensures Find(re, k, Build(re.vars[k..], re.tail + Slash(slash), vs)) == Some(vs)
    decreases |re.vars| - k
  {
    if k < |re.vars| {
      var v, tail := re.vars[k], re.tail + Slash(slash);
      var rest := Build(re.vars[k + 1..], tail, vs[1..]);
      assert re.vars[k..][0] == v && re.vars[k..][1..] == re.vars[k + 1..];
      BuildThenFind(re, k + 1, vs[1..], slash);
      if k + 1 < |re.vars| {
        assert re.vars[k + 1..][0] == re.vars[k + 1];
        assert re.vars[k + 1].raw <= rest;
        LongerRunsFail(re, k, vs[0], rest);
      } else {
        assert rest == tail;
        LongerLastRunsFail(re, k, vs[0], slash);
      }
      hide Separated, AllValid;
      FindFirst(re, k, vs, rest);
    }
  }

  /** No run of variable k that is longer than its value leads to a match. */
  ghost predicate OnlyUpTo(re: Regexp, k: nat, v: string, rest: string)
    requires k < |re.vars|
  {
    forall n :: |v| < n <= Run(v + rest, re.vars[k].allowed) ==> Find(re, k + 1, (v + rest)[n..]).None?
  }

  lemma {:induction false} LongerRunsFail(re: Regexp, k: nat, v: string, rest: string)
    requires k + 1 < |re.vars| && Stops(re.vars[k], re.vars[k + 1].raw) && re.vars[k + 1].raw <= rest
    ensures OnlyUpTo(re, k, v, rest)
  {
    var s, allowed, literal := v + rest, re.vars[k].allowed, re.vars[k + 1].raw;
    var e := Run(literal, allowed);
    forall n | |v| < n <= Run(s, allowed) ensures Find(re, k + 1, s[n..]).None? {
      RunPrefix(s, allowed, n);
      assert s[|v| + e] == rest[e] == literal[e];
      if literal <= s[n..] {
        LiteralTooLate(literal, allowed, e, s, |v|, n);
      }
    }
  }

  lemma {:induction false} RunPrefix(s: string, allowed: Class, n: nat)
    requires n <= Run(s, allowed)
    ensures forall i :: 0 <= i < n ==> allowed(s[i])
  {
    forall i | 0 <= i < n ensures allowed(s[i]) {
      assert s[..Run(s, allowed)][i] == s[i];
    }
  }

  /** A literal that starts at `i` has its first excluded character at `i` + e and so does not start later
      within a run. */
  lemma {:induction false} LiteralTooLate(literal: string, allowed: Class, e: nat, s: string, i: nat, n: nat)
    requires e == Run(literal, allowed) < |literal| && i + e < |s| && s[i + e] == literal[e]
    requires i < n <= |s| && forall j :: 0 <= j < n ==> allowed(s[j])
    ensures !(literal <= s[n..])
  {
    if n <= i + e {
      var o := i + e - n;
      assert s[n..][o] == s[i + e];
      assert literal[..e][o] == literal[o];
    }
  }

  lemma {:induction false} LongerLastRunsFail(re: Regexp, k: nat, v: string, slash: bool)
    requires k + 1 == |re.vars|
    requires slash ==> re.anchored && LastStopsAtSlash(re)
    ensures OnlyUpTo(re, k, v, re.tail + Slash(slash))
  {
    var rest := re.tail + Slash(slash);
    var s, allowed := v + rest, re.vars[k].allowed;
    forall n | |v| < n <= Run(s, allowed) ensures Find(re, k + 1, s[n..]).None? {
      RunPrefix(s, allowed, n);
      assert s[|v|] == rest[0];
      if re.anchored && s[n..] == re.tail {
        assert n == |v| + 1 && rest == [rest[0]] + re.tail == re.tail + "/";
        Shifted(re.tail, rest[0], '/');
        assert false;
      }
    }
  }

  lemma {:induction false} Shifted(t: string, x: char, y: char)
    requires [x] + t == t + [y]
    ensures x == y && forall i :: 0 <= i < |t| ==> t[i] == y
  {
    if t == "" {
      assert ([x] + t)[0] == x && (t + [y])[0] == y;
    } else {
      assert ([x] + t)[0] == (t + [y])[0] == t[0] == x;
      assert ([x] + t)[1..] == t && (t + [y])[1..] == t[1..] + [y];
      assert [t[0]] + t[1..] == t;
      Shifted(t[1..], x, y);
    }
  }

  lemma {:induction false} FindFirst(re: Regexp, k: nat, vs: seq<string>, rest: string)
    requires k < |re.vars| && |vs| == |re.vars| - k && Valid(vs[0], re.vars[k].allowed)
    requires OnlyUpTo(re, k, vs[0], rest) && Find(re, k + 1, rest) == Some(vs[1..])
    ensures Find(re, k, re.vars[k].raw + vs[0] + rest) == Some(vs)
  {
    hide Run, Find, FindRun, InClass;
    var v, allowed := vs[0], re.vars[k].allowed;
    var t := v + rest;
    Pieces3(re.vars[k].raw, v, rest);
    RunIsLongest(t, allowed, |v|);
    SkipRuns(re, k, t, Run(t, allowed), |v|);
    FindRunHere(re, k, t, |v|, vs[1..]);
    FindHere(re, k, re.vars[k].raw + v + rest, t);
    assert [v] + vs[1..] == vs;
  }

  lemma {:induction false} Pieces3(a: string, b: string, c: string)
    ensures a <= a + b + c && (a + b + c)[|a|..] == b + c && (b + c)[..|b|] == b && (b + c)[|b|..] == c
  {
  }

  lemma {:induction false} FindRunHere(re: Regexp, k: nat, t: string, n: nat, cs: seq<string>)
    requires k < |re.vars| && 0 < n <= |t| && Find(re, k + 1, t[n..]) == Some(cs)
    ensures FindRun(re, k, t, n) == Some([t[..n]] + cs)
  {
    hide Find;
  }

  lemma {:induction false} FindHere(re: Regexp, k: nat, s: string, t: string)
    requires k < |re.vars| && re.vars[k].raw <= s && s[|re.vars[k].raw|..] == t
    ensures Find(re, k, s) == FindRun(re, k, t, Run(t, re.vars[k].allowed))
  {
  }

  lemma {:induction false} SkipRuns(re: Regexp, k: nat, s: string, n: nat, m: nat)
    requires k < |re.vars| && m <= n <= |s|
    requires forall i :: m < i <= n ==> Find(re, k + 1, s[i..]).None?
    ensures FindRun(re, k, s, n) == FindRun(re, k, s, m)
    decreases n
  {
    if m < n {
      SkipRuns(re, k, s, n - 1, m);
    }
  }

  // Sprintf -------------------------------------------------------------------------------------

  /** fmt.Sprintf with string arguments, for formats whose only verbs are %s and %%; None otherwise. */
  function Sprintf(format: string, args: seq<string>): Option<string>
    decreases |format|
  {
    if format == "" then if args == [] then Some("") else None
    else if format[0] != '%' then Cons([format[0]], Sprintf(format[1..], args))
    else if |format| >= 2 && format[1] == '%' then Cons("%", Sprintf(format[2..], args))
    else if |format| >= 2 && format[1] == 's' && args != [] then Cons(args[0], Sprintf(format[2..], args[1..]))
    else None
  }

  function Cons(s: string, r: Option<string>): Option<string> {
    if r.Some? then Some(s + r.value) else None
  }

  /** A text with every % doubled comes out as it was. */
  function Doubled(raw: string): string {
    if raw == "" then "" else (if raw[0] == '%' then "%%" else [raw[0]]) + Doubled(raw[1..])
  }

  lemma {:induction false} DoubledPrints(raw: string, format: string, args: seq<string>)
    ensures Sprintf(Doubled(raw) + format, args) == Cons(raw, Sprintf(format, args))
    decreases |raw|
  {
    if raw == "" {
      assert Doubled(raw) + format == format;
      NothingAdded(Sprintf(format, args));
    } else {
      var rest := Doubled(raw[1..]) + format;
      DoubledPrints(raw[1..], format, args);
      OneCharPrints(raw[0], rest, args);
      DoubledFirst(raw, format);
      ConsTwice(raw[0], raw[1..], Sprintf(format, args));
      hide Sprintf, Doubled, Cons;
      assert [raw[0]] + raw[1..] == raw;
    }
  }

  lemma {:induction false} NothingAdded(r: Option<string>)
    ensures Cons("", r) == r
  {
    if r.Some? {
      assert "" + r.value == r.value;
    }
  }

  lemma {:induction false} ConsTwice(c: char, s: string, r: Option<string>)
    ensures Cons([c], Cons(s, r)) == Cons([c] + s, r)
  {
    if r.Some? {
      assert [c] + (s + r.value) == ([c] + s) + r.value;
    }
  }

  lemma {:induction false} DoubledFirst(raw: string, format: string)
    requires raw != ""
    ensures Doubled(raw) + format == (if raw[0] == '%' then "%%" else [raw[0]]) + (Doubled(raw[1..]) + format)
  {
  }

  lemma {:induction false} OneCharPrints(c: char, rest: string, args: seq<string>)
    ensures Sprintf((if c == '%' then "%%" else [c]) + rest, args) == Cons([c], Sprintf(rest, args))
  {
    if c == '%' {
      assert ("%%" + rest)[2..] == rest && ("%%" + rest)[0] == '%' && ("%%" + rest)[1] == '%';
    } else {
      assert ([c] + rest)[1..] == rest && ([c] + rest)[0] == c;
    }
  }

  predicate PercentFree(s: string) { '%' !in s }

  lemma {:induction false} SprintfLiteral(raw: string, format: string, args: seq<string>)
    requires PercentFree(raw)
    ensures Sprintf(raw + format, args) == Cons(raw, Sprintf(format, args))
    decreases |raw|
  {
    if raw == "" {
      var r := Sprintf(format, args);
      assert raw + format == format && (r.Some? ==> "" + r.value == r.value);
    } else {
      assert (raw + format)[1..] == raw[1..] + format;
      assert (raw + format)[0] == raw[0] && raw[0] in raw;
      SprintfLiteral(raw[1..], format, args);
      var r := Sprintf(format, args);
      assert r.Some? ==> [raw[0]] + (raw[1..] + r.value) == raw + r.value;
    }
  }

  /** The reverse template puts the values between the literals. */
  lemma {:induction false} SprintfBuilds(parts: seq<Part>, tail: string, vars: seq<Var>, vs: seq<string>)
    requires |vs| == |vars| == |parts| && PercentFree(tail)
    requires forall i :: 0 <= i < |parts| ==> vars[i].raw == parts[i].raw && PercentFree(parts[i].raw)
    ensures Sprintf(Reverse(parts, tail), vs) == Some(Build(vars, tail, vs))
    decreases |parts|
  {
    if parts == [] {
      SprintfLiteral(tail, "", []);
      assert tail + "" == tail;
      assert vs == [];
    } else {
      var rest := Reverse(parts[1..], tail);
      assert Reverse(parts, tail) == parts[0].raw + ("%s" + rest);
      SprintfLiteral(parts[0].raw, "%s" + rest, vs);
      assert ("%s" + rest)[2..] == rest;
      SprintfBuilds(parts[1..], tail, vars[1..], vs[1..]);
      assert parts[0].raw + (vs[0] + Build(vars[1..], tail, vs[1..])) == Build(vars, tail, vs);
    }
  }

  // routeRegexp.url -----------------------------------------------------------------------------

  type Values = map<string, string>

  /** NotModelled: a literal contains a % that Sprintf takes for a verb. */
  datatype UrlResult = Url(url: string) | MissingVariable(name: string) | BadValue(name: string) | NotModelled

  function ValuesOf(parts: seq<Part>, values: Values): (vs: seq<string>)
    requires forall i :: 0 <= i < |parts| ==> parts[i].name in values
    ensures |vs| == |parts|
    ensures forall i :: 0 <= i < |parts| ==> vs[i] == values[parts[i].name]
  {
    if parts == [] then [] else [values[parts[0].name]] + ValuesOf(parts[1..], values)
  }

  predicate AllPresent(parts: seq<Part>, values: Values) {
    forall i :: 0 <= i < |parts| ==> parts[i].name in values
  }

  /** routeRegexp.url. The values are checked one by one only if the whole does not match, and a URL that
      does not match is still returned when each of its values is good. */
  method BuildUrl(r: RouteRegexp, custom: string -> Class, values: Values) returns (res: UrlResult)
    ensures res.MissingVariable? <==> !AllPresent(r.parts, values)
    ensures res.MissingVariable? ==>
              exists k :: 0 <= k < |r.parts| && r.parts[k].name == res.name && res.name !in values
                          && forall i :: 0 <= i < k ==> r.parts[i].name in values
    ensures AllPresent(r.parts, values) ==>
              res == UrlOf(r, Compile(r, custom), ValuesOf(r.parts, values))
  {
    var urlValues: seq<string> := [];
    var k := 0;
    while k < |r.parts|
      invariant k <= |r.parts| == |r.parts|
      invariant AllPresent(r.parts[..k], values) && |urlValues| == k
      invariant forall i :: 0 <= i < k ==> urlValues[i] == values[r.parts[i].name]
    {
      if r.parts[k].name !in values {
        return MissingVariable(r.parts[k].name);
      }
      urlValues := urlValues + [values[r.parts[k].name]];
      k := k + 1;
    }
    assert r.parts[..k] == r.parts;
    assert urlValues == ValuesOf(r.parts, values);
    var re := Compile(r, custom);
    var rv := Sprintf(r.reverse, urlValues);
    if rv.None? {
      return NotModelled;
    }
    if Find(re, 0, rv.value).None? {
      var j := 0;
      while j < |re.vars|
        invariant j <= |re.vars|
        invariant FirstBad(re.vars, urlValues, j) == FirstBad(re.vars, urlValues, 0)
      {
        if !Valid(urlValues[j], re.vars[j].allowed) {
          return BadValue(re.vars[j].name);
        }
        j := j + 1;
      }
    }
    return Url(rv.value);
  }

  /** The first variable from k on whose value its pattern does not match. */
  function FirstBad(vars: seq<Var>, vs: seq<string>, k: nat): (j: nat)
    requires |vs| == |vars| && k <= |vars|
    ensures k <= j <= |vars|
    decreases |vars| - k
  {
    if k == |vars| || !Valid(vs[k], vars[k].allowed) then k else FirstBad(vars, vs, k + 1)
  }

  /** Without a pattern a variable takes anything but a dot in a host, and anything but a slash elsewhere. */
  lemma {:induction false} DefaultClassIs(kind: Kind, x: char)
    requires !kind.Query?
    ensures DefaultClass(kind)(x) <==> x != Separator(kind)
    ensures Separator(kind) == if kind == Host then '.' else '/'
  {
  }

  function UrlOf(r: RouteRegexp, re: Regexp, vs: seq<string>): UrlResult
    requires |vs| == |re.vars|
  {
    match Sprintf(r.reverse, vs)
    case None => NotModelled
    case Some(rv) =>
      var j := FirstBad(re.vars, vs, 0);
      if Find(re, 0, rv).None? && j < |re.vars| then BadValue(re.vars[j].name) else Url(rv)
  }

  /** The error names the first variable whose value is not of its pattern. */
  lemma {:induction false} BadValueIs(r: RouteRegexp, custom: string -> Class, vs: seq<string>)
    requires |vs| == |r.parts| && UrlOf(r, Compile(r, custom), vs).BadValue?
    ensures exists j :: && 0 <= j < |vs| && UrlOf(r, Compile(r, custom), vs).name == r.parts[j].name
                        && !Valid(vs[j], Compile(r, custom).vars[j].allowed)
                        && forall i :: 0 <= i < j ==> Valid(vs[i], Compile(r, custom).vars[i].allowed)
  {
    var re := Compile(r, custom);
    var j := FirstBad(re.vars, vs, 0);
    FirstBadIs(re.vars, vs, 0);
    RawsKept(r.parts, r.kind, custom, j);
  }

  lemma {:induction false} FirstBadIs(vars: seq<Var>, vs: seq<string>, k: nat)
    requires |vs| == |vars| && k <= |vars|
    ensures var j := FirstBad(vars, vs, k);
            && (j < |vars| ==> !Valid(vs[j], vars[j].allowed))
            && forall i :: k <= i < j ==> Valid(vs[i], vars[i].allowed)
    decreases |vars| - k
  {
    if k < |vars| && Valid(vs[k], vars[k].allowed) {
      FirstBadIs(vars, vs, k + 1);
    }
  }

  /** extractVars: on equal names the later capture stays. */
  method ExtractVars(parts: seq<Part>, captures: seq<string>, output: Values) returns (out: Values)
    requires |captures| == |parts|
    ensures out == Extract(parts, captures, output)
  {
    out := output;
    var i := 0;
    while i < |parts|
      invariant i <= |parts|
      invariant Extract(parts[i..], captures[i..], out) == Extract(parts, captures, output)
    {
      assert parts[i..][0] == parts[i] && captures[i..][0] == captures[i];
      assert parts[i..][1..] == parts[i + 1..] && captures[i..][1..] == captures[i + 1..];
      out := out[parts[i].name := captures[i]];
      i := i + 1;
    }
    assert parts[i..] == [];
  }

  function Extract(parts: seq<Part>, captures: seq<string>, output: Values): Values
    requires |captures| == |parts|
    decreases |parts|
  {
    if parts == [] then output
    else Extract(parts[1..], captures[1..], output[parts[0].name := captures[0]])
  }

  /** On equal names the last capture stays. */
  lemma {:induction false} LastCaptureStays(parts: seq<Part>, captures: seq<string>, output: Values, i: nat)
    requires |captures| == |parts| && i < |parts|
    requires forall j :: i < j < |parts| ==> parts[j].name != parts[i].name
    ensures var out := Extract(parts, captures, output); parts[i].name in out && out[parts[i].name] == captures[i]
    decreases |parts|
  {
    if i > 0 {
      LastCaptureStays(parts[1..], captures[1..], output[parts[0].name := captures[0]], i - 1);
    } else {
      OthersDoNotExtract(parts[1..], captures[1..], output[parts[0].name := captures[0]], parts[0].name);
    }
  }

  lemma {:induction false} OthersDoNotExtract(parts: seq<Part>, captures: seq<string>, output: Values, n: string)
    requires |captures| == |parts| && n in output && forall j :: 0 <= j < |parts| ==> parts[j].name != n
    ensures var out := Extract(parts, captures, output); n in out && out[n] == output[n]
    decreases |parts|
  {
    if parts != [] {
      OthersDoNotExtract(parts[1..], captures[1..], output[parts[0].name := captures[0]], n);
    }
  }

  function Names(parts: seq<Part>): set<string> {
    if parts == [] then {} else {parts[0].name} + Names(parts[1..])
  }

  lemma {:induction false} NamesPresent(parts: seq<Part>, values: Values)
    ensures AllPresent(parts, values) <==> Names(parts) <= values.Keys
  {
    if parts != [] {
      NamesPresent(parts[1..], values);
      assert parts == [parts[0]] + parts[1..];
    }
  }

  /** Extracting values that were looked up by name gives those names those values. */
  lemma {:induction false} ExtractInverts(parts: seq<Part>, values: Values, output: Values)
    requires AllPresent(parts, values)
    ensures var out := Extract(parts, ValuesOf(parts, values), output);
            out.Keys == output.Keys + Names(parts)
            && forall n :: n in out ==>
                 if n in Names(parts) then n in values && out[n] == values[n] else out[n] == output[n]
    decreases |parts|
  {
    NamesPresent(parts, values);
    if parts != [] {
      assert ValuesOf(parts, values)[1..] == ValuesOf(parts[1..], values);
      ExtractInverts(parts[1..], values, output[parts[0].name := values[parts[0].name]]);
    }
  }

  // The inverse ---------------------------------------------------------------------------------

  /** What NewRouteRegexp guarantees about its result. */
  predicate Parsed(r: RouteRegexp) {
    && r.reverse == Reverse(r.parts, r.tail) + Slash(r.endSlash)
    && (r.endSlash ==> r.strictSlash)
    && (r.strictSlash ==> r.kind.Path?)
    && (r.strictSlash && !r.endSlash && r.tail != "" ==> r.tail[|r.tail| - 1] != '/')
  }

  lemma {:induction false} EndsWithTail(parts: seq<Part>, tail: string)
    requires tail != ""
    ensures var t := Unparse(parts, tail); t != "" && t[|t| - 1] == tail[|tail| - 1]
  {
    if parts != [] {
      EndsWithTail(parts[1..], tail);
    }
  }

  lemma {:induction false} CutIsParsed(r: RouteRegexp, tpl: string, kind: Kind, strictSlash: bool)
    requires CutFrom(r, tpl, kind, strictSlash)
    ensures Parsed(r)
  {
    if r.strictSlash && !r.endSlash && r.tail != "" {
      EndsWithTail(r.parts, r.tail);
      assert tpl == Unparse(r.parts, r.tail);
    }
  }

  predicate PlainLiterals(r: RouteRegexp) {
    PercentFree(r.tail) && forall i :: 0 <= i < |r.parts| ==> PercentFree(r.parts[i].raw)
  }

  lemma {:induction false} RawsKept(parts: seq<Part>, kind: Kind, custom: string -> Class, i: nat)
    requires i < |parts|
    ensures var v := CompileParts(parts, kind, custom)[i];
            && v.raw == parts[i].raw && v.name == parts[i].name
            && v.allowed == if parts[i].pattern.Some? then custom(parts[i].pattern.value) else DefaultClass(kind)
    decreases |parts|
  {
    if i > 0 {
      RawsKept(parts[1..], kind, custom, i - 1);
    }
  }

  lemma {:induction false} UrlIsBuilt(r: RouteRegexp, custom: string -> Class, vs: seq<string>)
    requires Parsed(r) && PlainLiterals(r) && |vs| == |r.parts|
    ensures Sprintf(r.reverse, vs) == Some(Build(Compile(r, custom).vars, r.tail + Slash(r.endSlash), vs))
  {
    var tail := r.tail + Slash(r.endSlash);
    ReverseTail(r.parts, r.tail);
    ReverseTail(r.parts, tail);
    assert Reverse(r.parts, "") + tail == (Reverse(r.parts, "") + r.tail) + Slash(r.endSlash);
    forall i | 0 <= i < |r.parts| ensures Compile(r, custom).vars[i].raw == r.parts[i].raw {
      RawsKept(r.parts, r.kind, custom, i);
    }
    SprintfBuilds(r.parts, tail, Compile(r, custom).vars, vs);
  }

  /**
   Building and matching are inverse. For every parsed template whose literals contain no %, where each literal
   between two variables holds a character that the first cannot contain, with any tail, and for all values that
   the patterns accept: the URL is built, it matches the route, and extractVars returns exactly the values of the
   route's variables.
   */
  lemma {:induction false} UrlRoundTrip(r: RouteRegexp, custom: string -> Class, values: Values)
    requires Parsed(r) && PlainLiterals(r) && !r.kind.Query?
    requires Separated(Compile(r, custom).vars) && (r.endSlash ==> LastStopsAtSlash(Compile(r, custom)))
    requires AllPresent(r.parts, values) && AllValid(Compile(r, custom).vars, ValuesOf(r.parts, values))
    ensures RoundTrips(r, custom, ValuesOf(r.parts, values))
    ensures Extract(r.parts, ValuesOf(r.parts, values), map[]) == map n | n in Names(r.parts) && n in values :: values[n]
  {
    MatchesItself(r, custom, ValuesOf(r.parts, values));
    NamesPresent(r.parts, values);
    ExtractInverts(r.parts, values, map[]);
  }

  /** The URL of `vs` is built, and matching it captures `vs`. */
  predicate RoundTrips(r: RouteRegexp, custom: string -> Class, vs: seq<string>)
    requires |vs| == |r.parts|
  {
    var re := Compile(r, custom);
    UrlOf(r, re, vs).Url? && Find(re, 0, UrlOf(r, re, vs).url) == Some(vs)
  }

  lemma {:induction false} MatchesItself(r: RouteRegexp, custom: string -> Class, vs: seq<string>)
    requires Parsed(r) && PlainLiterals(r) && !r.kind.Query? && |vs| == |r.parts|
    requires Separated(Compile(r, custom).vars) && (r.endSlash ==> LastStopsAtSlash(Compile(r, custom)))
    requires AllValid(Compile(r, custom).vars, vs)
    ensures RoundTrips(r, custom, vs)
  {
    var re := Compile(r, custom);
    UrlIsBuilt(r, custom, vs);
    assert re.vars[0..] == re.vars;
    BuildThenFind(re, 0, vs, r.endSlash);
  }

  // A slash taken by the last variable ------------------------------------------------------------

  lemma {:induction false} FindRunTakes(re: Regexp, k: nat, s: string, n: nat, m: nat)
    requires k < |re.vars| && 0 < m <= n <= |s| && Find(re, k + 1, s[m..]).Some?
    ensures FindRun(re, k, s, n).Some? && |FindRun(re, k, s, n).value[0]| >= m
    decreases n
  {
    if Find(re, k + 1, s[n..]).None? {
      FindRunTakes(re, k, s, n - 1, m);
    }
  }

  lemma {:induction false} FindRunRest(re: Regexp, k: nat, s: string, n: nat, vs: seq<string>)
    requires k < |re.vars| && n <= |s| && FindRun(re, k, s, n) == Some(vs)
    ensures vs != [] && vs[0] <= s && Find(re, k + 1, s[|vs[0]|..]) == Some(vs[1..])
    decreases n
  {
    var r := Find(re, k + 1, s[n..]);
    if r.Some? {
      assert ([s[..n]] + r.value)[1..] == r.value;
    } else {
      FindRunRest(re, k, s, n - 1, vs);
    }
  }

  lemma {:induction false} SlashFirst(tail: string)
    requires forall i :: 0 <= i < |tail| ==> tail[i] == '/'
    ensures tail + "/" == "/" + tail
  {
  }

  lemma {:induction false} LastTakesSlash(re: Regexp, k: nat, v: string)
    requires k + 1 == |re.vars| && re.anchored && !LastStopsAtSlash(re) && Valid(v, re.vars[k].allowed)
    ensures var t := v + (re.tail + "/"); FindRun(re, k, t, Run(t, re.vars[k].allowed)) != Some([v])
  {
    var t, allowed := v + (re.tail + "/"), re.vars[k].allowed;
    SlashFirst(re.tail);
    assert t == (v + "/") + re.tail && t[..|v| + 1] == v + "/" && t[|v| + 1..] == re.tail;
    RunIsLongest(t, allowed, |v| + 1);
    FindRunTakes(re, k, t, Run(t, allowed), |v| + 1);
  }

  lemma {:induction false} SlashIsTakenFrom(re: Regexp, k: nat, vs: seq<string>)
    requires k < |re.vars| && |vs| == |re.vars| - k && AllValid(re.vars[k..], vs)
    requires re.anchored && !LastStopsAtSlash(re)
    ensures Find(re, k, Build(re.vars[k..], re.tail + "/", vs)) != Some(vs)
    decreases |re.vars| - k
  {
    var v, rest := re.vars[k], Build(re.vars[k + 1..], re.tail + "/", vs[1..]);
    assert re.vars[k..][0] == v && re.vars[k..][1..] == re.vars[k + 1..];
    Pieces3(v.raw, vs[0], rest);
    var t := vs[0] + rest;
    FindHere(re, k, v.raw + vs[0] + rest, t);
    if k + 1 == |re.vars| {
      assert vs == [vs[0]];
      LastTakesSlash(re, k, vs[0]);
    } else {
      SlashIsTakenFrom(re, k + 1, vs[1..]);
      if FindRun(re, k, t, Run(t, v.allowed)) == Some(vs) {
        FindRunRest(re, k, t, Run(t, v.allowed), vs);
      }
    }
  }

  /** The condition on the last variable is needed: without it no value comes back from a template with a slash
      at the end. */
  lemma {:induction false} SlashIsTaken(r: RouteRegexp, custom: string -> Class, vs: seq<string>)
    requires Parsed(r) && PlainLiterals(r) && r.endSlash && |vs| == |r.parts|
    requires !LastStopsAtSlash(Compile(r, custom)) && AllValid(Compile(r, custom).vars, vs)
    ensures !RoundTrips(r, custom, vs)
  {
    var re := Compile(r, custom);
    UrlIsBuilt(r, custom, vs);
    assert re.vars[0..] == re.vars;
    SlashIsTakenFrom(re, 0, vs);
  }
}
