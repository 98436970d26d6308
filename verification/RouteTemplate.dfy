/** Route templates: braceIndices and the template half of newRouteRegexp in pkg/eggs/kmux/regexp.go. */
module RouteTemplate {
  import opened Options

  predicate IsBrace(c: char) { c == '{' || c == '}' }

  /** No brace in s[from..to]. */
  predicate BraceFree(s: string, from: nat, to: nat)
    requires to <= |s|
  {
    forall i :: from <= i < to ==> !IsBrace(s[i])
  }

  /** Opening minus closing braces among the first `i` characters. */
  function Depth(s: string, i: nat): int
    requires i <= |s|
  {
    if i == 0 then 0
    else Depth(s, i - 1) + (if s[i - 1] == '{' then 1 else if s[i - 1] == '}' then -1 else 0)
  }

  ghost predicate Balanced(s: string) {
    (forall i :: 0 <= i <= |s| ==> Depth(s, i) >= 0) && Depth(s, |s|) == 0
  }

  /** A first-level group: s[from..to] is a balanced `{...}`. */
  datatype Group = Group(from: nat, to: nat)

  ghost predicate IsGroup(s: string, g: Group) {
    && g.from + 2 <= g.to <= |s|
    && s[g.from] == '{' && s[g.to - 1] == '}'
    && Depth(s, g.from) == 0 && Depth(s, g.to) == 0
    && (forall j :: g.from < j < g.to ==> Depth(s, j) > 0)
  }

  /** `gs` lists groups of s[..n] in order, with no brace before, between or after them. */
  ghost predicate GroupsUpTo(s: string, gs: seq<Group>, n: nat)
    requires n <= |s|
    decreases |gs|
  {
    if gs == [] then BraceFree(s, 0, n)
    else
      var g := gs[|gs| - 1];
      IsGroup(s, g) && g.to <= n && BraceFree(s, g.to, n) && GroupsUpTo(s, gs[..|gs| - 1], g.from)
  }

  ghost predicate AllGroups(s: string, gs: seq<Group>) { GroupsUpTo(s, gs, |s|) }

  /** braceIndices; the source returns the ends of each group in one flat list. */
  method BraceIndices(s: string) returns (r: Option<seq<Group>>)
    ensures r.Some? <==> Balanced(s)
    ensures r.Some? ==> AllGroups(s, r.value)
  {
    var level, idx := 0, 0;
    var gs: seq<Group> := [];
    var i := 0;
    while i < |s|
      invariant i <= |s|
      invariant level == Depth(s, i) >= 0
      invariant forall j :: 0 <= j <= i ==> Depth(s, j) >= 0
      invariant level == 0 ==> GroupsUpTo(s, gs, i)
      invariant level > 0 ==> idx < i && s[idx] == '{' && Depth(s, idx) == 0 && GroupsUpTo(s, gs, idx)
      invariant level > 0 ==> forall j :: idx < j <= i ==> Depth(s, j) > 0
    {
      ExtendGroups(s, gs, i);
      if s[i] == '{' {
        level := level + 1;
        if level == 1 {
          idx := i;
        }
      } else if s[i] == '}' {
        level := level - 1;
        if level == 0 {
          assert (gs + [Group(idx, i + 1)])[..|gs|] == gs;
          gs := gs + [Group(idx, i + 1)];
        } else if level < 0 {
          assert Depth(s, i + 1) < 0;
          return None;
        }
      }
      i := i + 1;
    }
    r := if level != 0 then None else Some(gs);
  }

  /** A character that is no brace extends the text after the last group. */
  lemma {:induction false} ExtendGroups(s: string, gs: seq<Group>, n: nat)
    requires n < |s|
    ensures GroupsUpTo(s, gs, n) && !IsBrace(s[n]) ==> GroupsUpTo(s, gs, n + 1)
  {
  }

  /** The groups of a template are determined by it: `AllGroups` leaves braceIndices no choice. */
  lemma {:induction false} GroupsAreUnique(s: string, gs: seq<Group>, hs: seq<Group>, n: nat)
    requires n <= |s| && GroupsUpTo(s, gs, n) && GroupsUpTo(s, hs, n)
    ensures gs == hs
    decreases |gs|
  {
    if gs != [] && hs != [] {
      var g, h := gs[|gs| - 1], hs[|hs| - 1];
      assert g.to == h.to;
      assert g.from == h.from;
      GroupsAreUnique(s, gs[..|gs| - 1], hs[..|hs| - 1], g.from);
    }
  }

  function EndOf(gs: seq<Group>, k: nat): nat
    requires k <= |gs|
  {
    if k == 0 then 0 else gs[k - 1].to
  }

  /** The k-th group and the text between it and the one before. */
  lemma {:induction false} GroupAt(s: string, gs: seq<Group>, n: nat, k: nat)
    requires n <= |s| && k <= |gs| && GroupsUpTo(s, gs, n)
    ensures k < |gs| ==> IsGroup(s, gs[k]) && gs[k].to <= EndOf(gs, |gs|)
    ensures k < |gs| ==> EndOf(gs, k) <= gs[k].from && BraceFree(s, EndOf(gs, k), gs[k].from)
    ensures EndOf(gs, k) <= EndOf(gs, |gs|) <= n && BraceFree(s, EndOf(gs, |gs|), n)
    decreases |gs|
  {
    if gs != [] {
      var m := |gs| - 1;
      assert k <= m ==> EndOf(gs[..m], k) == EndOf(gs, k);
      GroupAt(s, gs[..m], gs[m].from, if k < m then k else m);
      assert EndOf(gs[..m], m) == EndOf(gs, m);
    }
  }

  // Templates -----------------------------------------------------------------------------------

  /** Literal text and the variable after it; no pattern means the default one. */
  datatype Part = Part(raw: string, name: string, pattern: Option<string>)

  function Body(p: Part): string {
    if p.pattern.Some? then p.name + ":" + p.pattern.value else p.name
  }

  /** The template that these parts come from. */
  function Unparse(parts: seq<Part>, tail: string): string {
    if parts == [] then tail
    else parts[0].raw + "{" + Body(parts[0]) + "}" + Unparse(parts[1..], tail)
  }

  /** The template for Sprintf that builds a URL. */
  function Reverse(parts: seq<Part>, tail: string): string {
    if parts == [] then tail else parts[0].raw + "%s" + Reverse(parts[1..], tail)
  }

  predicate NoBrace(s: string) { BraceFree(s, 0, |s|) }

  predicate WellNamed(p: Part) { p.name != "" && p.pattern != Some("") && ':' !in p.name }

  datatype Kind = Path | Host | Prefix | Query

  /** routeRegexp, before its patterns are compiled. */
  datatype RouteRegexp = RouteRegexp(kind: Kind, strictSlash: bool, parts: seq<Part>, tail: string,
                                     endSlash: bool, reverse: string)

  /** strings.SplitN(body, ":", 2) */
  method SplitBody(body: string) returns (name: string, pattern: Option<string>)
    ensures Body(Part("", name, pattern)) == body && ':' !in name
  {
    var i := 0;
    while i < |body|
      invariant i <= |body| && ':' !in body[..i]
    {
      if body[i] == ':' {
        assert body == body[..i] + ":" + body[i + 1..];
        return body[..i], Some(body[i + 1..]);
      }
      i := i + 1;
    }
    assert body[..i] == body;
    return body, None;
  }

  /** The name or the pattern of a group is missing: `{}`, `{:...}` or `{name:}`. */
  predicate MissingPiece(body: string) {
    body == "" || body[0] == ':' || (body[|body| - 1] == ':' && ':' !in body[..|body| - 1])
  }

  ghost predicate Malformed(tpl: string) {
    !Balanced(tpl) || exists gs :: AllGroups(tpl, gs) && HasMissingPiece(tpl, gs)
  }

  ghost predicate HasMissingPiece(tpl: string, gs: seq<Group>)
    decreases |gs|
  {
    gs != [] && (IsMissing(tpl, gs[|gs| - 1]) || HasMissingPiece(tpl, gs[..|gs| - 1]))
  }

  predicate IsMissing(tpl: string, g: Group) {
    g.from + 2 <= g.to <= |tpl| && MissingPiece(tpl[g.from + 1..g.to - 1])
  }

  lemma {:induction false} MissingNext(tpl: string, gs: seq<Group>, k: nat)
    requires k < |gs|
    ensures HasMissingPiece(tpl, gs[..k + 1]) <==> IsMissing(tpl, gs[k]) || HasMissingPiece(tpl, gs[..k])
  {
    assert gs[..k + 1][..k] == gs[..k];
  }

  lemma {:induction false} MissingInPrefix(tpl: string, gs: seq<Group>, k: nat)
    requires k <= |gs| && HasMissingPiece(tpl, gs[..k])
    ensures HasMissingPiece(tpl, gs)
    decreases |gs|
  {
    if k == |gs| {
      assert gs[..k] == gs;
    } else {
      assert gs[..|gs| - 1][..k] == gs[..k];
      MissingInPrefix(tpl, gs[..|gs| - 1], k);
    }
  }

  lemma {:induction false} PieceIsMissing(p: Part)
    requires ':' !in p.name
    ensures MissingPiece(Body(p)) <==> p.name == "" || p.pattern == Some("")
  {
    FirstColon(p);
    var b := Body(p);
    if p.pattern == Some("") {
      assert b[..|b| - 1] == p.name;
    } else if p.pattern.Some? {
      assert |p.name| < |b| - 1 && b[..|b| - 1][|p.name|] == ':';
    } else if b != "" {
      assert b[|b| - 1] != ':';
    }
  }

  lemma {:induction false} FirstColon(p: Part)
    requires ':' !in p.name
    ensures forall i :: 0 <= i < |p.name| ==> Body(p)[i] != ':'
    ensures if p.pattern.Some? then |Body(p)| > |p.name| && Body(p)[|p.name|] == ':' else |Body(p)| == |p.name|
  {
  }

  /** What the pieces cut out of a template say about it, `t` being the part they cover. */
  ghost predicate Pieces(t: string, parts: seq<Part>, tail: string) {
    && Unparse(parts, tail) == t
    && forall i :: 0 <= i < |parts| ==> WellNamed(parts[i]) && NoBrace(parts[i].raw)
  }

  lemma {:induction false} SplitAt(t: string, i: nat, j: nat)
    requires i <= j <= |t|
    ensures t[i..] == t[i..j] + t[j..]
  {
  }

  lemma {:induction false} Regroup(a: string, b: string, c: string, d: string, e: string)
    ensures a + (b + (c + (d + e))) == a + b + c + d + e
  {
  }

  lemma {:induction false} NoPieces(t: string)
    ensures Pieces(t, [], t[0..])
  {
  }

  lemma {:induction false} NextPiece(t: string, parts: seq<Part>, end: nat, g: Group, p: Part)
    requires end <= g.from && g.from + 2 <= g.to <= |t| && t[g.from] == '{' && t[g.to - 1] == '}'
    requires Pieces(t, parts, t[end..]) && WellNamed(p) && NoBrace(p.raw)
    requires p.raw == t[end..g.from] && Body(p) == t[g.from + 1..g.to - 1]
    ensures Pieces(t, parts + [p], t[g.to..])
  {
    hide Unparse, WellNamed, NoBrace, Body;
    SplitAt(t, end, g.from);
    SplitAt(t, g.from, g.from + 1);
    SplitAt(t, g.from + 1, g.to - 1);
    SplitAt(t, g.to - 1, g.to);
    assert t[g.from..g.from + 1] == "{" && t[g.to - 1..g.to] == "}";
    Regroup(p.raw, "{", Body(p), "}", t[g.to..]);
    UnparseSnoc(parts, p, t[g.to..]);
  }

  /** What the regular expression compiler says: whether a pattern compiles, and how many capture groups the whole
      expression has if it compiles. */
  datatype Compiler = Compiler(accepts: string -> bool, groups: RouteRegexp -> Option<nat>)

  /** What newRouteRegexp can come to. The last two are panics. */
  datatype Outcome =
    | Ok(regexp: RouteRegexp)
    | BadTemplate
    | BadPattern(part: Part)
    | BadRegexp(regexp: RouteRegexp)
    | NoQueryValue(regexp: RouteRegexp)
    | CaptureGroups(regexp: RouteRegexp)

  /** The pieces in `r` put the template back together, and `r` has the slash trimmed from its end. */
  ghost predicate CutFrom(r: RouteRegexp, tpl: string, kind: Kind, strictSlash: bool) {
    && r.kind == kind && r.strictSlash == (strictSlash && kind.Path?)
    && r.endSlash == (r.strictSlash && tpl != "" && tpl[|tpl| - 1] == '/')
    && tpl == Unparse(r.parts, r.tail) + Slash(r.endSlash)
    && r.reverse == Reverse(r.parts, r.tail) + Slash(r.endSlash)
    && NoBrace(r.tail)
    && (forall i :: 0 <= i < |r.parts| ==> WellNamed(r.parts[i]) && NoBrace(r.parts[i].raw))
  }

  ghost predicate AllAccepted(parts: seq<Part>, accepts: string -> bool) {
    forall i :: 0 <= i < |parts| ==> parts[i].pattern.Some? ==> accepts(parts[i].pattern.value)
  }

  /** The pattern of a group in the template does not compile. */
  ghost predicate Refused(tpl: string, p: Part, accepts: string -> bool) {
    && p.pattern.Some? && !accepts(p.pattern.value)
    && exists gs: seq<Group>, k: nat :: k < |gs| && AllGroups(tpl, gs) && Inside(tpl, gs[k], p)
  }

  predicate Inside(tpl: string, g: Group, p: Part) {
    g.from + 2 <= g.to <= |tpl| && Body(p) == tpl[g.from + 1..g.to - 1]
  }

  /** newRouteRegexp, given the compiler: it fails on unbalanced braces, on groups without a name or a pattern, and
      on what does not compile; otherwise its pieces put the template back together. */
  method NewRouteRegexp(tpl: string, kind: Kind, strictSlash: bool, compiler: Compiler) returns (out: Outcome)
    ensures out.BadTemplate? ==> Malformed(tpl)
    ensures out.BadPattern? ==> Refused(tpl, out.part, compiler.accepts)
    ensures !out.BadTemplate? && !out.BadPattern? ==>
              var r := out.regexp;
              && !Malformed(tpl) && CutFrom(r, tpl, kind, strictSlash) && AllAccepted(r.parts, compiler.accepts)
              && (out.NoQueryValue? <==> kind.Query? && '=' !in tpl)
              && (out.BadRegexp? <==> !out.NoQueryValue? && compiler.groups(r).None?)
              && (out.Ok? <==> !out.NoQueryValue? && compiler.groups(r) == Some(|r.parts|))
  {
    hide GroupsUpTo, IsGroup, Depth, Balanced, BraceFree, Unparse, Reverse, HasMissingPiece, WellNamed, Refused;
    var idxs := BraceIndices(tpl);
    if idxs.None? {
      return BadTemplate;
    }
    var gs := idxs.value;
    var strict := strictSlash && kind.Path?;
    var endSlash := strict && tpl != "" && tpl[|tpl| - 1] == '/';
    var t := if endSlash then tpl[..|tpl| - 1] else tpl;
    assert tpl == t + Slash(endSlash);
    LastGroup(tpl, t, gs);
    var pieces := CutPieces(tpl, t, gs, compiler.accepts);
    assert forall hs :: AllGroups(tpl, hs) ==> hs == gs by {
      forall hs | AllGroups(tpl, hs) ensures hs == gs {
        GroupsAreUnique(tpl, gs, hs, |tpl|);
      }
    }
    if pieces.Missing? {
      return BadTemplate;
    } else if pieces.Rejected? {
      return BadPattern(pieces.part);
    }
    var parts, reverse, tail := pieces.parts, pieces.reverse, pieces.tail;
    var r := RouteRegexp(kind, strict, parts, tail, endSlash, reverse + tail + Slash(endSlash));
    ReverseTail(parts, tail);
    if kind.Query? && '=' !in tpl {
      return NoQueryValue(r);
    }
    var groups := compiler.groups(r);
    if groups.None? {
      return BadRegexp(r);
    }
    out := if groups.value != |parts| then CaptureGroups(r) else Ok(r);
  }

  /** A slash trimmed from the end of the template is outside every group. */
  lemma {:induction false} LastGroup(tpl: string, t: string, gs: seq<Group>)
    requires AllGroups(tpl, gs) && (tpl == t || tpl == t + "/")
    ensures EndOf(gs, |gs|) <= |t| && NoBrace(t[EndOf(gs, |gs|)..])
  {
    GroupAt(tpl, gs, |tpl|, |gs|);
    if |gs| > 0 {
      GroupAt(tpl, gs, |tpl|, |gs| - 1);
    }
    var tail := t[EndOf(gs, |gs|)..];
    assert forall i :: 0 <= i < |tail| ==> tail[i] == tpl[EndOf(gs, |gs|) + i];
  }

  /** The parts, the reverse template so far and the text after the last group, or why the loop ended early. */
  datatype Cutting = Cut(parts: seq<Part>, reverse: string, tail: string) | Missing | Rejected(part: Part)

  /** The loop over the groups. */
  method CutPieces(tpl: string, t: string, gs: seq<Group>, accepts: string -> bool) returns (r: Cutting)
    requires AllGroups(tpl, gs) && t <= tpl && EndOf(gs, |gs|) <= |t|
    ensures r.Missing? ==> HasMissingPiece(tpl, gs)
    ensures r.Rejected? ==> Refused(tpl, r.part, accepts)
    ensures r.Cut? ==> !HasMissingPiece(tpl, gs) && AllAccepted(r.parts, accepts)
    ensures r.Cut? ==> Pieces(t, r.parts, r.tail) && r.reverse == Reverse(r.parts, "")
    ensures r.Cut? ==> r.tail == t[EndOf(gs, |gs|)..]
  {
    hide GroupsUpTo, IsGroup, BraceFree, NoBrace, Depth, Unparse, IsMissing, WellNamed, Pieces, Body;
    var parts: seq<Part>, reverse := [], "";
    var end := 0;
    var k := 0;
    NoPieces(t);
    while k < |gs|
      invariant k <= |gs| && end == EndOf(gs, k) <= |t|
      invariant Pieces(t, parts, t[end..])
      invariant reverse == Reverse(parts, "")
      invariant !HasMissingPiece(tpl, gs[..k]) && AllAccepted(parts, accepts)
    {
      var p := CutPiece(tpl, t, gs, k, end);
      MissingNext(tpl, gs, k);
      hide Reverse, HasMissingPiece;
      if p.name == "" || p.pattern == Some("") {
        MissingInPrefix(tpl, gs, k + 1);
        return Missing;
      }
      if p.pattern.Some? && !accepts(p.pattern.value) {
        assert Inside(tpl, gs[k], p);
        return Rejected(p);
      }
      NextPiece(t, parts, end, gs[k], p);
      ReverseSnoc(parts, p);
      reverse := reverse + (p.raw + "%s");
      parts := parts + [p];
      end := gs[k].to;
      k := k + 1;
    }
    assert gs[..k] == gs;
    r := Cut(parts, reverse, t[end..]);
  }

  function Slash(b: bool): string { if b then "/" else "" }

  /** One turn of the loop: the literal before a group and what is inside the group. */
  method CutPiece(tpl: string, t: string, gs: seq<Group>, k: nat, end: nat) returns (p: Part)
    requires AllGroups(tpl, gs) && k < |gs| && end == EndOf(gs, k)
    requires t <= tpl && EndOf(gs, |gs|) <= |t|
    ensures end <= gs[k].from && gs[k].from + 2 <= gs[k].to <= |t| && t[gs[k].from] == '{' && t[gs[k].to - 1] == '}'
    ensures p.raw == t[end..gs[k].from] && NoBrace(p.raw)
    ensures Body(p) == t[gs[k].from + 1..gs[k].to - 1] == tpl[gs[k].from + 1..gs[k].to - 1] && ':' !in p.name
    ensures IsMissing(tpl, gs[k]) == !WellNamed(p) == (p.name == "" || p.pattern == Some(""))
  {
    CutText(tpl, t, gs, k);
    hide GroupsUpTo, Body, MissingPiece, NoBrace;
    var name, pattern := SplitBody(t[gs[k].from + 1..gs[k].to - 1]);
    p := Part(t[end..gs[k].from], name, pattern);
    BodyIgnoresRaw(p);
    PieceIsMissing(p);
  }

  lemma {:induction false} BodyIgnoresRaw(p: Part)
    ensures Body(p) == Body(Part("", p.name, p.pattern))
  {
  }

  lemma {:induction false} CutText(tpl: string, t: string, gs: seq<Group>, k: nat)
    requires AllGroups(tpl, gs) && k < |gs|
    requires t <= tpl && EndOf(gs, |gs|) <= |t|
    ensures EndOf(gs, k) <= gs[k].from && gs[k].from + 2 <= gs[k].to <= |t|
    ensures t[gs[k].from] == '{' && t[gs[k].to - 1] == '}'
    ensures NoBrace(t[EndOf(gs, k)..gs[k].from])
    ensures t[gs[k].from + 1..gs[k].to - 1] == tpl[gs[k].from + 1..gs[k].to - 1]
  {
    GroupAt(tpl, gs, |tpl|, k);
    hide GroupsUpTo, Depth;
  }

  lemma {:induction false} UnparseSnoc(parts: seq<Part>, p: Part, rest: string)
    ensures Unparse(parts + [p], rest) == Unparse(parts, p.raw + "{" + Body(p) + "}" + rest)
  {
    if parts == [] {
      assert ([] + [p])[1..] == [];
    } else {
      assert (parts + [p])[1..] == parts[1..] + [p];
      UnparseSnoc(parts[1..], p, rest);
    }
  }

  lemma {:induction false} ReverseSnoc(parts: seq<Part>, p: Part)
    ensures Reverse(parts + [p], "") == Reverse(parts, "") + (p.raw + "%s")
  {
    if parts == [] {
      assert ([] + [p])[1..] == [];
      assert Reverse([], "") == "";
    } else {
      assert (parts + [p])[1..] == parts[1..] + [p];
      ReverseSnoc(parts[1..], p);
    }
  }

  lemma {:induction false} ReverseTail(parts: seq<Part>, tail: string)
    ensures Reverse(parts, tail) == Reverse(parts, "") + tail
  {
    if parts != [] {
      ReverseTail(parts[1..], tail);
    }
  }
}
