/**
 Grants: the acceptor's reading of a grant (Go), the presenter's validator (TypeScript), and the
 paths a grant can reach.
 */
module Grants {
  import opened Segments
  import opened Wrappers
  import opened PathPattern

  /** A grant as it travels in AUTH_OK; how long it lasts plays no part in what it allows. */
  datatype Grant = Grant(root: string, publish: seq<string>, subscribe: seq<string>)

  /** A parsed grant, as a session's scope holds it. */
  datatype ScopeGrant = ScopeGrant(root: string, publish: seq<Pattern>, subscribe: seq<Pattern>)

  predicate IsValidGrantRoot(root: string) {
    IsValidPrefix(root) && !HasBrace(root)
  }

  function Joined(root: string, pattern: string): string {
    TrimSuffix(root, "/") + pattern
  }

  ghost predicate PatternsWellFormed(cls: CharClass, root: string, patterns: seq<string>) {
    forall p :: p in patterns ==> "/" <= p && WellFormed(cls, Joined(root, p))
  }

  /** The grants a session takes: no root and no patterns, or a literal root with patterns that parse beneath it. */
  ghost predicate GrantWellFormed(cls: CharClass, g: Grant) {
    if g.root == "" then g.publish == [] && g.subscribe == []
    else
      && IsValidGrantRoot(g.root)
      && PatternsWellFormed(cls, g.root, g.publish)
      && PatternsWellFormed(cls, g.root, g.subscribe)
  }

  ghost function PatternsOf(cls: CharClass, root: string, patterns: seq<string>): (r: seq<Pattern>)
    requires PatternsWellFormed(cls, root, patterns)
    ensures |r| == |patterns|
    ensures forall i :: 0 <= i < |patterns| ==> WellFormed(cls, Joined(root, patterns[i]))
    ensures forall i :: 0 <= i < |patterns| ==> r[i] == Parsed(cls, Joined(root, patterns[i]))
  {
    assert forall i :: 0 <= i < |patterns| ==> patterns[i] in patterns;
    seq(|patterns|, i requires 0 <= i < |patterns| => Parsed(cls, Joined(root, patterns[i])))
  }

  ghost function ScopeOf(cls: CharClass, g: Grant): ScopeGrant
    requires GrantWellFormed(cls, g)
  {
    if g.root == "" then ScopeGrant("", [], [])
    else ScopeGrant(g.root, PatternsOf(cls, g.root, g.publish), PatternsOf(cls, g.root, g.subscribe))
  }

  /** Each pattern of the list, read beneath the root, in its place. */
  ghost predicate IsListParsed(cls: CharClass, root: string, patterns: seq<string>, parsed: seq<Pattern>) {
    && |parsed| == |patterns|
    && forall i :: 0 <= i < |patterns| ==>
         WellFormed(cls, Joined(root, patterns[i])) && parsed[i] == Parsed(cls, Joined(root, patterns[i]))
  }

  method JoinPattern(cls: CharClass, root: string, pattern: string) returns (r: Option<Pattern>)
    ensures r.Some? <==> "/" <= pattern && WellFormed(cls, Joined(root, pattern))
    ensures r.Some? ==> r.value == Parsed(cls, Joined(root, pattern))
  {
    if !("/" <= pattern) { return None; }
    r := ParsePathPattern(cls, TrimSuffix(root, "/") + pattern);
  }

  lemma OnePatternMore(cls: CharClass, root: string, ss: seq<string>, i: nat)
    requires i < |ss| && PatternsWellFormed(cls, root, ss[..i]) && "/" <= ss[i] && WellFormed(cls, Joined(root, ss[i]))
    ensures PatternsWellFormed(cls, root, ss[..i + 1])
    ensures PatternsOf(cls, root, ss[..i + 1]) == PatternsOf(cls, root, ss[..i]) + [Parsed(cls, Joined(root, ss[i]))]
  {
    assert ss[..i + 1] == ss[..i] + [ss[i]];
  }

  method ParsePatterns(cls: CharClass, root: string, ss: seq<string>) returns (r: Option<seq<Pattern>>)
    ensures r.Some? <==> PatternsWellFormed(cls, root, ss)
    ensures r.Some? ==> r.value == PatternsOf(cls, root, ss)
  {
    var patterns: seq<Pattern> := [];
    for i := 0 to |ss|
      invariant PatternsWellFormed(cls, root, ss[..i])
      invariant patterns == PatternsOf(cls, root, ss[..i])
    {
      var p := JoinPattern(cls, root, ss[i]);
      if p.None? {
        assert ss[i] in ss;
        return None;
      }
      OnePatternMore(cls, root, ss, i);
      patterns := patterns + [p.value];
    }
    assert ss[..|ss|] == ss;
    return Some(patterns);
  }

  method ParseGrant(cls: CharClass, g: Grant) returns (r: Option<ScopeGrant>)
    ensures r.Some? <==> GrantWellFormed(cls, g)
    ensures r.Some? ==> r.value == ScopeOf(cls, g)
    ensures r.Some? ==> r.value.root == g.root
                        && IsListParsed(cls, g.root, g.publish, r.value.publish) && IsListParsed(cls, g.root, g.subscribe, r.value.subscribe)
  {
    if g.root == "" {
      if |g.publish| > 0 || |g.subscribe| > 0 { return None; }
      return Some(ScopeGrant("", [], []));
    }
    if !IsValidGrantRoot(g.root) { return None; }
    var publish := ParsePatterns(cls, g.root, g.publish);
    if publish.None? { return None; }
    var subscribe := ParsePatterns(cls, g.root, g.subscribe);
    if subscribe.None? { return None; }
    return Some(ScopeGrant(g.root, publish.value, subscribe.value));
  }

  // The presenter's validator.

  /** The regular expression for a wildcard name: a letter or "_", then letters, digits and "_". */
  predicate RegexName(cls: CharClass, name: string) {
    && |name| > 0
    && (cls.letter(name[0]) || name[0] == '_')
    && forall i :: 1 <= i < |name| ==> cls.letter(name[i]) || cls.digit(name[i]) || name[i] == '_'
  }

  lemma {:induction false} AllowedFromSameNames(cls: CharClass, a: seq<string>, b: seq<string>, segs: seq<string>, trailing: bool)
    requires forall n :: n in a <==> n in b
    ensures AllowedFrom(cls, a, segs, trailing) <==> AllowedFrom(cls, b, segs, trailing)
    decreases |segs|
  {
    if segs != [] {
      var name := Name(cls, segs[0]);
      AllowedFromSameNames(cls, if name == "" then a else a + [name], if name == "" then b else b + [name],
                           segs[1..], trailing);
    }
  }

  lemma SameNames(cls: CharClass, name: string)
    ensures RegexName(cls, name) <==> IsWildcardName(cls, name)
  {
  }

  /** The validator's reading of a segment with a brace, by its first and last characters. */
  function TsRead(cls: CharClass, seg: string): (string, Kind) {
    if !("{" <= seg) || !EndsWith(seg, "}") then ("", Invalid)
    else
      var inner := seg[1..|seg| - 1];
      if inner == "$" then ("", Anchor)
      else
        var rest := EndsWith(inner, "...");
        var name := if rest then inner[..|inner| - 3] else inner;
        if RegexName(cls, name) then (name, if rest then Rest else Wildcard) else ("", Invalid)
  }

  lemma TsReadAgrees(cls: CharClass, seg: string)
    ensures HasBrace(seg) ==> TsRead(cls, seg) == ParseWildcard(cls, seg)
    ensures !HasBrace(seg) ==> ParseWildcard(cls, seg) == ("", Literal)
  {
    if "{" <= seg && EndsWith(seg, "}") {
      var inner := seg[1..|seg| - 1];
      assert seg[1..] == inner + "}" && TrimSuffix(seg[1..], "}") == inner;
      SameNames(cls, TrimSuffix(inner, "..."));
    } else if "{" <= seg {
      assert seg[0] == '{';
      assert EndsWith(seg[1..], "}") ==> EndsWith(seg, "}");
    }
  }

  method ValidPattern(cls: CharClass, s: string) returns (r: bool)
    ensures r <==> WellFormed(cls, s)
  {
    if !("/" <= s) { return false; }
    if !HasBrace(s) { return true; }
    var trailing := EndsWith(s, "/");
    assert s != "/";
    var body := if trailing then s[1..|s| - 1] else s[1..];
    var segs := Split(body);
    assert body == TrimSuffix(s[1..], "/");
    r := ValidSegments(cls, segs, trailing);
    AllowedFromMeans(cls, [], segs, trailing);
  }

  /** The loop of validPattern over the segments. */
  method ValidSegments(cls: CharClass, segs: seq<string>, trailing: bool) returns (r: bool)
    ensures r <==> AllowedFrom(cls, [], segs, trailing)
  {
    var names: set<string> := {};
    ghost var list: seq<string> := [];
    assert segs[0..] == segs;
    for i := 0 to |segs|
      invariant forall n :: n in names <==> n in list
      invariant AllowedFrom(cls, [], segs, trailing) <==> AllowedFrom(cls, list, segs[i..], trailing)
    {
      var seg := segs[i];
      assert segs[i..][0] == seg && segs[i..][1..] == segs[i + 1..];
      TsReadAgrees(cls, seg);
      if !HasBrace(seg) { continue; }
      var last := i == |segs| - 1 && !trailing;
      if !("{" <= seg) || !EndsWith(seg, "}") { return false; }
      var inner := seg[1..|seg| - 1];
      if inner == "$" {
        if !last { return false; }
        continue;
      }
      var rest := EndsWith(inner, "...");
      var name := if rest then inner[..|inner| - 3] else inner;
      if rest && !last { return false; }
      if !RegexName(cls, name) || name in names { return false; }
      names := names + {name};
      list := list + [name];
    }
    return true;
  }

  datatype Invalidity = PatternsWithoutRoot | BadRoot | BadPattern(pattern: string)

  lemma BothWellFormed(cls: CharClass, root: string, a: seq<string>, b: seq<string>)
    ensures PatternsWellFormed(cls, root, a + b) <==> PatternsWellFormed(cls, root, a) && PatternsWellFormed(cls, root, b)
  {
    assert forall p :: p in a + b <==> p in a || p in b;
  }

  lemma NoneAtAll<T>(a: seq<T>, b: seq<T>)
    ensures a + b == [] <==> a == [] && b == []
  {
    assert |a + b| == |a| + |b|;
  }

  lemma RootAgrees(root: string)
    ensures "/" <= root && (root == "/" || EndsWith(root, "/")) && !HasBrace(root) <==> IsValidGrantRoot(root)
    ensures IsValidGrantRoot(root) ==> EndsWith(root, "/")
  {
  }

  ghost predicate IsBad(cls: CharClass, root: string, p: string) {
    !("/" <= p && WellFormed(cls, Joined(root, p)))
  }

  /** The loop of invalidGrant over the patterns: the first that is bad, if any. */
  method FirstBad(cls: CharClass, root: string, patterns: seq<string>) returns (bad: Option<string>)
    requires EndsWith(root, "/")
    ensures bad.None? <==> PatternsWellFormed(cls, root, patterns)
    ensures bad.Some? ==> bad.value in patterns && IsBad(cls, root, bad.value)
  {
    for i := 0 to |patterns|
      invariant forall k :: 0 <= k < i ==> "/" <= patterns[k] && WellFormed(cls, Joined(root, patterns[k]))
    {
      var p := patterns[i];
      assert p in patterns && root[..|root| - 1] == TrimSuffix(root, "/");
      if !("/" <= p) { return Some(p); }
      var ok := ValidPattern(cls, root[..|root| - 1] + p);
      if !ok { return Some(p); }
    }
    return None;
  }

  /** What each verdict says of the grant. */
  ghost predicate IsInvalid(cls: CharClass, g: Grant, why: Invalidity) {
    match why
    case PatternsWithoutRoot => g.root == "" && (g.publish != [] || g.subscribe != [])
    case BadRoot => g.root != "" && !IsValidGrantRoot(g.root)
    case BadPattern(p) => IsValidGrantRoot(g.root) && (p in g.publish || p in g.subscribe) && IsBad(cls, g.root, p)
  }

  lemma InEither<T>(a: seq<T>, b: seq<T>, x: T)
    ensures x in a + b <==> x in a || x in b
  {
  }

  method InvalidGrant(cls: CharClass, g: Grant) returns (r: Option<Invalidity>)
    ensures r.None? <==> GrantWellFormed(cls, g)
    ensures r.Some? ==> IsInvalid(cls, g, r.value)
  {
    var patterns := g.publish + g.subscribe;
    NoneAtAll(g.publish, g.subscribe);
    RootAgrees(g.root);
    if g.root == "" {
      return if patterns == [] then None else Some(PatternsWithoutRoot);
    }
    if !("/" <= g.root) || !(g.root == "/" || EndsWith(g.root, "/")) || HasBrace(g.root) {
      return Some(BadRoot);
    }
    BothWellFormed(cls, g.root, g.publish, g.subscribe);
    var bad := FirstBad(cls, g.root, patterns);
    if bad.None? { return None; }
    InEither(g.publish, g.subscribe, bad.value);
    return Some(BadPattern(bad.value));
  }

  /** The two validators, run on the same triple, give the same verdict. */
  method SameVerdict(cls: CharClass, g: Grant) returns (accepted: Option<ScopeGrant>, refused: Option<Invalidity>)
    ensures accepted.Some? <==> refused.None?
  {
    accepted := ParseGrant(cls, g);
    refused := InvalidGrant(cls, g);
  }

  // What a grant reaches.

  predicate MatchesAny(patterns: seq<Pattern>, path: string) {
    exists i :: 0 <= i < |patterns| && Matches(patterns[i], path)
  }

  /** Pattern p beneath the root matches the path. */
  ghost predicate Reaches(cls: CharClass, root: string, p: string, path: string) {
    WellFormed(cls, Joined(root, p)) && Matches(Parsed(cls, Joined(root, p)), path)
  }

  lemma PatternsReach(cls: CharClass, root: string, patterns: seq<string>, path: string)
    requires PatternsWellFormed(cls, root, patterns)
    ensures MatchesAny(PatternsOf(cls, root, patterns), path) <==> exists p :: p in patterns && Reaches(cls, root, p, path)
  {
    var parsed := PatternsOf(cls, root, patterns);
    if MatchesAny(parsed, path) {
      var i :| 0 <= i < |parsed| && Matches(parsed[i], path);
      assert patterns[i] in patterns && Reaches(cls, root, patterns[i], path);
    }
    if p :| p in patterns && Reaches(cls, root, p, path) {
      var i :| 0 <= i < |patterns| && patterns[i] == p;
      assert Matches(parsed[i], path);
    }
  }

  /** A grant lets its holder publish what its publish patterns match beneath its root, and subscribe by the others alone. */
  lemma EachListItsOwn(cls: CharClass, g: Grant, path: string)
    requires GrantWellFormed(cls, g)
    ensures MatchesAny(ScopeOf(cls, g).publish, path) <==> exists p :: p in g.publish && Reaches(cls, g.root, p, path)
    ensures MatchesAny(ScopeOf(cls, g).subscribe, path) <==> exists p :: p in g.subscribe && Reaches(cls, g.root, p, path)
    ensures ScopeOf(cls, g).root == g.root
  {
    if g.root != "" {
      PatternsReach(cls, g.root, g.publish, path);
      PatternsReach(cls, g.root, g.subscribe, path);
    }
  }

  method MatchAny(patterns: seq<Pattern>, path: string) returns (r: bool)
    requires forall i :: 0 <= i < |patterns| ==> Valid(patterns[i])
    ensures r <==> MatchesAny(patterns, path)
  {
    for i := 0 to |patterns|
      invariant forall k :: 0 <= k < i ==> !Matches(patterns[k], path)
    {
      var m := Match(patterns[i], path);
      if m { return true; }
    }
    return false;
  }

  /** The segments of a joined pattern lead with the root's own, read literally. */
  lemma JoinedSegments(root: string, p: string)
    requires IsValidGrantRoot(root) && root != "/" && "/" <= p && HasBrace(Joined(root, p))
    ensures var inner := root[1..|root| - 1];
            && PatternSegs(Joined(root, p)) == Split(inner) + Split(TrimSuffix(p[1..], "/"))
            && !HasBrace(inner)
  {
    var inner := root[1..|root| - 1];
    var s := Joined(root, p);
    RootLeads(root, p);
    assert s == root + p[1..];
    assert root == "/" + (inner + "/");
    assert s[1..] == inner + "/" + p[1..];
    TrimAfter(inner + "/", p[1..]);
    assert inner + "/" + TrimSuffix(p[1..], "/") == (inner + "/") + TrimSuffix(p[1..], "/");
    SplitAppend(inner, TrimSuffix(p[1..], "/"));
  }

  lemma TrimAfter(a: string, b: string)
    requires b != ""
    ensures TrimSuffix(a + b, "/") == a + TrimSuffix(b, "/")
  {
    assert (a + b)[|a + b| - 1..] == b[|b| - 1..];
    if EndsWith(b, "/") {
      assert (a + b)[..|a + b| - 1] == a + b[..|b| - 1];
    }
  }

  /** A path matched by a pattern joined to a root lies under the root. */
  lemma JoinedUnderRoot(cls: CharClass, root: string, p: string, path: string)
    requires IsValidGrantRoot(root) && "/" <= p && WellFormed(cls, Joined(root, p))
    requires Matches(Parsed(cls, Joined(root, p)), path)
    ensures HasPrefix(path, root)
  {
    var s := Joined(root, p);
    if HasBrace(s) {
      if root != "/" {
        JoinedSegmentsLead(cls, root, p, Split(path[1..]));
        SegmentsUnderRoot(root, path);
      }
    } else {
      RootLeads(root, p);
    }
  }

  lemma RootLeads(root: string, p: string)
    requires IsValidPrefix(root) && "/" <= p
    ensures root <= Joined(root, p)
  {
    assert EndsWith(root, "/");
    assert root == TrimSuffix(root, "/") + "/" && p == "/" + p[1..];
    assert Joined(root, p) == root + p[1..];
  }

  lemma SegmentsUnderRoot(root: string, path: string)
    requires IsValidPrefix(root) && root != "/" && IsValidPath(path)
    requires Split(root[1..|root| - 1]) <= Split(path[1..])
    requires |Split(root[1..|root| - 1])| < |Split(path[1..])|
    ensures root <= path
  {
    var inner := root[1..|root| - 1];
    DirectoryPrefix(inner, path[1..]);
    assert root == "/" + (inner + "/") && path == "/" + path[1..];
  }

  lemma JoinedSegmentsLead(cls: CharClass, root: string, p: string, q: seq<string>)
    requires IsValidGrantRoot(root) && root != "/" && "/" <= p && HasBrace(Joined(root, p))
    requires Meaning(ToSegs(cls, PatternSegs(Joined(root, p))), EndsWith(Joined(root, p), "/"), q)
    ensures Split(root[1..|root| - 1]) <= q && |Split(root[1..|root| - 1])| < |q|
  {
    var inner := root[1..|root| - 1];
    var lits := Split(inner);
    var all := PatternSegs(Joined(root, p));
    var segs := ToSegs(cls, all);
    JoinedSegments(root, p);
    ToSegsAt(cls, all);
    assert |lits| < |q| && LeadMatches(segs, |lits|, q);
    forall i | 0 <= i < |lits| ensures q[i] == lits[i] {
      assert SegMatches(segs[i], q[i]);
      assert all[i] == lits[i];
      LiteralSeg(cls, inner, i);
    }
  }

  lemma LiteralSeg(cls: CharClass, s: string, i: nat)
    requires !HasBrace(s) && i < |Split(s)|
    ensures ToSeg(cls, Split(s)[i]) == Seg(Literal, Split(s)[i])
  {
    if '{' in Split(s)[i] { SplitChars(s, i, '{'); }
    if '}' in Split(s)[i] { SplitChars(s, i, '}'); }
  }

  /** Whatever a grant lets the peer publish or subscribe to lies under the grant's root. */
  lemma CoveredLiesUnderRoot(cls: CharClass, g: Grant, path: string)
    requires GrantWellFormed(cls, g)
    requires MatchesAny(ScopeOf(cls, g).publish, path) || MatchesAny(ScopeOf(cls, g).subscribe, path)
    ensures g.root != "" && HasPrefix(path, g.root)
  {
    if MatchesAny(ScopeOf(cls, g).publish, path) {
      var i :| 0 <= i < |g.publish| && Matches(ScopeOf(cls, g).publish[i], path);
      assert g.publish[i] in g.publish;
      JoinedUnderRoot(cls, g.root, g.publish[i], path);
    } else {
      var i :| 0 <= i < |g.subscribe| && Matches(ScopeOf(cls, g).subscribe[i], path);
      assert g.subscribe[i] in g.subscribe;
      JoinedUnderRoot(cls, g.root, g.subscribe[i], path);
    }
  }

  predicate SameScope(g: ScopeGrant, h: ScopeGrant) {
    && g.root == h.root
    && |g.publish| == |h.publish| && (forall i :: 0 <= i < |g.publish| ==> g.publish[i].raw == h.publish[i].raw)
    && |g.subscribe| == |h.subscribe| && (forall i :: 0 <= i < |g.subscribe| ==> g.subscribe[i].raw == h.subscribe[i].raw)
  }

  /** Comparing patterns by their text loses nothing: grants that compare the same allow the same. */
  lemma SameScopeSameGrant(cls: CharClass, g: Grant, h: Grant)
    requires GrantWellFormed(cls, g) && GrantWellFormed(cls, h)
    ensures SameScope(ScopeOf(cls, g), ScopeOf(cls, h)) <==> ScopeOf(cls, g) == ScopeOf(cls, h)
  {
    var a, b := ScopeOf(cls, g), ScopeOf(cls, h);
    if SameScope(a, b) && g.root != "" {
      SameRaw(cls, g.root, g.publish, h.publish);
      SameRaw(cls, g.root, g.subscribe, h.subscribe);
    }
  }

  lemma SameRaw(cls: CharClass, root: string, ps: seq<string>, qs: seq<string>)
    requires PatternsWellFormed(cls, root, ps) && PatternsWellFormed(cls, root, qs) && |ps| == |qs|
    requires forall i :: 0 <= i < |ps| ==> PatternsOf(cls, root, ps)[i].raw == PatternsOf(cls, root, qs)[i].raw
    ensures PatternsOf(cls, root, ps) == PatternsOf(cls, root, qs)
  {
    var a, b := PatternsOf(cls, root, ps), PatternsOf(cls, root, qs);
    forall i | 0 <= i < |ps| ensures a[i] == b[i] {
      assert a[i] == Parsed(cls, Joined(root, ps[i])) && b[i] == Parsed(cls, Joined(root, qs[i]));
      assert a[i].raw == b[i].raw;
    }
  }
}
