/**
 Path patterns: parsing, matching, and what a parsed pattern means, segment by segment.
 */
module PathPattern {
  import opened Wrappers
  import opened Segments

  /** The letter and digit classes of the Unicode tables, which both validators share. */
  datatype CharClass = CharClass(letter: char -> bool, digit: char -> bool)

  datatype Kind = Invalid | Literal | Wildcard | Rest | Anchor

  datatype Seg = Seg(kind: Kind, lit: string)

  /** segs is empty for a pattern without a wildcard. */
  datatype Pattern = Pattern(raw: string, segs: seq<Seg>, trailing: bool)

  predicate HasBrace(s: string) {
    '{' in s || '}' in s
  }

  predicate EndsWith(s: string, t: string)
    ensures EndsWith(s, t) && |t| > 0 ==> |s| > 0 && s[|s| - 1] == t[|t| - 1]
  {
    |t| <= |s| && s[|s| - |t|..] == t
  }

  /** strings.TrimSuffix. */
  function TrimSuffix(s: string, t: string): string {
    if EndsWith(s, t) then s[..|s| - |t|] else s
  }

  predicate IsWildcardName(cls: CharClass, s: string) {
    && s != ""
    && forall i :: 0 <= i < |s| ==> cls.letter(s[i]) || s[i] == '_' || (i > 0 && cls.digit(s[i]))
  }

  /** Reads a segment: the wildcard's name, and the segment's kind. */
  function ParseWildcard(cls: CharClass, seg: string): (r: (string, Kind))
    ensures r.0 != "" ==> r.1 == Wildcard || r.1 == Rest
    ensures r.1 == Literal <==> !HasBrace(seg)
  {
    if !("{" <= seg) then
      ("", if HasBrace(seg) then Invalid else Literal)
    else
      assert seg[0] == '{';
      var inner := seg[1..];
      if !EndsWith(inner, "}") then ("", Invalid)
      else
        var inner := TrimSuffix(inner, "}");
        if inner == "$" then ("", Anchor)
        else
          var name := TrimSuffix(inner, "...");
          if IsWildcardName(cls, name) then (name, if EndsWith(inner, "...") then Rest else Wildcard)
          else ("", Invalid)
  }

  /** As in the Unicode tables, none of the pattern syntax is a letter or a digit. */
  predicate SyntaxApart(cls: CharClass) {
    forall c :: c in {'.', '$', '{', '}'} ==> !cls.letter(c) && !cls.digit(c)
  }

  predicate IsBraced(seg: string) {
    "{" <= seg && EndsWith(seg[1..], "}")
  }

  /** The text between the braces, and how it is read. */
  lemma BracedRead(cls: CharClass, seg: string)
    requires IsBraced(seg)
    ensures var inner := seg[1..|seg| - 1];
            && seg == "{" + inner + "}"
            && ParseWildcard(cls, seg) ==
               if inner == "$" then ("", Anchor)
               else if !IsWildcardName(cls, TrimSuffix(inner, "...")) then ("", Invalid)
               else (TrimSuffix(inner, "..."), if EndsWith(inner, "...") then Rest else Wildcard)
  {
    assert seg[0] == '{';
    assert seg[1..][..|seg| - 2] == seg[1..|seg| - 1];
  }

  lemma Inner(seg: string, x: string)
    ensures seg == "{" + x + "}" ==> IsBraced(seg) && seg[1..|seg| - 1] == x
  {
  }

  lemma NameIsPlain(cls: CharClass, x: string)
    requires SyntaxApart(cls) && IsWildcardName(cls, x)
    ensures x != "$" && !EndsWith(x, "...") && TrimSuffix(x, "...") == x
    ensures x + "..." != "$" && EndsWith(x + "...", "...") && TrimSuffix(x + "...", "...") == x
  {
    assert x[|x| - 1] != '.';
    assert '$' in {'.', '$', '{', '}'} && x[0] != '$';
  }

  /** The segments with braces: "{x}" is a wildcard named x, "{x...}" the rest, "{$}" the end; anything else is invalid. */
  lemma WildcardMeans(cls: CharClass, seg: string, x: string)
    requires SyntaxApart(cls)
    ensures ParseWildcard(cls, seg) == (x, Wildcard) <==> IsWildcardName(cls, x) && seg == "{" + x + "}"
    ensures ParseWildcard(cls, seg) == (x, Rest) <==> IsWildcardName(cls, x) && seg == "{" + (x + "...") + "}"
    ensures ParseWildcard(cls, seg).1 == Anchor <==> seg == "{$}"
    ensures ParseWildcard(cls, seg).1 == Literal <==> !HasBrace(seg)
  {
    Inner(seg, x);
    Inner(seg, x + "...");
    Inner(seg, "$");
    if IsWildcardName(cls, x) {
      NameIsPlain(cls, x);
    }
    if IsBraced(seg) {
      BracedRead(cls, seg);
    }
  }

  /** The segments of a pattern, as the parser walks them: without the leading slash or a trailing one. */
  function PatternSegs(s: string): seq<string>
    requires IsValidPath(s)
  {
    Split(TrimSuffix(s[1..], "/"))
  }

  predicate SegAllowed(cls: CharClass, seg: string, last: bool) {
    var kind := ParseWildcard(cls, seg).1;
    kind != Invalid && (kind == Anchor || kind == Rest ==> last)
  }

  /** The syntax of a path pattern, stated outright. */
  ghost predicate WellFormed(cls: CharClass, s: string) {
    IsValidPath(s) && (HasBrace(s) ==> SegsAllowed(cls, [], PatternSegs(s), EndsWith(s, "/")))
  }

  /** Every segment is allowed where it stands, and no wildcard name is repeated or among names. */
  ghost predicate SegsAllowed(cls: CharClass, names: seq<string>, segs: seq<string>, trailing: bool) {
    && (forall i :: 0 <= i < |segs| ==> SegAllowed(cls, segs[i], i == |segs| - 1 && !trailing))
    && (forall i :: 0 <= i < |segs| && Name(cls, segs[i]) != "" ==> Name(cls, segs[i]) !in names)
    && (forall i, j :: 0 <= i < j < |segs| && Name(cls, segs[i]) != "" ==> Name(cls, segs[i]) != Name(cls, segs[j]))
  }

  function Name(cls: CharClass, seg: string): string {
    ParseWildcard(cls, seg).0
  }

  lemma SegsAllowedStep(cls: CharClass, names: seq<string>, segs: seq<string>, trailing: bool)
    requires |segs| > 0
    ensures SegsAllowed(cls, names, segs, trailing) <==>
            && SegAllowed(cls, segs[0], |segs| == 1 && !trailing)
            && (Name(cls, segs[0]) != "" ==> Name(cls, segs[0]) !in names)
            && (|segs| > 1 ==> SegsAllowed(cls, if Name(cls, segs[0]) == "" then names else names + [Name(cls, segs[0])],
                                           segs[1..], trailing))
  {
    var tail := segs[1..];
    var names' := if Name(cls, segs[0]) == "" then names else names + [Name(cls, segs[0])];
    if SegsAllowed(cls, names, segs, trailing) {
      forall i | 0 <= i < |tail|
        ensures SegAllowed(cls, tail[i], i == |tail| - 1 && !trailing)
        ensures Name(cls, tail[i]) != "" ==> Name(cls, tail[i]) !in names'
      {
        assert tail[i] == segs[i + 1];
      }
    }
    if |segs| > 1 && SegsAllowed(cls, names', tail, trailing) {
      forall i | 1 <= i < |segs|
        ensures SegAllowed(cls, segs[i], i == |segs| - 1 && !trailing)
        ensures Name(cls, segs[i]) != "" ==> Name(cls, segs[i]) !in names'
        ensures forall j :: i < j < |segs| && Name(cls, segs[i]) != "" ==> Name(cls, segs[i]) != Name(cls, segs[j])
      {
        assert segs[i] == tail[i - 1];
        forall j | i < j < |segs| ensures segs[j] == tail[j - 1] {}
      }
    }
  }

  function ToSeg(cls: CharClass, seg: string): Seg {
    var kind := ParseWildcard(cls, seg).1;
    Seg(kind, if kind == Literal then seg else "")
  }

  function ToSegs(cls: CharClass, segs: seq<string>): (r: seq<Seg>)
    ensures |r| == |segs|
    decreases |segs|
  {
    if segs == [] then [] else [ToSeg(cls, segs[0])] + ToSegs(cls, segs[1..])
  }

  lemma {:induction false} ToSegsAt(cls: CharClass, segs: seq<string>)
    ensures forall i :: 0 <= i < |segs| ==> ToSegs(cls, segs)[i] == ToSeg(cls, segs[i])
    decreases |segs|
  {
    if segs != [] {
      ToSegsAt(cls, segs[1..]);
    }
  }

  lemma ToSegsStep(cls: CharClass, parsed: seq<Seg>, left: seq<string>)
    requires left != []
    ensures parsed + ToSegs(cls, left) == (parsed + [ToSeg(cls, left[0])]) + ToSegs(cls, left[1..])
  {
  }

  /** The pattern a well-formed string denotes. */
  function Parsed(cls: CharClass, s: string): (p: Pattern)
    requires IsValidPath(s)
  {
    if HasBrace(s) then Pattern(s, ToSegs(cls, PatternSegs(s)), EndsWith(s, "/")) else Pattern(s, [], false)
  }

  /** SegsAllowed read from the first segment on. */
  ghost predicate AllowedFrom(cls: CharClass, names: seq<string>, segs: seq<string>, trailing: bool)
    decreases |segs|
  {
    segs != [] ==>
      var name := Name(cls, segs[0]);
      && SegAllowed(cls, segs[0], |segs| == 1 && !trailing)
      && (name != "" ==> name !in names)
      && AllowedFrom(cls, if name == "" then names else names + [name], segs[1..], trailing)
  }

  lemma {:induction false} AllowedFromMeans(cls: CharClass, names: seq<string>, segs: seq<string>, trailing: bool)
    ensures AllowedFrom(cls, names, segs, trailing) <==> SegsAllowed(cls, names, segs, trailing)
    decreases |segs|
  {
    if segs != [] {
      var name := Name(cls, segs[0]);
      SegsAllowedStep(cls, names, segs, trailing);
      AllowedFromMeans(cls, if name == "" then names else names + [name], segs[1..], trailing);
    }
  }

  method ParsePathPattern(cls: CharClass, s: string) returns (r: Option<Pattern>)
    ensures r.Some? <==> WellFormed(cls, s)
    ensures r.Some? ==> r.value == Parsed(cls, s)
  {
    if !IsValidPath(s) { return None; }
    if !HasBrace(s) { return Some(Pattern(s, [], false)); }
    var trailing := EndsWith(s, "/");
    var names: seq<string> := [];
    var parsed: seq<Seg> := [];
    var segs := TrimSuffix(s[1..], "/");
    ghost var all := Split(segs);
    AllowedFromMeans(cls, [], all, trailing);
    while true
      invariant AllowedFrom(cls, [], all, trailing) <==> AllowedFrom(cls, names, Split(segs), trailing)
      invariant ToSegs(cls, all) == parsed + ToSegs(cls, Split(segs))
      decreases |segs|
    {
      var (seg, next, more) := Cut(segs);
      ghost var left := Split(segs);
      assert left == [seg] + left[1..];
      var (name, kind) := ParseWildcard(cls, seg);
      var last := !more && !trailing;
      if kind == Invalid || (kind == Anchor && !last) || (kind == Rest && !last) {
        assert !SegAllowed(cls, left[0], |left| == 1 && !trailing);
        return None;
      }
      assert SegAllowed(cls, left[0], |left| == 1 && !trailing);
      if name != "" && name in names { return None; }
      if name != "" { names := names + [name]; }
      ToSegsStep(cls, parsed, left);
      parsed := parsed + [Seg(kind, if kind == Literal then seg else "")];
      if !more {
        assert left[1..] == [];
        return Some(Pattern(s, parsed, trailing));
      }
      segs := next;
    }
  }

  predicate SegMatches(seg: Seg, got: string) {
    if seg.kind == Wildcard then got != "" else got == seg.lit
  }

  predicate LeadMatches(segs: seq<Seg>, n: nat, q: seq<string>)
    requires n <= |segs|
  {
    n <= |q| && forall i :: 0 <= i < n ==> SegMatches(segs[i], q[i])
  }

  /** What a list of pattern segments says of a path's segments q. */
  predicate Meaning(segs: seq<Seg>, trailing: bool, q: seq<string>)
    requires |segs| > 0
  {
    var n := |segs| - 1;
    match segs[n].kind
    case Rest => LeadMatches(segs, n, q) && |q| > n
    case Anchor => LeadMatches(segs, n, q) && |q| == n + 1 && q[n] == ""
    case _ => LeadMatches(segs, n + 1, q) && (if trailing then |q| > n + 1 else |q| == n + 1)
  }

  lemma MeaningStep(segs: seq<Seg>, trailing: bool, q: seq<string>)
    requires |segs| > 1 && segs[0].kind !in {Rest, Anchor}
    ensures Meaning(segs, trailing, q) <==>
            |q| > 1 && SegMatches(segs[0], q[0]) && Meaning(segs[1..], trailing, q[1..])
  {
    if |q| > 1 {
      LeadStep(segs, |segs| - 1, q);
      LeadStep(segs, |segs|, q);
    }
  }

  lemma LeadStep(segs: seq<Seg>, n: nat, q: seq<string>)
    requires 1 <= n <= |segs| && |q| > 0
    ensures LeadMatches(segs, n, q) <==> SegMatches(segs[0], q[0]) && LeadMatches(segs[1..], n - 1, q[1..])
  {
    if SegMatches(segs[0], q[0]) && LeadMatches(segs[1..], n - 1, q[1..]) {
      forall i | 0 <= i < n ensures SegMatches(segs[i], q[i]) {
        if i > 0 { assert segs[i] == segs[1..][i - 1] && q[i] == q[1..][i - 1]; }
      }
    }
  }

  /** A pattern the parser can return, or the zero pattern. */
  ghost predicate Valid(p: Pattern) {
    forall i :: 0 <= i < |p.segs| && p.segs[i].kind in {Rest, Anchor} ==> i == |p.segs| - 1
  }

  /** The set of paths of a pattern. */
  predicate Matches(p: Pattern, path: string) {
    if p.segs != [] then IsValidPath(path) && Meaning(p.segs, p.trailing, Split(path[1..]))
    else if IsValidPrefix(p.raw) then HasPrefix(path, p.raw)
    else p.raw != "" && path == p.raw
  }

  lemma EmptySplit(s: string)
    ensures s == "" <==> Split(s) == [""]
  {
    if Split(s) == [""] { JoinSplit(s); }
  }

  method MatchSegments(p: Pattern, path: string) returns (r: bool)
    requires Valid(p) && p.segs != []
    ensures r <==> IsValidPath(path) && Meaning(p.segs, p.trailing, Split(path[1..]))
  {
    if !IsValidPath(path) { return false; }
    var rest := path[1..];
    ghost var whole := Meaning(p.segs, p.trailing, Split(rest));
    assert p.segs[0..] == p.segs;
    for i := 0 to |p.segs|
      invariant i < |p.segs| && (whole <==> Meaning(p.segs[i..], p.trailing, Split(rest)))
    {
      var seg := p.segs[i];
      ghost var left := p.segs[i..];
      if seg.kind == Anchor {
        EmptySplit(rest);
        assert |left| == 1;
        return rest == "";
      }
      if seg.kind == Rest { return true; }
      var (got, after, more) := Cut(rest);
      if |left| > 1 {
        MeaningStep(left, p.trailing, Split(rest));
        assert left[1..] == p.segs[i + 1..];
      }
      if seg.kind == Wildcard {
        if got == "" { return false; }
      } else if got != seg.lit {
        return false;
      }
      if i == |p.segs| - 1 { return more == p.trailing; }
      if !more { return false; }
      rest := after;
    }
    return false;
  }

  method Match(p: Pattern, path: string) returns (r: bool)
    requires Valid(p)
    ensures r <==> Matches(p, path)
  {
    if p.segs != [] {
      r := MatchSegments(p, path);
    } else if IsValidPrefix(p.raw) {
      r := HasPrefix(path, p.raw);
    } else {
      r := p.raw != "" && path == p.raw;
    }
  }

  lemma ParsedValid(cls: CharClass, s: string)
    requires WellFormed(cls, s)
    ensures Valid(Parsed(cls, s))
  {
    if HasBrace(s) {
      var segs := PatternSegs(s);
      ToSegsAt(cls, segs);
      forall i | 0 <= i < |segs| && ToSegs(cls, segs)[i].kind in {Rest, Anchor}
        ensures i == |segs| - 1
      {
        assert SegAllowed(cls, segs[i], i == |segs| - 1 && !EndsWith(s, "/"));
      }
    }
  }

  lemma NoBraceSegs(cls: CharClass, s: string)
    requires IsValidPath(s) && !HasBrace(s)
    ensures forall i :: 0 <= i < |PatternSegs(s)| ==> ToSeg(cls, PatternSegs(s)[i]) == Seg(Literal, PatternSegs(s)[i])
  {
    var t := TrimSuffix(s[1..], "/");
    forall i | 0 <= i < |Split(t)| ensures !HasBrace(Split(t)[i]) {
      if '{' in Split(t)[i] { SplitChars(t, i, '{'); }
      if '}' in Split(t)[i] { SplitChars(t, i, '}'); }
    }
  }

  lemma {:induction false} SplitChars(s: string, k: nat, c: char)
    requires k < |Split(s)| && c in Split(s)[k]
    ensures c in s
    decreases |s|
  {
    var i := SlashAt(s);
    if i < |s| && k > 0 {
      SplitChars(s[i + 1..], k - 1, c);
    }
  }

  lemma LiteralsMatch(segs: seq<Seg>, lits: seq<string>, q: seq<string>)
    requires |segs| == |lits| && forall i :: 0 <= i < |lits| ==> segs[i] == Seg(Literal, lits[i])
    ensures LeadMatches(segs, |segs|, q) <==> lits <= q
  {
    if LeadMatches(segs, |segs|, q) {
      forall i | 0 <= i < |lits| ensures q[i] == lits[i] {
        assert SegMatches(segs[i], q[i]);
      }
    }
  }

  /** The segments a matcher would use for s even when it has no wildcard. */
  predicate SegmentwiseMatches(cls: CharClass, s: string, path: string)
    requires IsValidPath(s)
  {
    IsValidPath(path) && Meaning(ToSegs(cls, PatternSegs(s)), EndsWith(s, "/"), Split(path[1..]))
  }

  /** Matching a wildcard-free pattern by its text agrees with matching it by segments, except for "/". */
  lemma RawAgreesWithSegments(cls: CharClass, s: string, path: string)
    requires IsValidPath(s) && s != "/"
    ensures Matches(Parsed(cls, s), path) <==> SegmentwiseMatches(cls, s, path)
  {
    if !HasBrace(s) && IsValidPath(path) {
      LiteralMeaning(cls, s, Split(path[1..]));
      if EndsWith(s, "/") { PrefixBySegments(s, path); } else { ExactBySegments(s, path); }
    }
  }

  lemma LiteralMeaning(cls: CharClass, s: string, q: seq<string>)
    requires IsValidPath(s) && !HasBrace(s)
    ensures var lits := PatternSegs(s);
            Meaning(ToSegs(cls, lits), EndsWith(s, "/"), q) <==>
            lits <= q && if EndsWith(s, "/") then |lits| < |q| else |lits| == |q|
  {
    var lits := PatternSegs(s);
    NoBraceSegs(cls, s);
    ToSegsAt(cls, lits);
    LiteralsMatch(ToSegs(cls, lits), lits, q);
  }

  lemma PrefixBySegments(s: string, path: string)
    requires IsValidPath(s) && IsValidPath(path) && s != "/" && EndsWith(s, "/")
    ensures s <= path <==> PatternSegs(s) <= Split(path[1..]) && |PatternSegs(s)| < |Split(path[1..])|
  {
    var inner := TrimSuffix(s[1..], "/");
    assert s[1..] == inner + "/";
    assert s == "/" + (inner + "/") && path == "/" + path[1..];
    DirectoryPrefix(inner, path[1..]);
  }

  lemma ExactBySegments(s: string, path: string)
    requires IsValidPath(s) && IsValidPath(path) && !EndsWith(s, "/")
    ensures s == path <==> PatternSegs(s) <= Split(path[1..]) && |PatternSegs(s)| == |Split(path[1..])|
  {
    assert !EndsWith(s[1..], "/");
    if PatternSegs(s) <= Split(path[1..]) && |PatternSegs(s)| == |Split(path[1..])| {
      assert PatternSegs(s) == Split(path[1..]);
      SplitInjective(s[1..], path[1..]);
      assert s == "/" + s[1..] && path == "/" + path[1..];
    }
  }

  /** For "/" the two readings agree on a path exactly when it is invalid or starts with "//". */
  lemma RootPatternAgreesIff(cls: CharClass, path: string)
    ensures (Matches(Parsed(cls, "/"), path) <==> SegmentwiseMatches(cls, "/", path)) <==>
            !IsValidPath(path) || (|path| > 1 && path[1] == '/')
  {
    if IsValidPath(path) {
      var q := Split(path[1..]);
      assert PatternSegs("/") == [""];
      LiteralMeaning(cls, "/", q);
      assert [""] <= q && 1 < |q| <==> |path| > 1 && path[1] == '/' by {
        assert |path| > 1 ==> path[1..][0] == path[1];
      }
    }
  }

  /** So they do differ: the text is a prefix of "/a", while its one empty segment is not "a". */
  lemma RootPatternDiffers(cls: CharClass)
    ensures Matches(Parsed(cls, "/"), "/a") && !SegmentwiseMatches(cls, "/", "/a")
  {
    RootPatternAgreesIff(cls, "/a");
  }
}
