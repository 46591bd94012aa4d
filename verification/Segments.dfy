/**
 Slash-separated strings: the reading of broadcast paths, prefixes and patterns as
 lists of segments, and the correspondence between string prefixes and segment prefixes.
 */
module Segments {
  import opened Wrappers

  /** The index of the first '/' in s, or |s| when there is none. */
  function SlashAt(s: string): (i: nat)
    ensures i <= |s|
    ensures forall k :: 0 <= k < i ==> s[k] != '/'
    ensures i < |s| ==> s[i] == '/'
  {
    if s == [] || s[0] == '/' then 0 else 1 + SlashAt(s[1..])
  }

  predicate NoSlash(s: string) {
    '/' !in s
  }

  /** The segments of s: the text between its slashes, empty segments included. */
  function Split(s: string): (segs: seq<string>)
    ensures |segs| >= 1
    decreases |s|
  {
    var i := SlashAt(s);
    if i == |s| then [s] else [s[..i]] + Split(s[i + 1..])
  }

  function Join(segs: seq<string>): string
    requires |segs| >= 1
  {
    if |segs| == 1 then segs[0] else segs[0] + "/" + Join(segs[1..])
  }

  /** strings.Cut(s, "/"): the text before the first slash, the text after it, and whether there is one. */
  function Cut(s: string): (r: (string, string, bool))
    ensures r.2 <==> |Split(s)| > 1
    ensures Split(s)[0] == r.0
    ensures r.2 ==> Split(s)[1..] == Split(r.1) && |r.1| < |s|
    ensures !r.2 ==> r.0 == s && r.1 == ""
  {
    var i := SlashAt(s);
    if i == |s| then (s, "", false) else (s[..i], s[i + 1..], true)
  }

  predicate IsValidPath(path: string) {
    |path| > 0 && path[0] == '/'
  }

  predicate IsValidPrefix(prefix: string) {
    |prefix| > 0 && prefix[0] == '/' && (|prefix| == 1 || prefix[|prefix| - 1] == '/')
  }

  predicate HasPrefix(path: string, prefix: string) {
    prefix <= path
  }

  lemma {:induction false} SlashAtOf(a: string, b: string)
    requires NoSlash(a)
    ensures SlashAt(a + "/" + b) == |a|
    ensures SlashAt(a) == |a|
  {
    assert (a + "/" + b)[|a|] == '/';
  }

  lemma {:induction false} SplitNoSlash(s: string)
    ensures forall k :: 0 <= k < |Split(s)| ==> NoSlash(Split(s)[k])
    decreases |s|
  {
    var i := SlashAt(s);
    if i < |s| {
      SplitNoSlash(s[i + 1..]);
    }
  }

  lemma SplitFirst(x: string, y: string)
    requires NoSlash(x)
    ensures Split(x + "/" + y) == [x] + Split(y)
    ensures Split(x) == [x]
  {
    var s := x + "/" + y;
    SlashAtOf(x, y);
    assert s[..|x|] == x && s[|x| + 1..] == y;
  }

  lemma CutAround(a: string, i: nat, b: string)
    requires i < |a| && a[i] == '/'
    ensures a == a[..i] + "/" + a[i + 1..]
    ensures a + "/" + b == a[..i] + "/" + (a[i + 1..] + "/" + b)
  {
  }

  lemma SplitLonger(x: string, y: string, z: string, b: string)
    requires NoSlash(x) && Split(z) == Split(y) + Split(b)
    ensures Split(x + "/" + z) == Split(x + "/" + y) + Split(b)
  {
    SplitFirst(x, y);
    SplitFirst(x, z);
    Associative([x], Split(y), Split(b));
  }

  /** Splitting is a homomorphism: a slash between two strings separates their segments. */
  lemma {:induction false} SplitAppend(a: string, b: string)
    ensures Split(a + "/" + b) == Split(a) + Split(b)
    decreases |a|
  {
    var i := SlashAt(a);
    if i == |a| {
      SplitFirst(a, b);
    } else {
      var x, y := a[..i], a[i + 1..];
      SplitAppend(y, b);
      SplitLonger(x, y, y + "/" + b, b);
      CutAround(a, i, b);
    }
  }

  lemma {:induction false} JoinSplit(s: string)
    ensures Join(Split(s)) == s
    decreases |s|
  {
    var i := SlashAt(s);
    if i < |s| {
      JoinSplit(s[i + 1..]);
      assert Split(s)[1..] == Split(s[i + 1..]);
      assert s == s[..i] + "/" + s[i + 1..];
    }
  }

  lemma {:induction false} SplitInjective(a: string, b: string)
    requires Split(a) == Split(b)
    ensures a == b
  {
    JoinSplit(a);
    JoinSplit(b);
  }

  lemma {:induction false} JoinAppend(xs: seq<string>, ys: seq<string>)
    requires |xs| >= 1 && |ys| >= 1
    ensures Join(xs + ys) == Join(xs) + "/" + Join(ys)
  {
    if |xs| == 1 {
      assert (xs + ys)[1..] == ys;
    } else {
      assert (xs + ys)[1..] == xs[1..] + ys;
      JoinAppend(xs[1..], ys);
    }
  }

  /** a + "/" is a string prefix of x exactly when the segments of a lead those of x, with more after them. */
  lemma {:induction false} DirectoryPrefix(a: string, x: string)
    ensures a + "/" <= x <==> Split(a) <= Split(x) && |Split(a)| < |Split(x)|
  {
    if a + "/" <= x {
      var b := x[|a| + 1..];
      assert x == a + "/" + b;
      SplitAppend(a, b);
    }
    if Split(a) <= Split(x) && |Split(a)| < |Split(x)| {
      var n := |Split(a)|;
      var rest := Split(x)[n..];
      assert Split(x) == Split(a) + rest;
      JoinAppend(Split(a), rest);
      JoinSplit(a);
      JoinSplit(x);
      assert x == a + "/" + Join(rest);
    }
  }
}
