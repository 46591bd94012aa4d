/**
 How the mux reads a path and a prefix as lists of segments, and how far the two readings of "lies
 under" agree.
 */
module MuxPaths {
  import opened Wrappers
  import opened Segments

  /** The segments of a valid prefix without its leading and trailing slash; nil when there are none. */
  function PrefixSegs(prefix: string): seq<string> {
    if |prefix| <= 2 then [] else Split(prefix[1..|prefix| - 1])
  }

  /** The directories of a valid path: all its segments but the last. */
  function PathDirs(path: string): seq<string>
    requires IsValidPath(path)
  {
    var segs := Split(path[1..]);
    segs[..|segs| - 1]
  }

  method Count(s: string) returns (n: nat)
    ensures n == |Split(s)| - 1
  {
    n := 0;
    var rest := s;
    while |Split(rest)| > 1
      invariant n + |Split(rest)| == |Split(s)|
      decreases |rest|
    {
      rest := rest[SlashAt(rest) + 1..];
      n := n + 1;
    }
  }

  lemma NextCut(str: string, start: nat, i: nat)
    requires start <= i < |str| && str[i] == '/' && NoSlash(str[start..i])
    ensures Split(str[start..]) == [str[start..i]] + Split(str[i + 1..])
  {
    CutAround(str[start..], i - start, "");
    assert str[start..][..i - start] == str[start..i] && str[start..][i - start + 1..] == str[i + 1..];
    SplitFirst(str[start..i], str[i + 1..]);
  }

  lemma StillNoSlash(str: string, start: nat, i: nat)
    requires start <= i < |str| && str[i] != '/' && NoSlash(str[start..i])
    ensures NoSlash(str[start..i + 1])
  {
  }

  method CutLoop(str: string) returns (segments: seq<string>)
    ensures segments == Split(str)
  {
    segments := [];
    var start := 0;
    assert str[0..] == str;
    for i := 0 to |str|
      invariant start <= i
      invariant NoSlash(str[start..i])
      invariant Split(str) == segments + Split(str[start..])
    {
      if str[i] == '/' {
        NextCut(str, start, i);
        Associative(segments, [str[start..i]], Split(str[i + 1..]));
        segments := segments + [str[start..i]];
        start := i + 1;
      } else {
        StillNoSlash(str, start, i);
      }
    }
    assert str[start..|str|] == str[start..];
    SplitFirst(str[start..], "");
    segments := segments + [str[start..]];
  }

  /** str cut at every slash, as prefixSegments and pathSegments both do, with their shortcuts for up to two segments. */
  method CutAll(str: string) returns (segments: seq<string>)
    ensures segments == Split(str)
  {
    var n := Count(str);
    if n == 0 {
      return [str];
    }
    if n == 1 {
      var idx := SlashAt(str);
      var rest := str[idx + 1..];
      assert |Split(rest)| == 1;
      return [str[..idx], rest];
    }
    segments := CutLoop(str);
  }

  method PrefixSegments(prefix: string) returns (segments: seq<string>)
    ensures segments == PrefixSegs(prefix)
  {
    if |prefix| <= 2 {
      return [];
    }
    segments := CutAll(prefix[1..|prefix| - 1]);
  }

  /** The index of the last slash, or -1. */
  method LastSlash(p: string) returns (last: int)
    ensures -1 <= last < |p|
    ensures last >= 0 ==> p[last] == '/'
    ensures forall k :: last < k < |p| ==> p[k] != '/'
  {
    last := |p| - 1;
    while last >= 0 && p[last] != '/'
      invariant -1 <= last < |p|
      invariant forall k :: last < k < |p| ==> p[k] != '/'
    {
      last := last - 1;
    }
  }

  method PathSegments(p: string) returns (segments: seq<string>, last: string)
    ensures IsValidPath(p) ==> segments == PathDirs(p) && segments + [last] == Split(p[1..])
  {
    if |p| <= 1 {
      return [], if p == "/" then "" else p;
    }
    var lastSlashIdx := LastSlash(p);
    if lastSlashIdx <= 0 {
      assert SlashAt(p[1..]) == |p| - 1;
      return [], p[1..];
    }
    segments := CutAll(p[1..lastSlashIdx]);
    last := p[lastSlashIdx + 1..];
    assert SlashAt(last) == |last|;
    assert p[1..] == p[1..lastSlashIdx] + "/" + last;
    SplitAppend(p[1..lastSlashIdx], last);
  }

  lemma BehindTheSlash(prefix: string, path: string)
    requires IsValidPrefix(prefix) && |prefix| > 2 && IsValidPath(path)
    ensures HasPrefix(path, prefix) <==> prefix[1..|prefix| - 1] + "/" <= path[1..]
  {
    assert prefix[1..|prefix| - 1] + "/" == prefix[1..];
    assert prefix == "/" + prefix[1..] && path == "/" + path[1..];
    if HasPrefix(path, prefix) {
      assert path[1..][..|prefix| - 1] == prefix[1..];
    }
  }

  lemma StrictPrefix<T>(s: seq<T>, all: seq<T>)
    requires all != []
    ensures s <= all && |s| < |all| <==> s <= all[..|all| - 1]
  {
    if |s| < |all| {
      assert all[..|all| - 1][..|s|] == all[..|s|];
    }
  }

  /** Except for "//", a path starts with a valid prefix exactly when its directories start with the prefix's segments. */
  lemma PrefixIsSegmentPrefix(prefix: string, path: string)
    requires IsValidPrefix(prefix) && prefix != "//" && IsValidPath(path)
    ensures HasPrefix(path, prefix) <==> PrefixSegs(prefix) <= PathDirs(path)
  {
    if |prefix| > 1 {
      assert |prefix| != 2;
      BehindTheSlash(prefix, path);
      DirectoryPrefix(prefix[1..|prefix| - 1], path[1..]);
      StrictPrefix(Split(prefix[1..|prefix| - 1]), Split(path[1..]));
    }
  }

  /** "//" has the segments of "/", so the two readings agree on it exactly for the paths that start with "//". */
  lemma DoubleSlashIsRoot(path: string)
    requires IsValidPath(path)
    ensures IsValidPrefix("//") && PrefixSegs("//") <= PathDirs(path)
    ensures (HasPrefix(path, "//") <==> PrefixSegs("//") <= PathDirs(path)) <==> |path| > 1 && path[1] == '/'
  {
    assert PrefixSegs("//") == [];
  }
}
