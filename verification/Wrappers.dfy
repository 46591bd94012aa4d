/**
 A value that may be absent, and facts about sequences that many modules need.
 */
module Wrappers {
  datatype Option<+T> = None | Some(value: T)

  lemma Associative<T>(a: seq<T>, b: seq<T>, c: seq<T>)
    ensures a + b + c == a + (b + c)
  {
  }

  lemma Chain<T>(a: seq<T>, b: seq<T>, c: seq<T>, d: seq<T>, e: seq<T>)
    ensures a + b + c + d + e == a + (b + (c + (d + e)))
  {
  }

  lemma Halves<T>(a: seq<T>, b: seq<T>)
    ensures (a + b)[..|a|] == a && (a + b)[|a|..] == b
  {
  }

  lemma HeadTail<T>(s: seq<T>)
    requires s != []
    ensures [s[0]] + s[1..] == s
  {
  }

  lemma InitLast<T>(s: seq<T>)
    requires s != []
    ensures s == s[..|s| - 1] + [s[|s| - 1]]
  {
  }

  lemma Longer<T>(s: seq<T>, i: nat)
    requires i < |s|
    ensures s[..i + 1] == s[..i] + [s[i]] && s[..i + 1][..i] == s[..i]
  {
  }

  lemma LongerSlice<T>(s: seq<T>, lo: nat, i: nat)
    requires lo <= i < |s|
    ensures s[lo..i + 1] == s[lo..i] + [s[i]]
  {
  }

  lemma LongerMiddle<T>(s: seq<T>, i: nat, before: seq<T>)
    requires 1 <= i < |s|
    ensures before + s[1..i + 1] == before + s[1..i] + [s[i]]
  {
  }

  lemma Adjacent<T>(s: seq<T>, lo: nat, mid: nat, hi: nat)
    requires lo <= mid <= hi <= |s|
    ensures s[lo..mid] + s[mid..hi] == s[lo..hi]
  {
  }

  lemma Taken<T>(s: seq<T>, i: nat, n: nat)
    requires i + n <= |s|
    ensures s[..i] + s[i..][..n] == s[..i + n]
  {
  }

  lemma ShorterRest<T>(s: seq<T>, i: nat, n: nat)
    requires i + n <= |s|
    ensures s[i..][n..] == s[i + n..]
  {
  }
}
