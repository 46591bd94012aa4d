/**
 The set of settled group sequences of a subscription, kept as sorted, disjoint,
 inclusive ranges that never touch, and at most MAX_SETTLED_RANGES of them.
 */
module SettledGroups {

  /** A group sequence. The wire carries 62 bits of it, so hi + 1 never wraps in the source's 64. */
  type Sequence = int

  const MAX_SETTLED_RANGES: nat := 1024

  datatype Range = Range(lo: Sequence, hi: Sequence)

  ghost predicate Normal(rs: seq<Range>) {
    && (forall i :: 0 <= i < |rs| ==> rs[i].lo <= rs[i].hi)
    && (forall i, j :: 0 <= i < j < |rs| ==> rs[i].hi + 1 < rs[j].lo)
  }

  predicate InRange(r: Range, x: int) {
    r.lo <= x <= r.hi
  }

  predicate In(rs: seq<Range>, x: int) {
    exists i :: 0 <= i < |rs| && InRange(rs[i], x)
  }

  function Max(a: Sequence, b: Sequence): Sequence {
    if a < b then b else a
  }

  function Min(a: Sequence, b: Sequence): Sequence {
    if a < b then a else b
  }

  /** rs[k..] with lo..hi added and every range it touches merged into it. */
  function MergedFrom(rs: seq<Range>, k: nat, lo: Sequence, hi: Sequence): seq<Range>
    requires k <= |rs|
    decreases |rs| - k
  {
    if k == |rs| then [Range(lo, hi)]
    else if rs[k].hi + 1 < lo then [rs[k]] + MergedFrom(rs, k + 1, lo, hi)
    else if hi + 1 < rs[k].lo then [Range(lo, hi)] + rs[k..]
    else MergedFrom(rs, k + 1, Min(lo, rs[k].lo), Max(hi, rs[k].hi))
  }

  function Merged(rs: seq<Range>, lo: Sequence, hi: Sequence): seq<Range> {
    MergedFrom(rs, 0, lo, hi)
  }

  /** Past the cap, the oldest gap is treated as settled. */
  function Capped(rs: seq<Range>): seq<Range> {
    if |rs| > MAX_SETTLED_RANGES then [Range(rs[0].lo, rs[1].hi)] + rs[2..] else rs
  }

  function Added(rs: seq<Range>, lo: Sequence, hi: Sequence): seq<Range> {
    if hi < lo then rs else Capped(Merged(rs, lo, hi))
  }

  lemma NormalCons(r: Range, rs: seq<Range>)
    requires Normal(rs) && rs != [] && r.lo <= r.hi && r.hi + 1 < rs[0].lo
    ensures Normal([r] + rs)
  {
    var all := [r] + rs;
    forall i, j | 0 <= i < j < |all| ensures all[i].hi + 1 < all[j].lo {
      assert all[j] == rs[j - 1] && (i > 0 ==> all[i] == rs[i - 1]);
      assert rs[0].lo <= rs[j - 1].lo;
    }
  }

  lemma NormalFrom(rs: seq<Range>, k: nat)
    requires Normal(rs) && k < |rs|
    ensures Normal(rs[k..]) && rs[k..][0] == rs[k] && |rs[k..]| == |rs| - k
  {
  }

  lemma {:induction false} MergedNormal(rs: seq<Range>, k: nat, lo: Sequence, hi: Sequence)
    requires Normal(rs) && lo <= hi && k <= |rs|
    ensures Normal(MergedFrom(rs, k, lo, hi)) && 0 < |MergedFrom(rs, k, lo, hi)| <= |rs| - k + 1
    ensures var first := MergedFrom(rs, k, lo, hi)[0].lo;
            first >= lo || (k < |rs| && first >= rs[k].lo)
    decreases |rs| - k
  {
    if k < |rs| {
      if rs[k].hi + 1 < lo {
        MergedNormal(rs, k + 1, lo, hi);
        NormalCons(rs[k], MergedFrom(rs, k + 1, lo, hi));
      } else if hi + 1 < rs[k].lo {
        NormalFrom(rs, k);
        NormalCons(Range(lo, hi), rs[k..]);
      } else {
        MergedNormal(rs, k + 1, Min(lo, rs[k].lo), Max(hi, rs[k].hi));
      }
    }
  }

  lemma InCons(r: Range, rs: seq<Range>, x: int)
    ensures In([r] + rs, x) <==> InRange(r, x) || In(rs, x)
  {
    if InRange(r, x) {
      assert ([r] + rs)[0] == r;
    }
    if In(rs, x) {
      var i :| 0 <= i < |rs| && InRange(rs[i], x);
      assert ([r] + rs)[i + 1] == rs[i];
    }
  }

  lemma WithoutFirst<T>(s: seq<T>, x: T)
    requires |s| > 1
    ensures s[1 := x][1..] == [x] + s[2..]
  {
  }

  /** Merging adds lo..hi to the union and nothing else. */
  lemma {:induction false} MergedUnion(rs: seq<Range>, k: nat, lo: Sequence, hi: Sequence, x: int)
    requires Normal(rs) && lo <= hi && k <= |rs|
    ensures In(MergedFrom(rs, k, lo, hi), x) <==> In(rs[k..], x) || lo <= x <= hi
    decreases |rs| - k
  {
    if k == |rs| {
      assert In([Range(lo, hi)], x) <==> InRange([Range(lo, hi)][0], x);
    } else {
      assert rs[k..] == [rs[k]] + rs[k + 1..];
      InCons(rs[k], rs[k + 1..], x);
      if rs[k].hi + 1 < lo {
        MergedUnion(rs, k + 1, lo, hi, x);
        InCons(rs[k], MergedFrom(rs, k + 1, lo, hi), x);
      } else if hi + 1 < rs[k].lo {
        InCons(Range(lo, hi), rs[k..], x);
      } else {
        MergedUnion(rs, k + 1, Min(lo, rs[k].lo), Max(hi, rs[k].hi), x);
      }
    }
  }

  /** The form is canonical: two normal lists with the same union are the same list. */
  lemma {:induction false} NormalUnique(a: seq<Range>, b: seq<Range>)
    requires Normal(a) && Normal(b)
    requires forall x :: In(a, x) <==> In(b, x)
    ensures a == b
  {
    if b != [] {
      assert In(b, b[0].lo);
    }
    if a != [] {
      assert In(a, a[0].lo);
      assert a[0].lo == b[0].lo;
      FirstRange(a, b);
      FirstRange(b, a);
      assert a[0] == b[0];
      forall x ensures In(a[1..], x) <==> In(b[1..], x) {
        assert a == [a[0]] + a[1..] && b == [b[0]] + b[1..];
        InCons(a[0], a[1..], x);
        InCons(b[0], b[1..], x);
        if InRange(a[0], x) {
          assert !In(a[1..], x) && !In(b[1..], x);
        }
      }
      NormalUnique(a[1..], b[1..]);
    }
  }

  lemma FirstRange(a: seq<Range>, b: seq<Range>)
    requires Normal(a) && Normal(b) && a != [] && b != [] && a[0].lo == b[0].lo
    requires forall x :: In(a, x) <==> In(b, x)
    ensures a[0].hi <= b[0].hi
  {
    assert b[0].hi < a[0].hi ==> InRange(a[0], b[0].hi + 1);
    assert b[0].hi < a[0].hi ==> In(a, b[0].hi + 1);
  }

  /** One range holds lo..hi exactly when every sequence in lo..hi is in the union. */
  lemma {:induction false} CoversMeans(rs: seq<Range>, lo: Sequence, hi: Sequence)
    requires Normal(rs) && lo <= hi
    ensures (exists i :: 0 <= i < |rs| && rs[i].lo <= lo && hi <= rs[i].hi) <==> forall x :: lo <= x <= hi ==> In(rs, x)
  {
    if forall x :: lo <= x <= hi ==> In(rs, x) {
      assert In(rs, lo);
      var i :| 0 <= i < |rs| && InRange(rs[i], lo);
      assert rs[i].hi < hi ==> In(rs, rs[i].hi + 1);
    }
  }

  lemma {:induction false} MergedPrefix(rs: seq<Range>, k: nat, i: nat, lo: Sequence, hi: Sequence)
    requires k <= i <= |rs| && forall n :: k <= n < i ==> rs[n].hi + 1 < lo
    ensures MergedFrom(rs, k, lo, hi) == rs[k..i] + MergedFrom(rs, i, lo, hi)
    decreases i - k
  {
    if k < i {
      MergedPrefix(rs, k + 1, i, lo, hi);
      OneMore(rs, k, i, MergedFrom(rs, i, lo, hi));
    }
  }

  lemma OneMore<T>(s: seq<T>, k: nat, i: nat, more: seq<T>)
    requires k < i <= |s|
    ensures s[k..i] + more == [s[k]] + (s[k + 1..i] + more)
  {
  }

  // The whole history of a subscription's set.

  datatype Interval = Interval(lo: Sequence, hi: Sequence)

  /** Sequences start at 0 on the wire. */
  ghost predicate OnWire(adds: seq<Interval>) {
    forall i :: 0 <= i < |adds| ==> 0 <= adds[i].lo
  }

  /** x was added. */
  ghost predicate Settles(adds: seq<Interval>, x: int) {
    exists i :: 0 <= i < |adds| && adds[i].lo <= x <= adds[i].hi
  }

  function After(adds: seq<Interval>): seq<Range> {
    if adds == [] then []
    else var n := |adds| - 1; Added(After(adds[..n]), adds[n].lo, adds[n].hi)
  }

  /** The last addition overflowed the cap. */
  ghost predicate Overflows(adds: seq<Interval>) {
    adds != [] &&
    var n := |adds| - 1;
    adds[n].lo <= adds[n].hi && |Merged(After(adds[..n]), adds[n].lo, adds[n].hi)| > MAX_SETTLED_RANGES
  }

  ghost predicate CapHit(adds: seq<Interval>) {
    adds != [] && (Overflows(adds) || CapHit(adds[..|adds| - 1]))
  }

  /** Below the watermark a gap may have been given up; at and above it the set is exact. */
  ghost function Watermark(adds: seq<Interval>): int {
    if adds == [] then 0
    else
      var n := |adds| - 1;
      var w := Watermark(adds[..n]);
      if !Overflows(adds) then w
      else
        var lo := Merged(After(adds[..n]), adds[n].lo, adds[n].hi)[1].lo;
        if w < lo then lo else w
  }

  lemma JoinedNormal(rs: seq<Range>, c: seq<Range>)
    requires Normal(rs) && |rs| >= 2 && |c| == |rs| - 1
    requires c[0] == Range(rs[0].lo, rs[1].hi) && forall k :: 1 <= k < |c| ==> c[k] == rs[k + 1]
    ensures Normal(c)
  {
  }

  lemma CappedNormal(rs: seq<Range>)
    requires Normal(rs) && |rs| <= MAX_SETTLED_RANGES + 1
    ensures Normal(Capped(rs)) && |Capped(rs)| <= MAX_SETTLED_RANGES
  {
    if |rs| > MAX_SETTLED_RANGES {
      JoinedNormal(rs, Capped(rs));
    }
  }

  lemma CappedUnion(rs: seq<Range>, x: int)
    requires Normal(rs) && |rs| > MAX_SETTLED_RANGES
    ensures In(Capped(rs), x) <==> In(rs, x) || rs[0].hi < x < rs[1].lo
  {
    InCons(Range(rs[0].lo, rs[1].hi), rs[2..], x);
    InCons(rs[1], rs[2..], x);
    InCons(rs[0], rs[1..], x);
    assert rs == [rs[0]] + rs[1..] && rs[1..] == [rs[1]] + rs[2..];
  }

  lemma {:induction false} HistoryNormal(adds: seq<Interval>)
    ensures Normal(After(adds)) && |After(adds)| <= MAX_SETTLED_RANGES
  {
    if adds != [] {
      var n := |adds| - 1;
      HistoryNormal(adds[..n]);
      if adds[n].lo <= adds[n].hi {
        MergedNormal(After(adds[..n]), 0, adds[n].lo, adds[n].hi);
        CappedNormal(Merged(After(adds[..n]), adds[n].lo, adds[n].hi));
      }
    }
  }

  lemma SettlesStep(adds: seq<Interval>, x: int)
    requires adds != []
    ensures Settles(adds, x) <==> Settles(adds[..|adds| - 1], x) || adds[|adds| - 1].lo <= x <= adds[|adds| - 1].hi
  {
    var n := |adds| - 1;
    if Settles(adds[..n], x) {
      var i :| 0 <= i < n && adds[..n][i].lo <= x <= adds[..n][i].hi;
      assert adds[i].lo <= x <= adds[i].hi;
    }
    if Settles(adds, x) {
      var i :| 0 <= i < |adds| && adds[i].lo <= x <= adds[i].hi;
      assert i < n ==> adds[..n][i] == adds[i];
    }
  }

  /** Whatever was added is in the set for ever; what is in the set at or above the watermark was added. */
  lemma {:induction false} HistoryExact(adds: seq<Interval>, x: int)
    requires OnWire(adds)
    ensures Settles(adds, x) ==> In(After(adds), x)
    ensures In(After(adds), x) && Watermark(adds) <= x ==> Settles(adds, x)
    ensures 0 <= Watermark(adds) && (Watermark(adds) > 0 <==> CapHit(adds))
    ensures In(After(adds), x) ==> 0 <= x
    decreases |adds|, 1
  {
    if adds != [] {
      var n := |adds| - 1;
      var before, lo, hi := After(adds[..n]), adds[n].lo, adds[n].hi;
      HistoryExact(adds[..n], x);
      SettlesStep(adds, x);
      HistoryNormal(adds[..n]);
      if lo <= hi {
        MergedNormal(before, 0, lo, hi);
        assert before[0..] == before;
        MergedUnion(before, 0, lo, hi, x);
        if Overflows(adds) {
          var merged := Merged(before, lo, hi);
          CappedUnion(merged, x);
          FirstNonNegative(adds, merged);
        }
      }
    }
  }

  lemma FirstNonNegative(adds: seq<Interval>, merged: seq<Range>)
    requires OnWire(adds) && adds != [] && Overflows(adds)
    requires merged == Merged(After(adds[..|adds| - 1]), adds[|adds| - 1].lo, adds[|adds| - 1].hi)
    requires Normal(merged)
    ensures 0 <= merged[0].lo
    decreases |adds|, 0
  {
    var n := |adds| - 1;
    var before := After(adds[..n]);
    HistoryNormal(adds[..n]);
    assert before[0..] == before;
    MergedUnion(before, 0, adds[n].lo, adds[n].hi, merged[0].lo);
    assert InRange(merged[0], merged[0].lo);
    HistoryExact(adds[..n], merged[0].lo);
  }

  /** Below the cap the set is exactly what was added; the watermark never moves back. */
  lemma HistoryBelowCap(adds: seq<Interval>)
    requires OnWire(adds) && !CapHit(adds)
    ensures forall x :: In(After(adds), x) <==> Settles(adds, x)
  {
    forall x ensures In(After(adds), x) <==> Settles(adds, x) {
      HistoryExact(adds, x);
    }
  }

  lemma {:induction false} NormalSpan(rs: seq<Range>)
    requires Normal(rs) && rs != []
    ensures rs[|rs| - 1].hi - rs[0].lo >= 2 * (|rs| - 1)
  {
    if |rs| > 1 {
      NormalSpan(rs[..|rs| - 1]);
    }
  }

  lemma MergedWithin(adds: seq<Interval>, total: nat, k: nat, x: int)
    requires adds != [] && adds[|adds| - 1].lo <= adds[|adds| - 1].hi && !CapHit(adds[..|adds| - 1])
    requires forall i :: 0 <= i < |adds| ==> 1 <= adds[i].lo && adds[i].hi <= total
    requires var merged := Merged(After(adds[..|adds| - 1]), adds[|adds| - 1].lo, adds[|adds| - 1].hi);
             k < |merged| && InRange(merged[k], x)
    ensures 1 <= x <= total
  {
    var n := |adds| - 1;
    var before := After(adds[..n]);
    HistoryNormal(adds[..n]);
    HistoryBelowCap(adds[..n]);
    assert before[0..] == before;
    MergedUnion(before, 0, adds[n].lo, adds[n].hi, x);
    assert In(before, x) <==> Settles(adds[..n], x);
  }

  /** Ranges that never touch need two sequences each: a track of up to twice the cap never reaches it. */
  lemma {:induction false} ShortTrackBelowCap(adds: seq<Interval>, total: nat)
    requires forall i :: 0 <= i < |adds| ==> 1 <= adds[i].lo && adds[i].hi <= total
    requires total <= 2 * MAX_SETTLED_RANGES
    ensures !CapHit(adds)
  {
    if adds != [] {
      var n := |adds| - 1;
      ShortTrackBelowCap(adds[..n], total);
      if adds[n].lo <= adds[n].hi {
        var before := After(adds[..n]);
        var merged := Merged(before, adds[n].lo, adds[n].hi);
        HistoryNormal(adds[..n]);
        MergedNormal(before, 0, adds[n].lo, adds[n].hi);
        MergedWithin(adds, total, 0, merged[0].lo);
        MergedWithin(adds, total, |merged| - 1, merged[|merged| - 1].hi);
        NormalSpan(merged);
      }
    }
  }

  lemma WatermarkMonotone(adds: seq<Interval>, more: Interval)
    ensures Watermark(adds) <= Watermark(adds + [more])
  {
    assert (adds + [more])[..|adds|] == adds;
  }

  /** before with r inserted at p. */
  function Inserted(before: seq<Range>, p: nat, r: Range): seq<Range>
    requires p <= |before|
  {
    before[..p] + [r] + before[p..]
  }

  /** The state of the merging loop: base with its range at i grown to m, positions up to j swallowed. */
  ghost predicate Merging(before: seq<Range>, base: seq<Range>, p: nat, i: nat, j: nat, lo: Sequence, hi: Sequence, m: Range)
    requires p <= |before| && |base| == |before| + 1
  {
    && (i == p || i == p - 1) && i < j && p <= j <= |before| + 1
    && m.lo == base[i].lo && m.lo <= m.hi
    && (if j == p then m == before[i] && Merged(before, lo, hi) == before[..i] + MergedFrom(before, i, lo, hi)
        else Merged(before, lo, hi) == before[..i] + MergedFrom(before, j - 1, m.lo, m.hi))
  }

  lemma MergingStart(before: seq<Range>, base: seq<Range>, p: nat, i: nat, lo: Sequence, hi: Sequence)
    requires p <= |before| && Normal(before) && lo <= hi && base == Inserted(before, p, Range(lo, hi))
    requires p > 0 ==> before[p - 1].lo <= lo
    requires if p > 0 && base[p - 1].hi + 1 >= lo then i == p - 1 else i == p
    ensures Merging(before, base, p, i, i + 1, lo, hi, base[i])
  {
    MergedPrefix(before, 0, i, lo, hi);
  }

  lemma MergingStep(before: seq<Range>, base: seq<Range>, p: nat, i: nat, j: nat, lo: Sequence, hi: Sequence, m: Range)
    requires p <= |before| && Normal(before) && lo <= hi && base == Inserted(before, p, Range(lo, hi))
    requires (p > 0 ==> before[p - 1].lo <= lo) && (p < |before| ==> before[p].lo > lo)
    requires Merging(before, base, p, i, j, lo, hi, m) && j <= |before|
    requires i == p - 1 ==> before[i].hi + 1 >= lo
    requires base[j].lo <= m.hi + 1
    ensures Merging(before, base, p, i, j + 1, lo, hi, Range(m.lo, Max(m.hi, base[j].hi)))
  {
    assert j > p ==> base[j] == before[j - 1];
  }

  lemma MergingDone(before: seq<Range>, base: seq<Range>, p: nat, i: nat, j: nat, lo: Sequence, hi: Sequence, m: Range)
    requires p <= |before| && Normal(before) && lo <= hi && base == Inserted(before, p, Range(lo, hi))
    requires Merging(before, base, p, i, j, lo, hi, m)
    requires i == p - 1 ==> before[i].hi + 1 >= lo
    requires j <= |before| ==> base[j].lo > m.hi + 1
    ensures base[i := m][..i + 1] + base[i := m][j..] == Merged(before, lo, hi)
  {
    assert j > p;
    assert base[i := m][..i + 1] == before[..i] + [m];
    assert base[i := m][j..] == before[j - 1..];
    assert j <= |before| ==> base[j] == before[j - 1];
    assert MergedFrom(before, j - 1, m.lo, m.hi) == [m] + before[j - 1..];
  }

  lemma Updated(s: seq<Range>, i: nat, a: Range, j: nat)
    requires i < |s| && j < |s| && i != j
    ensures s[i := a][i] == a && s[i := a][j] == s[j]
  {
  }

  lemma Unchanged(s: seq<Range>, i: nat)
    requires i < |s|
    ensures s[i := s[i]] == s
  {
  }

  lemma UpdateTwice(s: seq<Range>, i: nat, a: Range, b: Range)
    requires i < |s|
    ensures s[i := a][i := b] == s[i := b]
  {
  }

  class SettledGroups {
    var ranges: seq<Range>

    ghost predicate Valid()
      reads this
    {
      Normal(ranges) && |ranges| <= MAX_SETTLED_RANGES
    }

    constructor ()
      ensures Valid() && ranges == []
    {
      ranges := [];
    }

    method Add(lo: Sequence, hi: Sequence)
      requires Valid()
      modifies this
      ensures Valid()
      ensures ranges == Added(old(ranges), lo, hi)
    {
      if hi < lo { return; }
      var i := InsertSorted(lo, hi);
      MergeTouching(i, old(ranges), lo, hi);
      MergedNormal(old(ranges), 0, lo, hi);
      if |ranges| > MAX_SETTLED_RANGES {
        WithoutFirst(ranges, Range(ranges[0].lo, ranges[1].hi));
        ranges := ranges[1 := Range(ranges[0].lo, ranges[1].hi)];
        ranges := ranges[1..];
      }
    }

    /** Most groups arrive in order, so the place is searched from the end. */
    method InsertSorted(lo: Sequence, hi: Sequence) returns (i: nat)
      modifies this
      ensures i <= |old(ranges)| && ranges == Inserted(old(ranges), i, Range(lo, hi))
      ensures i > 0 ==> old(ranges)[i - 1].lo <= lo
      ensures i < |old(ranges)| ==> old(ranges)[i].lo > lo
    {
      i := |ranges|;
      while i > 0 && ranges[i - 1].lo > lo
        invariant i <= |ranges|
        invariant i < |ranges| ==> ranges[i].lo > lo
      {
        i := i - 1;
      }
      ranges := ranges[..i] + [Range(lo, hi)] + ranges[i..];
    }

    /** Merges the range inserted at p with every range it touches. */
    method MergeTouching(p: nat, ghost before: seq<Range>, ghost lo: Sequence, ghost hi: Sequence)
      requires Normal(before) && lo <= hi
      requires p <= |before| && ranges == Inserted(before, p, Range(lo, hi))
      requires (p > 0 ==> before[p - 1].lo <= lo) && (p < |before| ==> before[p].lo > lo)
      modifies this
      ensures ranges == Merged(before, lo, hi)
    {
      var i := p;
      if i > 0 && ranges[i - 1].hi + 1 >= ranges[i].lo {
        i := i - 1;
      }
      MergingStart(before, ranges, p, i, lo, hi);
      MergeFrom(before, p, i, lo, hi);
    }

    /** Grows the range at i over every range it touches, up to the first it does not; p is where lo..hi was inserted. */
    method Grow(ghost before: seq<Range>, ghost p: nat, i: nat, ghost lo: Sequence, ghost hi: Sequence) returns (j: nat, ghost m: Range)
      requires Normal(before) && lo <= hi
      requires p <= |before| && ranges == Inserted(before, p, Range(lo, hi))
      requires (p > 0 ==> before[p - 1].lo <= lo) && (p < |before| ==> before[p].lo > lo)
      requires i == p - 1 ==> before[i].hi + 1 >= lo
      requires i < |ranges| && Merging(before, ranges, p, i, i + 1, lo, hi, ranges[i])
      modifies this
      ensures i < j <= |ranges| && ranges == old(ranges)[i := m]
      ensures Merging(before, old(ranges), p, i, j, lo, hi, m)
      ensures j < |ranges| ==> old(ranges)[j].lo > m.hi + 1
    {
      j := i + 1;
      ghost var base := ranges;
      m := ranges[i];
      Unchanged(base, i);
      while j < |ranges| && ranges[j].lo <= ranges[i].hi + 1
        invariant i < j <= |base| && ranges == base[i := m]
        invariant Merging(before, base, p, i, j, lo, hi, m)
      {
        Updated(base, i, m, j);
        MergingStep(before, base, p, i, j, lo, hi, m);
        var grown := Range(ranges[i].lo, Max(ranges[i].hi, ranges[j].hi));
        ranges := ranges[i := grown];
        UpdateTwice(base, i, m, grown);
        m := grown;
        j := j + 1;
      }
      if j < |base| {
        Updated(base, i, m, j);
      }
    }

    /** Replaces the ranges from i up to the first not touched by what they grow into. */
    method MergeFrom(ghost before: seq<Range>, ghost p: nat, i: nat, ghost lo: Sequence, ghost hi: Sequence)
      requires Normal(before) && lo <= hi
      requires p <= |before| && ranges == Inserted(before, p, Range(lo, hi))
      requires (p > 0 ==> before[p - 1].lo <= lo) && (p < |before| ==> before[p].lo > lo)
      requires i == p - 1 ==> before[i].hi + 1 >= lo
      requires i < |ranges| && Merging(before, ranges, p, i, i + 1, lo, hi, ranges[i])
      modifies this
      ensures ranges == Merged(before, lo, hi)
    {
      ghost var base := ranges;
      var j;
      ghost var m;
      j, m := Grow(before, p, i, lo, hi);
      MergingDone(before, base, p, i, j, lo, hi, m);
      ranges := ranges[..i + 1] + ranges[j..];
    }

    method Covers(lo: Sequence, hi: Sequence) returns (r: bool)
      requires Valid()
      ensures lo <= hi ==> (r <==> forall x :: lo <= x <= hi ==> In(ranges, x))
    {
      if lo <= hi { CoversMeans(ranges, lo, hi); }
      for i := 0 to |ranges|
        invariant forall k :: 0 <= k < i ==> !(ranges[k].lo <= lo && hi <= ranges[k].hi)
      {
        if ranges[i].lo <= lo && hi <= ranges[i].hi { return true; }
      }
      return false;
    }
  }
}
