/**
 Init data of a catalog (sections 5.1.7 and 5.2.13 of draft-ietf-moq-msf-01): payloads carried by tracks
 against a list of entries that tracks refer to by id.
 */
module InitData {
  import opened Wrappers

  const INLINE := "inline"

  datatype Ref = Ref(id: string, kind: Option<string>, data: Option<string>)

  /** initRef and initData are None where the property is undefined; an empty initRef counts as unset. */
  datatype Track = Track(name: string, initRef: Option<string>, initData: Option<string>)

  /** The payload of an inline entry, if it has one. */
  function InlineData(r: Ref): Option<string> {
    if r.kind.Some? && r.kind.value != INLINE then None else r.data
  }

  // Looking entries up.

  /** The first entry with an id. */
  function ById(list: seq<Ref>, id: string): (r: Option<Ref>)
    ensures r.Some? ==> r.value.id == id
  {
    if list == [] then None else if list[0].id == id then Some(list[0]) else ById(list[1..], id)
  }

  /** The id of the first inline entry with a payload. */
  function ByData(list: seq<Ref>, data: string): Option<string> {
    if list == [] then None else if InlineData(list[0]) == Some(data) then Some(list[0].id) else ByData(list[1..], data)
  }

  /** The payload an id stands for. */
  function Lookup(list: seq<Ref>, id: string): Option<string> {
    if ById(list, id).Some? then InlineData(ById(list, id).value) else None
  }

  lemma {:induction false} ByIdAppend(list: seq<Ref>, more: seq<Ref>, id: string)
    ensures ById(list + more, id) == if ById(list, id).Some? then ById(list, id) else ById(more, id)
  {
    if list == [] {
      assert list + more == more;
    } else {
      assert (list + more)[1..] == list[1..] + more;
      ByIdAppend(list[1..], more, id);
    }
  }

  lemma {:induction false} ByDataAppend(list: seq<Ref>, more: seq<Ref>, data: string)
    ensures ByData(list + more, data) == if ByData(list, data).Some? then ByData(list, data) else ByData(more, data)
  {
    if list == [] {
      assert list + more == more;
    } else {
      assert (list + more)[1..] == list[1..] + more;
      ByDataAppend(list[1..], more, data);
    }
  }

  lemma One(r: Ref)
    ensures forall id :: ById([r], id) == if r.id == id then Some(r) else None
    ensures forall data :: ByData([r], data) == if InlineData(r) == Some(data) then Some(r.id) else None
  {
    assert [r][1..] == [];
  }

  ghost predicate UniqueIds(list: seq<Ref>) {
    forall i, j :: 0 <= i < j < |list| ==> list[i].id != list[j].id
  }

  lemma {:induction false} ByIdMeans(list: seq<Ref>, id: string)
    ensures ById(list, id).Some? <==> exists i :: 0 <= i < |list| && list[i].id == id
  {
    if list != [] {
      ByIdMeans(list[1..], id);
      assert forall i :: 0 < i < |list| ==> list[i] == list[1..][i - 1];
      assert forall i :: 0 <= i < |list[1..]| ==> list[1..][i] == list[i + 1];
    }
  }

  /** With unique ids the entry found by payload is the entry found by its id. */
  lemma {:induction false} SharedEntry(list: seq<Ref>, data: string)
    requires UniqueIds(list) && ByData(list, data).Some?
    ensures Lookup(list, ByData(list, data).value) == Some(data)
    ensures exists i :: 0 <= i < |list| && list[i].id == ByData(list, data).value
  {
    if InlineData(list[0]) != Some(data) {
      var rest := list[1..];
      assert forall i :: 0 <= i < |rest| ==> rest[i] == list[i + 1];
      SharedEntry(rest, data);
      var i :| 0 <= i < |rest| && rest[i].id == ByData(rest, data).value;
      assert list[i + 1].id == ByData(list, data).value && list[0].id != list[i + 1].id;
    } else {
      assert list[0].id == ByData(list, data).value;
    }
  }

  // Fresh ids.

  function Digit(d: nat): char
    requires d < 10
  {
    "0123456789"[d]
  }

  function Decimal(n: nat): (s: string)
    ensures s != []
  {
    if n < 10 then [Digit(n)] else Decimal(n / 10) + [Digit(n % 10)]
  }

  function Candidate(base: string, n: nat): string {
    base + "-" + Decimal(n)
  }

  lemma {:induction false} DecimalInjective(m: nat, n: nat)
    requires Decimal(m) == Decimal(n)
    ensures m == n
  {
    var s, t := Decimal(m), Decimal(n);
    assert s[|s| - 1] == Digit(m % 10) && t[|t| - 1] == Digit(n % 10);
    DigitInjective(m % 10, n % 10);
    if m >= 10 && n >= 10 {
      assert Decimal(m / 10) == s[..|s| - 1] == t[..|t| - 1] == Decimal(n / 10);
      DecimalInjective(m / 10, n / 10);
    }
  }

  lemma DigitInjective(d: nat, e: nat)
    requires d < 10 && e < 10 && Digit(d) == Digit(e)
    ensures d == e
  {
  }

  lemma CandidateInjective(base: string, m: nat, n: nat)
    requires Candidate(base, m) == Candidate(base, n)
    ensures m == n
  {
    assert Decimal(m) == Candidate(base, m)[|base| + 1..];
    assert Decimal(n) == Candidate(base, n)[|base| + 1..];
    DecimalInjective(m, n);
  }

  /** The first free candidate from n on. Each one taken uses up an id, so the search ends. */
  function FreeFrom(ids: set<string>, base: string, n: nat): string
    decreases ids
  {
    var c := Candidate(base, n);
    if c in ids then FreeFrom(ids - {c}, base, n + 1) else c
  }

  function FreshId(ids: set<string>, base: string): string {
    if base !in ids then base else FreeFrom(ids, base, 2)
  }

  lemma {:induction false} FreeFromMeans(ids: set<string>, base: string, n: nat) returns (m: nat)
    ensures FreeFrom(ids, base, n) == Candidate(base, m) && n <= m
    ensures Candidate(base, m) !in ids
    ensures forall k :: n <= k < m ==> Candidate(base, k) in ids
    decreases ids
  {
    var c := Candidate(base, n);
    m := n;
    if c in ids {
      m := FreeFromMeans(ids - {c}, base, n + 1);
      if Candidate(base, m) == c {
        CandidateInjective(base, m, n);
      }
    }
  }

  /** A fresh id is free, not empty, and the base itself or the base with the least free number from 2 on. */
  lemma FreshIdMeans(ids: set<string>, base: string)
    requires base != ""
    ensures FreshId(ids, base) !in ids && FreshId(ids, base) != ""
  {
    if base in ids {
      var m := FreeFromMeans(ids, base, 2);
    }
  }

  method ComputeFreshId(ids: set<string>, base: string) returns (id: string)
    ensures id == FreshId(ids, base)
  {
    if base !in ids { return base; }
    var n := 2;
    ghost var tried: set<string> := {};
    assert ids - tried == ids;
    while true
      invariant n >= 2 && tried <= ids
      invariant forall c :: c in tried ==> exists k :: 2 <= k < n && c == Candidate(base, k)
      invariant FreeFrom(ids - tried, base, n) == FreeFrom(ids, base, 2)
      decreases ids - tried
    {
      id := Candidate(base, n);
      if id in tried {
        var k :| 2 <= k < n && id == Candidate(base, k);
        CandidateInjective(base, k, n);
      }
      if id !in ids { return; }
      assert ids - tried - {id} == ids - (tried + {id});
      assert id == Candidate(base, n);
      tried := tried + {id};
      n := n + 1;
    }
  }

  // Materializing one track after another.

  function Ids(list: seq<Ref>): set<string> {
    set r | r in list :: r.id
  }

  function Set(ref: Option<string>): Option<string> {
    if ref == Some("") then None else ref
  }

  function NewId(list: seq<Ref>, t: Track): string {
    var ref := Set(t.initRef);
    if ref.Some? && ById(list, ref.value).None? then ref.value
    else FreshId(Ids(list), if ref.Some? then ref.value else if t.name != "" then t.name else "init")
  }

  /** The reference a track is written with, and the list it then refers into. */
  function Written(list: seq<Ref>, t: Track): (seq<Ref>, Option<string>) {
    if t.initData.None? then (list, Set(t.initRef))
    else
      var data := t.initData.value;
      var ref := Set(t.initRef);
      if ref.Some? && Lookup(list, ref.value) == Some(data) then (list, ref)
      else if ByData(list, data).Some? then (list, ByData(list, data))
      else
        var id := NewId(list, t);
        (list + [Ref(id, Some(INLINE), Some(data))], Some(id))
  }

  function ListAfter(list: seq<Ref>, tracks: seq<Track>): seq<Ref>
    decreases |tracks|
  {
    if tracks == [] then list else ListAfter(Written(list, tracks[0]).0, tracks[1..])
  }

  function RefsOf(list: seq<Ref>, tracks: seq<Track>): (refs: seq<Option<string>>)
    ensures |refs| == |tracks|
    decreases |tracks|
  {
    if tracks == [] then [] else [Written(list, tracks[0]).1] + RefsOf(Written(list, tracks[0]).0, tracks[1..])
  }

  // Resolving.

  function Resolved(list: seq<Ref>, t: Track): Track {
    if t.initData.Some? || Set(t.initRef).None? then t
    else if Lookup(list, t.initRef.value).Some? then t.(initData := Lookup(list, t.initRef.value))
    else t
  }

  /** What travels of a track: its reference, and no payload. */
  function OnTheWire(t: Track, ref: Option<string>): Track {
    t.(initRef := ref, initData := None)
  }

  // Validation.

  predicate EntriesValid(list: seq<Ref>) {
    forall i :: 0 <= i < |list| ==> list[i].id != "" && (list[i].kind.Some? ==> list[i].kind.value == INLINE)
  }

  predicate TrackValid(list: seq<Ref>, t: Track) {
    t.initData.None? && Set(t.initRef).Some? ==> t.initRef.value in Ids(list)
  }

  ghost predicate Valid(list: seq<Ref>, tracks: seq<Track>) {
    EntriesValid(list) && UniqueIds(list) && forall i :: 0 <= i < |tracks| ==> TrackValid(list, tracks[i])
  }

  datatype Problem = BadType(i: nat) | MissingId(i: nat) | DuplicateId(i: nat) | DanglingRef(i: nat)

  method ValidateInitData(list: seq<Ref>, tracks: seq<Track>) returns (problems: seq<Problem>)
    ensures problems == [] <==> Valid(list, tracks)
  {
    problems := [];
    var ids: set<string> := {};
    for i := 0 to |list|
      invariant problems == [] <==> EntriesValid(list[..i]) && UniqueIds(list[..i])
      invariant problems == [] ==> ids == Ids(list[..i])
    {
      var ref := list[i];
      NextEntry(list, i);
      if ref.kind.Some? && ref.kind.value != INLINE { problems := problems + [BadType(i)]; }
      if ref.id == "" { problems := problems + [MissingId(i)]; continue; }
      if ref.id in ids { problems := problems + [DuplicateId(i)]; continue; }
      ids := ids + {ref.id};
    }
    assert list[..|list|] == list;
    for i := 0 to |tracks|
      invariant problems == [] <==> EntriesValid(list) && UniqueIds(list) && forall j :: 0 <= j < i ==> TrackValid(list, tracks[j])
      invariant problems == [] ==> ids == Ids(list)
    {
      var t := tracks[i];
      if t.initRef.Some? && t.initRef.value != "" && t.initData.None? && t.initRef.value !in ids {
        problems := problems + [DanglingRef(i)];
      }
    }
  }

  lemma NextEntry(list: seq<Ref>, i: nat)
    requires i < |list|
    ensures EntriesValid(list[..i + 1]) <==> EntriesValid(list[..i]) && list[i].id != "" && (list[i].kind.Some? ==> list[i].kind.value == INLINE)
    ensures UniqueIds(list[..i + 1]) <==> UniqueIds(list[..i]) && list[i].id !in Ids(list[..i])
    ensures Ids(list[..i + 1]) == Ids(list[..i]) + {list[i].id}
  {
    var a, b := list[..i], list[..i + 1];
    assert b == a + [list[i]];
    assert forall j :: 0 <= j < i ==> a[j] == b[j];
    assert forall r :: r in a ==> exists j :: 0 <= j < i && a[j] == r;
  }

  // What materializing keeps.

  lemma WrittenKeeps(list: seq<Ref>, t: Track)
    requires EntriesValid(list) && UniqueIds(list)
    ensures var (list', ref) := Written(list, t);
            && list <= list' && EntriesValid(list') && UniqueIds(list')
            && (ref.Some? ==> ref.value != "")
            && (t.initData.Some? ==> ref.Some? && Lookup(list', ref.value) == t.initData)
  {
    if t.initData.Some? {
      var data := t.initData.value;
      if ByData(list, data).Some? {
        SharedEntry(list, data);
      }
      if Written(list, t).0 != list {
        NewEntryKeeps(list, t);
      }
    }
  }

  lemma NewEntryKeeps(list: seq<Ref>, t: Track)
    requires EntriesValid(list) && UniqueIds(list) && t.initData.Some?
    ensures var r := Ref(NewId(list, t), Some(INLINE), t.initData);
            && r.id != "" && r.id !in Ids(list)
            && EntriesValid(list + [r]) && UniqueIds(list + [r]) && Lookup(list + [r], r.id) == t.initData
  {
    var ref := Set(t.initRef);
    FreshIdMeans(Ids(list), if ref.Some? then ref.value else if t.name != "" then t.name else "init");
    var r := Ref(NewId(list, t), Some(INLINE), t.initData);
    ByIdMeans(list, r.id);
    assert r.id !in Ids(list);
    assert forall i :: 0 <= i < |list| ==> list[i] in list && list[i].id in Ids(list);
    ByIdAppend(list, [r], r.id);
    One(r);
  }

  lemma LookupStays(list: seq<Ref>, list': seq<Ref>, id: string)
    requires list <= list' && ById(list, id).Some?
    ensures Lookup(list', id) == Lookup(list, id)
  {
    assert list' == list + list'[|list|..];
    ByIdAppend(list, list'[|list|..], id);
  }

  /** The existing list stays as a prefix, and ids stay unique. */
  lemma {:induction false} ListKeeps(list: seq<Ref>, tracks: seq<Track>)
    requires EntriesValid(list) && UniqueIds(list)
    ensures list <= ListAfter(list, tracks)
    ensures EntriesValid(ListAfter(list, tracks)) && UniqueIds(ListAfter(list, tracks))
    decreases |tracks|
  {
    if tracks != [] {
      WrittenKeeps(list, tracks[0]);
      ListKeeps(Written(list, tracks[0]).0, tracks[1..]);
    }
  }

  lemma {:induction false} RefMeans(list: seq<Ref>, tracks: seq<Track>, i: nat)
    requires EntriesValid(list) && UniqueIds(list) && i < |tracks|
    ensures var ref := RefsOf(list, tracks)[i];
            && (ref.Some? ==> ref.value != "")
            && (tracks[i].initData.Some? ==> ref.Some? && Lookup(ListAfter(list, tracks), ref.value) == tracks[i].initData)
            && (tracks[i].initData.None? ==> ref == Set(tracks[i].initRef))
    decreases |tracks|
  {
    WrittenKeeps(list, tracks[0]);
    var (list', ref) := Written(list, tracks[0]);
    if i == 0 {
      ListKeeps(list', tracks[1..]);
      if tracks[0].initData.Some? {
        LookupStays(list', ListAfter(list', tracks[1..]), ref.value);
      }
    } else {
      RefMeans(list', tracks[1..], i - 1);
    }
  }

  /** The track has no payload and refers to an id that is not in the list. */
  predicate Dangles(list: seq<Ref>, t: Track) {
    t.initData.None? && Set(t.initRef).Some? && t.initRef.value !in Ids(list)
  }

  /** The payload a receiver finds for a track, once the wire form is resolved. */
  function PayloadReceived(list: seq<Ref>, tracks: seq<Track>, i: nat): Option<string>
    requires i < |tracks|
  {
    Resolved(ListAfter(list, tracks), OnTheWire(tracks[i], RefsOf(list, tracks)[i])).initData
  }

  /** What a reference that is in the list stands for is still what it stands for afterwards. */
  lemma KnownRefSurvives(list: seq<Ref>, tracks: seq<Track>, x: string)
    requires EntriesValid(list) && UniqueIds(list) && x in Ids(list)
    ensures Lookup(ListAfter(list, tracks), x) == Lookup(list, x)
  {
    ListKeeps(list, tracks);
    InIds(list, x);
    LookupStays(list, ListAfter(list, tracks), x);
  }

  lemma InIds(list: seq<Ref>, x: string)
    ensures x in Ids(list) <==> ById(list, x).Some?
  {
    ByIdMeans(list, x);
    if x in Ids(list) {
      var r :| r in list && r.id == x;
      var k :| 0 <= k < |list| && list[k] == r;
    }
  }

  /** Every entry that materializing adds stands for a payload. */
  lemma {:induction false} AddedStandsForPayload(list: seq<Ref>, tracks: seq<Track>, x: string)
    requires EntriesValid(list) && UniqueIds(list) && x !in Ids(list) && x in Ids(ListAfter(list, tracks))
    ensures Lookup(ListAfter(list, tracks), x).Some?
    decreases |tracks|
  {
    var list' := Written(list, tracks[0]).0;
    WrittenKeeps(list, tracks[0]);
    if x in Ids(list') {
      NewEntryKeeps(list, tracks[0]);
      AddedId(list, list'[|list|], x);
      KnownRefSurvives(list', tracks[1..], x);
    } else {
      AddedStandsForPayload(list', tracks[1..], x);
    }
  }

  lemma AddedId(list: seq<Ref>, r: Ref, x: string)
    ensures x in Ids(list + [r]) <==> x in Ids(list) || x == r.id
  {
    if x in Ids(list) {
      var q :| q in list && q.id == x;
      assert q in list + [r];
    }
    assert r in list + [r];
  }

  /**
   With valid entries and unique ids, a track is received with the payload it had or referred to exactly when it does
   not dangle, or materializing adds no entry under the id it refers to.
   */
  lemma PayloadSurvivesIff(list: seq<Ref>, tracks: seq<Track>, i: nat)
    requires EntriesValid(list) && UniqueIds(list) && i < |tracks|
    ensures PayloadReceived(list, tracks, i) == Resolved(list, tracks[i]).initData <==>
            !(Dangles(list, tracks[i]) && tracks[i].initRef.value in Ids(ListAfter(list, tracks)))
  {
    ListKeeps(list, tracks);
    RefMeans(list, tracks, i);
    var t := tracks[i];
    if t.initData.None? && Set(t.initRef).Some? {
      var x := t.initRef.value;
      InIds(list, x);
      InIds(ListAfter(list, tracks), x);
      if x in Ids(list) {
        KnownRefSurvives(list, tracks, x);
      } else if x in Ids(ListAfter(list, tracks)) {
        AddedStandsForPayload(list, tracks, x);
      }
    }
  }

  /** Over the wire and resolved, every track of a valid catalog has the payload it had or referred to. */
  lemma PayloadsSurvive(list: seq<Ref>, tracks: seq<Track>, i: nat)
    requires Valid(list, tracks) && i < |tracks|
    ensures PayloadReceived(list, tracks, i) == Resolved(list, tracks[i]).initData
    ensures tracks[i].initData.Some? ==> Resolved(list, tracks[i]).initData == tracks[i].initData
  {
    assert TrackValid(list, tracks[i]);
    PayloadSurvivesIff(list, tracks, i);
  }

  /** The name a fresh id for the track is made from. */
  function Base(t: Track): string {
    if Set(t.initRef).Some? then t.initRef.value else if t.name != "" then t.name else "init"
  }

  /** x is the track's reference or name, or that numbered. */
  ghost predicate MayName(t: Track, x: string) {
    x == Base(t) || exists n: nat :: n >= 2 && x == Candidate(Base(t), n)
  }

  lemma NewIdIsNamed(list: seq<Ref>, t: Track)
    ensures MayName(t, NewId(list, t))
  {
    if Base(t) in Ids(list) {
      var m := FreeFromMeans(Ids(list), Base(t), 2);
    }
  }

  /** No track whose payload the list does not hold yet could be given the id x. */
  ghost predicate KeptApart(list: seq<Ref>, tracks: seq<Track>, x: string) {
    forall t :: t in tracks && t.initData.Some? && ByData(list, t.initData.value).None? ==> !MayName(t, x)
  }

  /** What a caller can check beforehand: an id kept apart from the tracks' names is not added. */
  lemma {:induction false} KeptApartIsNotAdded(list: seq<Ref>, tracks: seq<Track>, x: string)
    requires x !in Ids(list) && KeptApart(list, tracks, x)
    ensures x !in Ids(ListAfter(list, tracks))
    decreases |tracks|
  {
    if tracks != [] {
      var t, list' := tracks[0], Written(list, tracks[0]).0;
      assert t in tracks;
      if list' != list {
        NewIdIsNamed(list, t);
        AddedId(list, list'[|list|], x);
        forall data | ByData(list', data).None? ensures ByData(list, data).None? {
          ByDataAppend(list, [list'[|list|]], data);
        }
      }
      assert forall q :: q in tracks[1..] ==> q in tracks;
      KeptApartIsNotAdded(list', tracks[1..], x);
    }
  }

  /** No payload is in the list twice. */
  ghost predicate PayloadsDistinct(list: seq<Ref>) {
    forall i, j :: 0 <= i < j < |list| && InlineData(list[i]).Some? ==> InlineData(list[i]) != InlineData(list[j])
  }

  lemma {:induction false} ByDataNone(list: seq<Ref>, data: string)
    ensures ByData(list, data).None? <==> forall i :: 0 <= i < |list| ==> InlineData(list[i]) != Some(data)
  {
    if list != [] {
      ByDataNone(list[1..], data);
      assert forall i :: 0 <= i < |list[1..]| ==> list[1..][i] == list[i + 1];
      assert forall i :: 0 < i < |list| ==> list[i] == list[1..][i - 1];
    }
  }

  /** Tracks with one payload share one entry: materializing puts no payload into the list that is there already. */
  lemma {:induction false} PayloadsShared(list: seq<Ref>, tracks: seq<Track>)
    requires PayloadsDistinct(list)
    ensures PayloadsDistinct(ListAfter(list, tracks))
    decreases |tracks|
  {
    if tracks != [] {
      var t, list' := tracks[0], Written(list, tracks[0]).0;
      if list' != list {
        ByDataNone(list, t.initData.value);
        assert list' == list + [list'[|list|]];
      }
      PayloadsShared(list', tracks[1..]);
    }
  }

  /** The tracks a receiver has, once the wire form is resolved. */
  function Received(list: seq<Ref>, tracks: seq<Track>, refs: seq<Option<string>>): (r: seq<Track>)
    requires |refs| == |tracks|
    ensures |r| == |tracks|
    ensures forall i :: 0 <= i < |tracks| ==> r[i] == Resolved(list, OnTheWire(tracks[i], refs[i]))
  {
    seq(|tracks|, i requires 0 <= i < |tracks| => Resolved(list, OnTheWire(tracks[i], refs[i])))
  }

  /** Tracks that carry what their references stand for are written without a change to the list. */
  lemma {:induction false} NothingAdded(list: seq<Ref>, tracks: seq<Track>)
    requires forall i :: 0 <= i < |tracks| && tracks[i].initData.Some? ==>
               Set(tracks[i].initRef).Some? && Lookup(list, tracks[i].initRef.value) == tracks[i].initData
    ensures ListAfter(list, tracks) == list
    ensures forall i :: 0 <= i < |tracks| ==> RefsOf(list, tracks)[i] == Set(tracks[i].initRef)
    decreases |tracks|
  {
    if tracks != [] {
      assert forall i :: 0 <= i < |tracks[1..]| ==> tracks[1..][i] == tracks[i + 1];
      NothingAdded(list, tracks[1..]);
    }
  }

  /** Materializing what was received gives the same wire form again. */
  lemma MaterializeAgain(list: seq<Ref>, tracks: seq<Track>)
    requires Valid(list, tracks)
    ensures var list' := ListAfter(list, tracks);
            var refs := RefsOf(list, tracks);
            var received := Received(list', tracks, refs);
            ListAfter(list', received) == list' && RefsOf(list', received) == refs
  {
    var list' := ListAfter(list, tracks);
    var refs := RefsOf(list, tracks);
    var received := Received(list', tracks, refs);
    forall i | 0 <= i < |tracks| ensures Set(refs[i]) == refs[i] {
      RefMeans(list, tracks, i);
    }
    NothingAdded(list', received);
    assert forall i :: 0 <= i < |tracks| ==> received[i].initRef == refs[i];
  }

  /** The same guard, on the payload: a dangling track kept apart from the others' names stays without one. */
  lemma KeptApartSurvives(list: seq<Ref>, tracks: seq<Track>, i: nat)
    requires EntriesValid(list) && UniqueIds(list) && i < |tracks|
    requires Dangles(list, tracks[i]) && KeptApart(list, tracks, tracks[i].initRef.value)
    ensures PayloadReceived(list, tracks, i) == Resolved(list, tracks[i]).initData == None
  {
    PayloadSurvivesIff(list, tracks, i);
    KeptApartIsNotAdded(list, tracks, tracks[i].initRef.value);
    InIds(list, tracks[i].initRef.value);
  }

  /** Without validation it does happen: two tracks with one dangling reference, of which the second has a payload. */
  lemma DanglingRefCaptured(a: string, b: string, x: string, data: string)
    requires x != ""
    ensures var tracks := [Track(a, Some(x), None), Track(b, Some(x), Some(data))];
            Resolved([], tracks[0]).initData == None && PayloadReceived([], tracks, 0) == Some(data)
  {
    var tracks := [Track(a, Some(x), None), Track(b, Some(x), Some(data))];
    assert tracks[1..] == [tracks[1]] && [tracks[1]][1..] == [];
    var r := Ref(x, Some(INLINE), Some(data));
    assert Written([], tracks[0]) == ([], Some(x));
    assert [] + [r] == [r];
    assert Written([], tracks[1]) == ([r], Some(x));
    assert ListAfter([], [tracks[1]]) == ListAfter([r], []) == [r];
    assert ListAfter([], tracks) == ListAfter([], [tracks[1]]);
    One(r);
  }

  // The two operations on a catalog.

  class Catalog {
    var initDataList: seq<Ref>
    var tracks: seq<Track>

    constructor (list: seq<Ref>, tracks: seq<Track>)
      ensures initDataList == list && this.tracks == tracks
    {
      initDataList, this.tracks := list, tracks;
    }

    method ResolveInitData()
      modifies this`tracks
      ensures |tracks| == |old(tracks)|
      ensures forall i :: 0 <= i < |tracks| ==> tracks[i] == Resolved(initDataList, old(tracks)[i])
    {
      var list := initDataList;
      if |list| == 0 { return; }
      var byId: map<string, Ref> := map[];
      for i := 0 to |list|
        invariant tracks == old(tracks)
        invariant forall id :: id in byId <==> ById(list[..i], id).Some?
        invariant forall id :: id in byId ==> ById(list[..i], id) == Some(byId[id])
      {
        assert list[..i + 1] == list[..i] + [list[i]];
        One(list[i]);
        forall id ensures ById(list[..i + 1], id) == if ById(list[..i], id).Some? then ById(list[..i], id) else ById([list[i]], id) {
          ByIdAppend(list[..i], [list[i]], id);
        }
        if list[i].id !in byId {
          byId := byId[list[i].id := list[i]];
        }
      }
      assert list[..|list|] == list;
      for i := 0 to |tracks|
        invariant |tracks| == |old(tracks)|
        invariant forall j :: 0 <= j < i ==> tracks[j] == Resolved(list, old(tracks)[j])
        invariant forall j :: i <= j < |tracks| ==> tracks[j] == old(tracks)[j]
      {
        var track := tracks[i];
        if track.initData.Some? || track.initRef.None? || track.initRef.value == "" { continue; }
        var data := if track.initRef.value in byId then InlineData(byId[track.initRef.value]) else None;
        if data.Some? {
          tracks := tracks[i := track.(initData := data)];
        }
      }
    }

    /** The indexes by id and by payload agree with a search of the list. */
    static ghost predicate Indexed(list: seq<Ref>, byId: map<string, Ref>, byData: map<string, string>) {
      && (forall id :: id in byId <==> ById(list, id).Some?)
      && (forall id :: id in byId ==> ById(list, id) == Some(byId[id]))
      && (forall data :: data in byData <==> ByData(list, data).Some?)
      && (forall data :: data in byData ==> ByData(list, data) == Some(byData[data]))
    }

    static lemma IndexedAppend(list: seq<Ref>, byId: map<string, Ref>, byData: map<string, string>, r: Ref)
      requires Indexed(list, byId, byData)
      ensures Indexed(list + [r], if r.id in byId then byId else byId[r.id := r],
                      if InlineData(r).Some? && InlineData(r).value !in byData then byData[InlineData(r).value := r.id] else byData)
    {
      One(r);
      forall id ensures ById(list + [r], id) == if ById(list, id).Some? then ById(list, id) else ById([r], id) {
        ByIdAppend(list, [r], id);
      }
      forall data ensures ByData(list + [r], data) == if ByData(list, data).Some? then ByData(list, data) else ByData([r], data) {
        ByDataAppend(list, [r], data);
      }
    }

    static method BuildIndexes(list: seq<Ref>) returns (byId: map<string, Ref>, byData: map<string, string>)
      ensures Indexed(list, byId, byData)
    {
      byId, byData := map[], map[];
      for i := 0 to |list|
        invariant Indexed(list[..i], byId, byData)
      {
        var ref := list[i];
        assert list[..i + 1] == list[..i] + [ref];
        IndexedAppend(list[..i], byId, byData, ref);
        if ref.id !in byId {
          byId := byId[ref.id := ref];
        }
        var data := InlineData(ref);
        if data.Some? && data.value !in byData {
          byData := byData[data.value := ref.id];
        }
      }
      assert list[..|list|] == list;
    }

    /** What one track is written with, given the indexes: an id of the list, or an entry to add. */
    static method WriteTrack(list: seq<Ref>, ids: set<string>, byId: map<string, Ref>, byData: map<string, string>, track: Track)
      returns (ref: Option<string>, added: Option<Ref>)
      requires ids == Ids(list) && Indexed(list, byId, byData)
      ensures Written(list, track) == (if added.Some? then list + [added.value] else list, ref)
      ensures added.Some? ==> added.value.id !in byId && InlineData(added.value).Some? && InlineData(added.value).value !in byData
    {
      ref, added := Set(track.initRef), None;
      if track.initData.None? { return; }
      var data := track.initData.value;
      if ref.Some? && ref.value in byId && InlineData(byId[ref.value]) == Some(data) { return; }
      if data in byData { return Some(byData[data]), None; }
      var id;
      if ref.Some? && ref.value !in byId {
        id := ref.value;
      } else {
        var base := if ref.Some? then ref.value else if track.name != "" then track.name else "init";
        id := ComputeFreshId(ids, base);
        FreshIdMeans(ids, base);
        ByIdMeans(list, id);
      }
      return Some(id), Some(Ref(id, Some(INLINE), Some(data)));
    }

    method MaterializeInitData() returns (list: seq<Ref>, initRefs: seq<Option<string>>)
      ensures list == ListAfter(initDataList, tracks) && initRefs == RefsOf(initDataList, tracks)
    {
      list := initDataList;
      var ids := set r | r in list :: r.id;
      var byId, byData := BuildIndexes(list);
      initRefs := [];
      assert tracks[0..] == tracks;
      for i := 0 to |tracks|
        invariant ids == Ids(list) && Indexed(list, byId, byData)
        invariant ListAfter(list, tracks[i..]) == ListAfter(initDataList, tracks)
        invariant initRefs + RefsOf(list, tracks[i..]) == RefsOf(initDataList, tracks)
      {
        assert tracks[i..][0] == tracks[i] && tracks[i..][1..] == tracks[i + 1..];
        var ref, added := WriteTrack(list, ids, byId, byData, tracks[i]);
        if added.Some? {
          var entry := added.value;
          IndexedAppend(list, byId, byData, entry);
          list := list + [entry];
          ids := ids + {entry.id};
          byId := byId[entry.id := entry];
          byData := byData[entry.data.value := entry.id];
        }
        initRefs := initRefs + [ref];
      }
    }
  }
}
