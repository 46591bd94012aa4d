/**
 A catalog and the application of a delta to it: operations folded over the track list in wire order,
 with track identities unique throughout.
 */
module Catalog {
  import opened Wrappers
  import opened Tracks
  import opened CatalogDelta

  datatype CatalogView = CatalogView(version: int, defaultNamespace: string, generatedAt: Option<int>, isComplete: bool,
                                     tracks: seq<Track>, publishTracks: seq<Track>, extra: map<string, Raw>)

  /** A delta and the metadata it carries. */
  datatype Update = Update(delta: Delta, defaultNamespace: string, generatedAt: Option<int>, isComplete: bool, extra: map<string, Raw>)

  /** The rules that identities do not enter: those of one track's fields, and those of the init data list. */
  datatype Rules = Rules(track: Track -> bool, list: CatalogView -> bool)

  datatype Failure =
    | InvalidCatalog
    | InvalidDelta
    | NamespaceInherited
    | DuplicateTrack(id: TrackId)
    | UnknownTrack(id: TrackId)
    | UnknownParent(id: TrackId)
    | MissingName(id: TrackId)

  datatype Result<T> = Ok(value: T) | Err(failure: Failure)

  // Identities.

  ghost predicate UniqueIds(tracks: seq<Track>, ns: string) {
    forall i, j :: 0 <= i < j < |tracks| ==> Id(tracks[i], ns) != Id(tracks[j], ns)
  }

  /** Some track before i has the identity of track i. */
  predicate Repeats(tracks: seq<Track>, ns: string, i: nat)
    requires i < |tracks|
  {
    exists j :: 0 <= j < i && Id(tracks[j], ns) == Id(tracks[i], ns)
  }

  /** The positions Validate reports, in order. */
  function Duplicates(tracks: seq<Track>, ns: string, n: nat): seq<nat>
    requires n <= |tracks|
  {
    if n == 0 then [] else Duplicates(tracks, ns, n - 1) + if Repeats(tracks, ns, n - 1) then [n - 1] else []
  }

  lemma {:induction false} NoDuplicatesMeans(tracks: seq<Track>, ns: string, n: nat)
    requires n <= |tracks|
    ensures Duplicates(tracks, ns, n) == [] <==> forall i, j :: 0 <= i < j < n ==> Id(tracks[i], ns) != Id(tracks[j], ns)
  {
    if n > 0 {
      NoDuplicatesMeans(tracks, ns, n - 1);
    }
  }

  /** The form for more than 16 tracks: a set of the identities seen. */
  method DuplicatesBySet(tracks: seq<Track>, ns: string) returns (problems: seq<nat>)
    ensures problems == Duplicates(tracks, ns, |tracks|)
  {
    var seen: set<TrackId> := {};
    problems := [];
    for i := 0 to |tracks|
      invariant forall id :: id in seen <==> exists j :: 0 <= j < i && Id(tracks[j], ns) == id
      invariant problems == Duplicates(tracks, ns, i)
    {
      var id := Id(tracks[i], ns);
      if id in seen {
        problems := problems + [i];
        continue;
      }
      seen := seen + {id};
    }
  }

  /** The form for up to 16: a search among the first of each identity, kept in a fixed array. */
  method DuplicatesByScan(tracks: seq<Track>, ns: string) returns (problems: seq<nat>)
    requires 1 < |tracks| <= 16
    ensures problems == Duplicates(tracks, ns, |tracks|)
  {
    var seen := new TrackId[16](_ => TrackId("", ""));
    seen[0] := Id(tracks[0], ns);
    var numSeen := 1;
    problems := [];
    assert Duplicates(tracks, ns, 0) == [] && !Repeats(tracks, ns, 0);
    for i := 1 to |tracks|
      invariant 1 <= numSeen <= i
      invariant forall id :: id in seen[..numSeen] <==> exists j :: 0 <= j < i && Id(tracks[j], ns) == id
      invariant problems == Duplicates(tracks, ns, i)
    {
      var id := Id(tracks[i], ns);
      var isDuplicate := Among(seen, numSeen, id);
      if isDuplicate {
        problems := problems + [i];
      } else {
        ghost var before := seen[..numSeen];
        seen[numSeen] := id;
        numSeen := numSeen + 1;
        assert seen[..numSeen] == before + [id];
      }
    }
  }

  method Among(seen: array<TrackId>, numSeen: nat, id: TrackId) returns (found: bool)
    requires numSeen <= seen.Length
    ensures found <==> id in seen[..numSeen]
  {
    for j := 0 to numSeen
      invariant id !in seen[..j]
    {
      if seen[j] == id { return true; }
      assert seen[..j + 1] == seen[..j] + [seen[j]];
    }
    return false;
  }

  /** Both forms report the same, and nothing exactly when the identities are unique. */
  method DuplicateIdentities(tracks: seq<Track>, ns: string) returns (problems: seq<nat>)
    ensures problems == Duplicates(tracks, ns, |tracks|)
    ensures problems == [] <==> UniqueIds(tracks, ns)
  {
    NoDuplicatesMeans(tracks, ns, |tracks|);
    problems := [];
    if |tracks| > 16 {
      problems := DuplicatesBySet(tracks, ns);
    } else if |tracks| > 1 {
      problems := DuplicatesByScan(tracks, ns);
    }
  }

  // One operation.

  function Find(tracks: seq<Track>, ns: string, id: TrackId): (idx: int)
    ensures -1 <= idx < |tracks|
    ensures idx >= 0 ==> Id(tracks[idx], ns) == id
    ensures idx == -1 ==> forall i :: 0 <= i < |tracks| ==> Id(tracks[i], ns) != id
  {
    if tracks == [] then -1
    else if Id(tracks[0], ns) == id then 0
    else
      var idx := Find(tracks[1..], ns, id);
      assert forall i :: 0 < i < |tracks| ==> tracks[i] == tracks[1..][i - 1];
      if idx == -1 then -1 else idx + 1
  }

  datatype Unit = AddUnit(track: Track) | RemoveUnit(ref: TrackRef) | CloneUnit(clone: TrackClone)

  function Step(tracks: seq<Track>, ns: string, u: Unit): Result<seq<Track>> {
    match u
    case AddUnit(t) =>
      if Find(tracks, ns, Id(t, ns)) >= 0 then Err(DuplicateTrack(Id(t, ns))) else Ok(tracks + [t])
    case RemoveUnit(r) =>
      var idx := Find(tracks, ns, RefId(r, ns));
      if idx < 0 then Err(UnknownTrack(RefId(r, ns))) else Ok(tracks[..idx] + tracks[idx + 1..])
    case CloneUnit(c) =>
      var idx := Find(tracks, ns, ParentId(c, ns));
      if idx < 0 then Err(UnknownParent(ParentId(c, ns)))
      else
        var cloned := Overridden(tracks[idx], c.track);
        if cloned.name == "" then Err(MissingName(ParentId(c, ns)))
        else if Find(tracks, ns, Id(cloned, ns)) >= 0 then Err(DuplicateTrack(Id(cloned, ns)))
        else Ok(tracks + [cloned])
  }

  lemma StepKeepsUnique(tracks: seq<Track>, ns: string, u: Unit)
    requires UniqueIds(tracks, ns) && Step(tracks, ns, u).Ok?
    ensures UniqueIds(Step(tracks, ns, u).value, ns)
  {
  }

  /** Adding succeeds exactly for a new identity, removing for a known one; and neither touches any other track. */
  lemma AddAndRemoveMean(tracks: seq<Track>, ns: string, t: Track, r: TrackRef)
    requires UniqueIds(tracks, ns)
    ensures Step(tracks, ns, AddUnit(t)).Ok? <==> forall s <- tracks :: Id(s, ns) != Id(t, ns)
    ensures Step(tracks, ns, AddUnit(t)).Ok? ==> Step(tracks, ns, AddUnit(t)).value == tracks + [t]
    ensures Step(tracks, ns, RemoveUnit(r)).Ok? <==> exists s <- tracks :: Id(s, ns) == RefId(r, ns)
    ensures Step(tracks, ns, RemoveUnit(r)).Ok? ==>
              forall s :: s in Step(tracks, ns, RemoveUnit(r)).value <==> s in tracks && Id(s, ns) != RefId(r, ns)
  {
    var idx := Find(tracks, ns, RefId(r, ns));
    if idx >= 0 {
      var rest := tracks[..idx] + tracks[idx + 1..];
      forall s ensures s in rest <==> s in tracks && Id(s, ns) != RefId(r, ns) {
        if s in tracks && Id(s, ns) != RefId(r, ns) {
          var i :| 0 <= i < |tracks| && tracks[i] == s;
          assert s == if i < idx then rest[i] else rest[i - 1];
        }
        if s in rest {
          var i :| 0 <= i < |rest| && rest[i] == s;
          assert s == tracks[if i < idx then i else i + 1];
        }
      }
    }
  }

  /** Removing what was just added gives back the list as it was. */
  lemma RemoveUndoesAdd(tracks: seq<Track>, ns: string, t: Track)
    requires Step(tracks, ns, AddUnit(t)).Ok?
    ensures Step(tracks + [t], ns, RemoveUnit(TrackRef(t.namespace, t.name, map[]))) == Ok(tracks)
  {
    var idx := Find(tracks + [t], ns, Id(t, ns));
    assert Id((tracks + [t])[|tracks|], ns) == Id(t, ns);
    assert forall i :: 0 <= i < |tracks| ==> (tracks + [t])[i] == tracks[i];
    assert idx == |tracks|;
    assert (tracks + [t])[..idx] + (tracks + [t])[idx + 1..] == tracks;
  }

  lemma FindsTheOne(tracks: seq<Track>, ns: string, i: nat)
    requires UniqueIds(tracks, ns) && i < |tracks|
    ensures Find(tracks, ns, Id(tracks[i], ns)) == i
  {
    var idx := Find(tracks, ns, Id(tracks[i], ns));
    assert idx >= 0 && Id(tracks[idx], ns) == Id(tracks[i], ns);
  }

  /** A clone that declares only a name is its parent under that name, unless the name is taken in the parent's namespace. */
  lemma CloneUnderNewName(tracks: seq<Track>, ns: string, i: nat, name: string)
    requires UniqueIds(tracks, ns) && i < |tracks| && name != "" && "name" !in tracks[i].fields
    ensures var parent := tracks[i];
            var c := TrackClone(Track("", name, map[], map[], {"name"}), parent.name, parent.namespace);
            var id := TrackId(EffectiveNamespace(parent.namespace, ns), name);
            Step(tracks, ns, CloneUnit(c)) ==
            if exists s :: s in tracks && Id(s, ns) == id then Err(DuplicateTrack(id))
            else Ok(tracks + [parent.(name := name, present := parent.present + {"name"})])
  {
    var id := TrackId(EffectiveNamespace(tracks[i].namespace, ns), name);
    FindsTheOne(tracks, ns, i);
    RenameOnly(tracks[i], name);
    var idx := Find(tracks, ns, id);
    if idx >= 0 {
      assert tracks[idx] in tracks;
    }
  }

  // A list of operations.

  function Units(w: WireOp): seq<Unit> {
    match w
    case AddOp(adds) => seq(|adds|, i requires 0 <= i < |adds| => AddUnit(adds[i]))
    case RemoveOp(removes) => seq(|removes|, i requires 0 <= i < |removes| => RemoveUnit(removes[i]))
    case CloneOp(clones) => seq(|clones|, i requires 0 <= i < |clones| => CloneUnit(clones[i]))
    case UnknownOp(_) => []
  }

  function ApplyUnits(tracks: seq<Track>, ns: string, units: seq<Unit>): Result<seq<Track>>
    decreases |units|
  {
    if units == [] then Ok(tracks)
    else
      match Step(tracks, ns, units[0])
      case Err(e) => Err(e)
      case Ok(more) => ApplyUnits(more, ns, units[1..])
  }

  /** The wire operations folded over the track list in their declared order. */
  function ApplyWire(tracks: seq<Track>, ns: string, wire: seq<WireOp>): Result<seq<Track>>
    decreases |wire|
  {
    if wire == [] then Ok(tracks)
    else
      match ApplyUnits(tracks, ns, Units(wire[0]))
      case Err(e) => Err(e)
      case Ok(more) => ApplyWire(more, ns, wire[1..])
  }

  lemma {:induction false} UnitsKeepUnique(tracks: seq<Track>, ns: string, units: seq<Unit>)
    requires UniqueIds(tracks, ns) && ApplyUnits(tracks, ns, units).Ok?
    ensures UniqueIds(ApplyUnits(tracks, ns, units).value, ns)
    decreases |units|
  {
    if units != [] {
      StepKeepsUnique(tracks, ns, units[0]);
      UnitsKeepUnique(Step(tracks, ns, units[0]).value, ns, units[1..]);
    }
  }

  lemma {:induction false} WireKeepsUnique(tracks: seq<Track>, ns: string, wire: seq<WireOp>)
    requires UniqueIds(tracks, ns) && ApplyWire(tracks, ns, wire).Ok?
    ensures UniqueIds(ApplyWire(tracks, ns, wire).value, ns)
    decreases |wire|
  {
    if wire != [] {
      UnitsKeepUnique(tracks, ns, Units(wire[0]));
      WireKeepsUnique(ApplyUnits(tracks, ns, Units(wire[0])).value, ns, wire[1..]);
    }
  }

  // ApplyDelta.

  ghost predicate ValidCatalog(rules: Rules, v: CatalogView) {
    && v.version != 0
    && (forall t <- v.tracks :: t.name != "" && rules.track(t))
    && (forall t <- v.publishTracks :: t.name != "" && rules.track(t))
    && UniqueIds(v.tracks, v.defaultNamespace)
    && rules.list(v)
  }

  ghost predicate ValidDelta(rules: Rules, d: Delta) {
    && (d.adds != [] || d.removes != [] || d.clones != [])
    && (forall t <- d.adds :: t.name != "" && rules.track(t))
    && (forall r <- d.removes :: r.name != "" && r.extra == map[])
    && (forall c <- d.clones :: c.track.name != "" && c.parentName != "")
  }

  predicate Inherits(tracks: seq<Track>) {
    exists i :: 0 <= i < |tracks| && tracks[i].namespace == ""
  }

  function NewNamespace(v: CatalogView, u: Update): string {
    if u.defaultNamespace != "" then u.defaultNamespace else v.defaultNamespace
  }

  /** The catalog with the update's metadata and its own tracks. */
  function Prepared(v: CatalogView, u: Update): CatalogView {
    v.(defaultNamespace := NewNamespace(v, u), generatedAt := if u.generatedAt.Some? then u.generatedAt else v.generatedAt,
       isComplete := v.isComplete || u.isComplete, extra := v.extra + u.extra)
  }

  /** What ApplyDelta gives for a catalog and an update. */
  ghost function Applied(rules: Rules, v: CatalogView, u: Update): Result<CatalogView> {
    var ns := NewNamespace(v, u);
    if !ValidCatalog(rules, v) then Err(InvalidCatalog)
    else if !ValidDelta(rules, u.delta) then Err(InvalidDelta)
    else if ns != v.defaultNamespace && Inherits(v.tracks) then Err(NamespaceInherited)
    else
      match ApplyWire(v.tracks, ns, Wire(u.delta))
      case Err(e) => Err(e)
      case Ok(tracks) =>
        var r := Prepared(v, u).(tracks := tracks);
        if ValidCatalog(rules, r) then Ok(r) else Err(InvalidCatalog)
  }

  /** Besides its tracks an update changes only what it sets: nothing is unset, completeness is never taken back. */
  lemma AppliedMetadata(rules: Rules, v: CatalogView, u: Update, key: string)
    requires Applied(rules, v, u).Ok?
    ensures var r := Applied(rules, v, u).value;
            && r.version == v.version && r.publishTracks == v.publishTracks
            && (r.isComplete <==> v.isComplete || u.isComplete)
            && (u.generatedAt.Some? ==> r.generatedAt == u.generatedAt) && (u.generatedAt.None? ==> r.generatedAt == v.generatedAt)
            && (u.defaultNamespace != "" ==> r.defaultNamespace == u.defaultNamespace)
            && (u.defaultNamespace == "" ==> r.defaultNamespace == v.defaultNamespace)
            && (key in u.extra ==> key in r.extra && r.extra[key] == u.extra[key])
            && (key !in u.extra ==> (key in r.extra <==> key in v.extra) && (key in v.extra ==> r.extra[key] == v.extra[key]))
  {
  }

  /** A decoded delta is applied as the operations of its wire form, in the order they were written. */
  lemma AppliedInWireOrder(rules: Rules, v: CatalogView, wire: seq<WireOp>, u: Update)
    requires Known(wire) && u.delta == Decoded(wire) && Applied(rules, v, u).Ok?
    ensures ApplyWire(v.tracks, NewNamespace(v, u), wire) == Ok(Applied(rules, v, u).value.tracks)
    ensures UniqueIds(Applied(rules, v, u).value.tracks, NewNamespace(v, u))
  {
    WireOfDecoded(wire);
  }

  /** Identities stay unique by the operations alone: the second Validate never fails for a duplicate. */
  lemma UniqueBeforeValidation(v: CatalogView, u: Update)
    requires UniqueIds(v.tracks, v.defaultNamespace)
    requires NewNamespace(v, u) != v.defaultNamespace ==> !Inherits(v.tracks)
    requires ApplyWire(v.tracks, NewNamespace(v, u), Wire(u.delta)).Ok?
    ensures UniqueIds(ApplyWire(v.tracks, NewNamespace(v, u), Wire(u.delta)).value, NewNamespace(v, u))
  {
    forall i, j | 0 <= i < j < |v.tracks| ensures Id(v.tracks[i], NewNamespace(v, u)) != Id(v.tracks[j], NewNamespace(v, u)) {
      assert Id(v.tracks[i], v.defaultNamespace) != Id(v.tracks[j], v.defaultNamespace);
    }
    WireKeepsUnique(v.tracks, NewNamespace(v, u), Wire(u.delta));
  }

  /** A change of default namespace leaves every track of the catalog its identity. */
  lemma NamespaceChangeKeepsIds(rules: Rules, v: CatalogView, u: Update, t: Track)
    requires Applied(rules, v, u).Ok? && t in v.tracks
    ensures Id(t, v.defaultNamespace) == Id(t, Applied(rules, v, u).value.defaultNamespace)
  {
  }

  /** The check is no stricter than needed: what it refuses would have changed an identity, but for one pair of names. */
  lemma RefusedChangeMoves(v: CatalogView, u: Update)
    requires NewNamespace(v, u) != v.defaultNamespace
    ensures Inherits(v.tracks) && !(v.defaultNamespace == "" && u.defaultNamespace == INHERITED) <==>
            exists i :: 0 <= i < |v.tracks| && Id(v.tracks[i], v.defaultNamespace) != Id(v.tracks[i], NewNamespace(v, u))
  {
    forall i | 0 <= i < |v.tracks| ensures Id(v.tracks[i], v.defaultNamespace) != Id(v.tracks[i], NewNamespace(v, u)) <==>
                                           v.tracks[i].namespace == "" && !(v.defaultNamespace == "" && u.defaultNamespace == INHERITED) {
      IdSurvives(v.tracks[i], v.defaultNamespace, NewNamespace(v, u));
    }
    if Inherits(v.tracks) {
      var i :| 0 <= i < |v.tracks| && v.tracks[i].namespace == "";
      assert v.tracks[i].namespace == "";
    }
  }

  /** publishTracks are not checked: one of them moves exactly when it inherits and the namespace it inherits differs. */
  lemma PublishTrackMoves(rules: Rules, v: CatalogView, u: Update, t: Track)
    requires Applied(rules, v, u).Ok? && t in v.publishTracks
    ensures Id(t, v.defaultNamespace) != Id(t, Applied(rules, v, u).value.defaultNamespace) <==>
            t.namespace == "" && EffectiveNamespace("", v.defaultNamespace) != EffectiveNamespace("", NewNamespace(v, u))
  {
    IdSurvives(t, v.defaultNamespace, NewNamespace(v, u));
  }

  /** A catalog whose only track is the publish track t, before and after the track a is added under the namespace ns. */
  function OnlyPublishing(t: Track): CatalogView {
    CatalogView(1, "", None, false, [], [t], map[])
  }

  function WithOne(t: Track, a: Track, ns: string): CatalogView {
    CatalogView(1, ns, None, false, [a], [t], map[])
  }

  /** And that happens, whatever the rules: any tracks and catalogs they accept will do. */
  lemma PublishTrackMovesOnce(rules: Rules, t: Track, a: Track, ns: string) returns (u: Update)
    requires rules.track(t) && t.name != "" && t.namespace == ""
    requires rules.track(a) && a.name != ""
    requires ns != "" && ns != INHERITED
    requires rules.list(OnlyPublishing(t)) && rules.list(WithOne(t, a, ns))
    ensures Applied(rules, OnlyPublishing(t), u) == Ok(WithOne(t, a, ns))
    ensures Id(t, OnlyPublishing(t).defaultNamespace) != Id(t, WithOne(t, a, ns).defaultNamespace)
  {
    var wire := [AddOp([a])];
    u := Update(Decoded(wire), ns, None, false, map[]);
    assert wire[..|wire| - 1] == [] && Decoded([]) == EMPTY_DELTA;
    assert u.delta == Recording(EMPTY_DELTA, wire[0]);
    assert u.delta.adds == [a] && u.delta.removes == [] && u.delta.clones == [];
    WireOfDecoded(wire);
    OneAdd(a, ns);
    assert OnlyPublishing(t).extra + u.extra == map[];
  }

  lemma OneAdd(a: Track, ns: string)
    ensures ApplyWire([], ns, [AddOp([a])]) == Ok([a])
  {
    var wire := [AddOp([a])];
    var none: seq<Track> := [];
    assert Units(wire[0]) == [AddUnit(a)];
    assert [AddUnit(a)][1..] == [] && wire[1..] == [] && none + [a] == [a];
    assert Step(none, ns, AddUnit(a)) == Ok([a]);
    assert ApplyUnits([], ns, [AddUnit(a)]) == ApplyUnits([a], ns, []);
  }

  class Catalog {
    var version: int
    var defaultNamespace: string
    var generatedAt: Option<int>
    var isComplete: bool
    var tracks: seq<Track>
    var publishTracks: seq<Track>
    var extra: map<string, Raw>

    function View(): CatalogView
      reads this
    {
      CatalogView(version, defaultNamespace, generatedAt, isComplete, tracks, publishTracks, extra)
    }

    constructor (v: CatalogView)
      ensures View() == v
    {
      version, defaultNamespace, generatedAt, isComplete := v.version, v.defaultNamespace, v.generatedAt, v.isComplete;
      tracks, publishTracks, extra := v.tracks, v.publishTracks, v.extra;
    }

    method FindTrack(id: TrackId) returns (idx: int)
      ensures idx == Find(tracks, defaultNamespace, id)
    {
      for i := 0 to |tracks|
        invariant Find(tracks, defaultNamespace, id) == (var j := Find(tracks[i..], defaultNamespace, id); if j < 0 then -1 else i + j)
      {
        if Id(tracks[i], defaultNamespace) == id { return i; }
        assert tracks[i..][1..] == tracks[i + 1..];
      }
      return -1;
    }

    method AddTrack(track: Track) returns (r: Result<()>)
      modifies this`tracks
      ensures var s := Step(old(tracks), defaultNamespace, AddUnit(track));
              if s.Ok? then r == Ok(()) && tracks == s.value else r == Err(s.failure) && tracks == old(tracks)
    {
      var id := Id(track, defaultNamespace);
      var idx := FindTrack(id);
      if idx >= 0 { return Err(DuplicateTrack(id)); }
      tracks := tracks + [track];
      return Ok(());
    }

    method RemoveTrack(track: TrackRef) returns (r: Result<()>)
      modifies this`tracks
      ensures var s := Step(old(tracks), defaultNamespace, RemoveUnit(track));
              if s.Ok? then r == Ok(()) && tracks == s.value else r == Err(s.failure) && tracks == old(tracks)
    {
      var id := RefId(track, defaultNamespace);
      var idx := FindTrack(id);
      if idx < 0 { return Err(UnknownTrack(id)); }
      tracks := tracks[..idx] + tracks[idx + 1..];
      return Ok(());
    }

    method CloneTrack(track: TrackClone) returns (r: Result<()>)
      modifies this`tracks
      ensures var s := Step(old(tracks), defaultNamespace, CloneUnit(track));
              if s.Ok? then r == Ok(()) && tracks == s.value else r == Err(s.failure) && tracks == old(tracks)
    {
      var parentId := ParentId(track, defaultNamespace);
      var parent := FindTrack(parentId);
      if parent < 0 { return Err(UnknownParent(parentId)); }
      var cloned := Overridden(tracks[parent], track.track);
      if cloned.name == "" { return Err(MissingName(parentId)); }
      var newId := Id(cloned, defaultNamespace);
      var idx := FindTrack(newId);
      if idx >= 0 { return Err(DuplicateTrack(newId)); }
      tracks := tracks + [cloned];
      return Ok(());
    }

    /** One operation: each of its tracks in turn, up to the first that fails. */
    method ApplyOp(w: WireOp) returns (r: Result<()>)
      modifies this`tracks
      ensures var s := ApplyUnits(old(tracks), defaultNamespace, Units(w));
              if s.Ok? then r == Ok(()) && tracks == s.value else r == Err(s.failure)
    {
      var units := Units(w);
      assert units[0..] == units;
      for i := 0 to |units|
        invariant ApplyUnits(tracks, defaultNamespace, units[i..]) == ApplyUnits(old(tracks), defaultNamespace, units)
      {
        assert units[i..][1..] == units[i + 1..];
        match units[i] {
          case AddUnit(t) => r := AddTrack(t);
          case RemoveUnit(t) => r := RemoveTrack(t);
          case CloneUnit(t) => r := CloneTrack(t);
        }
        if r.Err? { return; }
      }
      return Ok(());
    }

    method ApplyOps(d: Delta) returns (r: Result<()>)
      modifies this`tracks
      ensures var s := ApplyWire(old(tracks), defaultNamespace, Wire(d));
              if s.Ok? then r == Ok(()) && tracks == s.value else r == Err(s.failure)
    {
      var spans := ComputeOperations(d);
      OperationsInRange(d);
      assert spans[0..] == spans;
      for i := 0 to |spans|
        invariant AllInRange(d, spans[i..])
        invariant ApplyWire(tracks, defaultNamespace, OpsOf(d, spans[i..])) == ApplyWire(old(tracks), defaultNamespace, Wire(d))
      {
        assert spans[i..][1..] == spans[i + 1..];
        assert InRange(d, spans[i..][0]);
        assert OpsOf(d, spans[i..])[1..] == OpsOf(d, spans[i + 1..]);
        r := ApplyOp(OpOf(d, spans[i]));
        if r.Err? { return; }
      }
      return Ok(());
    }

    method Validate(rules: Rules) returns (ok: bool)
      ensures ok == ValidCatalog(rules, View())
    {
      if version == 0 { return false; }
      if exists i :: 0 <= i < |tracks| && (tracks[i].name == "" || !rules.track(tracks[i])) { return false; }
      if exists i :: 0 <= i < |publishTracks| && (publishTracks[i].name == "" || !rules.track(publishTracks[i])) { return false; }
      var problems := DuplicateIdentities(tracks, defaultNamespace);
      return problems == [] && rules.list(View());
    }

    method HasInheritedNamespaceTracks() returns (has: bool)
      ensures has == Inherits(tracks)
    {
      for i := 0 to |tracks|
        invariant forall j :: 0 <= j < i ==> tracks[j].namespace != ""
      {
        if tracks[i].namespace == "" { return true; }
      }
      return false;
    }

    /** Takes over the update's metadata, unless a track inherits the namespace it changes. */
    method Prepare(u: Update) returns (r: Result<()>)
      modifies this
      ensures var v := old(View());
              if NewNamespace(v, u) != v.defaultNamespace && Inherits(v.tracks) then r == Err(NamespaceInherited)
              else r == Ok(()) && View() == Prepared(v, u)
    {
      if u.defaultNamespace != "" && u.defaultNamespace != defaultNamespace {
        var inherited := HasInheritedNamespaceTracks();
        if inherited { return Err(NamespaceInherited); }
        defaultNamespace := u.defaultNamespace;
      }
      if u.generatedAt.Some? {
        generatedAt := u.generatedAt;
      }
      if u.isComplete {
        isComplete := true;
      }
      extra := extra + u.extra;
      return Ok(());
    }

    /** The updated catalog is a new one; this one stays as it is. */
    method ApplyDelta(rules: Rules, u: Update) returns (r: Result<Catalog>)
      ensures var s := Applied(rules, View(), u);
              if s.Ok? then r.Ok? && fresh(r.value) && r.value.View() == s.value else r == Err(s.failure)
    {
      var ok := Validate(rules);
      if !ok { return Err(InvalidCatalog); }
      ok := ValidateDelta(rules, u.delta);
      if !ok { return Err(InvalidDelta); }
      var result := new Catalog(View());
      var done := result.Prepare(u);
      if done.Err? { return Err(done.failure); }
      done := result.ApplyOps(u.delta);
      if done.Err? { return Err(done.failure); }
      ok := result.Validate(rules);
      if !ok { return Err(InvalidCatalog); }
      return Ok(result);
    }
  }

  method ValidateDelta(rules: Rules, d: Delta) returns (ok: bool)
    ensures ok == ValidDelta(rules, d)
  {
    if |d.adds| == 0 && |d.removes| == 0 && |d.clones| == 0 { return false; }
    return (forall t <- d.adds :: t.name != "" && rules.track(t))
        && (forall r <- d.removes :: r.name != "" && r.extra == map[])
        && (forall c <- d.clones :: c.track.name != "" && c.parentName != "");
  }
}
