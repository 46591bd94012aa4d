/**
 A catalog broadcast: its critical sections, and the subscribers that send the whole catalog each time
 they find it changed, under every interleaving.
 */
module CatalogBroadcast {
  import opened Wrappers
  import opened Tracks
  import C = Catalog

  type View = C.CatalogView
  type Payload = string
  type ChanId = nat
  type HandlerId = nat
  type SubId = nat

  /** The catalog rules, the JSON encoder (which may fail) and the reserved track name. */
  datatype Env = Env(rules: C.Rules, encode: View -> Option<Payload>, catalogName: string)

  /**
   The fields behind the lock. shut are the channels closed so far; history are the catalogs so far, which no code
   keeps.
   */
  datatype Shared = Shared(catalog: View, payload: Option<Payload>, chan: Option<ChanId>, shut: set<ChanId>, next: ChanId,
                           closed: bool, handlers: map<string, HandlerId>, history: seq<View>)

  const NO_CATALOG := C.CatalogView(0, "", None, false, [], [], map[])
  const ZERO := Shared(NO_CATALOG, None, None, {}, 0, false, map[], [NO_CATALOG])

  // Names.

  predicate Named(tracks: seq<Track>, name: string) {
    exists i :: 0 <= i < |tracks| && tracks[i].name == name
  }

  ghost predicate DistinctNames(tracks: seq<Track>) {
    forall i, j :: 0 <= i < j < |tracks| ==> tracks[i].name != tracks[j].name
  }

  /** No track has the reserved name, and tracks with one name have one identity. */
  predicate Routable(env: Env, v: View) {
    && (forall i :: 0 <= i < |v.tracks| ==> v.tracks[i].name != env.catalogName)
    && (forall i, j :: 0 <= i < j < |v.tracks| && v.tracks[i].name == v.tracks[j].name ==>
          Id(v.tracks[i], v.defaultNamespace) == Id(v.tracks[j], v.defaultNamespace))
  }

  lemma AcceptedNamesDiffer(env: Env, v: View)
    requires C.ValidCatalog(env.rules, v) && Routable(env, v)
    ensures DistinctNames(v.tracks)
  {
    forall i, j | 0 <= i < j < |v.tracks| ensures v.tracks[i].name != v.tracks[j].name {
      assert Id(v.tracks[i], v.defaultNamespace) != Id(v.tracks[j], v.defaultNamespace);
    }
  }

  /** validateCatalogForBroadcast for more than 16 tracks: the last identity seen of each name. */
  method ValidateByMap(env: Env, v: View) returns (ok: bool)
    ensures ok == Routable(env, v)
  {
    var seen: map<string, TrackId> := map[];
    for i := 0 to |v.tracks|
      invariant forall j :: 0 <= j < i ==> v.tracks[j].name != env.catalogName
      invariant forall j :: 0 <= j < i ==> v.tracks[j].name in seen && seen[v.tracks[j].name] == Id(v.tracks[j], v.defaultNamespace)
      invariant forall n :: n in seen ==> exists j :: 0 <= j < i && v.tracks[j].name == n && Id(v.tracks[j], v.defaultNamespace) == seen[n]
    {
      var name := v.tracks[i].name;
      if name == env.catalogName { return false; }
      var id := Id(v.tracks[i], v.defaultNamespace);
      if name in seen && seen[name] != id { return false; }
      seen := seen[name := id];
    }
    return true;
  }

  /** The form for up to 16: every earlier entry, kept in a fixed array. */
  method ValidateByScan(env: Env, v: View) returns (ok: bool)
    requires |v.tracks| <= 16
    ensures ok == Routable(env, v)
  {
    var seen := new TrackId[16](_ => TrackId("", ""));
    for i := 0 to |v.tracks|
      invariant forall j :: 0 <= j < i ==> v.tracks[j].name != env.catalogName
      invariant forall j :: 0 <= j < i ==> seen[j] == Id(v.tracks[j], v.defaultNamespace)
      invariant forall j, k :: 0 <= j < k < i && v.tracks[j].name == v.tracks[k].name ==>
                  Id(v.tracks[j], v.defaultNamespace) == Id(v.tracks[k], v.defaultNamespace)
    {
      var name := v.tracks[i].name;
      if name == env.catalogName { return false; }
      var id := Id(v.tracks[i], v.defaultNamespace);
      for j := 0 to i
        invariant forall k :: 0 <= k < j && v.tracks[k].name == name ==> seen[k] == id
      {
        if seen[j].name == name && seen[j] != id { return false; }
      }
      seen[i] := id;
    }
    return true;
  }

  method ValidateForBroadcast(env: Env, v: View) returns (ok: bool)
    ensures ok == Routable(env, v)
  {
    if |v.tracks| <= 16 {
      ok := ValidateByScan(env, v);
    } else {
      ok := ValidateByMap(env, v);
    }
  }

  // The critical sections.

  function Ready(s: Shared): Shared {
    if s.chan.None? then s.(chan := Some(s.next), next := s.next + 1) else s
  }

  /** The catalog replaced and, unless the broadcast is closed, every subscriber parked on the old channel woken. */
  function Changed(s: Shared, catalog: View): Shared
    requires s.chan.Some?
  {
    var t := s.(catalog := catalog, payload := None, history := s.history + [catalog]);
    if s.closed then t else t.(shut := s.shut + {s.chan.value}, chan := Some(s.next), next := s.next + 1)
  }

  ghost predicate Accepts(env: Env, v: View) {
    C.ValidCatalog(env.rules, v) && Routable(env, v)
  }

  ghost function CatalogSet(env: Env, s: Shared, v: View): Shared {
    if !Accepts(env, v) then s
    else
      var t := Changed(Ready(s), v);
      t.(handlers := map n | n in s.handlers && !(Named(s.catalog.tracks, n) && !Named(v.tracks, n)) :: s.handlers[n])
  }

  function Place(tracks: seq<Track>, name: string): (i: int)
    ensures -1 <= i < |tracks|
    ensures i >= 0 ==> tracks[i].name == name
    ensures i == -1 <==> !Named(tracks, name)
  {
    if tracks == [] then -1
    else if tracks[0].name == name then 0
    else
      var i := Place(tracks[1..], name);
      assert forall j :: 0 < j < |tracks| ==> tracks[j] == tracks[1..][j - 1];
      assert i >= 0 ==> tracks[i + 1].name == name;
      if i == -1 then -1 else i + 1
  }

  function WithTrack(v: View, t: Track): View {
    var i := Place(v.tracks, t.name);
    v.(tracks := if i >= 0 then v.tracks[i := t] else v.tracks + [t])
  }

  ghost predicate Registers(env: Env, s: Shared, t: Track) {
    && t.name != "" && t.name != env.catalogName
    && (var i := Place(s.catalog.tracks, t.name);
        i >= 0 ==> Id(s.catalog.tracks[i], s.catalog.defaultNamespace) == Id(t, s.catalog.defaultNamespace))
    && Accepts(env, WithTrack(s.catalog, t))
  }

  ghost function TrackRegistered(env: Env, s: Shared, t: Track, h: HandlerId): Shared {
    if t.name == "" || t.name == env.catalogName then s
    else if !Registers(env, s, t) then Ready(s)
    else Changed(Ready(s), WithTrack(s.catalog, t)).(handlers := s.handlers[t.name := h])
  }

  function Without(v: View, i: nat): View
    requires i < |v.tracks|
  {
    v.(tracks := v.tracks[..i] + v.tracks[i + 1..])
  }

  function Taken(s: Shared, name: string): Shared
    requires s.chan.Some?
  {
    var i := Place(s.catalog.tracks, name);
    var t := if i >= 0 then Changed(s, Without(s.catalog, i)) else s;
    t.(handlers := s.handlers - {name})
  }

  function TrackRemoved(env: Env, s: Shared, name: string): Shared {
    if name == "" || name == env.catalogName then s else Taken(Ready(s), name)
  }

  lemma WithTrackMeans(v: View, t: Track)
    ensures var v' := WithTrack(v, t);
            && t in v'.tracks && v' == v.(tracks := v'.tracks)
            && |v'.tracks| == |v.tracks| + (if Named(v.tracks, t.name) then 0 else 1)
            && forall i :: 0 <= i < |v.tracks| && v.tracks[i].name != t.name ==> v'.tracks[i] == v.tracks[i]
  {
    var i := Place(v.tracks, t.name);
    assert WithTrack(v, t).tracks[if i >= 0 then i else |v.tracks|] == t;
  }

  /** What a registration leaves: the track in the catalog under its name, its handler beside it, and all else as it was. */
  lemma RegisteredMeans(env: Env, s: Shared, t: Track, h: HandlerId)
    ensures var s' := TrackRegistered(env, s, t, h);
            if !Registers(env, s, t) then s'.catalog == s.catalog && s'.handlers == s.handlers
            else
              && s'.handlers == s.handlers[t.name := h]
              && t in s'.catalog.tracks && s'.catalog == s.catalog.(tracks := s'.catalog.tracks)
              && |s'.catalog.tracks| == |s.catalog.tracks| + (if Named(s.catalog.tracks, t.name) then 0 else 1)
              && forall i :: 0 <= i < |s.catalog.tracks| && s.catalog.tracks[i].name != t.name ==> s'.catalog.tracks[i] == s.catalog.tracks[i]
  {
    WithTrackMeans(s.catalog, t);
    if Registers(env, s, t) {
      assert TrackRegistered(env, s, t, h).catalog == WithTrack(s.catalog, t);
    }
  }

  lemma WithoutMeans(v: View, i: nat, t: Track)
    requires i < |v.tracks| && DistinctNames(v.tracks)
    ensures t in v.tracks && t.name != v.tracks[i].name <==> t in Without(v, i).tracks
  {
    var rest := Without(v, i).tracks;
    if t in v.tracks && t.name != v.tracks[i].name {
      var j :| 0 <= j < |v.tracks| && v.tracks[j] == t;
      assert rest[if j < i then j else j - 1] == t;
    }
    if t in rest {
      var j :| 0 <= j < |rest| && rest[j] == t;
      assert v.tracks[if j < i then j else j + 1] == t;
    }
  }

  /** What a removal leaves: no track and no handler of that name, and all else as it was. */
  lemma RemovedMeans(env: Env, s: Shared, name: string, t: Track)
    requires name != "" && name != env.catalogName && DistinctNames(s.catalog.tracks)
    ensures var s' := TrackRemoved(env, s, name);
            && s'.handlers == s.handlers - {name} && s'.catalog == s.catalog.(tracks := s'.catalog.tracks)
            && (t in s'.catalog.tracks <==> t in s.catalog.tracks && t.name != name)
  {
    var i := Place(s.catalog.tracks, name);
    if i >= 0 {
      WithoutMeans(s.catalog, i, t);
    } else {
      assert forall j :: 0 <= j < |s.catalog.tracks| ==> s.catalog.tracks[j].name != name;
    }
  }

  function Closed(s: Shared): Shared {
    var r := Ready(s);
    if s.closed then r else r.(closed := true, shut := r.shut + {r.chan.value})
  }

  // The subscribers.

  /** One group sent; at is the place in the history of the catalog it encodes. */
  datatype Sent = Sent(payload: Payload, at: int)

  datatype Pos =
    | Looking
    | Loading
    | Loaded(payload: Payload, chan: ChanId, closed: bool, at: int)
    | Parked(chan: ChanId)
    | Gone

  datatype Sub = Sub(sent: seq<Sent>, pos: Pos)

  datatype State = State(shared: Shared, subs: map<SubId, Sub>)

  datatype Step =
    | Set(v: View)
    | Register(t: Track, h: HandlerId)
    | Remove(name: string)
    | CloseLocked
    | CloseTracks
    | Join(id: SubId)
    | Look(id: SubId)
    | Load(id: SubId)
    | Write(id: SubId, taken: bool)
    | Wake(id: SubId)
    | Leave(id: SubId)

  predicate Enabled(s: State, e: Step) {
    match e
    case Join(id) => id !in s.subs
    case Look(id) => id in s.subs && s.subs[id].pos.Looking?
    case Load(id) => id in s.subs && s.subs[id].pos.Loading?
    case Write(id, _) => id in s.subs && s.subs[id].pos.Loaded?
    case Wake(id) => id in s.subs && s.subs[id].pos.Parked? && s.subs[id].pos.chan in s.shared.shut
    case Leave(id) => id in s.subs && s.subs[id].pos.Parked?
    case CloseTracks => s.shared.closed
    case _ => true
  }

  /** catalogState under the read lock: what is there already, if all of it is. */
  function Looked(h: Shared): Pos {
    if h.payload.Some? && h.chan.Some? then Loaded(h.payload.value, h.chan.value, h.closed, |h.history| - 1) else Loading
  }

  /** catalogState under the lock: the catalog encoded if no one has yet, and whether that failed. */
  function Encoded(env: Env, h: Shared): (Shared, bool) {
    var r := Ready(h);
    if r.payload.Some? then (r, true)
    else
      match env.encode(r.catalog)
      case None => (r, false)
      case Some(p) => (r.(payload := Some(p)), true)
  }

  predicate Fresh(sent: seq<Sent>, payload: Payload) {
    sent == [] || sent[|sent| - 1].payload != payload
  }

  /** A subscriber that has its state sends what is new, and then waits on the channel or ends. */
  function Written(sub: Sub, taken: bool): Sub
    requires sub.pos.Loaded?
  {
    var p := sub.pos;
    if Fresh(sub.sent, p.payload) && !taken then sub.(pos := Gone)
    else Sub(if Fresh(sub.sent, p.payload) then sub.sent + [Sent(p.payload, p.at)] else sub.sent, if p.closed then Gone else Parked(p.chan))
  }

  function Moved(s: State, id: SubId, sub: Sub): State {
    s.(subs := s.subs[id := sub])
  }

  ghost function Apply(env: Env, s: State, e: Step): State
    requires Enabled(s, e)
  {
    match e
    case Set(v) => s.(shared := CatalogSet(env, s.shared, v))
    case Register(t, h) => s.(shared := TrackRegistered(env, s.shared, t, h))
    case Remove(name) => s.(shared := TrackRemoved(env, s.shared, name))
    case CloseLocked => s.(shared := Closed(s.shared))
    case CloseTracks => s.(shared := s.shared.(handlers := map[]))
    case Join(id) => Moved(s, id, Sub([], Looking))
    case Look(id) => Moved(s, id, s.subs[id].(pos := Looked(s.shared)))
    case Load(id) =>
      var (h, ok) := Encoded(env, s.shared);
      Moved(s.(shared := h), id, s.subs[id].(pos := if ok then Looked(h) else Gone))
    case Write(id, taken) => Moved(s, id, Written(s.subs[id], taken))
    case Wake(id) => Moved(s, id, s.subs[id].(pos := Looking))
    case Leave(id) => Moved(s, id, s.subs[id].(pos := Gone))
  }

  // What every step keeps.

  ghost predicate SharedInv(env: Env, h: Shared) {
    && DistinctNames(h.catalog.tracks)
    && (forall n :: n in h.handlers ==> Named(h.catalog.tracks, n))
    && h.history != [] && h.history[|h.history| - 1] == h.catalog
    && (h.payload.Some? ==> env.encode(h.catalog) == h.payload)
    && (h.chan.Some? ==> h.chan.value < h.next)
    && (forall c: ChanId :: c < h.next <==> c in h.shut || h.chan == Some(c))
    && (h.chan.Some? ==> (h.chan.value in h.shut <==> h.closed))
    && (h.closed ==> h.chan.Some?)
  }

  /** The groups sent encode catalogs of the history, in order, and no two neighbours are equal. */
  ghost predicate InOrder(env: Env, history: seq<View>, sent: seq<Sent>) {
    && (forall i :: 0 <= i < |sent| ==> 0 <= sent[i].at < |history| && env.encode(history[sent[i].at]) == Some(sent[i].payload))
    && (forall i :: 0 < i < |sent| ==> sent[i - 1].at < sent[i].at && sent[i - 1].payload != sent[i].payload)
  }

  ghost predicate SubInv(env: Env, h: Shared, sub: Sub) {
    && InOrder(env, h.history, sub.sent)
    && (match sub.pos
        case Loaded(p, c, closed, at) =>
          && c < h.next
          && 0 <= at < |h.history| && env.encode(h.history[at]) == Some(p)
          && (sub.sent != [] ==> sub.sent[|sub.sent| - 1].at <= at)
          && (c !in h.shut ==> !closed && env.encode(h.catalog) == Some(p))
        case Parked(c) =>
          && c < h.next && sub.sent != []
          && (c !in h.shut ==> env.encode(h.catalog) == Some(sub.sent[|sub.sent| - 1].payload))
        case _ => true)
  }

  ghost predicate Inv(env: Env, s: State) {
    SharedInv(env, s.shared) && forall id :: id in s.subs ==> SubInv(env, s.shared, s.subs[id])
  }

  /** What a critical section may do to what the subscribers know. */
  ghost predicate Progress(h: Shared, h': Shared) {
    && h.next <= h'.next && h.shut <= h'.shut && h.history <= h'.history
    && (h'.catalog == h.catalog || forall c: ChanId :: c < h.next ==> c in h'.shut)
  }

  lemma ProgressKeepsSub(env: Env, h: Shared, h': Shared, sub: Sub)
    requires SubInv(env, h, sub) && Progress(h, h')
    ensures SubInv(env, h', sub)
  {
    assert forall i :: 0 <= i < |h.history| ==> h'.history[i] == h.history[i];
  }

  lemma ReadyKeeps(env: Env, h: Shared)
    requires SharedInv(env, h)
    ensures SharedInv(env, Ready(h)) && Progress(h, Ready(h)) && Ready(h).chan.Some?
  {
  }

  /** handlers' is what is left of the handlers once the new catalog is in place. */
  lemma ChangedKeeps(env: Env, h: Shared, v: View, handlers: map<string, HandlerId>)
    requires SharedInv(env, h) && h.chan.Some? && DistinctNames(v.tracks)
    requires forall n :: n in handlers ==> Named(v.tracks, n)
    ensures SharedInv(env, Changed(h, v).(handlers := handlers)) && Progress(h, Changed(h, v).(handlers := handlers))
  {
    var h' := Changed(h, v);
    forall c: ChanId ensures c < h'.next <==> c in h'.shut || h'.chan == Some(c) {
      assert c < h.next <==> c in h.shut || h.chan == Some(c);
    }
  }

  lemma SetCatalogKeeps(env: Env, h: Shared, v: View)
    requires SharedInv(env, h)
    ensures SharedInv(env, CatalogSet(env, h, v)) && Progress(h, CatalogSet(env, h, v))
  {
    if Accepts(env, v) {
      ReadyKeeps(env, h);
      AcceptedNamesDiffer(env, v);
      ChangedKeeps(env, Ready(h), v, CatalogSet(env, h, v).handlers);
    }
  }

  lemma WithTrackNamed(v: View, t: Track, n: string)
    ensures Named(WithTrack(v, t).tracks, n) <==> Named(v.tracks, n) || n == t.name
  {
    var i := Place(v.tracks, t.name);
    var w := WithTrack(v, t).tracks;
    if Named(v.tracks, n) {
      var j :| 0 <= j < |v.tracks| && v.tracks[j].name == n;
      assert w[j].name == n;
    }
    assert w[if i >= 0 then i else |v.tracks|] == t;
    if Named(w, n) {
      var j :| 0 <= j < |w| && w[j].name == n;
      assert j < |v.tracks| ==> v.tracks[j].name == n || n == t.name;
    }
  }

  lemma RegisterKeeps(env: Env, h: Shared, t: Track, handler: HandlerId)
    requires SharedInv(env, h)
    ensures SharedInv(env, TrackRegistered(env, h, t, handler)) && Progress(h, TrackRegistered(env, h, t, handler))
  {
    ReadyKeeps(env, h);
    if Registers(env, h, t) {
      var v := WithTrack(h.catalog, t);
      AcceptedNamesDiffer(env, v);
      forall n | n in h.handlers[t.name := handler] ensures Named(v.tracks, n) {
        WithTrackNamed(h.catalog, t, n);
      }
      ChangedKeeps(env, Ready(h), v, h.handlers[t.name := handler]);
    }
  }

  lemma WithoutNamed(tracks: seq<Track>, i: nat, n: string)
    requires i < |tracks| && n != tracks[i].name && Named(tracks, n)
    ensures Named(tracks[..i] + tracks[i + 1..], n)
  {
    var rest := tracks[..i] + tracks[i + 1..];
    var j :| 0 <= j < |tracks| && tracks[j].name == n;
    assert rest[if j < i then j else j - 1] == tracks[j];
  }

  lemma WithoutDistinct(tracks: seq<Track>, i: nat)
    requires i < |tracks| && DistinctNames(tracks)
    ensures DistinctNames(tracks[..i] + tracks[i + 1..])
  {
    var rest := tracks[..i] + tracks[i + 1..];
    forall j, k | 0 <= j < k < |rest| ensures rest[j].name != rest[k].name {
      assert rest[j] == tracks[if j < i then j else j + 1] && rest[k] == tracks[if k < i then k else k + 1];
    }
  }

  lemma WithoutKeeps(v: View, i: nat, handlers: map<string, HandlerId>)
    requires i < |v.tracks| && DistinctNames(v.tracks)
    requires forall n :: n in handlers ==> Named(v.tracks, n) && n != v.tracks[i].name
    ensures DistinctNames(Without(v, i).tracks)
    ensures forall n :: n in handlers ==> Named(Without(v, i).tracks, n)
  {
    WithoutDistinct(v.tracks, i);
    forall n | n in handlers ensures Named(Without(v, i).tracks, n) {
      WithoutNamed(v.tracks, i, n);
    }
  }

  lemma FewerHandlers(env: Env, h: Shared, handlers: map<string, HandlerId>)
    requires SharedInv(env, h) && handlers.Keys <= h.handlers.Keys
    ensures SharedInv(env, h.(handlers := handlers)) && Progress(h, h.(handlers := handlers))
  {
  }

  lemma TakenKeeps(env: Env, h: Shared, name: string)
    requires SharedInv(env, h) && h.chan.Some?
    ensures SharedInv(env, Taken(h, name)) && Progress(h, Taken(h, name))
  {
    var i := Place(h.catalog.tracks, name);
    if i >= 0 {
      WithoutKeeps(h.catalog, i, h.handlers - {name});
      ChangedKeeps(env, h, Without(h.catalog, i), h.handlers - {name});
    } else {
      FewerHandlers(env, h, h.handlers - {name});
    }
  }

  lemma ProgressOn(h: Shared, h1: Shared, h2: Shared)
    requires Progress(h, h1) && Progress(h1, h2)
    ensures Progress(h, h2)
  {
  }

  lemma RemoveKeeps(env: Env, h: Shared, name: string)
    requires SharedInv(env, h)
    ensures SharedInv(env, TrackRemoved(env, h, name)) && Progress(h, TrackRemoved(env, h, name))
  {
    if name != "" && name != env.catalogName {
      ReadyKeeps(env, h);
      TakenKeeps(env, Ready(h), name);
      ProgressOn(h, Ready(h), Taken(Ready(h), name));
    }
  }

  lemma CloseKeeps(env: Env, h: Shared)
    requires SharedInv(env, h)
    ensures SharedInv(env, Closed(h)) && Progress(h, Closed(h))
  {
    ReadyKeeps(env, h);
  }

  lemma EncodedKeeps(env: Env, h: Shared)
    requires SharedInv(env, h)
    ensures SharedInv(env, Encoded(env, h).0) && Progress(h, Encoded(env, h).0)
  {
    ReadyKeeps(env, h);
  }

  lemma LookedKeeps(env: Env, h: Shared, sub: Sub)
    requires SharedInv(env, h) && InOrder(env, h.history, sub.sent)
    ensures SubInv(env, h, sub.(pos := Looked(h)))
  {
  }

  lemma OneMoreInOrder(env: Env, history: seq<View>, sent: seq<Sent>, next: Sent)
    requires InOrder(env, history, sent) && 0 <= next.at < |history| && env.encode(history[next.at]) == Some(next.payload)
    requires sent != [] ==> sent[|sent| - 1].at <= next.at && sent[|sent| - 1].payload != next.payload
    ensures InOrder(env, history, sent + [next])
  {
    if sent != [] {
      assert env.encode(history[sent[|sent| - 1].at]) == Some(sent[|sent| - 1].payload);
    }
  }

  lemma WrittenKeeps(env: Env, h: Shared, sub: Sub, taken: bool)
    requires SubInv(env, h, sub) && sub.pos.Loaded?
    ensures SubInv(env, h, Written(sub, taken))
  {
    var p := sub.pos;
    if Fresh(sub.sent, p.payload) && taken {
      OneMoreInOrder(env, h.history, sub.sent, Sent(p.payload, p.at));
    }
  }

  lemma StepKeepsShared(env: Env, s: State, e: Step)
    requires Inv(env, s) && Enabled(s, e)
    ensures SharedInv(env, Apply(env, s, e).shared) && Progress(s.shared, Apply(env, s, e).shared)
  {
    match e
    case Set(v) => SetCatalogKeeps(env, s.shared, v);
    case Register(t, h) => RegisterKeeps(env, s.shared, t, h);
    case Remove(name) => RemoveKeeps(env, s.shared, name);
    case CloseLocked => CloseKeeps(env, s.shared);
    case Load(_) => EncodedKeeps(env, s.shared);
    case _ =>
  }

  lemma StepKeepsSub(env: Env, s: State, e: Step, id: SubId)
    requires Inv(env, s) && Enabled(s, e) && id in Apply(env, s, e).subs
    ensures SubInv(env, Apply(env, s, e).shared, Apply(env, s, e).subs[id])
  {
    StepKeepsShared(env, s, e);
    var s' := Apply(env, s, e);
    if id in s.subs {
      ProgressKeepsSub(env, s.shared, s'.shared, s.subs[id]);
      match e
      case Look(i) =>
        if i == id { LookedKeeps(env, s.shared, s.subs[id]); }
      case Load(i) =>
        if i == id { LookedKeeps(env, s'.shared, s.subs[id]); }
      case Write(i, taken) =>
        if i == id { WrittenKeeps(env, s.shared, s.subs[id], taken); }
      case _ =>
    }
  }

  lemma StepKeeps(env: Env, s: State, e: Step)
    requires Inv(env, s) && Enabled(s, e)
    ensures Inv(env, Apply(env, s, e))
  {
    StepKeepsShared(env, s, e);
    forall id | id in Apply(env, s, e).subs ensures SubInv(env, Apply(env, s, e).shared, Apply(env, s, e).subs[id]) {
      StepKeepsSub(env, s, e, id);
    }
  }

  // Whole runs.

  ghost predicate IsRun(env: Env, states: seq<State>, steps: seq<Step>) {
    && |states| == |steps| + 1
    && states[0] == State(ZERO, map[])
    && forall i :: 0 <= i < |steps| ==> Enabled(states[i], steps[i]) && states[i + 1] == Apply(env, states[i], steps[i])
  }

  lemma {:induction false} RunKeeps(env: Env, states: seq<State>, steps: seq<Step>, n: nat)
    requires IsRun(env, states, steps) && n < |states|
    ensures Inv(env, states[n])
  {
    if n > 0 {
      RunKeeps(env, states, steps, n - 1);
      StepKeeps(env, states[n - 1], steps[n - 1]);
    }
  }

  /** No update is lost: a subscriber waiting on a channel that is still open has last sent the current catalog. */
  lemma ParkedIsCurrent(env: Env, states: seq<State>, steps: seq<Step>, n: nat, id: SubId)
    requires IsRun(env, states, steps) && n < |states| && id in states[n].subs
    requires states[n].subs[id].pos.Parked? && states[n].subs[id].pos.chan !in states[n].shared.shut
    ensures var sent := states[n].subs[id].sent;
            sent != [] && env.encode(states[n].shared.catalog) == Some(sent[|sent| - 1].payload)
    ensures !states[n].shared.closed
  {
    RunKeeps(env, states, steps, n);
    assert SubInv(env, states[n].shared, states[n].subs[id]);
  }

  /** Every group a subscriber sends is a catalog of the history; they come in order, each different from the one before. */
  lemma SentInOrder(env: Env, states: seq<State>, steps: seq<Step>, n: nat, id: SubId, i: nat, j: nat)
    requires IsRun(env, states, steps) && n < |states| && id in states[n].subs
    requires i <= j < |states[n].subs[id].sent|
    ensures var sent := states[n].subs[id].sent;
            var history := states[n].shared.history;
            && 0 <= sent[i].at <= sent[j].at < |history|
            && env.encode(history[sent[j].at]) == Some(sent[j].payload)
            && (i < j ==> sent[i].at < sent[j].at)
            && (j == i + 1 ==> sent[i].payload != sent[j].payload)
  {
    RunKeeps(env, states, steps, n);
    assert SubInv(env, states[n].shared, states[n].subs[id]);
    var sent := states[n].subs[id].sent;
    if i < j {
      SentAscend(env, states[n].shared.history, sent, i, j);
    }
  }

  lemma {:induction false} SentAscend(env: Env, history: seq<View>, sent: seq<Sent>, i: nat, j: nat)
    requires InOrder(env, history, sent) && i < j < |sent|
    ensures sent[i].at < sent[j].at
    decreases j
  {
    if i < j - 1 {
      SentAscend(env, history, sent, i, j - 1);
    }
  }

  /** Track names stay distinct and no handler is left without its track. */
  lemma HandlersHaveTracks(env: Env, states: seq<State>, steps: seq<Step>, n: nat, name: string)
    requires IsRun(env, states, steps) && n < |states|
    ensures DistinctNames(states[n].shared.catalog.tracks)
    ensures name in states[n].shared.handlers ==> Named(states[n].shared.catalog.tracks, name)
  {
    RunKeeps(env, states, steps, n);
  }

  // Every update is delivered.

  /** Close is for good: afterwards every channel there is has been shut, so every subscriber that waits can wake. */
  lemma {:induction false} ClosedForGood(env: Env, states: seq<State>, steps: seq<Step>, i: nat, k: nat, id: SubId)
    requires IsRun(env, states, steps) && i < k < |states| && steps[i].CloseLocked?
    ensures states[k].shared.closed
    ensures id in states[k].subs && states[k].subs[id].pos.Parked? ==> Enabled(states[k], Wake(id))
  {
    RunKeeps(env, states, steps, k);
    assert id in states[k].subs ==> SubInv(env, states[k].shared, states[k].subs[id]);
    if i + 1 < k {
      ClosedForGood(env, states, steps, i, k - 1, id);
    }
  }

  /** How many steps a subscriber is from having sent the current catalog, at most. */
  function Behind(h: Shared, pos: Pos): nat {
    match pos
    case Loaded(_, c, closed, _) => if c in h.shut && !closed then 5 else 1
    case Parked(c) => if c in h.shut then 4 else 0
    case Looking => 3
    case Loading => 2
    case Gone => 0
  }

  function NextMove(id: SubId, pos: Pos): Step
    requires !pos.Gone?
  {
    match pos
    case Looking => Look(id)
    case Loading => Load(id)
    case Loaded(_, _, _, _) => Write(id, true)
    case Parked(_) => Wake(id)
  }

  /** The last state a subscriber will ever load is loaded already, and it is the current one; or it has yet to load one. */
  ghost predicate WillSend(env: Env, h: Shared, pos: Pos) {
    && !pos.Gone?
    && env.encode(h.catalog).Some?
    && (pos.Loaded? && pos.closed ==> env.encode(h.catalog) == Some(pos.payload))
  }

  ghost predicate HasSentCurrent(env: Env, h: Shared, sub: Sub) {
    && sub.sent != [] && env.encode(h.catalog) == Some(sub.sent[|sub.sent| - 1].payload)
    && if h.closed then sub.pos.Gone? else sub.pos.Parked? && sub.pos.chan !in h.shut
  }

  lemma LookedGains(env: Env, h: Shared)
    requires SharedInv(env, h) && env.encode(h.catalog).Some?
    ensures WillSend(env, h, Looked(h)) && Behind(h, Looked(h)) == if Looked(h).Loaded? then 1 else 2
  {
  }

  lemma EncodedGains(env: Env, h: Shared)
    requires SharedInv(env, h) && env.encode(h.catalog).Some?
    ensures var (h', ok) := Encoded(env, h);
            ok && SharedInv(env, h') && h'.catalog == h.catalog && h'.closed == h.closed && Looked(h').Loaded?
  {
    EncodedKeeps(env, h);
  }

  lemma WrittenGains(env: Env, h: Shared, sub: Sub)
    requires SubInv(env, h, sub) && WillSend(env, h, sub.pos) && sub.pos.Loaded? && (h.closed ==> forall c: ChanId :: c < h.next ==> c in h.shut)
    requires sub.pos.closed ==> h.closed
    ensures var u := Written(sub, true);
            && Behind(h, u.pos) < Behind(h, sub.pos)
            && (WillSend(env, h, u.pos) || HasSentCurrent(env, h, u))
  {
  }

  /** A state loaded as closed is one of a closed broadcast. */
  ghost predicate SawClosed(s: State, id: SubId)
    requires id in s.subs
  {
    s.subs[id].pos.Loaded? && s.subs[id].pos.closed ==> s.shared.closed
  }

  lemma {:induction false} RunSawClosed(env: Env, states: seq<State>, steps: seq<Step>, n: nat, id: SubId)
    requires IsRun(env, states, steps) && n < |states| && id in states[n].subs
    ensures SawClosed(states[n], id)
  {
    if n > 0 && id in states[n - 1].subs {
      RunSawClosed(env, states, steps, n - 1, id);
    }
  }

  lemma MoveGains(env: Env, s: State, id: SubId)
    requires Inv(env, s) && id in s.subs && SawClosed(s, id)
    requires WillSend(env, s.shared, s.subs[id].pos) && Behind(s.shared, s.subs[id].pos) > 0
    ensures Enabled(s, NextMove(id, s.subs[id].pos))
    ensures var s' := Apply(env, s, NextMove(id, s.subs[id].pos));
            && s'.shared.catalog == s.shared.catalog && s'.shared.closed == s.shared.closed && id in s'.subs
            && Behind(s'.shared, s'.subs[id].pos) < Behind(s.shared, s.subs[id].pos)
            && (WillSend(env, s'.shared, s'.subs[id].pos) || HasSentCurrent(env, s'.shared, s'.subs[id]))
  {
    assert SubInv(env, s.shared, s.subs[id]);
    match s.subs[id].pos
    case Looking => LookedGains(env, s.shared);
    case Loading =>
      EncodedGains(env, s.shared);
      LookedGains(env, Encoded(env, s.shared).0);
    case Loaded(_, _, _, _) => WrittenGains(env, s.shared, s.subs[id]);
    case Parked(_) =>
  }

  predicate OnlyBy(id: SubId, steps: seq<Step>, from: nat) {
    forall k :: from <= k < |steps| ==> steps[k] in {Look(id), Load(id), Write(id, true), Wake(id)}
  }

  /**
   From any reachable state a subscriber's own steps bring it to having sent the current catalog, if that can be encoded and
   the writes are taken; it then waits on an open channel, or has ended because the broadcast is closed.
   */
  lemma {:induction false} CatchesUp(env: Env, states: seq<State>, steps: seq<Step>, id: SubId) returns (states': seq<State>, steps': seq<Step>)
    requires IsRun(env, states, steps) && id in states[|steps|].subs
    requires WillSend(env, states[|steps|].shared, states[|steps|].subs[id].pos)
    ensures IsRun(env, states', steps') && states <= states' && steps <= steps' && OnlyBy(id, steps', |steps|)
    ensures var last := states'[|steps'|];
            && last.shared.catalog == states[|steps|].shared.catalog && last.shared.closed == states[|steps|].shared.closed
            && id in last.subs && HasSentCurrent(env, last.shared, last.subs[id])
    decreases Behind(states[|steps|].shared, states[|steps|].subs[id].pos)
  {
    var s := states[|steps|];
    RunSawClosed(env, states, steps, |steps|, id);
    if Behind(s.shared, s.subs[id].pos) == 0 {
      NothingBehind(env, states, steps, id);
      return states, steps;
    }
    var e := OneMove(env, states, steps, id);
    states', steps' := states + [Apply(env, s, e)], steps + [e];
    if WillSend(env, states'[|steps'|].shared, states'[|steps'|].subs[id].pos) {
      states', steps' := CatchesUp(env, states', steps', id);
    }
  }

  lemma NothingBehind(env: Env, states: seq<State>, steps: seq<Step>, id: SubId)
    requires IsRun(env, states, steps) && id in states[|steps|].subs
    requires WillSend(env, states[|steps|].shared, states[|steps|].subs[id].pos) && Behind(states[|steps|].shared, states[|steps|].subs[id].pos) == 0
    ensures HasSentCurrent(env, states[|steps|].shared, states[|steps|].subs[id])
  {
    RunKeeps(env, states, steps, |steps|);
    assert SubInv(env, states[|steps|].shared, states[|steps|].subs[id]);
  }

  /** The subscriber's next step, and the run with it. */
  lemma OneMove(env: Env, states: seq<State>, steps: seq<Step>, id: SubId) returns (e: Step)
    requires IsRun(env, states, steps) && id in states[|steps|].subs && SawClosed(states[|steps|], id)
    requires WillSend(env, states[|steps|].shared, states[|steps|].subs[id].pos) && Behind(states[|steps|].shared, states[|steps|].subs[id].pos) > 0
    ensures e in {Look(id), Load(id), Write(id, true), Wake(id)}
    ensures Enabled(states[|steps|], e) && IsRun(env, states + [Apply(env, states[|steps|], e)], steps + [e])
    ensures var s, s' := states[|steps|], Apply(env, states[|steps|], e);
            && s'.shared.catalog == s.shared.catalog && s'.shared.closed == s.shared.closed && id in s'.subs
            && Behind(s'.shared, s'.subs[id].pos) < Behind(s.shared, s.subs[id].pos)
            && (WillSend(env, s'.shared, s'.subs[id].pos) || HasSentCurrent(env, s'.shared, s'.subs[id]))
  {
    var s := states[|steps|];
    RunKeeps(env, states, steps, |steps|);
    MoveGains(env, s, id);
    e := NextMove(id, s.subs[id].pos);
    RunLonger(env, states, steps, e);
  }

  lemma RunLonger(env: Env, states: seq<State>, steps: seq<Step>, e: Step)
    requires IsRun(env, states, steps) && Enabled(states[|steps|], e)
    ensures IsRun(env, states + [Apply(env, states[|steps|], e)], steps + [e])
  {
  }

  // The broadcast itself.

  class Broadcast {
    const env: Env
    var catalog: View
    var payload: Option<Payload>
    var changed: Option<ChanId>
    var closed: bool
    var tracks: map<string, HandlerId>
    ghost var shut: set<ChanId>
    var made: ChanId
    ghost var history: seq<View>

    ghost function Locked(): Shared
      reads this
    {
      Shared(catalog, payload, changed, shut, made, closed, tracks, history)
    }

    constructor (env: Env)
      ensures Locked() == ZERO && this.env == env
    {
      this.env := env;
      catalog, payload, changed, closed, tracks := NO_CATALOG, None, None, false, map[];
      shut, made, history := {}, 0, [NO_CATALOG];
    }

    method InitLocked()
      modifies this
      ensures Locked() == Ready(old(Locked()))
    {
      if changed.None? {
        changed, made := Some(made), made + 1;
      }
    }

    method CatalogChangedLocked(updated: View)
      requires changed.Some?
      modifies this
      ensures Locked() == Changed(old(Locked()), updated)
    {
      catalog := updated;
      payload := None;
      history := history + [updated];
      if closed { return; }
      shut := shut + {changed.value};
      changed, made := Some(made), made + 1;
    }

    method SetCatalog(v: View) returns (ok: bool)
      modifies this
      ensures ok == Accepts(env, v) && Locked() == CatalogSet(env, old(Locked()), v)
      ensures catalog == (if ok then v else old(catalog)) && closed == old(closed)
      ensures forall n :: n in tracks <==> n in old(tracks) && (ok && Named(old(catalog).tracks, n) ==> Named(v.tracks, n))
      ensures forall n :: n in tracks ==> tracks[n] == old(tracks)[n]
    {
      var c := new C.Catalog(v);
      ok := c.Validate(env.rules);
      if !ok { return; }
      ok := ValidateForBroadcast(env, v);
      if !ok { return; }
      InitLocked();
      var kept := map n | n in tracks && !(Named(catalog.tracks, n) && !Named(v.tracks, n)) :: tracks[n];
      CatalogChangedLocked(v);
      tracks := kept;
    }

    method RegisterTrack(t: Track, handler: HandlerId) returns (ok: bool)
      modifies this
      ensures ok == Registers(env, old(Locked()), t) && Locked() == TrackRegistered(env, old(Locked()), t, handler)
    {
      if t.name == "" || t.name == env.catalogName { return false; }
      InitLocked();
      var i := Place(catalog.tracks, t.name);
      if i >= 0 && Id(catalog.tracks[i], catalog.defaultNamespace) != Id(t, catalog.defaultNamespace) { return false; }
      var updated := catalog.(tracks := if i >= 0 then catalog.tracks[i := t] else catalog.tracks + [t]);
      var c := new C.Catalog(updated);
      ok := c.Validate(env.rules);
      if !ok { return; }
      ok := ValidateForBroadcast(env, updated);
      if !ok { return; }
      tracks := tracks[t.name := handler];
      CatalogChangedLocked(updated);
    }

    method RemoveTrack(name: string) returns (had: bool)
      modifies this
      ensures Locked() == TrackRemoved(env, old(Locked()), name)
      ensures had == (name != "" && name != env.catalogName && (Named(old(catalog).tracks, name) || name in old(tracks)))
    {
      if name == "" || name == env.catalogName { return false; }
      InitLocked();
      var i := Place(catalog.tracks, name);
      if i >= 0 {
        CatalogChangedLocked(Without(catalog, i));
      }
      had := i >= 0 || name in tracks;
      tracks := tracks - {name};
    }

    /** The locked part of Close; the handlers go afterwards, outside the lock. */
    method CloseChanged()
      modifies this
      ensures Locked() == Closed(old(Locked()))
      ensures closed && changed.Some? && (!old(closed) ==> changed.value in shut)
      ensures catalog == old(catalog) && tracks == old(tracks)
    {
      InitLocked();
      if !closed {
        closed := true;
        shut := shut + {changed.value};
      }
    }

    method CatalogState() returns (ok: bool)
      modifies this
      ensures (Locked(), ok) == Encoded(env, old(Locked())) || (Locked() == old(Locked()) && ok && Looked(Locked()).Loaded?)
    {
      if payload.Some? && changed.Some? { return true; }
      InitLocked();
      if payload.None? {
        payload := env.encode(catalog);
      }
      return payload.Some?;
    }
  }
}
