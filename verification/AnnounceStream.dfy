/**
 An announce stream: what an AnnouncementWriter may write under every interleaving of its init, its
 sends, announcements ending and close, and what the reader makes of it.
 */
module AnnounceStream {
  import opened Wrappers
  import A = Announcement

  type Suffix = string
  type AnnId = nat
  type EntryId = nat
  type Thread = nat

  /** On the wire ACTIVE carries hop ids; here it names the announcement it was sent for. */
  datatype Msg = Active(sfx: Suffix, ann: AnnId) | Ended(sfx: Suffix)

  // The reader.

  /** actives maps a suffix to the announcement whose ACTIVE made it; violated is the reset for an unexpected ENDED. */
  datatype Reader = Reader(actives: map<Suffix, AnnId>, violated: bool)

  function Received(r: Reader, m: Msg): Reader {
    if r.violated then r
    else
      match m
      case Active(sfx, ann) => r.(actives := r.actives[sfx := ann])
      case Ended(sfx) => if sfx in r.actives then r.(actives := r.actives - {sfx}) else r.(violated := true)
  }

  function Replay(log: seq<Msg>): Reader {
    if log == [] then Reader(map[], false) else Received(Replay(log[..|log| - 1]), log[|log| - 1])
  }

  lemma ReplayAppend(log: seq<Msg>, m: Msg)
    ensures Replay(log + [m]) == Received(Replay(log), m)
  {
    assert (log + [m])[..|log|] == log;
  }

  /** The announcement last sent as ACTIVE for sfx. */
  function LastSent(log: seq<Msg>, sfx: Suffix): Option<AnnId> {
    if log == [] then None
    else
      var n := |log| - 1;
      if log[n].Active? && log[n].sfx == sfx then Some(log[n].ann) else LastSent(log[..n], sfx)
  }

  lemma LastSentAppend(log: seq<Msg>, m: Msg, sfx: Suffix)
    ensures LastSent(log + [m], sfx) == if m.Active? && m.sfx == sfx then Some(m.ann) else LastSent(log, sfx)
  {
    assert (log + [m])[..|log|] == log;
  }

  lemma {:induction false} ActiveIsLastSent(log: seq<Msg>, sfx: Suffix)
    ensures sfx in Replay(log).actives && !Replay(log).violated ==> LastSent(log, sfx) == Some(Replay(log).actives[sfx])
  {
    if log != [] {
      ActiveIsLastSent(log[..|log| - 1], sfx);
    }
  }

  /** x was announced within the first n messages and has not been ended since. */
  ghost predicate LiveAt(log: seq<Msg>, n: nat, x: Suffix)
    requires n <= |log|
  {
    exists k :: 0 <= k < n && IsActive(log[k], x) && forall m :: k < m < n ==> log[m] != Ended(x)
  }

  predicate IsActive(m: Msg, x: Suffix) {
    m.Active? && m.sfx == x
  }

  /** Message n ends a suffix that is not announced. */
  ghost predicate StrayAt(log: seq<Msg>, n: nat)
    requires n < |log|
  {
    log[n].Ended? && !LiveAt(log, n, log[n].sfx)
  }

  lemma LiveOnPrefix(log: seq<Msg>, n: nat, x: Suffix)
    requires 0 < |log| && n < |log|
    ensures LiveAt(log[..|log| - 1], n, x) <==> LiveAt(log, n, x)
    ensures n < |log| - 1 ==> (StrayAt(log[..|log| - 1], n) <==> StrayAt(log, n))
  {
    var rest := log[..|log| - 1];
    forall y ensures LiveAt(rest, n, y) <==> LiveAt(log, n, y) {
      if LiveAt(rest, n, y) {
        var k :| 0 <= k < n && IsActive(rest[k], y) && forall m :: k < m < n ==> rest[m] != Ended(y);
        assert IsActive(log[k], y);
      }
      if LiveAt(log, n, y) {
        var k :| 0 <= k < n && IsActive(log[k], y) && forall m :: k < m < n ==> log[m] != Ended(y);
        assert IsActive(rest[k], y);
      }
    }
  }

  lemma LiveAfter(log: seq<Msg>, x: Suffix)
    requires log != []
    ensures var n := |log| - 1;
            LiveAt(log, n + 1, x) <==> if log[n].sfx == x then log[n].Active? else LiveAt(log, n, x)
  {
    var n := |log| - 1;
    if IsActive(log[n], x) {
      assert LiveAt(log, n + 1, x);
    } else if LiveAt(log, n, x) && log[n].sfx != x {
      var k :| 0 <= k < n && IsActive(log[k], x) && forall m :: k < m < n ==> log[m] != Ended(x);
      assert IsActive(log[k], x);
    }
  }

  /** The reader resets the stream exactly at a stray ENDED, and until one holds exactly the suffixes announced and not ended since. */
  lemma {:induction false} ReplayMeans(log: seq<Msg>)
    ensures Replay(log).violated <==> exists n :: 0 <= n < |log| && StrayAt(log, n)
    ensures !Replay(log).violated ==> forall x :: x in Replay(log).actives <==> LiveAt(log, |log|, x)
  {
    if log != [] {
      var rest, last := log[..|log| - 1], |log| - 1;
      ReplayMeans(rest);
      forall n | 0 <= n < last ensures StrayAt(rest, n) <==> StrayAt(log, n) {
        LiveOnPrefix(log, n, "");
      }
      forall x ensures LiveAt(rest, last, x) <==> LiveAt(log, last, x) {
        LiveOnPrefix(log, last, x);
      }
      forall x ensures LiveAt(log, |log|, x) <==> if log[last].sfx == x then log[last].Active? else LiveAt(log, last, x) {
        LiveAfter(log, x);
      }
      if Replay(rest).violated {
        var n :| 0 <= n < |rest| && StrayAt(rest, n);
        assert StrayAt(log, n);
      } else if log[last].Ended? {
        assert log[last].sfx in Replay(rest).actives <==> LiveAt(log, last, log[last].sfx);
        assert StrayAt(log, last) <==> log[last].sfx !in Replay(rest).actives;
      }
    }
  }

  /** The reader's end of the stream, without a scope. */
  class AnnouncementReader {
    var actives: map<Suffix, AnnId>
    var violated: bool

    function View(): Reader
      reads this
    {
      Reader(actives, violated)
    }

    constructor ()
      ensures View() == Replay([])
    {
      actives, violated := map[], false;
    }

    method Receive(m: Msg)
      modifies this
      ensures View() == Received(old(View()), m)
    {
      if violated { return; }
      match m
      case Active(sfx, ann) =>
        actives := actives[sfx := ann];
      case Ended(sfx) =>
        if sfx in actives { actives := actives - {sfx}; } else { violated := true; }
    }

    method Drain(log: seq<Msg>)
      requires View() == Replay([])
      modifies this
      ensures View() == Replay(log)
    {
      for i := 0 to |log|
        invariant View() == Replay(log[..i])
      {
        Receive(log[i]);
        ReplayAppend(log[..i], log[i]);
        assert log[..i + 1] == log[..i] + [log[i]];
      }
      assert log[..|log|] == log;
    }
  }

  // The writer.

  /** An announcement as its writer sees it: fresh, then no longer active, then with its callbacks taken. */
  datatype Ann = Ann(sfx: Suffix, stage: A.Stage)

  /** An entry's end handler: not registered, registered, claimed by the announcement's end, or over (run or stopped). */
  datatype Watch = Unwatched | Watching | Claimed | Over

  datatype Entry = Entry(sfx: Suffix, ann: AnnId, watch: Watch)

  /** Where a SendAnnouncement call is, past its first look at the active entries. */
  datatype Sender =
    | Found(sfx: Suffix, ann: AnnId, prev: Option<EntryId>)
    | Stopped(sfx: Suffix, ann: AnnId, entry: EntryId)
    | Ready(sfx: Suffix, ann: AnnId)

  /** todo are the entries init has yet to send; written is the one sent and not yet watched. */
  datatype Init = Before | Sending(todo: set<EntryId>, written: Option<EntryId>) | Done | Failed

  datatype Writer = Writer(anns: map<AnnId, Ann>, entries: map<EntryId, Entry>, actives: map<Suffix, EntryId>,
                           log: seq<Msg>, dead: bool, closed: bool, init: Init, senders: map<Thread, Sender>)

  const NEW_WRITER := Writer(map[], map[], map[], [], false, false, Before, map[])

  datatype Step =
    | Announce(a: AnnId, sfx: Suffix)
    | Deactivate(a: AnnId)
    | TakeHandlers(a: AnnId)
    | RunHandler(e: EntryId, sent: bool)
    | BeginInit(initial: map<EntryId, AnnId>, index: map<Suffix, EntryId>)
    | SendInitial(e: EntryId, sent: bool)
    | WatchInitial
    | EndInit
    | BeginSend(t: Thread, a: AnnId)
    | StopOld(t: Thread)
    | RemoveOld(t: Thread, sent: bool)
    | SendActive(t: Thread, e: EntryId, sent: bool)
    | StopAll
    | StreamEnds

  ghost predicate Enabled(w: Writer, s: Step) {
    match s
    case Announce(a, sfx) => a !in w.anns
    case Deactivate(a) => a in w.anns && w.anns[a].stage == A.Fresh
    case TakeHandlers(a) => a in w.anns && w.anns[a].stage == A.Deactivated
    case RunHandler(e, _) => e in w.entries && w.entries[e].watch == Claimed
    case BeginInit(initial, index) =>
      && w.init.Before?
      && (forall e :: e in initial ==> e !in w.entries && initial[e] in w.anns)
      && (forall e :: e in initial ==> w.anns[initial[e]].sfx in index && index[w.anns[initial[e]].sfx] == e)
      && (forall x :: x in index ==> index[x] in initial && w.anns[initial[index[x]]].sfx == x)
    case SendInitial(e, _) => w.init.Sending? && w.init.written.None? && e in w.init.todo
    case WatchInitial => w.init.Sending? && w.init.written.Some?
    case EndInit => w.init.Sending? && w.init.todo == {} && w.init.written.None?
    case BeginSend(t, a) => t !in w.senders && w.init.Done? && a in w.anns
    case StopOld(t) => t in w.senders && w.senders[t].Found?
    case RemoveOld(t, _) => t in w.senders && w.senders[t].Stopped?
    case SendActive(t, e, _) => t in w.senders && w.senders[t].Ready? && e !in w.entries
    case StopAll => true
    case StreamEnds => true
  }

  /** Appends m to a live stream; a write that fails is its last. */
  function Write(w: Writer, m: Msg, sent: bool): Writer {
    if w.dead then w else if sent then w.(log := w.log + [m]) else w.(dead := true)
  }

  /** AfterFunc on the entry's announcement: queued while it is active, and claimed at once otherwise. */
  function Watched(w: Writer, e: EntryId): Writer
    requires e in w.entries && w.entries[e].ann in w.anns
  {
    SetWatch(w, e, if w.anns[w.entries[e].ann].stage == A.Fresh then Watching else Claimed)
  }

  function SetWatch(w: Writer, e: EntryId, watch: Watch): Writer
    requires e in w.entries
  {
    w.(entries := w.entries[e := w.entries[e].(watch := watch)])
  }

  /** remove: forgets the entry and sends ENDED, unless the suffix has moved on. */
  function Removed(w: Writer, e: EntryId, sent: bool): Writer
    requires e in w.entries
  {
    var sfx := w.entries[e].sfx;
    if sfx in w.actives && w.actives[sfx] == e then Write(w.(actives := w.actives - {sfx}), Ended(sfx), sent) else w
  }

  function Go(w: Writer, t: Thread, s: Sender): Writer {
    w.(senders := w.senders[t := s])
  }

  function Leave(w: Writer, t: Thread): Writer {
    w.(senders := w.senders - {t})
  }

  /** The end of announcement a claims the handlers that watch it. */
  function ClaimedOf(entries: map<EntryId, Entry>, a: AnnId): map<EntryId, Entry> {
    map e | e in entries :: if entries[e].ann == a && entries[e].watch == Watching then entries[e].(watch := Claimed) else entries[e]
  }

  /** The handlers of the entries in es that watch are stopped. */
  function StoppedOf(entries: map<EntryId, Entry>, es: set<EntryId>): map<EntryId, Entry> {
    map e | e in entries :: if e in es && entries[e].watch == Watching then entries[e].(watch := Over) else entries[e]
  }

  /** The entries init makes. */
  function Unsents(anns: map<AnnId, Ann>, initial: map<EntryId, AnnId>): map<EntryId, Entry>
    requires forall e :: e in initial ==> initial[e] in anns
  {
    map e | e in initial :: Entry(anns[initial[e]].sfx, initial[e], Unwatched)
  }

  predicate IsEntry(w: Writer, e: EntryId, x: Suffix) {
    e in w.entries && w.entries[e].sfx == x
  }

  ghost predicate EntriesWf(w: Writer) {
    && (forall e :: e in w.entries ==> w.entries[e].ann in w.anns && w.anns[w.entries[e].ann].sfx == w.entries[e].sfx)
    && (forall x :: x in w.actives ==> IsEntry(w, w.actives[x], x))
    && (w.init.Sending? ==> (forall e :: e in w.init.todo ==> e in w.entries)
                            && (w.init.written.Some? ==> w.init.written.value in w.entries && w.init.written.value !in w.init.todo))
    && (w.init.Before? ==> w.log == [] && w.actives == map[])
    && (w.closed ==> w.actives == map[])
  }

  predicate SenderWf(w: Writer, s: Sender) {
    && s.ann in w.anns && w.anns[s.ann].sfx == s.sfx
    && (s.Found? && s.prev.Some? ==> IsEntry(w, s.prev.value, s.sfx))
    && (s.Stopped? ==> IsEntry(w, s.entry, s.sfx))
  }

  /** Structural facts that make Apply well defined. */
  ghost predicate Wf(w: Writer) {
    && EntriesWf(w)
    && (!w.init.Done? ==> w.senders == map[])
    && (forall t :: t in w.senders ==> SenderWf(w, w.senders[t]))
  }

  ghost function Apply(w: Writer, s: Step): Writer
    requires Enabled(w, s) && Wf(w)
  {
    match s
    case Announce(a, sfx) => w.(anns := w.anns[a := Ann(sfx, A.Fresh)])
    case Deactivate(a) => w.(anns := w.anns[a := w.anns[a].(stage := A.Deactivated)])
    case TakeHandlers(a) =>
      w.(anns := w.anns[a := w.anns[a].(stage := A.Snapshotted)], entries := ClaimedOf(w.entries, a))
    case RunHandler(e, sent) => Removed(SetWatch(w, e, Over), e, sent)
    case BeginInit(initial, index) =>
      if w.closed then w.(init := Failed)
      else
        w.(entries := w.entries + Unsents(w.anns, initial),
           actives := index, init := Sending(initial.Keys, None))
    case SendInitial(e, sent) =>
      var v := Write(w, Active(w.entries[e].sfx, w.entries[e].ann), sent);
      v.(init := if !w.dead && sent then Sending(w.init.todo - {e}, Some(e)) else Failed)
    case WatchInitial =>
      var e := w.init.written.value;
      var v := w.(init := w.init.(written := None));
      if w.entries[e].sfx in w.actives && w.actives[w.entries[e].sfx] == e then Watched(v, e) else v
    case EndInit => w.(init := Done)
    case BeginSend(t, a) =>
      var sfx := w.anns[a].sfx;
      if sfx in w.actives then
        if w.entries[w.actives[sfx]].ann == a then w else Go(w, t, Found(sfx, a, Some(w.actives[sfx])))
      else Go(w, t, Found(sfx, a, None))
    case StopOld(t) =>
      var f := w.senders[t];
      if f.prev.Some? && w.entries[f.prev.value].watch == Watching
      then Go(SetWatch(w, f.prev.value, Over), t, Stopped(f.sfx, f.ann, f.prev.value))
      else Go(w, t, Ready(f.sfx, f.ann))
    case RemoveOld(t, sent) =>
      var f := w.senders[t];
      Go(Removed(w, f.entry, sent), t, Ready(f.sfx, f.ann))
    case SendActive(t, e, sent) =>
      var f := w.senders[t];
      var v := Leave(w, t);
      if w.closed then v
      else if w.dead || !sent then v.(dead := true)
      else
        var u := Write(v, Active(f.sfx, f.ann), true)
                 .(actives := w.actives[f.sfx := e], entries := w.entries[e := Entry(f.sfx, f.ann, Unwatched)]);
        Watched(u, e)
    case StopAll =>
      w.(closed := true, actives := map[], entries := StoppedOf(w.entries, w.actives.Values))
    case StreamEnds => w.(dead := true)
  }

  predicate Unsent(w: Writer, e: EntryId) {
    w.init.Sending? && e in w.init.todo
  }

  /** The entry at x, once sent, is what the reader holds at x. */
  predicate AgreesAt(w: Writer, x: Suffix) {
    x in w.actives && w.actives[x] in w.entries && !Unsent(w, w.actives[x]) ==>
      x in Replay(w.log).actives && Replay(w.log).actives[x] == w.entries[w.actives[x]].ann
  }

  /** What the handlers and calls in flight may assume of the entries they hold. */
  ghost predicate Handled(w: Writer) {
    && (forall e :: e in w.entries && w.entries[e].watch != Unwatched ==> !Unsent(w, e))
    && (forall t :: t in w.senders && w.senders[t].Stopped? && w.senders[t].entry in w.entries ==>
          w.entries[w.senders[t].entry].watch == Over)
    && (!w.closed && w.init.Sending? ==> forall e :: e in w.init.todo && e in w.entries ==>
          w.entries[e].sfx in w.actives && w.actives[w.entries[e].sfx] == e)
  }

  /** The writer and the reader agree, so every ENDED is legal. */
  ghost predicate Agrees(w: Writer) {
    !Replay(w.log).violated && (!w.dead ==> forall x :: AgreesAt(w, x)) && Handled(w)
  }

  /** The stream is neither over nor being closed. */
  predicate Open(w: Writer) {
    !w.dead && !w.closed
  }

  ghost predicate BeingStopped(w: Writer, e: EntryId) {
    exists t :: t in w.senders && w.senders[t].Stopped? && w.senders[t].entry == e
  }

  ghost predicate BeingReplaced(w: Writer, x: Suffix) {
    exists t :: t in w.senders && w.senders[t].Ready? && w.senders[t].sfx == x
  }

  /** Something will end a sent entry on the peer once its announcement ends. */
  ghost predicate Guarded(w: Writer, e: EntryId)
    requires e in w.entries
  {
    match w.entries[e].watch
    case Watching => true
    case Claimed => true
    case Unwatched => w.init.Sending? && w.init.written == Some(e)
    case Over => BeingStopped(w, e)
  }

  /** The watch follows the announcement: registered until its callbacks are taken, claimed only once it is inactive. */
  predicate WatchFollows(w: Writer, e: EntryId) {
    e in w.entries && w.entries[e].ann in w.anns ==>
      && (w.entries[e].watch == Watching ==> w.anns[w.entries[e].ann].stage != A.Snapshotted)
      && (w.entries[e].watch == Claimed ==> w.anns[w.entries[e].ann].stage != A.Fresh)
  }

  predicate HeldByWriter(w: Writer, x: Suffix) {
    x in Replay(w.log).actives ==> x in w.actives && !Unsent(w, w.actives[x])
  }

  /** A suffix ended while its last announcement is still live is about to be announced again. */
  ghost predicate EndedForGood(w: Writer, x: Suffix) {
    && x !in Replay(w.log).actives
    && LastSent(w.log, x).Some?
    && LastSent(w.log, x).value in w.anns
    && w.anns[LastSent(w.log, x).value].stage == A.Fresh
    ==>
      BeingReplaced(w, x)
  }

  predicate LastKnown(w: Writer, x: Suffix) {
    LastSent(w.log, x).Some? ==> LastSent(w.log, x).value in w.anns
  }

  /** Whatever the peer holds will be ended: some handler or call in flight sees to every entry sent. */
  ghost predicate Guards(w: Writer) {
    && (forall e :: WatchFollows(w, e))
    && (w.init.Failed? ==> !Open(w))
    && (Open(w) ==> forall x :: x in w.actives && w.actives[x] in w.entries && !Unsent(w, w.actives[x]) ==> Guarded(w, w.actives[x]))
  }

  /** The peer holds nothing the writer has let go of, and no live announcement stays ended. */
  ghost predicate Settles(w: Writer) {
    && (forall x :: LastKnown(w, x))
    && (Open(w) ==> forall x :: HeldByWriter(w, x) && EndedForGood(w, x))
  }

  ghost predicate Inv(w: Writer) {
    Wf(w) && Agrees(w) && Guards(w) && Settles(w)
  }

  lemma StoppersStay(w: Writer, w': Writer)
    requires forall u :: u in w.senders && w.senders[u].Stopped? ==> u in w'.senders && w'.senders[u] == w.senders[u]
    ensures forall e :: BeingStopped(w, e) ==> BeingStopped(w', e)
  {
    forall e | BeingStopped(w, e) ensures BeingStopped(w', e) {
      var u :| u in w.senders && w.senders[u].Stopped? && w.senders[u].entry == e;
      assert u in w'.senders && w'.senders[u] == w.senders[u];
    }
  }

  lemma ReplacersStay(w: Writer, w': Writer)
    requires forall u :: u in w.senders && w.senders[u].Ready? ==> u in w'.senders && w'.senders[u] == w.senders[u]
    ensures forall x :: BeingReplaced(w, x) ==> BeingReplaced(w', x)
  {
    forall x | BeingReplaced(w, x) ensures BeingReplaced(w', x) {
      var u :| u in w.senders && w.senders[u].Ready? && w.senders[u].sfx == x;
      assert u in w'.senders && w'.senders[u] == w.senders[u];
    }
  }
}
