/**
 What an announce stream's writer owes: every announcement handed to it is sent, the one it replaces is
 ended first, and a writer that is over stays silent.
 */
module AnnounceSends {
  import opened Wrappers
  import A = Announcement
  import opened AnnounceStream
  import opened AnnounceStreamRuns

  /** m was appended after the first n messages. */
  ghost predicate SentSince(log: seq<Msg>, n: nat, m: Msg) {
    exists k :: n <= k < |log| && log[k] == m
  }

  /** Something about suffix x was appended after the first n messages. */
  ghost predicate TouchedSince(log: seq<Msg>, n: nat, x: Suffix) {
    exists k :: n <= k < |log| && log[k].sfx == x
  }

  /** The log grew by nothing or by one message, and what is over stays over. */
  ghost predicate Onward(w: Writer, w': Writer) {
    && w.log <= w'.log && |w'.log| <= |w.log| + 1
    && (w.dead ==> w'.dead)
    && (w.closed ==> w'.closed)
  }

  lemma StepOnward(w: Writer, s: Step)
    requires Wf(w) && Enabled(w, s)
    ensures Onward(w, Apply(w, s))
  {
  }

  lemma RunStep(ws: seq<Writer>, steps: seq<Step>, i: nat)
    requires IsRun(ws, steps) && i < |steps|
    ensures Inv(ws[i]) && Inv(ws[i + 1]) && Enabled(ws[i], steps[i]) && ws[i + 1] == Apply(ws[i], steps[i]) && Onward(ws[i], ws[i + 1])
  {
    RunKeeps(ws, steps, i);
    RunKeeps(ws, steps, i + 1);
    assert Next(ws[i], steps[i], ws[i + 1]);
    StepOnward(ws[i], steps[i]);
  }

  /** What most lemmas need of a step in a run. */
  lemma Ran(ws: seq<Writer>, steps: seq<Step>, i: nat)
    requires IsRun(ws, steps) && i < |steps|
    ensures Wf(ws[i]) && Handled(ws[i]) && Enabled(ws[i], steps[i]) && ws[i + 1] == Apply(ws[i], steps[i]) && Onward(ws[i], ws[i + 1])
  {
    RunStep(ws, steps, i);
  }

  lemma {:induction false} RunOnward(ws: seq<Writer>, steps: seq<Step>, i: nat, j: nat)
    requires IsRun(ws, steps) && i <= j < |ws|
    ensures ws[i].log <= ws[j].log
    ensures (ws[i].dead ==> ws[j].dead) && (ws[i].closed ==> ws[j].closed)
  {
    if i < j {
      RunOnward(ws, steps, i, j - 1);
      RunStep(ws, steps, j - 1);
    }
  }

  // A call in flight.

  /** Thread t is sending a at suffix x. */
  predicate IsSending(w: Writer, t: Thread, x: Suffix, a: AnnId) {
    t in w.senders && w.senders[t].sfx == x && w.senders[t].ann == a
  }

  lemma SenderStays(w: Writer, s: Step, t: Thread, x: Suffix, a: AnnId)
    requires Wf(w) && Enabled(w, s) && IsSending(w, t, x, a)
    ensures var w' := Apply(w, s);
            IsSending(w', t, x, a) || !Open(w') || w'.log == w.log + [Active(x, a)]
  {
    if IsCallStep(s) {
      if s.t == t { CallGoesOn(w, s); } else { CallLeavesOthers(w, s, t); }
    } else {
      CallsUntouched(w, s);
    }
  }

  predicate IsCallStep(s: Step) {
    s.BeginSend? || s.StopOld? || s.RemoveOld? || s.SendActive?
  }

  lemma CallsUntouched(w: Writer, s: Step)
    requires Wf(w) && Enabled(w, s) && !IsCallStep(s)
    ensures Apply(w, s).senders == w.senders
  {
    match s
    case RunHandler(_, _) =>
    case SendInitial(_, _) =>
    case WatchInitial =>
    case _ =>
  }

  lemma CallLeavesOthers(w: Writer, s: Step, u: Thread)
    requires Wf(w) && Enabled(w, s) && IsCallStep(s) && u in w.senders && u != s.t
    ensures u in Apply(w, s).senders && Apply(w, s).senders[u] == w.senders[u]
  {
    match s
    case BeginSend(_, _) =>
    case StopOld(_) =>
    case RemoveOld(_, _) =>
    case SendActive(_, _, _) =>
  }

  /** A call goes on with what it sends, up to its ACTIVE. */
  lemma CallGoesOn(w: Writer, s: Step)
    requires Wf(w) && Enabled(w, s) && IsCallStep(s) && s.t in w.senders
    ensures var w', f := Apply(w, s), w.senders[s.t];
            if s.SendActive? then Open(w') ==> w'.log == w.log + [Active(f.sfx, f.ann)] else IsSending(w', s.t, f.sfx, f.ann)
  {
    match s
    case StopOld(_) =>
    case RemoveOld(_, _) =>
    case SendActive(_, _, _) =>
  }

  /** A call that found a not active leaves nothing undone: on an open stream it is under way or has written its ACTIVE. */
  lemma {:induction false} SendIsNotLost(ws: seq<Writer>, steps: seq<Step>, i: nat, j: nat, t: Thread, a: AnnId)
    requires IsRun(ws, steps) && i < j < |ws| && steps[i] == BeginSend(t, a) && !IsActiveEntry(ws[i], a)
    ensures Open(ws[j]) ==> IsSending(ws[j], t, SuffixOf(ws[i], a), a)
                            || SentSince(ws[j].log, |ws[i].log|, Active(SuffixOf(ws[i], a), a))
  {
    var x := SuffixOf(ws[i], a);
    Ran(ws, steps, j - 1);
    if i + 1 < j {
      SendIsNotLost(ws, steps, i, j - 1, t, a);
      RunOnward(ws, steps, i, j - 1);
      if Open(ws[j - 1]) {
        SendStep(ws[j - 1], steps[j - 1], |ws[i].log|, t, x, a);
      }
    }
  }

  lemma SendStep(w: Writer, s: Step, n: nat, t: Thread, x: Suffix, a: AnnId)
    requires Wf(w) && Enabled(w, s) && Onward(w, Apply(w, s)) && n <= |w.log|
    requires IsSending(w, t, x, a) || SentSince(w.log, n, Active(x, a))
    ensures var w' := Apply(w, s); Open(w') ==> IsSending(w', t, x, a) || SentSince(w'.log, n, Active(x, a))
  {
    var w' := Apply(w, s);
    if SentSince(w.log, n, Active(x, a)) {
      var k :| n <= k < |w.log| && w.log[k] == Active(x, a);
      assert w'.log[k] == Active(x, a);
    } else {
      SenderStays(w, s, t, x, a);
      if w'.log == w.log + [Active(x, a)] {
        assert w'.log[|w.log|] == Active(x, a);
      }
    }
  }

  function SuffixOf(w: Writer, a: AnnId): Suffix {
    if a in w.anns then w.anns[a].sfx else ""
  }

  /** a is the announcement active at its suffix. */
  predicate IsActiveEntry(w: Writer, a: AnnId) {
    var x := SuffixOf(w, a);
    x in w.actives && w.actives[x] in w.entries && w.entries[w.actives[x]].ann == a
  }

  /** So every announcement sent is on the wire once the writer is quiet: the peer held it before the call, or an ACTIVE for it followed. */
  lemma SentWhenQuiet(ws: seq<Writer>, steps: seq<Step>, i: nat, j: nat, t: Thread, a: AnnId)
    requires IsRun(ws, steps) && i < j < |ws| && steps[i] == BeginSend(t, a) && Quiet(ws[j])
    ensures var x, held := SuffixOf(ws[i], a), Replay(ws[i].log).actives;
            if IsActiveEntry(ws[i], a) then x in held && held[x] == a && ws[i + 1] == ws[i]
            else SentSince(ws[j].log, |ws[i].log|, Active(x, a))
  {
    RunStep(ws, steps, i);
    RunOnward(ws, steps, i, j);
    if IsActiveEntry(ws[i], a) {
      assert AgreesAt(ws[i], SuffixOf(ws[i], a));
    } else {
      SendIsNotLost(ws, steps, i, j, t, a);
    }
  }

  // The announcement a call replaces.

  /** The call by t on the entry e it found at x: until something about x is written, e is there, and t stops it. */
  ghost predicate Replacing(w: Writer, n: nat, t: Thread, x: Suffix, a: AnnId, e: EntryId) {
    && IsSending(w, t, x, a) && e in w.entries
    && (TouchedSince(w.log, n, x) || (x in w.actives && w.actives[x] == e && HoldsOld(w, w.senders[t], e)))
  }

  predicate HoldsOld(w: Writer, s: Sender, e: EntryId) {
    match s
    case Found(_, _, prev) => prev == Some(e)
    case Stopped(_, _, entry) => entry == e
    case Ready(_, _) => NotWatching(w, e)
  }

  lemma TouchedStays(log: seq<Msg>, log': seq<Msg>, n: nat, x: Suffix)
    requires log <= log' && n <= |log|
    ensures TouchedSince(log, n, x) ==> TouchedSince(log', n, x)
    ensures |log| < |log'| && log'[|log|].sfx == x ==> TouchedSince(log', n, x)
  {
    if TouchedSince(log, n, x) {
      var k :| n <= k < |log| && log[k].sfx == x;
      assert log'[k].sfx == x;
    }
  }

  /** Past init, the entry at x changes on an open stream only as something about x is written. */
  lemma EntryStays(w: Writer, s: Step, x: Suffix)
    requires Wf(w) && w.init.Done? && Enabled(w, s) && x in w.actives
    ensures var w' := Apply(w, s);
            Open(w') ==> (x in w'.actives && w'.actives[x] == w.actives[x]) || (|w.log| < |w'.log| && w'.log[|w.log|].sfx == x)
  {
  }

  lemma EntriesStay(w: Writer, s: Step, e: EntryId)
    requires Wf(w) && Enabled(w, s) && e in w.entries
    ensures e in Apply(w, s).entries && SameEntry(w.entries[e], Apply(w, s).entries[e])
  {
    if IsCallStep(s) {
      CallEntriesStay(w, s, e);
    }
  }

  /** An entry's suffix and announcement are fixed. */
  predicate SameEntry(e: Entry, e': Entry) {
    e.sfx == e'.sfx && e.ann == e'.ann
  }

  lemma CallEntriesStay(w: Writer, s: Step, e: EntryId)
    requires Wf(w) && Enabled(w, s) && IsCallStep(s) && e in w.entries
    ensures e in Apply(w, s).entries && SameEntry(w.entries[e], Apply(w, s).entries[e])
  {
    match s
    case BeginSend(_, _) =>
    case StopOld(_) =>
    case RemoveOld(_, _) =>
    case SendActive(_, _, _) =>
  }

  lemma UnwatchedStays(w: Writer, s: Step, e: EntryId)
    requires Wf(w) && w.init.Done? && Enabled(w, s) && e in w.entries && w.entries[e].watch != Watching
    ensures NotWatching(Apply(w, s), e)
  {
    if IsCallStep(s) {
      CallUnwatched(w, s, e);
    } else {
      match s
      case TakeHandlers(a) =>
      case StopAll =>
      case RunHandler(_, _) =>
      case _ =>
    }
  }

  lemma CallUnwatched(w: Writer, s: Step, e: EntryId)
    requires Wf(w) && IsCallStep(s) && Enabled(w, s) && e in w.entries && w.entries[e].watch != Watching
    ensures NotWatching(Apply(w, s), e)
  {
    match s
    case BeginSend(_, _) =>
    case StopOld(_) =>
    case RemoveOld(_, _) =>
    case SendActive(_, _, _) =>
  }

  predicate NotWatching(w: Writer, e: EntryId) {
    e in w.entries ==> w.entries[e].watch != Watching
  }

  /** A sender moves only by its own steps. */
  lemma OthersLeaveSender(w: Writer, s: Step, t: Thread)
    requires Wf(w) && Enabled(w, s) && t in w.senders
    requires s != StopOld(t) && !(s.RemoveOld? && s.t == t) && !(s.SendActive? && s.t == t)
    ensures t in Apply(w, s).senders && Apply(w, s).senders[t] == w.senders[t]
  {
    if IsCallStep(s) {
      CallLeavesOthers(w, s, t);
    } else {
      CallsUntouched(w, s);
    }
  }

  /** StopOld stops the old entry, unless it was not watching. */
  lemma StopOldHolds(w: Writer, t: Thread, x: Suffix, a: AnnId, e: EntryId)
    requires Wf(w) && Enabled(w, StopOld(t)) && IsSending(w, t, x, a) && e in w.entries && HoldsOld(w, w.senders[t], e)
    ensures var w' := Apply(w, StopOld(t)); IsSending(w', t, x, a) && HoldsOld(w', w'.senders[t], e)
  {
  }

  /** RemoveOld ends the old entry on the peer. */
  lemma RemoveOldEnds(w: Writer, t: Thread, sent: bool, x: Suffix, a: AnnId, e: EntryId)
    requires Wf(w) && Enabled(w, RemoveOld(t, sent)) && IsSending(w, t, x, a) && HoldsOld(w, w.senders[t], e)
    requires x in w.actives && w.actives[x] == e
    ensures var w' := Apply(w, RemoveOld(t, sent)); IsSending(w', t, x, a) && (Open(w') ==> w'.log == w.log + [Ended(x)])
  {
  }

  lemma OldStays(w: Writer, s: Step, t: Thread, x: Suffix, a: AnnId, e: EntryId)
    requires Wf(w) && Handled(w) && Enabled(w, s) && IsSending(w, t, x, a) && e in w.entries
    requires x in w.actives && w.actives[x] == e && HoldsOld(w, w.senders[t], e)
    ensures var w' := Apply(w, s);
            Open(w') && t in w'.senders ==> IsSending(w', t, x, a) && (HoldsOld(w', w'.senders[t], e) || TouchedSince(w'.log, |w.log|, x))
  {
    if s == StopOld(t) {
      StopOldHolds(w, t, x, a, e);
    } else if s.RemoveOld? && s.t == t {
      RemoveOldEnds(w, t, s.sent, x, a, e);
      TouchedStays(w.log, w.log + [Ended(x)], |w.log|, x);
    } else if s.SendActive? && s.t == t {
      SenderLeaves(w, t, s.e, s.sent);
    } else {
      OthersLeaveSender(w, s, t);
      if w.senders[t].Ready? {
        UnwatchedStays(w, s, e);
      }
    }
  }

  lemma SenderLeaves(w: Writer, t: Thread, e: EntryId, sent: bool)
    requires Wf(w) && Enabled(w, SendActive(t, e, sent))
    ensures t !in Apply(w, SendActive(t, e, sent)).senders
  {
  }

  lemma ReplacingStays(w: Writer, s: Step, n: nat, t: Thread, x: Suffix, a: AnnId, e: EntryId)
    requires Wf(w) && Handled(w) && Enabled(w, s) && Onward(w, Apply(w, s)) && n <= |w.log| && Replacing(w, n, t, x, a, e)
    ensures var w' := Apply(w, s); Open(w') && t in w'.senders ==> Replacing(w', n, t, x, a, e)
  {
    var w' := Apply(w, s);
    TouchedStays(w.log, w'.log, n, x);
    EntriesStay(w, s, e);
    if TouchedSince(w.log, n, x) {
      SenderStays(w, s, t, x, a);
    } else {
      OldStays(w, s, t, x, a, e);
      EntryStays(w, s, x);
    }
  }

  /** The thread t is in one call from step i up to j. */
  ghost predicate InOneCall(ws: seq<Writer>, t: Thread, i: nat, j: nat)
    requires j < |ws|
  {
    forall k :: i < k <= j ==> t in ws[k].senders
  }

  lemma CallBegins(w: Writer, t: Thread, a: AnnId)
    requires Wf(w) && Enabled(w, BeginSend(t, a)) && SuffixOf(w, a) in w.actives
    ensures var w' := Apply(w, BeginSend(t, a));
            t in w'.senders ==> Replacing(w', |w.log|, t, SuffixOf(w, a), a, w.actives[SuffixOf(w, a)])
  {
  }

  lemma {:induction false} CallReplaces(ws: seq<Writer>, steps: seq<Step>, i: nat, j: nat, t: Thread, a: AnnId)
    requires IsRun(ws, steps) && i < j < |ws| && steps[i] == BeginSend(t, a) && InOneCall(ws, t, i, j) && Open(ws[j])
    requires SuffixOf(ws[i], a) in ws[i].actives
    ensures Replacing(ws[j], |ws[i].log|, t, SuffixOf(ws[i], a), a, ws[i].actives[SuffixOf(ws[i], a)])
  {
    var x := SuffixOf(ws[i], a);
    Ran(ws, steps, j - 1);
    if i + 1 == j {
      CallBegins(ws[i], t, a);
    } else {
      CallReplaces(ws, steps, i, j - 1, t, a);
      RunOnward(ws, steps, i, j - 1);
      ReplacingStays(ws[j - 1], steps[j - 1], |ws[i].log|, t, x, a, ws[i].actives[x]);
    }
  }

  /**
   Before its ACTIVE goes out, a call has ended on the peer the announcement it replaces, unless another message about
   the suffix came in between, that announcement ended by itself, or another call is just ending it.
   */
  lemma EndsTheOldFirst(ws: seq<Writer>, steps: seq<Step>, i: nat, j: nat, t: Thread, a: AnnId)
    requires IsRun(ws, steps) && i < j < |ws| && steps[i] == BeginSend(t, a) && InOneCall(ws, t, i, j) && Open(ws[j])
    requires SuffixOf(ws[i], a) in ws[i].actives && ws[j].senders[t].Ready?
    ensures var x := SuffixOf(ws[i], a); var e := ws[i].actives[x];
            || TouchedSince(ws[j].log, |ws[i].log|, x)
            || BeingStopped(ws[j], e)
            || (e in ws[j].entries && ws[j].entries[e].ann in ws[j].anns && ws[j].anns[ws[j].entries[e].ann].stage != A.Fresh)
  {
    var x := SuffixOf(ws[i], a);
    var e := ws[i].actives[x];
    CallReplaces(ws, steps, i, j, t, a);
    RunKeeps(ws, steps, j);
    assert WatchFollows(ws[j], e);
    if !TouchedSince(ws[j].log, |ws[i].log|, x) {
      assert Guarded(ws[j], e);
    }
  }

  // Init.

  /** Entry e of the announcement a at x is yet to be sent by an init under way, or init failed, or its ACTIVE is on the wire. */
  ghost predicate InitOwes(w: Writer, e: EntryId, x: Suffix, a: AnnId) {
    match w.init
    case Before => false
    case Sending(todo, _) => (e in todo && e in w.entries && w.entries[e].sfx == x && w.entries[e].ann == a) || SentSince(w.log, 0, Active(x, a))
    case Done => SentSince(w.log, 0, Active(x, a))
    case Failed => true
  }

  lemma SentStays(log: seq<Msg>, log': seq<Msg>, n: nat, m: Msg)
    requires log <= log' && n <= |log|
    ensures SentSince(log, n, m) ==> SentSince(log', n, m)
    ensures |log| < |log'| && log'[|log|] == m ==> SentSince(log', n, m)
  {
    if SentSince(log, n, m) {
      var k :| n <= k < |log| && log[k] == m;
      assert log'[k] == m;
    }
  }

  lemma InitOwesStays(w: Writer, s: Step, e: EntryId, x: Suffix, a: AnnId)
    requires Wf(w) && Enabled(w, s) && Onward(w, Apply(w, s)) && InitOwes(w, e, x, a)
    ensures InitOwes(Apply(w, s), e, x, a)
  {
    SentStays(w.log, Apply(w, s).log, 0, Active(x, a));
    if s.SendInitial? {
      SendInitialSends(w, s.e, s.sent);
    } else {
      InitMoves(w, s);
      if e in w.entries { EntriesStay(w, s, e); }
    }
  }

  lemma SendInitialSends(w: Writer, e: EntryId, sent: bool)
    requires Wf(w) && Enabled(w, SendInitial(e, sent))
    ensures var w' := Apply(w, SendInitial(e, sent));
            && w'.entries == w.entries
            && (w'.init.Failed? || (w'.init == Sending(w.init.todo - {e}, Some(e)) && w'.log == w.log + [Active(w.entries[e].sfx, w.entries[e].ann)]))
  {
  }

  lemma InitMoves(w: Writer, s: Step)
    requires Wf(w) && Enabled(w, s) && !s.SendInitial? && !w.init.Before?
    ensures var w' := Apply(w, s);
            || w'.init == w.init
            || (w.init.Sending? && w'.init == Sending(w.init.todo, None))
            || (w.init == Sending({}, None) && w'.init == Done)
  {
    match s
    case WatchInitial =>
    case EndInit =>
    case RunHandler(_, _) =>
    case RemoveOld(_, _) =>
    case _ =>
  }

  /** Once init is over, every announcement it started with has been sent; on a writer already closed it fails. */
  lemma {:induction false} InitSendsAll(ws: seq<Writer>, steps: seq<Step>, i: nat, j: nat, e: EntryId)
    requires IsRun(ws, steps) && i < j < |ws| && steps[i].BeginInit? && e in steps[i].initial
    ensures if ws[i].closed then ws[j].init.Failed?
            else InitOwes(ws[j], e, SuffixOf(ws[i], steps[i].initial[e]), steps[i].initial[e])
  {
    Ran(ws, steps, j - 1);
    if i + 1 == j {
      InitBegins(ws[i], steps[i].initial, steps[i].index, e);
    } else {
      InitSendsAll(ws, steps, i, j - 1, e);
      if ws[i].closed {
        InitMoves(ws[j - 1], steps[j - 1]);
      } else {
        InitOwesStays(ws[j - 1], steps[j - 1], e, SuffixOf(ws[i], steps[i].initial[e]), steps[i].initial[e]);
      }
    }
  }

  lemma InitBegins(w: Writer, initial: map<EntryId, AnnId>, index: map<Suffix, EntryId>, e: EntryId)
    requires Wf(w) && Enabled(w, BeginInit(initial, index)) && e in initial
    ensures var w' := Apply(w, BeginInit(initial, index));
            if w.closed then w'.init.Failed? else InitOwes(w', e, SuffixOf(w, initial[e]), initial[e])
  {
  }

  /** So an init that has ended has put an ACTIVE on the wire for each. */
  lemma InitSentAll(ws: seq<Writer>, steps: seq<Step>, i: nat, j: nat, e: EntryId)
    requires IsRun(ws, steps) && i < j < |ws| && steps[i].BeginInit? && e in steps[i].initial && ws[j].init.Done?
    ensures SentSince(ws[j].log, 0, Active(SuffixOf(ws[i], steps[i].initial[e]), steps[i].initial[e]))
  {
    InitSendsAll(ws, steps, i, j, e);
  }

  // A stream that is over, and announcements that are.

  predicate IsSilent(w: Writer) {
    w.dead || (w.closed && !w.init.Sending?)
  }

  lemma SilentStep(w: Writer, s: Step)
    requires Wf(w) && Enabled(w, s) && IsSilent(w)
    ensures Apply(w, s).log == w.log && IsSilent(Apply(w, s))
  {
    match s
    case RunHandler(_, _) =>
    case RemoveOld(_, _) =>
    case SendActive(_, _, _) =>
    case SendInitial(_, _) =>
    case _ =>
  }

  /** Nothing is written once the stream has ended, or once Close has stopped the writer, unless init is then still at work. */
  lemma {:induction false} SilentOnceOver(ws: seq<Writer>, steps: seq<Step>, i: nat, j: nat)
    requires IsRun(ws, steps) && i < j < |ws|
    requires steps[i].StreamEnds? || (steps[i].StopAll? && !ws[i].init.Sending?)
    ensures ws[j].log == ws[i].log && IsSilent(ws[j])
  {
    Ran(ws, steps, j - 1);
    if i + 1 < j {
      SilentOnceOver(ws, steps, i, j - 1);
      SilentStep(ws[j - 1], steps[j - 1]);
    }
  }

  predicate IsFresh(w: Writer, a: AnnId) {
    a in w.anns && w.anns[a].stage == A.Fresh
  }

  lemma AnnStep(w: Writer, s: Step, a: AnnId)
    requires Wf(w) && Enabled(w, s) && a in w.anns
    ensures a in Apply(w, s).anns && Apply(w, s).anns[a].sfx == w.anns[a].sfx
    ensures IsFresh(Apply(w, s), a) <==> IsFresh(w, a) && s != Deactivate(a)
  {
    if IsCallStep(s) {
      CallLeavesAnns(w, s);
    } else {
      match s
      case RunHandler(_, _) =>
      case SendInitial(_, _) =>
      case _ =>
    }
  }

  lemma CallLeavesAnns(w: Writer, s: Step)
    requires Wf(w) && Enabled(w, s) && IsCallStep(s)
    ensures Apply(w, s).anns == w.anns
  {
    match s
    case BeginSend(_, _) =>
    case StopOld(_) =>
    case RemoveOld(_, _) =>
    case SendActive(_, _, _) =>
  }

  /** An announcement keeps its suffix, and is active until it is deactivated. */
  lemma {:induction false} FreshUntilEnded(ws: seq<Writer>, steps: seq<Step>, i: nat, j: nat, a: AnnId, x: Suffix)
    requires IsRun(ws, steps) && i < j < |ws| && steps[i] == Announce(a, x)
    ensures a in ws[j].anns && SuffixOf(ws[j], a) == x
    ensures IsFresh(ws[j], a) <==> forall k :: i < k < j ==> steps[k] != Deactivate(a)
  {
    Ran(ws, steps, j - 1);
    if i + 1 < j {
      FreshUntilEnded(ws, steps, i, j - 1, a, x);
      AnnStep(ws[j - 1], steps[j - 1], a);
    }
  }

  lemma {:induction false} NeverFreshAgain(ws: seq<Writer>, steps: seq<Step>, i: nat, j: nat, a: AnnId)
    requires IsRun(ws, steps) && i < j < |ws| && steps[i] == Deactivate(a)
    ensures a in ws[j].anns && !IsFresh(ws[j], a)
  {
    Ran(ws, steps, j - 1);
    if i + 1 < j {
      NeverFreshAgain(ws, steps, i, j - 1, a);
      AnnStep(ws[j - 1], steps[j - 1], a);
    }
  }

  /** The end of an announcement reaches the peer: once the writer is quiet, the peer holds it at no suffix. */
  lemma EndedIsWithdrawn(ws: seq<Writer>, steps: seq<Step>, i: nat, j: nat, a: AnnId, x: Suffix)
    requires IsRun(ws, steps) && i < j < |ws| && steps[i] == Deactivate(a) && Quiet(ws[j])
    ensures x in Replay(ws[j].log).actives ==> Replay(ws[j].log).actives[x] != a
  {
    NeverFreshAgain(ws, steps, i, j, a);
    QuietMeansExact(ws, steps, j, x);
  }

  // Becoming quiet.

  ghost function Finding(senders: map<Thread, Sender>): set<Thread> {
    set t | t in senders && senders[t].Found?
  }

  ghost function Stopping(senders: map<Thread, Sender>): set<Thread> {
    set t | t in senders && senders[t].Stopped?
  }

  ghost function Ending(anns: map<AnnId, Ann>): set<AnnId> {
    set a | a in anns && anns[a].stage == A.Deactivated
  }

  ghost function ToRun(entries: map<EntryId, Entry>): set<EntryId> {
    set e | e in entries && entries[e].watch == Watch.Claimed
  }

  function InitLeft(init: Init): nat {
    match init
    case Sending(todo, written) => 2 * |todo| + (if written.Some? then 1 else 0) + 1
    case _ => 0
  }

  /** s finishes some of the work under way, and its write goes out. */
  ghost predicate Works(w: Writer, s: Step) {
    && Enabled(w, s)
    && match s
       case SendInitial(_, sent) => sent
       case WatchInitial => true
       case EndInit => true
       case StopOld(_) => true
       case RemoveOld(_, sent) => sent
       case SendActive(_, _, sent) => sent
       case TakeHandlers(_) => true
       case RunHandler(_, sent) => sent
       case _ => false
  }

  lemma InitWorks(w: Writer, s: Step)
    requires Wf(w) && Open(w) && Works(w, s) && (s.SendInitial? || s.WatchInitial? || s.EndInit?)
    ensures Open(Apply(w, s)) && InitLeft(Apply(w, s).init) < InitLeft(w.init)
  {
    match s
    case SendInitial(_, _) =>
    case WatchInitial =>
    case EndInit =>
  }

  lemma StopOldWorks(w: Writer, t: Thread)
    requires Wf(w) && Open(w) && Enabled(w, StopOld(t))
    ensures var w' := Apply(w, StopOld(t)); Open(w') && w'.init == w.init && |Finding(w'.senders)| < |Finding(w.senders)|
  {
    assert Finding(Apply(w, StopOld(t)).senders) == Finding(w.senders) - {t};
  }

  lemma RemoveOldWorks(w: Writer, t: Thread)
    requires Wf(w) && Open(w) && Enabled(w, RemoveOld(t, true))
    ensures var w' := Apply(w, RemoveOld(t, true));
            Open(w') && w'.init == w.init && Finding(w'.senders) == Finding(w.senders) && |Stopping(w'.senders)| < |Stopping(w.senders)|
  {
    assert Stopping(Apply(w, RemoveOld(t, true)).senders) == Stopping(w.senders) - {t};
  }

  lemma SendActiveWorks(w: Writer, t: Thread, e: EntryId)
    requires Wf(w) && Open(w) && Enabled(w, SendActive(t, e, true))
    ensures var w' := Apply(w, SendActive(t, e, true));
            && Open(w') && w'.init == w.init && Finding(w'.senders) == Finding(w.senders)
            && Stopping(w'.senders) == Stopping(w.senders) && |w'.senders| < |w.senders|
  {
    var w' := Apply(w, SendActive(t, e, true));
    assert w'.senders == w.senders - {t};
    assert w'.senders.Keys == w.senders.Keys - {t};
  }

  lemma TakeHandlersWorks(w: Writer, a: AnnId)
    requires Wf(w) && Open(w) && Enabled(w, TakeHandlers(a))
    ensures var w' := Apply(w, TakeHandlers(a));
            Open(w') && w'.init == w.init && w'.senders == w.senders && |Ending(w'.anns)| < |Ending(w.anns)|
  {
    assert Ending(Apply(w, TakeHandlers(a)).anns) == Ending(w.anns) - {a};
  }

  lemma RunHandlerWorks(w: Writer, e: EntryId)
    requires Wf(w) && Open(w) && Enabled(w, RunHandler(e, true))
    ensures var w' := Apply(w, RunHandler(e, true));
            Open(w') && w'.init == w.init && w'.senders == w.senders && w'.anns == w.anns && |ToRun(w'.entries)| < |ToRun(w.entries)|
  {
    assert ToRun(Apply(w, RunHandler(e, true)).entries) == ToRun(w.entries) - {e};
  }

  ghost function FreshEntry(entries: map<EntryId, Entry>): (e: EntryId)
    ensures e !in entries
  {
    Above(entries.Keys)
  }

  /** A number above all of s. */
  ghost function Above(s: set<nat>): (n: nat)
    ensures forall x :: x in s ==> x < n
  {
    if s == {} then 0
    else
      var x :| x in s;
      var n := Above(s - {x});
      assert s == (s - {x}) + {x};
      if x < n then n else x + 1
  }

  lemma QuietUnless(w: Writer)
    requires Open(w) && !w.init.Sending? && w.senders == map[] && Ending(w.anns) == {}
    ensures ToRun(w.entries) == {} ==> Quiet(w)
  {
    forall a | a in w.anns ensures w.anns[a].stage != A.Deactivated {
      assert a !in Ending(w.anns);
    }
    forall e | e in w.entries && ToRun(w.entries) == {} ensures w.entries[e].watch != Watch.Claimed {
      assert e !in ToRun(w.entries);
    }
  }

  /** The next piece of work, init's first, then the calls', then the ends' and their handlers'. */
  ghost function NextWork(w: Writer): (s: Step)
    requires Wf(w) && Open(w) && !Quiet(w)
    ensures Works(w, s)
  {
    if w.init.Sending? then
      if w.init.written.Some? then WatchInitial
      else if w.init.todo == {} then EndInit
      else var e :| e in w.init.todo; SendInitial(e, true)
    else if w.senders != map[] then
      var t :| t in w.senders;
      match w.senders[t]
      case Found(_, _, _) => StopOld(t)
      case Stopped(_, _, _) => RemoveOld(t, true)
      case Ready(_, _) => SendActive(t, FreshEntry(w.entries), true)
    else if Ending(w.anns) != {} then
      var a :| a in Ending(w.anns); TakeHandlers(a)
    else
      QuietUnless(w);
      var e :| e in ToRun(w.entries); RunHandler(e, true)
  }

  /** Less is left: first of init, then of the calls, then of the ends and their handlers. */
  ghost predicate LessLeft(w': Writer, w: Writer) {
    || InitLeft(w'.init) < InitLeft(w.init)
    || (w'.init == w.init && CallsLess(w'.senders, w.senders))
    || (w'.init == w.init && w'.senders == w.senders && |Ending(w'.anns)| < |Ending(w.anns)|)
    || (w'.init == w.init && w'.senders == w.senders && w'.anns == w.anns && |ToRun(w'.entries)| < |ToRun(w.entries)|)
  }

  ghost predicate CallsLess(s': map<Thread, Sender>, s: map<Thread, Sender>) {
    || |Finding(s')| < |Finding(s)|
    || (Finding(s') == Finding(s) && |Stopping(s')| < |Stopping(s)|)
    || (Finding(s') == Finding(s) && Stopping(s') == Stopping(s) && |s'| < |s|)
  }

  lemma WorkShrinks(w: Writer, s: Step)
    requires Wf(w) && Open(w) && Works(w, s)
    ensures Open(Apply(w, s)) && LessLeft(Apply(w, s), w)
  {
    match s {
      case StopOld(t) => StopOldWorks(w, t);
      case RemoveOld(t, _) => RemoveOldWorks(w, t);
      case SendActive(t, e, _) => SendActiveWorks(w, t, e);
      case TakeHandlers(a) => TakeHandlersWorks(w, a);
      case RunHandler(e, _) => RunHandlerWorks(w, e);
      case _ => InitWorks(w, s);
    }
  }

  ghost predicate AllWork(ws: seq<Writer>, steps: seq<Step>, from: nat)
    requires |steps| <= |ws|
  {
    forall k :: from <= k < |steps| ==> Works(ws[k], steps[k])
  }

  /** While the stream stays open, what is under way can be finished: every run extends, by such work alone, to a quiet writer. */
  lemma {:induction false} CanBecomeQuiet(ws: seq<Writer>, steps: seq<Step>) returns (ws': seq<Writer>, steps': seq<Step>)
    requires IsRun(ws, steps) && Open(ws[|steps|])
    ensures IsRun(ws', steps') && ws <= ws' && steps <= steps' && Quiet(ws'[|steps'|]) && AllWork(ws', steps', |steps|)
    decreases InitLeft(ws[|steps|].init), |Finding(ws[|steps|].senders)|, |Stopping(ws[|steps|].senders)|, |ws[|steps|].senders|,
              |Ending(ws[|steps|].anns)|, |ToRun(ws[|steps|].entries)|
  {
    var w := ws[|steps|];
    RunWf(ws, steps, |steps|);
    if Quiet(w) {
      return ws, steps;
    }
    var s := NextWork(w);
    WorkShrinks(w, s);
    RunLonger(ws, steps, s);
    ws', steps' := CanBecomeQuiet(ws + [Apply(w, s)], steps + [s]);
    OneMoreWork(ws, steps, s, ws', steps');
  }

  lemma RunWf(ws: seq<Writer>, steps: seq<Step>, i: nat)
    requires IsRun(ws, steps) && i < |ws|
    ensures Wf(ws[i])
  {
    RunKeeps(ws, steps, i);
  }

  lemma OneMoreWork(ws: seq<Writer>, steps: seq<Step>, s: Step, ws': seq<Writer>, steps': seq<Step>)
    requires |ws| == |steps| + 1 && |ws'| == |steps'| + 1 && ws <= ws' && steps + [s] <= steps'
    requires Works(ws[|steps|], s) && AllWork(ws', steps', |steps| + 1)
    ensures steps <= steps' && AllWork(ws', steps', |steps|)
  {
    assert steps'[|steps|] == s;
  }

  lemma RunLonger(ws: seq<Writer>, steps: seq<Step>, s: Step)
    requires IsRun(ws, steps) && Wf(ws[|steps|]) && Enabled(ws[|steps|], s)
    ensures IsRun(ws + [Apply(ws[|steps|], s)], steps + [s])
  {
  }
}
