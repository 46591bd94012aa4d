/**
 Every step of an announce stream's writer keeps its invariant, and what that gives over whole runs. The
 lemmas are named for the step and the part of the invariant.
 */
module AnnounceStreamRuns {
  import opened Wrappers
  import A = Announcement
  import opened AnnounceStream

  // What steps have in common.

  lemma SetWatchWf(w: Writer, e: EntryId, watch: Watch)
    requires Wf(w) && e in w.entries
    ensures Wf(SetWatch(w, e, watch))
  {
  }

  lemma RemovedWf(w: Writer, e: EntryId, sent: bool)
    requires Wf(w) && e in w.entries
    requires w.init.Before? ==> w.actives == map[]
    ensures Wf(Removed(w, e, sent))
  {
  }

  lemma GoWf(w: Writer, t: Thread, s: Sender)
    requires Wf(w) && SenderWf(w, s) && w.init.Done?
    ensures Wf(Go(w, t, s))
  {
  }

  /** Nothing was written, the stream and the entries at each suffix are as they were, and announcements only wear out. */
  ghost predicate Still(w: Writer, w': Writer) {
    && w'.log == w.log
    && (w.dead ==> w'.dead)
    && (w.closed ==> w'.closed)
    && (w'.actives == w.actives || (w'.closed && w'.actives == map[]))
    && (forall e :: Unsent(w', e) <==> Unsent(w, e))
    && (forall e :: e in w.entries ==> e in w'.entries && w'.entries[e].ann == w.entries[e].ann)
    && (forall a :: a in w.anns ==> a in w'.anns && (w'.anns[a].stage == A.Fresh ==> w.anns[a].stage == A.Fresh))
  }

  lemma StillAgrees(w: Writer, w': Writer)
    requires Wf(w) && Agrees(w) && Still(w, w') && Handled(w')
    ensures Agrees(w')
  {
    if !w'.dead {
      forall x ensures AgreesAt(w', x) {
        assert AgreesAt(w, x);
        assert x in w.actives ==> IsEntry(w, w.actives[x], x);
      }
    }
  }

  ghost predicate ReplacersKept(w: Writer, w': Writer) {
    forall u :: u in w.senders && w.senders[u].Ready? ==> u in w'.senders && w'.senders[u] == w.senders[u]
  }

  lemma StillSettles(w: Writer, w': Writer)
    requires Settles(w) && Still(w, w') && ReplacersKept(w, w')
    ensures Settles(w')
  {
    ReplacersStay(w, w');
    forall x ensures LastKnown(w', x) && (Open(w') ==> HeldByWriter(w', x) && EndedForGood(w', x)) {
      SettledAt(w, x);
    }
  }

  /** Settles and Agrees, at one suffix. */
  lemma SettledAt(w: Writer, x: Suffix)
    requires Settles(w)
    ensures LastKnown(w, x) && (Open(w) ==> HeldByWriter(w, x) && EndedForGood(w, x))
    ensures Agrees(w) && !w.dead ==> AgreesAt(w, x)
    ensures !Replay(w.log).violated && x in Replay(w.log).actives ==> LastSent(w.log, x) == Some(Replay(w.log).actives[x])
  {
    ActiveIsLastSent(w.log, x);
  }

  // Steps that write nothing.

  lemma AnnounceWf(w: Writer, a: AnnId, sfx: Suffix)
    requires Wf(w) && Enabled(w, Announce(a, sfx))
    ensures Wf(Apply(w, Announce(a, sfx)))
  {
    assert EntriesWf(Apply(w, Announce(a, sfx)));
  }

  lemma AnnounceAgrees(w: Writer, a: AnnId, sfx: Suffix)
    requires Wf(w) && Agrees(w) && Enabled(w, Announce(a, sfx))
    ensures Still(w, Apply(w, Announce(a, sfx))) && Agrees(Apply(w, Announce(a, sfx)))
  {
    assert Handled(Apply(w, Announce(a, sfx)));
    StillAgrees(w, Apply(w, Announce(a, sfx)));
  }

  lemma AnnounceGuards(w: Writer, a: AnnId, sfx: Suffix)
    requires Wf(w) && Agrees(w) && Guards(w) && Enabled(w, Announce(a, sfx))
    ensures Guards(Apply(w, Announce(a, sfx)))
  {
    var w' := Apply(w, Announce(a, sfx));
    StoppersStay(w, w');
    forall e' ensures WatchFollows(w', e') {
      assert WatchFollows(w, e');
    }
  }

  lemma AnnounceSettles(w: Writer, a: AnnId, sfx: Suffix)
    requires Inv(w) && Enabled(w, Announce(a, sfx))
    ensures Settles(Apply(w, Announce(a, sfx)))
  {
    AnnounceAgrees(w, a, sfx);
    StillSettles(w, Apply(w, Announce(a, sfx)));
  }

  lemma DeactivateWf(w: Writer, a: AnnId)
    requires Wf(w) && Enabled(w, Deactivate(a))
    ensures Wf(Apply(w, Deactivate(a)))
  {
    assert EntriesWf(Apply(w, Deactivate(a)));
  }

  lemma DeactivateAgrees(w: Writer, a: AnnId)
    requires Wf(w) && Agrees(w) && Enabled(w, Deactivate(a))
    ensures Still(w, Apply(w, Deactivate(a))) && Agrees(Apply(w, Deactivate(a)))
  {
    assert Handled(Apply(w, Deactivate(a)));
    StillAgrees(w, Apply(w, Deactivate(a)));
  }

  lemma DeactivateGuards(w: Writer, a: AnnId)
    requires Wf(w) && Agrees(w) && Guards(w) && Enabled(w, Deactivate(a))
    ensures Guards(Apply(w, Deactivate(a)))
  {
    var w' := Apply(w, Deactivate(a));
    StoppersStay(w, w');
    forall e' ensures WatchFollows(w', e') {
      assert WatchFollows(w, e');
    }
  }

  lemma DeactivateSettles(w: Writer, a: AnnId)
    requires Inv(w) && Enabled(w, Deactivate(a))
    ensures Settles(Apply(w, Deactivate(a)))
  {
    DeactivateAgrees(w, a);
    StillSettles(w, Apply(w, Deactivate(a)));
  }

  lemma TakeHandlersWf(w: Writer, a: AnnId)
    requires Wf(w) && Enabled(w, TakeHandlers(a))
    ensures Wf(Apply(w, TakeHandlers(a)))
  {
    assert EntriesWf(Apply(w, TakeHandlers(a)));
  }

  lemma TakeHandlersAgrees(w: Writer, a: AnnId)
    requires Wf(w) && Agrees(w) && Enabled(w, TakeHandlers(a))
    ensures Still(w, Apply(w, TakeHandlers(a))) && Agrees(Apply(w, TakeHandlers(a)))
  {
    assert Handled(Apply(w, TakeHandlers(a)));
    StillAgrees(w, Apply(w, TakeHandlers(a)));
  }

  lemma TakeHandlersGuards(w: Writer, a: AnnId)
    requires Wf(w) && Agrees(w) && Guards(w) && Enabled(w, TakeHandlers(a))
    ensures Guards(Apply(w, TakeHandlers(a)))
  {
    var w' := Apply(w, TakeHandlers(a));
    StoppersStay(w, w');
    forall e' ensures WatchFollows(w', e') {
      assert WatchFollows(w, e');
    }
  }

  lemma TakeHandlersSettles(w: Writer, a: AnnId)
    requires Inv(w) && Enabled(w, TakeHandlers(a))
    ensures Settles(Apply(w, TakeHandlers(a)))
  {
    TakeHandlersAgrees(w, a);
    StillSettles(w, Apply(w, TakeHandlers(a)));
  }

  lemma EndInitKeeps(w: Writer)
    requires Inv(w) && Enabled(w, EndInit)
    ensures Inv(Apply(w, EndInit))
  {
    var w' := Apply(w, EndInit);
    assert EntriesWf(w') && Handled(w');
    StillAgrees(w, w');
    StoppersStay(w, w');
    forall e' ensures WatchFollows(w', e') {
      assert WatchFollows(w, e');
    }
    StillSettles(w, w');
  }

  lemma WatchInitialWf(w: Writer)
    requires Wf(w) && Enabled(w, WatchInitial)
    ensures Wf(Apply(w, WatchInitial))
  {
    assert EntriesWf(Apply(w, WatchInitial));
  }

  lemma WatchInitialAgrees(w: Writer)
    requires Wf(w) && Agrees(w) && Enabled(w, WatchInitial)
    ensures Still(w, Apply(w, WatchInitial)) && Agrees(Apply(w, WatchInitial))
  {
    assert Handled(Apply(w, WatchInitial));
    StillAgrees(w, Apply(w, WatchInitial));
  }

  lemma WatchInitialGuards(w: Writer)
    requires Wf(w) && Agrees(w) && Guards(w) && Enabled(w, WatchInitial)
    ensures Guards(Apply(w, WatchInitial))
  {
    var w' := Apply(w, WatchInitial);
    StoppersStay(w, w');
    forall e' ensures WatchFollows(w', e') {
      assert WatchFollows(w, e');
    }
  }

  lemma WatchInitialSettles(w: Writer)
    requires Inv(w) && Enabled(w, WatchInitial)
    ensures Settles(Apply(w, WatchInitial))
  {
    WatchInitialAgrees(w);
    StillSettles(w, Apply(w, WatchInitial));
  }

  lemma BeginSendWf(w: Writer, t: Thread, a: AnnId)
    requires Wf(w) && Enabled(w, BeginSend(t, a))
    ensures Wf(Apply(w, BeginSend(t, a)))
  {
    assert EntriesWf(Apply(w, BeginSend(t, a)));
  }

  lemma BeginSendStill(w: Writer, t: Thread, a: AnnId)
    requires Wf(w) && Enabled(w, BeginSend(t, a))
    ensures Still(w, Apply(w, BeginSend(t, a)))
  {
  }

  lemma BeginSendHandled(w: Writer, t: Thread, a: AnnId)
    requires Wf(w) && Handled(w) && Enabled(w, BeginSend(t, a))
    ensures Handled(Apply(w, BeginSend(t, a)))
  {
  }

  lemma BeginSendAgrees(w: Writer, t: Thread, a: AnnId)
    requires Wf(w) && Agrees(w) && Enabled(w, BeginSend(t, a))
    ensures Agrees(Apply(w, BeginSend(t, a)))
  {
    BeginSendStill(w, t, a);
    BeginSendHandled(w, t, a);
    StillAgrees(w, Apply(w, BeginSend(t, a)));
  }

  lemma BeginSendGuards(w: Writer, t: Thread, a: AnnId)
    requires Wf(w) && Agrees(w) && Guards(w) && Enabled(w, BeginSend(t, a))
    ensures Guards(Apply(w, BeginSend(t, a)))
  {
    var w' := Apply(w, BeginSend(t, a));
    StoppersStay(w, w');
    forall e' ensures WatchFollows(w', e') {
      assert WatchFollows(w, e');
    }
  }

  lemma BeginSendSettles(w: Writer, t: Thread, a: AnnId)
    requires Inv(w) && Enabled(w, BeginSend(t, a))
    ensures Settles(Apply(w, BeginSend(t, a)))
  {
    BeginSendStill(w, t, a);
    StillSettles(w, Apply(w, BeginSend(t, a)));
  }

  lemma StopOldWf(w: Writer, t: Thread)
    requires Wf(w) && Enabled(w, StopOld(t))
    ensures Wf(Apply(w, StopOld(t)))
  {
    var f := w.senders[t];
    assert SenderWf(w, f);
    if f.prev.Some? && w.entries[f.prev.value].watch == Watching {
      SetWatchWf(w, f.prev.value, Over);
      GoWf(SetWatch(w, f.prev.value, Over), t, Stopped(f.sfx, f.ann, f.prev.value));
    } else {
      GoWf(w, t, Ready(f.sfx, f.ann));
    }
  }

  lemma StopOldStill(w: Writer, t: Thread)
    requires Wf(w) && Enabled(w, StopOld(t))
    ensures Still(w, Apply(w, StopOld(t)))
  {
  }

  lemma StopOldHandled(w: Writer, t: Thread)
    requires Wf(w) && Handled(w) && Enabled(w, StopOld(t))
    ensures Handled(Apply(w, StopOld(t)))
  {
  }

  lemma StopOldAgrees(w: Writer, t: Thread)
    requires Wf(w) && Agrees(w) && Enabled(w, StopOld(t))
    ensures Agrees(Apply(w, StopOld(t)))
  {
    StopOldStill(w, t);
    StopOldHandled(w, t);
    StillAgrees(w, Apply(w, StopOld(t)));
  }

  lemma StopOldWatches(w: Writer, t: Thread)
    requires Wf(w) && Guards(w) && Enabled(w, StopOld(t))
    ensures forall e :: WatchFollows(Apply(w, StopOld(t)), e)
  {
    forall e ensures WatchFollows(Apply(w, StopOld(t)), e) {
      assert WatchFollows(w, e);
    }
  }

  lemma StopOldGuards(w: Writer, t: Thread)
    requires Wf(w) && Agrees(w) && Guards(w) && Enabled(w, StopOld(t))
    ensures Guards(Apply(w, StopOld(t)))
  {
    var w' := Apply(w, StopOld(t));
    StoppersStay(w, w');
    if w'.senders[t].Stopped? {
      assert BeingStopped(w', w'.senders[t].entry);
    }
    StopOldWatches(w, t);
  }

  lemma StopOldReplacers(w: Writer, t: Thread)
    requires Wf(w) && Enabled(w, StopOld(t))
    ensures ReplacersKept(w, Apply(w, StopOld(t)))
  {
  }

  lemma StopOldSettles(w: Writer, t: Thread)
    requires Inv(w) && Enabled(w, StopOld(t))
    ensures Settles(Apply(w, StopOld(t)))
  {
    StopOldStill(w, t);
    StopOldReplacers(w, t);
    var w' := Apply(w, StopOld(t));
    StillSettles(w, w');
  }

  lemma StopAllWf(w: Writer)
    requires Wf(w) && Enabled(w, StopAll)
    ensures Wf(Apply(w, StopAll))
  {
    assert EntriesWf(Apply(w, StopAll));
  }

  lemma StopAllAgrees(w: Writer)
    requires Wf(w) && Agrees(w) && Enabled(w, StopAll)
    ensures Still(w, Apply(w, StopAll)) && Agrees(Apply(w, StopAll))
  {
    assert Handled(Apply(w, StopAll));
    StillAgrees(w, Apply(w, StopAll));
  }

  lemma StopAllGuards(w: Writer)
    requires Wf(w) && Agrees(w) && Guards(w) && Enabled(w, StopAll)
    ensures Guards(Apply(w, StopAll))
  {
    var w' := Apply(w, StopAll);
    StoppersStay(w, w');
    forall e' ensures WatchFollows(w', e') {
      assert WatchFollows(w, e');
    }
  }

  lemma StopAllSettles(w: Writer)
    requires Inv(w) && Enabled(w, StopAll)
    ensures Settles(Apply(w, StopAll))
  {
    StopAllAgrees(w);
    StillSettles(w, Apply(w, StopAll));
  }

  lemma StreamEndsKeeps(w: Writer)
    requires Inv(w) && Enabled(w, StreamEnds)
    ensures Inv(Apply(w, StreamEnds))
  {
    var w' := Apply(w, StreamEnds);
    assert EntriesWf(w') && Handled(w');
    StillAgrees(w, w');
    StoppersStay(w, w');
    forall e' ensures WatchFollows(w', e') {
      assert WatchFollows(w, e');
    }
    StillSettles(w, w');
  }

  // Steps that write.

  lemma BeginInitWf(w: Writer, initial: map<EntryId, AnnId>, index: map<Suffix, EntryId>)
    requires Wf(w) && Enabled(w, BeginInit(initial, index))
    ensures Wf(Apply(w, BeginInit(initial, index)))
  {
    assert EntriesWf(Apply(w, BeginInit(initial, index)));
  }

  lemma BeginInitAgrees(w: Writer, initial: map<EntryId, AnnId>, index: map<Suffix, EntryId>)
    requires Wf(w) && Agrees(w) && Enabled(w, BeginInit(initial, index))
    ensures Agrees(Apply(w, BeginInit(initial, index)))
  {
    var w' := Apply(w, BeginInit(initial, index));
    if !w'.dead {
      forall y ensures AgreesAt(w', y) {
        assert AgreesAt(w, y);
      }
    }
  }

  lemma BeginInitGuards(w: Writer, initial: map<EntryId, AnnId>, index: map<Suffix, EntryId>)
    requires Wf(w) && Agrees(w) && Guards(w) && Enabled(w, BeginInit(initial, index))
    ensures Guards(Apply(w, BeginInit(initial, index)))
  {
    var w' := Apply(w, BeginInit(initial, index));
    StoppersStay(w, w');
    forall e' ensures WatchFollows(w', e') {
      assert WatchFollows(w, e');
    }
  }

  lemma BeginInitSettles(w: Writer, initial: map<EntryId, AnnId>, index: map<Suffix, EntryId>)
    requires Inv(w) && Enabled(w, BeginInit(initial, index))
    ensures Settles(Apply(w, BeginInit(initial, index)))
  {
    assert w.log == [] && Apply(w, BeginInit(initial, index)).log == [];
  }

  lemma RunHandlerWf(w: Writer, e: EntryId, sent: bool)
    requires Wf(w) && Enabled(w, RunHandler(e, sent))
    ensures Wf(Apply(w, RunHandler(e, sent)))
  {
    var w' := Apply(w, RunHandler(e, sent));
    SetWatchWf(w, e, Over);
    RemovedWf(SetWatch(w, e, Over), e, sent);
    assert EntriesWf(w');
  }

  lemma RunHandlerHandled(w: Writer, e: EntryId, sent: bool)
    requires Wf(w) && Handled(w) && Enabled(w, RunHandler(e, sent))
    ensures Handled(Apply(w, RunHandler(e, sent)))
  {
  }

  lemma RunHandlerAgrees(w: Writer, e: EntryId, sent: bool)
    requires Wf(w) && Agrees(w) && Enabled(w, RunHandler(e, sent))
    ensures Agrees(Apply(w, RunHandler(e, sent)))
  {
    var w' := Apply(w, RunHandler(e, sent));
    RunHandlerHandled(w, e, sent);
    ReplayAppend(w.log, Ended(w.entries[e].sfx));
    if !w.dead {
      assert AgreesAt(w, w.entries[e].sfx);
    }
    if !w'.dead {
      forall y ensures AgreesAt(w', y) {
        assert AgreesAt(w, y);
      }
    }
  }

  lemma RunHandlerGuards(w: Writer, e: EntryId, sent: bool)
    requires Wf(w) && Agrees(w) && Guards(w) && Enabled(w, RunHandler(e, sent))
    ensures Guards(Apply(w, RunHandler(e, sent)))
  {
    var w' := Apply(w, RunHandler(e, sent));
    StoppersStay(w, w');
    forall e' ensures WatchFollows(w', e') {
      assert WatchFollows(w, e');
    }
  }

  lemma RunHandlerSettles(w: Writer, e: EntryId, sent: bool)
    requires Inv(w) && Enabled(w, RunHandler(e, sent))
    ensures Settles(Apply(w, RunHandler(e, sent)))
  {
    var w' := Apply(w, RunHandler(e, sent));
    ReplayAppend(w.log, Ended(w.entries[e].sfx));
    ReplacersStay(w, w');
    forall x ensures LastKnown(w', x) {
      assert LastKnown(w, x);
    }
    if Open(w) {
      forall x ensures Open(w') ==> HeldByWriter(w', x) && EndedForGood(w', x) {
        SettledAt(w, x);
        LastSentAppend(w.log, Ended(w.entries[e].sfx), x);
        assert WatchFollows(w, e);
      }
    }
  }

  lemma SendInitialWf(w: Writer, e: EntryId, sent: bool)
    requires Wf(w) && Enabled(w, SendInitial(e, sent))
    ensures Wf(Apply(w, SendInitial(e, sent)))
  {
    assert EntriesWf(Apply(w, SendInitial(e, sent)));
  }

  lemma SendInitialAgrees(w: Writer, e: EntryId, sent: bool)
    requires Wf(w) && Agrees(w) && Enabled(w, SendInitial(e, sent))
    ensures Agrees(Apply(w, SendInitial(e, sent)))
  {
    var w' := Apply(w, SendInitial(e, sent));
    ReplayAppend(w.log, Active(w.entries[e].sfx, w.entries[e].ann));
    if !w'.dead {
      forall y ensures AgreesAt(w', y) {
        assert AgreesAt(w, y);
      }
    }
  }

  lemma SendInitialGuards(w: Writer, e: EntryId, sent: bool)
    requires Wf(w) && Agrees(w) && Guards(w) && Enabled(w, SendInitial(e, sent))
    ensures Guards(Apply(w, SendInitial(e, sent)))
  {
    var w' := Apply(w, SendInitial(e, sent));
    StoppersStay(w, w');
    forall e' ensures WatchFollows(w', e') {
      assert WatchFollows(w, e');
    }
  }

  lemma SendInitialSettles(w: Writer, e: EntryId, sent: bool)
    requires Inv(w) && Enabled(w, SendInitial(e, sent))
    ensures Settles(Apply(w, SendInitial(e, sent)))
  {
    var w' := Apply(w, SendInitial(e, sent));
    ReplayAppend(w.log, Active(w.entries[e].sfx, w.entries[e].ann));
    ReplacersStay(w, w');
    forall x ensures LastKnown(w', x) {
      assert LastKnown(w, x);
    }
    if Open(w) {
      forall x ensures Open(w') ==> HeldByWriter(w', x) && EndedForGood(w', x) {
        SettledAt(w, x);
      }
    }
  }

  lemma RemoveOldWf(w: Writer, t: Thread, sent: bool)
    requires Wf(w) && Enabled(w, RemoveOld(t, sent))
    ensures Wf(Apply(w, RemoveOld(t, sent)))
  {
    var w' := Apply(w, RemoveOld(t, sent));
    RemovedWf(w, w.senders[t].entry, sent);
    assert EntriesWf(w');
  }

  lemma RemoveOldHandled(w: Writer, t: Thread, sent: bool)
    requires Wf(w) && Handled(w) && Enabled(w, RemoveOld(t, sent))
    ensures Handled(Apply(w, RemoveOld(t, sent)))
  {
  }

  lemma RemoveOldAgrees(w: Writer, t: Thread, sent: bool)
    requires Wf(w) && Agrees(w) && Enabled(w, RemoveOld(t, sent))
    ensures Agrees(Apply(w, RemoveOld(t, sent)))
  {
    var w' := Apply(w, RemoveOld(t, sent));
    RemoveOldHandled(w, t, sent);
    ReplayAppend(w.log, Ended(w.senders[t].sfx));
    if !w.dead {
      assert AgreesAt(w, w.senders[t].sfx);
    }
    if !w'.dead {
      forall y ensures AgreesAt(w', y) {
        assert AgreesAt(w, y);
      }
    }
  }

  lemma RemoveOldGuards(w: Writer, t: Thread, sent: bool)
    requires Wf(w) && Agrees(w) && Guards(w) && Enabled(w, RemoveOld(t, sent))
    ensures Guards(Apply(w, RemoveOld(t, sent)))
  {
    var w' := Apply(w, RemoveOld(t, sent));
    assert t in w'.senders && w'.senders[t] == Ready(w.senders[t].sfx, w.senders[t].ann);
    assert BeingReplaced(w', w.senders[t].sfx);
    var e0 := w.senders[t].entry;
    forall e' | BeingStopped(w, e') && e' != e0 ensures BeingStopped(w', e') {
      var u :| u in w.senders && w.senders[u].Stopped? && w.senders[u].entry == e';
      assert u in w'.senders && w'.senders[u] == w.senders[u];
    }
    forall e' ensures WatchFollows(w', e') {
      assert WatchFollows(w, e');
    }
  }

  lemma RemoveOldSettles(w: Writer, t: Thread, sent: bool)
    requires Inv(w) && Enabled(w, RemoveOld(t, sent))
    ensures Settles(Apply(w, RemoveOld(t, sent)))
  {
    var w' := Apply(w, RemoveOld(t, sent));
    ReplacersStay(w, w');
    assert t in w'.senders && w'.senders[t] == Ready(w.senders[t].sfx, w.senders[t].ann);
    assert BeingReplaced(w', w.senders[t].sfx);
    ReplayAppend(w.log, Ended(w.senders[t].sfx));
    forall x ensures LastKnown(w', x) {
      assert LastKnown(w, x);
    }
    if Open(w) {
      forall x ensures Open(w') ==> HeldByWriter(w', x) && EndedForGood(w', x) {
        RemoveOldSettlesAt(w, t, sent, x);
      }
    }
  }

  lemma RemoveOldSettlesAt(w: Writer, t: Thread, sent: bool, x: Suffix)
    requires Wf(w) && Agrees(w) && Settles(w) && Enabled(w, RemoveOld(t, sent)) && Open(w)
    requires var w' := Apply(w, RemoveOld(t, sent));
             BeingReplaced(w', w.senders[t].sfx) && (BeingReplaced(w, x) ==> BeingReplaced(w', x))
    ensures var w' := Apply(w, RemoveOld(t, sent)); Open(w') ==> HeldByWriter(w', x) && EndedForGood(w', x)
  {
    ReplayAppend(w.log, Ended(w.senders[t].sfx));
    SettledAt(w, x);
    LastSentAppend(w.log, Ended(w.senders[t].sfx), x);
  }

  lemma SendActiveWf(w: Writer, t: Thread, e: EntryId, sent: bool)
    requires Wf(w) && Enabled(w, SendActive(t, e, sent))
    ensures Wf(Apply(w, SendActive(t, e, sent)))
  {
    var w' := Apply(w, SendActive(t, e, sent));
    assert EntriesWf(w');
  }

  lemma SendActiveAgrees(w: Writer, t: Thread, e: EntryId, sent: bool)
    requires Wf(w) && Agrees(w) && Enabled(w, SendActive(t, e, sent))
    ensures Agrees(Apply(w, SendActive(t, e, sent)))
  {
    var w' := Apply(w, SendActive(t, e, sent));
    ReplayAppend(w.log, Active(w.senders[t].sfx, w.senders[t].ann));
    if !w'.dead {
      forall y ensures AgreesAt(w', y) {
        assert AgreesAt(w, y);
      }
    }
  }

  lemma SendActiveGuards(w: Writer, t: Thread, e: EntryId, sent: bool)
    requires Wf(w) && Agrees(w) && Guards(w) && Enabled(w, SendActive(t, e, sent))
    ensures Guards(Apply(w, SendActive(t, e, sent)))
  {
    var w' := Apply(w, SendActive(t, e, sent));
    StoppersStay(w, w');
    var x0 := w.senders[t].sfx;
    forall e' ensures WatchFollows(w', e') {
      assert WatchFollows(w, e');
    }
  }

  lemma SendActiveReplacers(w: Writer, t: Thread, e: EntryId, sent: bool, x: Suffix)
    requires Wf(w) && Enabled(w, SendActive(t, e, sent)) && x != w.senders[t].sfx
    ensures BeingReplaced(w, x) ==> BeingReplaced(Apply(w, SendActive(t, e, sent)), x)
  {
    var w' := Apply(w, SendActive(t, e, sent));
    if BeingReplaced(w, x) {
      var u :| u in w.senders && w.senders[u].Ready? && w.senders[u].sfx == x;
      assert u in w'.senders && w'.senders[u] == w.senders[u];
    }
  }

  lemma SendActiveSettlesAt(w: Writer, t: Thread, e: EntryId, sent: bool, x: Suffix)
    requires Wf(w) && Agrees(w) && Settles(w) && Enabled(w, SendActive(t, e, sent))
    ensures var w' := Apply(w, SendActive(t, e, sent)); LastKnown(w', x) && (Open(w') ==> HeldByWriter(w', x) && EndedForGood(w', x))
  {
    ReplayAppend(w.log, Active(w.senders[t].sfx, w.senders[t].ann));
    LastSentAppend(w.log, Active(w.senders[t].sfx, w.senders[t].ann), x);
    SettledAt(w, x);
    if x != w.senders[t].sfx {
      SendActiveReplacers(w, t, e, sent, x);
    }
  }

  lemma SendActiveSettles(w: Writer, t: Thread, e: EntryId, sent: bool)
    requires Inv(w) && Enabled(w, SendActive(t, e, sent))
    ensures Settles(Apply(w, SendActive(t, e, sent)))
  {
    var w' := Apply(w, SendActive(t, e, sent));
    forall x ensures LastKnown(w', x) && (Open(w') ==> HeldByWriter(w', x) && EndedForGood(w', x)) {
      SendActiveSettlesAt(w, t, e, sent, x);
    }
  }

  // Any step.

  lemma StepAgrees(w: Writer, s: Step)
    requires Inv(w) && Enabled(w, s)
    ensures Wf(Apply(w, s)) && Agrees(Apply(w, s))
  {
    match s
    case Announce(a, sfx) =>
      AnnounceWf(w, a, sfx);
      AnnounceAgrees(w, a, sfx);
    case Deactivate(a) =>
      DeactivateWf(w, a);
      DeactivateAgrees(w, a);
    case TakeHandlers(a) =>
      TakeHandlersWf(w, a);
      TakeHandlersAgrees(w, a);
    case RunHandler(e, sent) =>
      RunHandlerWf(w, e, sent);
      RunHandlerAgrees(w, e, sent);
    case BeginInit(initial, index) =>
      BeginInitWf(w, initial, index);
      BeginInitAgrees(w, initial, index);
    case SendInitial(e, sent) =>
      SendInitialWf(w, e, sent);
      SendInitialAgrees(w, e, sent);
    case WatchInitial =>
      WatchInitialWf(w);
      WatchInitialAgrees(w);
    case EndInit =>
      EndInitKeeps(w);
    case BeginSend(t, a) =>
      BeginSendWf(w, t, a);
      BeginSendAgrees(w, t, a);
    case StopOld(t) =>
      StopOldWf(w, t);
      StopOldAgrees(w, t);
    case RemoveOld(t, sent) =>
      RemoveOldWf(w, t, sent);
      RemoveOldAgrees(w, t, sent);
    case SendActive(t, e, sent) =>
      SendActiveWf(w, t, e, sent);
      SendActiveAgrees(w, t, e, sent);
    case StopAll =>
      StopAllWf(w);
      StopAllAgrees(w);
    case StreamEnds =>
      StreamEndsKeeps(w);
  }

  lemma StepSettles(w: Writer, s: Step)
    requires Inv(w) && Enabled(w, s)
    ensures Guards(Apply(w, s)) && Settles(Apply(w, s))
  {
    match s
    case Announce(a, sfx) =>
      AnnounceGuards(w, a, sfx);
      AnnounceSettles(w, a, sfx);
    case Deactivate(a) =>
      DeactivateGuards(w, a);
      DeactivateSettles(w, a);
    case TakeHandlers(a) =>
      TakeHandlersGuards(w, a);
      TakeHandlersSettles(w, a);
    case RunHandler(e, sent) =>
      RunHandlerGuards(w, e, sent);
      RunHandlerSettles(w, e, sent);
    case BeginInit(initial, index) =>
      BeginInitGuards(w, initial, index);
      BeginInitSettles(w, initial, index);
    case SendInitial(e, sent) =>
      SendInitialGuards(w, e, sent);
      SendInitialSettles(w, e, sent);
    case WatchInitial =>
      WatchInitialGuards(w);
      WatchInitialSettles(w);
    case EndInit =>
      EndInitKeeps(w);
    case BeginSend(t, a) =>
      BeginSendGuards(w, t, a);
      BeginSendSettles(w, t, a);
    case StopOld(t) =>
      StopOldGuards(w, t);
      StopOldSettles(w, t);
    case RemoveOld(t, sent) =>
      RemoveOldGuards(w, t, sent);
      RemoveOldSettles(w, t, sent);
    case SendActive(t, e, sent) =>
      SendActiveGuards(w, t, e, sent);
      SendActiveSettles(w, t, e, sent);
    case StopAll =>
      StopAllGuards(w);
      StopAllSettles(w);
    case StreamEnds =>
      StreamEndsKeeps(w);
  }

  lemma StepKeeps(w: Writer, s: Step)
    requires Inv(w) && Enabled(w, s)
    ensures Inv(Apply(w, s))
  {
    StepAgrees(w, s);
    StepSettles(w, s);
  }

  // Whole runs.

  /** Wf only makes Apply well defined; RunKeeps shows that every state reached has it. */
  ghost predicate Next(w: Writer, s: Step, w': Writer) {
    Enabled(w, s) && (Wf(w) ==> w' == Apply(w, s))
  }

  ghost predicate IsRun(ws: seq<Writer>, steps: seq<Step>) {
    && |ws| == |steps| + 1
    && ws[0] == NEW_WRITER
    && forall i :: 0 <= i < |steps| ==> Next(ws[i], steps[i], ws[i + 1])
  }

  lemma {:induction false} RunKeeps(ws: seq<Writer>, steps: seq<Step>, n: nat)
    requires IsRun(ws, steps) && n < |ws|
    ensures Inv(ws[n])
    decreases n
  {
    if n > 0 {
      RunKeeps(ws, steps, n - 1);
      assert Next(ws[n - 1], steps[n - 1], ws[n]);
      StepKeeps(ws[n - 1], steps[n - 1]);
    }
  }

  lemma {:induction false} ViolationStays(log: seq<Msg>, n: nat)
    requires n <= |log| && Replay(log[..n]).violated
    ensures Replay(log).violated
    decreases |log| - n
  {
    if n < |log| {
      ReplayAppend(log[..n], log[n]);
      assert log[..n + 1] == log[..n] + [log[n]];
      ViolationStays(log, n + 1);
    } else {
      assert log[..n] == log;
    }
  }

  /** However far the peer has read, it has met no ENDED for a suffix that is not active. */
  lemma NeverViolates(ws: seq<Writer>, steps: seq<Step>, i: nat, n: nat)
    requires IsRun(ws, steps) && i < |ws| && n <= |ws[i].log|
    ensures !Replay(ws[i].log[..n]).violated
  {
    RunKeeps(ws, steps, i);
    if Replay(ws[i].log[..n]).violated {
      ViolationStays(ws[i].log, n);
    }
  }

  /** Nothing in flight: init and every send are over, and so is every callback of an announcement that ended. */
  ghost predicate Quiet(w: Writer) {
    && Open(w)
    && !w.init.Sending?
    && w.senders == map[]
    && (forall e :: e in w.entries ==> w.entries[e].watch != Claimed)
    && (forall a :: a in w.anns ==> w.anns[a].stage != A.Deactivated)
  }

  /** The suffix's last ACTIVE was sent for an announcement that is still active. */
  predicate LastStillLive(w: Writer, x: Suffix) {
    LastSent(w.log, x).Some? && LastSent(w.log, x).value in w.anns && w.anns[LastSent(w.log, x).value].stage == A.Fresh
  }

  /** Once the writer is quiet and its log drained, the peer holds the suffixes last announced for a live announcement. */
  lemma QuietMeansExact(ws: seq<Writer>, steps: seq<Step>, i: nat, x: Suffix)
    requires IsRun(ws, steps) && i < |ws| && Quiet(ws[i])
    ensures x in Replay(ws[i].log).actives <==> LastStillLive(ws[i], x)
    ensures x in Replay(ws[i].log).actives ==> LastSent(ws[i].log, x) == Some(Replay(ws[i].log).actives[x])
  {
    var w := ws[i];
    RunKeeps(ws, steps, i);
    ActiveIsLastSent(w.log, x);
    assert HeldByWriter(w, x) && EndedForGood(w, x) && AgreesAt(w, x) && LastKnown(w, x);
    if x in Replay(w.log).actives {
      assert IsEntry(w, w.actives[x], x);
      assert Guarded(w, w.actives[x]) && WatchFollows(w, w.actives[x]);
    }
  }
}
