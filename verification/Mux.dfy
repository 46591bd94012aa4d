/**
 The mux: an index from path to handler beside the tree of announcements, with operations run one at a
 time. An announcement carries at most one of the mux's callbacks, held here in callbacks.
 */
module Mux {
  import opened Segments
  import opened MuxPaths
  import opened AnnouncementTree
  import Hops

  type HandlerId = nat

  datatype Ann = Ann(path: string, active: bool, hops: seq<Hops.HopId>)

  /** An announcedTrackHandler: a new one for every call of Announce. */
  datatype Handler = Handler(id: HandlerId, ann: AnnId)

  /** What the callback of an announced announcement does: leave the tree from node up, and the index if handler is there. */
  datatype Callback = Callback(node: NodeId, handler: HandlerId)

  type Anns = map<AnnId, Ann>
  type Index = map<string, Handler>
  type Callbacks = map<AnnId, Callback>

  predicate IsActive(anns: Anns, a: AnnId) {
    a in anns && anns[a].active
  }

  /** Every announcement with a callback is in every node along its path. */
  ghost predicate Placed(t: Trie, anns: Anns, callbacks: Callbacks) {
    && TrieWf(t)
    && (forall a :: a in callbacks ==>
          && a in anns && IsValidPath(anns[a].path)
          && Anchored(t, a, callbacks[a].node)
          && t[callbacks[a].node].path == PathDirs(anns[a].path))
    && (forall n, a :: n in t && a in t[n].anns ==> a in anns && (anns[a].active ==> a in callbacks))
  }

  /** An active announcement in the index has the callback that will take it out. */
  predicate EntryWf(anns: Anns, index: Index, callbacks: Callbacks, handlers: HandlerId, p: string)
    requires p in index
  {
    && index[p].ann in anns && anns[index[p].ann].path == p && index[p].id < handlers
    && (anns[index[p].ann].active ==> index[p].ann in callbacks && callbacks[index[p].ann].handler == index[p].id)
  }

  /** An active announcement with a callback is the one in the index for its path, and only it has the callback's handler. */
  ghost predicate CallbackWf(anns: Anns, index: Index, callbacks: Callbacks, handlers: HandlerId, a: AnnId)
    requires a in callbacks
  {
    && a in anns && callbacks[a].handler < handlers
    && (anns[a].active ==> anns[a].path in index && index[anns[a].path].ann == a)
    && (forall p :: p in index && index[p].id == callbacks[a].handler ==> index[p].ann == a)
  }

  /** The index and the callbacks name the same active announcements. */
  ghost predicate Indexed(anns: Anns, index: Index, callbacks: Callbacks, handlers: HandlerId) {
    && (forall a :: a in anns ==> IsValidPath(anns[a].path))
    && (forall p :: p in index ==> EntryWf(anns, index, callbacks, handlers, p))
    && (forall a :: a in callbacks ==> CallbackWf(anns, index, callbacks, handlers, a))
  }

  /** An entry of the index that a peer asking for prefix is owed. */
  predicate Owed(anns: Anns, index: Index, prefix: string, own: Hops.HopId, exclude: Hops.HopId, p: string) {
    && p in index
    && index[p].ann in anns
    && anns[index[p].ann].active
    && HasPrefix(p, prefix)
    && !Hops.Excludes(own, exclude, anns[index[p].ann].hops)
  }

  lemma AtMostOneActive(anns: Anns, index: Index, callbacks: Callbacks, handlers: HandlerId, a: AnnId, b: AnnId)
    requires Indexed(anns, index, callbacks, handlers)
    requires a in callbacks && b in callbacks && IsActive(anns, a) && IsActive(anns, b) && anns[a].path == anns[b].path
    ensures a == b
  {
  }

  /** The node for a prefix holds every active announcement of the index that the string prefix matches. */
  lemma SnapshotCovers(t: Trie, anns: Anns, index: Index, callbacks: Callbacks, handlers: HandlerId, prefix: string, leaf: NodeId, p: string)
    requires Placed(t, anns, callbacks) && Indexed(anns, index, callbacks, handlers)
    requires IsValidPrefix(prefix) && Attached(t, leaf) && t[leaf].path == PrefixSegs(prefix)
    requires p in index && IsActive(anns, index[p].ann) && HasPrefix(p, prefix)
    ensures index[p].ann in t[leaf].anns
  {
    var a := index[p].ann;
    if prefix != "//" {
      PrefixIsSegmentPrefix(prefix, p);
    } else {
      DoubleSlashIsRoot(p);
    }
    AnchoredAbove(t, a, callbacks[a].node, leaf);
  }

  /** An active announcement in any node is the one in the index for its path. */
  lemma ActivesIndexed(t: Trie, anns: Anns, index: Index, callbacks: Callbacks, handlers: HandlerId, n: NodeId)
    requires Placed(t, anns, callbacks) && Indexed(anns, index, callbacks, handlers) && n in t
    ensures forall a :: a in t[n].anns ==> a in anns
    ensures forall a :: a in t[n].anns && anns[a].active ==> anns[a].path in index && index[anns[a].path].ann == a
  {
    forall a | a in t[n].anns && anns[a].active ensures anns[a].path in index && index[anns[a].path].ann == a {
      assert CallbackWf(anns, index, callbacks, handlers, a);
    }
  }

  /** The announcement that a new one at path takes the place of. */
  function Displaced(index: Index, path: string): set<AnnId> {
    if path in index then {index[path].ann} else {}
  }

  /** The announcements of gone have ended, and no other has changed. */
  ghost predicate Replaced(anns: Anns, anns': Anns, gone: set<AnnId>) {
    anns'.Keys == anns.Keys && forall b :: b in anns ==> anns'[b] == if b in gone then anns[b].(active := false) else anns[b]
  }

  ghost predicate Dropped(callbacks: Callbacks, callbacks': Callbacks, gone: set<AnnId>) {
    && (forall b :: b in callbacks' ==> b in callbacks && callbacks'[b] == callbacks[b])
    && (forall b :: b in callbacks && b !in callbacks' ==> b in gone)
  }

  lemma PlacedGrows(t: Trie, t': Trie, anns: Anns, callbacks: Callbacks)
    requires Placed(t, anns, callbacks) && TrieWf(t') && Grows(t, t')
    ensures Placed(t', anns, callbacks)
  {
  }

  lemma PlacedGains(t: Trie, t': Trie, anns: Anns, callbacks: Callbacks, a: AnnId, c: Callback)
    requires Placed(t, anns, callbacks) && TrieWf(t') && Gains(t, t', a)
    requires a in anns && IsValidPath(anns[a].path) && Anchored(t', a, c.node) && t'[c.node].path == PathDirs(anns[a].path)
    ensures Placed(t', anns, callbacks[a := c])
  {
  }

  /** The index without the entry for path, if handler is still the one there. */
  function Left(index: Index, path: string, handler: HandlerId): Index {
    if path in index && index[path].id == handler then index - {path} else index
  }

  /** a's callback, once a is inactive, takes no active announcement out of the index. */
  lemma RunIndexed(anns: Anns, anns': Anns, index: Index, callbacks: Callbacks, handlers: HandlerId, a: AnnId)
    requires Indexed(anns, index, callbacks, handlers) && a in callbacks && a in anns
    requires anns' == anns[a := anns[a].(active := false)]
    ensures Indexed(anns', Left(index, anns[a].path, callbacks[a].handler), callbacks - {a}, handlers)
  {
    var index' := Left(index, anns[a].path, callbacks[a].handler);
    assert CallbackWf(anns, index, callbacks, handlers, a);
    forall p | p in index' ensures EntryWf(anns', index', callbacks - {a}, handlers, p) {
      assert EntryWf(anns, index, callbacks, handlers, p);
    }
    forall b | b in callbacks - {a} ensures CallbackWf(anns', index', callbacks - {a}, handlers, b) {
      assert CallbackWf(anns, index, callbacks, handlers, b);
    }
  }

  /** Ending what the mux does not serve changes nothing for it. */
  lemma UnannouncedEnds(anns: Anns, anns': Anns, index: Index, callbacks: Callbacks, handlers: HandlerId, a: AnnId)
    requires Indexed(anns, index, callbacks, handlers) && a in anns && (a !in callbacks || !anns[a].active)
    requires anns' == anns[a := anns[a].(active := false)]
    ensures Indexed(anns', index, callbacks, handlers)
  {
    forall p | p in index ensures EntryWf(anns', index, callbacks, handlers, p) {
      assert EntryWf(anns, index, callbacks, handlers, p);
    }
    forall b | b in callbacks ensures CallbackWf(anns', index, callbacks, handlers, b) {
      assert CallbackWf(anns, index, callbacks, handlers, b);
    }
  }

  /** The announcement is active and the mux serves it. */
  predicate Served(anns: Anns, callbacks: Callbacks, a: AnnId) {
    IsActive(anns, a) && a in callbacks
  }

  function EndedIndex(anns: Anns, index: Index, callbacks: Callbacks, a: AnnId): Index {
    if Served(anns, callbacks, a) then Left(index, anns[a].path, callbacks[a].handler) else index
  }

  function EndedCallbacks(anns: Anns, callbacks: Callbacks, a: AnnId): Callbacks {
    if Served(anns, callbacks, a) then callbacks - {a} else callbacks
  }

  function EndedAnns(anns: Anns, a: AnnId): Anns
    requires a in anns
  {
    anns[a := anns[a].(active := false)]
  }

  lemma PlacedEnds(t: Trie, anns: Anns, callbacks: Callbacks, a: AnnId)
    requires Placed(t, anns, callbacks) && a in anns
    ensures Placed(t, EndedAnns(anns, a), callbacks)
  {
  }

  /** Ending a keeps index and callbacks in step; if the mux serves it, its path is what leaves the index. */
  lemma EndIndexed(anns: Anns, index: Index, callbacks: Callbacks, handlers: HandlerId, a: AnnId)
    requires Indexed(anns, index, callbacks, handlers) && a in anns
    ensures Indexed(EndedAnns(anns, a), EndedIndex(anns, index, callbacks, a), EndedCallbacks(anns, callbacks, a), handlers)
    ensures Served(anns, callbacks, a) ==> EndedIndex(anns, index, callbacks, a) == index - {anns[a].path}
  {
    if Served(anns, callbacks, a) {
      RunIndexed(anns, EndedAnns(anns, a), index, callbacks, handlers, a);
      assert CallbackWf(anns, index, callbacks, handlers, a) && EntryWf(anns, index, callbacks, handlers, anns[a].path);
    } else {
      UnannouncedEnds(anns, EndedAnns(anns, a), index, callbacks, handlers, a);
    }
  }

  /** Announcing a keeps the index and the callbacks together, even when a was the entry it replaces. */
  lemma AnnounceIndexed(anns: Anns, anns': Anns, index: Index, callbacks: Callbacks, callbacks': Callbacks, a: AnnId, c: Callback)
    requires Indexed(anns, index, callbacks, c.handler) && IsActive(anns, a)
    requires var gone := Displaced(index, anns[a].path);
             Replaced(anns, anns', gone) && Dropped(callbacks, callbacks', gone)
    requires a !in callbacks'
    ensures Indexed(anns', index[anns[a].path := Handler(c.handler, a)], callbacks'[a := c], c.handler + 1)
  {
    var index' := index[anns[a].path := Handler(c.handler, a)];
    var all := callbacks'[a := c];
    forall p | p in index' ensures EntryWf(anns', index', all, c.handler + 1, p) {
      assert p in index ==> EntryWf(anns, index, callbacks, c.handler, p);
    }
    forall b | b in all ensures CallbackWf(anns', index', all, c.handler + 1, b) {
      assert b in callbacks ==> CallbackWf(anns, index, callbacks, c.handler, b);
    }
  }

  class TrackMux {
    const hopID: Hops.HopId
    const tree: Tree
    var anns: Anns
    var index: Index
    var callbacks: Callbacks
    var handlers: HandlerId

    ghost predicate Valid()
      reads this, tree
    {
      tree.Valid() && Placed(tree.nodes, anns, callbacks) && Indexed(anns, index, callbacks, handlers)
    }

    constructor (hopID: Hops.HopId)
      ensures Valid() && fresh(tree)
      ensures this.hopID == hopID && anns == map[] && index == map[] && callbacks == map[]
    {
      this.hopID := hopID;
      tree := new Tree();
      anns, index, callbacks, handlers := map[], map[], map[], 0;
    }

    /** NewAnnouncement: active unless its context is already cancelled. */
    method NewAnnouncement(a: AnnId, ann: Ann)
      requires Valid() && a !in anns && IsValidPath(ann.path)
      modifies this`anns
      ensures Valid() && anns == old(anns)[a := ann]
    {
      anns := anns[a := ann];
    }

    method RemoveHandler(path: string, handler: HandlerId)
      modifies this`index
      ensures index == Left(old(index), path, handler)
    {
      if path in index && index[path].id == handler {
        index := index - {path};
      }
    }

    /** The mux's callback on an announcement that has ended. */
    method Run(a: AnnId)
      requires tree.Valid() && a in callbacks && a in anns && !anns[a].active
      requires Placed(tree.nodes, anns, callbacks)
      modifies this`index, this`callbacks, tree
      ensures tree.Valid() && Placed(tree.nodes, anns, callbacks)
      ensures callbacks == old(callbacks) - {a}
      ensures index == Left(old(index), anns[a].path, old(callbacks)[a].handler)
    {
      var c := callbacks[a];
      tree.RemoveAnnouncement(c.node, a);
      RemoveHandler(anns[a].path, c.handler);
      callbacks := callbacks - {a};
    }

    /** A callback registered after its announcement had ended, run in a goroutine of its own. */
    method RunLate(a: AnnId)
      requires Valid() && a in callbacks && !anns[a].active
      modifies this`index, this`callbacks, tree
      ensures Valid() && callbacks == old(callbacks) - {a}
      ensures index == Left(old(index), anns[a].path, old(callbacks)[a].handler)
      ensures forall p :: p in old(index) && p !in index ==> old(index)[p].ann == a
    {
      assert CallbackWf(anns, index, callbacks, handlers, a);
      RunIndexed(anns, anns, index, callbacks, handlers, a);
      Run(a);
    }

    /** end: the announcement is inactive and has run its callback. */
    method EndOnce(a: AnnId)
      requires tree.Valid() && a in anns && Placed(tree.nodes, anns, callbacks)
      modifies this`anns, this`index, this`callbacks, tree
      ensures tree.Valid() && Placed(tree.nodes, anns, callbacks)
      ensures anns == EndedAnns(old(anns), a)
      ensures index == EndedIndex(old(anns), old(index), old(callbacks), a)
      ensures callbacks == EndedCallbacks(old(anns), old(callbacks), a)
    {
      if !anns[a].active { return; }
      PlacedEnds(tree.nodes, anns, callbacks, a);
      anns := anns[a := anns[a].(active := false)];
      if a in callbacks {
        Run(a);
      }
    }

    method End(a: AnnId)
      requires Valid() && a in anns
      modifies this`anns, this`index, this`callbacks, tree
      ensures Valid()
      ensures anns == EndedAnns(old(anns), a)
      ensures index == if old(Served(anns, callbacks, a)) then old(index) - {old(anns)[a].path} else old(index)
    {
      EndIndexed(anns, index, callbacks, handlers, a);
      EndOnce(a);
    }

    /** Puts a new handler in the index and ends the announcement of the one it replaces. */
    method RegisterHandler(a: AnnId) returns (handler: HandlerId)
      requires Valid() && IsActive(anns, a)
      modifies this`anns, this`index, this`callbacks, this`handlers, tree
      ensures tree.Valid() && Placed(tree.nodes, anns, callbacks)
      ensures handler == old(handlers) && handlers == handler + 1
      ensures index == old(index)[old(anns)[a].path := Handler(handler, a)]
      ensures a !in callbacks
      ensures var path := old(anns)[a].path;
              var gone := Displaced(old(index), path);
              Replaced(old(anns), anns, gone) && Dropped(old(callbacks), callbacks, gone)
    {
      var path := anns[a].path;
      handler := handlers;
      handlers := handlers + 1;
      var had := path in index;
      var announced := if had then index[path].ann else a;
      index := index[path := Handler(handler, a)];
      if had {
        EndOnce(announced);
      }
    }

    /** Adds a to every node along its path and registers the callback that removes it. */
    method Place(a: AnnId, handler: HandlerId)
      requires tree.Valid() && Placed(tree.nodes, anns, callbacks)
      requires a in anns && IsValidPath(anns[a].path) && a !in callbacks
      modifies this`callbacks, tree
      ensures tree.Valid() && Placed(tree.nodes, anns, callbacks)
      ensures a in callbacks && callbacks == old(callbacks)[a := callbacks[a]] && callbacks[a].handler == handler
    {
      ghost var t := tree.nodes;
      var segments, _ := PathSegments(anns[a].path);
      var list := tree.Walk(segments);
      PlacedGrows(t, tree.nodes, anns, callbacks);
      ghost var u := tree.nodes;
      tree.AddTo(list, a);
      var callback := Callback(list[|list| - 1], handler);
      PlacedGains(u, tree.nodes, anns, callbacks, a, callback);
      callbacks := callbacks[a := callback];
    }

    method Announce(a: AnnId)
      requires Valid() && a in anns
      modifies this`anns, this`index, this`callbacks, this`handlers, tree
      ensures Valid()
      ensures !old(anns)[a].active ==> anns == old(anns) && index == old(index) && callbacks == old(callbacks)
      ensures old(anns)[a].active ==>
                var path := old(anns)[a].path;
                var gone := Displaced(old(index), path);
                && index == old(index)[path := Handler(old(handlers), a)]
                && a in callbacks
                && Replaced(old(anns), anns, gone)
    {
      if !anns[a].active { return; }
      var handler := RegisterHandler(a);
      ghost var live := callbacks;
      Place(a, handler);
      AnnounceIndexed(old(anns), anns, old(index), old(callbacks), live, a, callbacks[a]);
    }

    /** Publish: a new local announcement, served unless its context is already cancelled. */
    method Publish(a: AnnId, path: string, active: bool)
      requires Valid() && a !in anns && IsValidPath(path)
      modifies this`anns, this`index, this`callbacks, this`handlers, tree
      ensures Valid() && a in anns && anns[a].path == path && anns[a].hops == []
      ensures active ==> IsActive(anns, a) && a in callbacks && index == old(index)[path := Handler(old(handlers), a)]
      ensures !active ==> index == old(index) && callbacks == old(callbacks)
    {
      NewAnnouncement(a, Ann(path, active, []));
      assert active && path in index ==> EntryWf(anns, index, callbacks, handlers, path);
      Announce(a);
    }

    /** The announcements of a node that init sends, keyed by what follows the prefix. */
    method Initial(prefix: string, exclude: Hops.HopId, announcements: set<AnnId>) returns (actives: map<string, AnnId>)
      requires forall a :: a in announcements ==> a in anns
      requires forall a, b :: a in announcements && b in announcements && IsActive(anns, a) && IsActive(anns, b) && anns[a].path == anns[b].path ==> a == b
      ensures forall x :: x in actives ==> actives[x] in announcements && Sent(prefix, exclude, actives[x]) && anns[actives[x]].path == prefix + x
      ensures forall a :: a in announcements && Sent(prefix, exclude, a) ==> anns[a].path[|prefix|..] in actives && actives[anns[a].path[|prefix|..]] == a
    {
      actives := map[];
      var rest := announcements;
      while rest != {}
        invariant rest <= announcements
        invariant forall x :: x in actives ==> actives[x] in announcements && Sent(prefix, exclude, actives[x]) && anns[actives[x]].path == prefix + x
        invariant forall a :: a in announcements - rest && Sent(prefix, exclude, a) ==> anns[a].path[|prefix|..] in actives && actives[anns[a].path[|prefix|..]] == a
        decreases rest
      {
        var a :| a in rest;
        rest := rest - {a};
        if !anns[a].active { continue; }
        if !HasPrefix(anns[a].path, prefix) { continue; }
        var skip := Hops.ShouldExclude(hopID, exclude, anns[a].hops);
        if skip { continue; }
        actives := actives[anns[a].path[|prefix|..] := a];
        assert anns[a].path == prefix + anns[a].path[|prefix|..];
      }
    }

    predicate Sent(prefix: string, exclude: Hops.HopId, a: AnnId)
      reads this
    {
      a in anns && anns[a].active && HasPrefix(anns[a].path, prefix) && !Hops.Excludes(hopID, exclude, anns[a].hops)
    }

    /** The node for a valid prefix, created if it is missing. */
    method Leaf(prefix: string) returns (leaf: NodeId)
      requires Valid() && IsValidPrefix(prefix)
      modifies tree
      ensures Valid()
      ensures Attached(tree.nodes, leaf) && tree.nodes[leaf].path == PrefixSegs(prefix)
    {
      var segments := PrefixSegments(prefix);
      assert NodeWf(tree.nodes, ROOT);
      leaf := tree.CreateNode(ROOT, segments);
      PlacedGrows(old(tree.nodes), tree.nodes, anns, callbacks);
      assert NodeWf(tree.nodes, ROOT);
    }

    /** The initial set is what a scan of the whole index by string prefix gives, for "//" too. */
    method ServeAnnouncements(prefix: string, exclude: Hops.HopId) returns (ok: bool, actives: map<string, AnnId>)
      requires Valid()
      modifies tree
      ensures Valid()
      ensures ok == IsValidPrefix(prefix)
      ensures ok ==> forall p :: Owed(anns, index, prefix, hopID, exclude, p) ==> p[|prefix|..] in actives && actives[p[|prefix|..]] == index[p].ann
      ensures ok ==> forall x :: x in actives ==> Owed(anns, index, prefix, hopID, exclude, prefix + x) && actives[x] == index[prefix + x].ann
    {
      if !IsValidPrefix(prefix) {
        return false, map[];
      }
      ok := true;
      var leaf := Leaf(prefix);
      ActivesIndexed(tree.nodes, anns, index, callbacks, handlers, leaf);
      actives := Initial(prefix, exclude, tree.nodes[leaf].anns);
      forall p | Owed(anns, index, prefix, hopID, exclude, p)
        ensures p[|prefix|..] in actives && actives[p[|prefix|..]] == index[p].ann
      {
        assert EntryWf(anns, index, callbacks, handlers, p);
        SnapshotCovers(tree.nodes, anns, index, callbacks, handlers, prefix, leaf, p);
      }
    }
  }
}
