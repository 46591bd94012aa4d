/**
 The mux's tree of announcements by directory: nodes linked to their parent and children, a node
 dropped from its parent when it is empty.
 */
module AnnouncementTree {
  type NodeId = nat
  type AnnId = nat

  /** path is the list of segments from the root, which the code does not store. */
  datatype Node = Node(parent: NodeId, seg: string, children: map<string, NodeId>, anns: set<AnnId>, path: seq<string>)

  type Trie = map<NodeId, Node>

  const ROOT: NodeId := 0

  ghost predicate NodeWf(t: Trie, n: NodeId)
    requires n in t
  {
    && (n == ROOT ==> t[n].path == [])
    && (n != ROOT ==> t[n].parent < n && t[n].parent in t && t[n].path == t[t[n].parent].path + [t[n].seg])
    && (forall s :: s in t[n].children ==>
          t[n].children[s] in t && t[n].children[s] != ROOT && t[t[n].children[s]].parent == n && t[t[n].children[s]].seg == s)
  }

  ghost predicate TrieWf(t: Trie) {
    ROOT in t && forall n {:trigger NodeWf(t, n)} :: n in t ==> NodeWf(t, n)
  }

  /** n can be reached from the root. */
  predicate Attached(t: Trie, n: NodeId) {
    && n in t
    && (n != ROOT ==>
          && t[n].parent < n && Attached(t, t[n].parent)
          && t[n].seg in t[t[n].parent].children && t[t[n].parent].children[t[n].seg] == n)
  }

  /** a is in n and in every node above it. */
  predicate HeldFrom(t: Trie, a: AnnId, n: NodeId) {
    && n in t && a in t[n].anns
    && (n != ROOT ==> t[n].parent < n && HeldFrom(t, a, t[n].parent))
  }

  /** The trie holds a all the way from the root to n. */
  predicate Anchored(t: Trie, a: AnnId, n: NodeId) {
    Attached(t, n) && HeldFrom(t, a, n)
  }

  lemma {:induction false} OnePlace(t: Trie, m: NodeId, n: NodeId)
    requires TrieWf(t) && Attached(t, m) && Attached(t, n) && t[m].path == t[n].path
    ensures m == n
    decreases n
  {
    assert NodeWf(t, m) && NodeWf(t, n);
    if n != ROOT && m != ROOT {
      var p, q := t[t[m].parent].path, t[t[n].parent].path;
      assert |p| == |q| && p == t[m].path[..|p|] && q == t[n].path[..|q|];
      OnePlace(t, t[m].parent, t[n].parent);
    }
  }

  /** An anchored announcement is in the trie's node for every prefix of its place. */
  lemma {:induction false} AnchoredAbove(t: Trie, a: AnnId, n: NodeId, leaf: NodeId)
    requires TrieWf(t) && Anchored(t, a, n) && Attached(t, leaf) && t[leaf].path <= t[n].path
    ensures a in t[leaf].anns
    decreases n
  {
    assert NodeWf(t, n) && NodeWf(t, leaf);
    if t[leaf].path == t[n].path {
      OnePlace(t, leaf, n);
    } else {
      assert t[leaf].path <= t[t[n].parent].path;
      AnchoredAbove(t, a, t[n].parent, leaf);
    }
  }

  // What each change to the trie keeps.

  function WithChild(t: Trie, n: NodeId, seg: string, c: NodeId): Trie
    requires n in t
  {
    t[c := Node(n, seg, map[], {}, t[n].path + [seg])][n := t[n].(children := t[n].children[seg := c])]
  }

  lemma {:induction false} ChildAttached(t: Trie, n: NodeId, seg: string, c: NodeId, m: NodeId)
    requires n in t && c !in t && c != ROOT && seg !in t[n].children
    ensures Attached(t, m) ==> Attached(WithChild(t, n, seg, c), m)
  {
    if Attached(t, m) && m != ROOT {
      ChildAttached(t, n, seg, c, t[m].parent);
    }
  }

  lemma {:induction false} ChildHeld(t: Trie, n: NodeId, seg: string, c: NodeId, a: AnnId, m: NodeId)
    requires n in t && c !in t
    ensures HeldFrom(t, a, m) ==> HeldFrom(WithChild(t, n, seg, c), a, m)
  {
    if HeldFrom(t, a, m) && m != ROOT {
      ChildHeld(t, n, seg, c, a, t[m].parent);
    }
  }

  function WithAnns(t: Trie, n: NodeId, anns: set<AnnId>): Trie
    requires n in t
  {
    t[n := t[n].(anns := anns)]
  }

  lemma {:induction false} AnnsAttached(t: Trie, n: NodeId, anns: set<AnnId>, m: NodeId)
    requires n in t
    ensures Attached(t, m) <==> Attached(WithAnns(t, n, anns), m)
  {
    if m in t && m != ROOT && t[m].parent < m {
      AnnsAttached(t, n, anns, t[m].parent);
    }
  }

  lemma {:induction false} AnnsHeld(t: Trie, n: NodeId, anns: set<AnnId>, a: AnnId, m: NodeId)
    requires n in t && (a in t[n].anns ==> a in anns)
    ensures HeldFrom(t, a, m) ==> HeldFrom(WithAnns(t, n, anns), a, m)
  {
    if HeldFrom(t, a, m) && m != ROOT {
      AnnsHeld(t, n, anns, a, t[m].parent);
    }
  }

  /** n no longer a child of its parent. */
  function Pruned(t: Trie, n: NodeId): Trie
    requires n in t && t[n].parent in t
  {
    var p := t[n].parent;
    t[p := t[p].(children := t[p].children - {t[n].seg})]
  }

  /** Dropping an empty node loses no announcement: what is anchored lies nowhere below it. */
  lemma {:induction false} PruneKeeps(t: Trie, n: NodeId, a: AnnId, m: NodeId)
    requires TrieWf(t) && Attached(t, n) && NodeWf(t, n) && n != ROOT && a !in t[n].anns
    requires Anchored(t, a, m)
    ensures Anchored(Pruned(t, n), a, m)
    decreases m
  {
    if m != ROOT {
      PruneKeeps(t, n, a, t[m].parent);
    }
  }

  lemma {:induction false} PruneAttached(t: Trie, n: NodeId, m: NodeId)
    requires TrieWf(t) && Attached(t, n) && NodeWf(t, n) && n != ROOT && Attached(t, m) && m < n
    ensures Attached(Pruned(t, n), m)
    decreases m
  {
    if m != ROOT {
      PruneAttached(t, n, t[m].parent);
    }
  }

  // What each kind of change leaves as it was.

  /** New empty nodes, and nothing else. */
  ghost predicate Grows(t: Trie, t': Trie) {
    && (forall n :: n in t ==> n in t' && t'[n].path == t[n].path && t'[n].parent == t[n].parent && t'[n].anns == t[n].anns)
    && (forall n :: n in t' && n !in t ==> t'[n].anns == {})
    && (forall m :: Attached(t, m) ==> Attached(t', m))
    && (forall b, m :: HeldFrom(t, b, m) ==> HeldFrom(t', b, m))
  }

  /** a added to some nodes, and nothing else. */
  ghost predicate Gains(t: Trie, t': Trie, a: AnnId) {
    && t'.Keys == t.Keys
    && (forall n :: n in t ==> t'[n].path == t[n].path && t'[n].parent == t[n].parent && t'[n].anns <= t[n].anns + {a})
    && (forall m :: Attached(t, m) ==> Attached(t', m))
    && (forall b, m :: HeldFrom(t, b, m) ==> HeldFrom(t', b, m))
  }

  /** a taken from some nodes and empty nodes dropped; every other announcement stays anchored. */
  ghost predicate Loses(t: Trie, t': Trie, a: AnnId) {
    && t'.Keys == t.Keys
    && (forall n :: n in t ==> t'[n].path == t[n].path && t'[n].anns <= t[n].anns)
    && (forall b, m :: b != a && Anchored(t, b, m) ==> Anchored(t', b, m))
  }

  /** From the root down, each node the parent of the next. */
  ghost predicate IsChain(t: Trie, list: seq<NodeId>) {
    && |list| > 0 && list[0] == ROOT
    && (forall k :: 0 <= k < |list| ==> list[k] in t)
    && (forall k :: 0 < k < |list| ==> list[k] != ROOT && list[k - 1] < list[k] && t[list[k]].parent == list[k - 1])
  }

  lemma ChainStays(t: Trie, t': Trie, list: seq<NodeId>)
    requires IsChain(t, list) && Grows(t, t')
    ensures IsChain(t', list)
  {
  }

  lemma ChildKeepsWf(t: Trie, n: NodeId, seg: string, c: NodeId)
    requires TrieWf(t) && n in t && n < c && c !in t && seg !in t[n].children
    ensures TrieWf(WithChild(t, n, seg, c))
  {
    var t' := WithChild(t, n, seg, c);
    forall m | m in t' ensures NodeWf(t', m) {
      assert m in t ==> NodeWf(t, m);
      assert NodeWf(t, n);
    }
  }

  lemma ChildGrows(t: Trie, n: NodeId, seg: string, c: NodeId)
    requires n in t && n < c && c !in t && seg !in t[n].children && Attached(t, n)
    ensures Grows(t, WithChild(t, n, seg, c)) && Attached(WithChild(t, n, seg, c), c)
  {
    forall m | Attached(t, m) ensures Attached(WithChild(t, n, seg, c), m) {
      ChildAttached(t, n, seg, c, m);
    }
    forall b, m | HeldFrom(t, b, m) ensures HeldFrom(WithChild(t, n, seg, c), b, m) {
      ChildHeld(t, n, seg, c, b, m);
    }
  }

  lemma ChildThere(t: Trie, n: NodeId, seg: string)
    requires TrieWf(t) && Attached(t, n) && seg in t[n].children
    ensures var c := t[n].children[seg]; Attached(t, c) && n < c && t[c].parent == n && t[c].path == t[n].path + [seg]
  {
    assert NodeWf(t, n) && NodeWf(t, t[n].children[seg]);
  }

  lemma GrowsOn(t: Trie, u: Trie, v: Trie)
    requires Grows(t, u) && Grows(u, v)
    ensures Grows(t, v)
  {
  }

  lemma AnnsKeepWf(t: Trie, n: NodeId, anns: set<AnnId>)
    requires TrieWf(t) && n in t
    ensures TrieWf(WithAnns(t, n, anns))
  {
    var t' := WithAnns(t, n, anns);
    forall m | m in t' ensures NodeWf(t', m) {
      assert NodeWf(t, m);
    }
  }

  lemma TakeKeeps(t: Trie, n: NodeId, a: AnnId)
    requires n in t
    ensures Loses(t, WithAnns(t, n, t[n].anns - {a}), a)
    ensures forall m :: Attached(t, m) ==> Attached(WithAnns(t, n, t[n].anns - {a}), m)
  {
    var anns := t[n].anns - {a};
    forall b, m | b != a && HeldFrom(t, b, m) ensures HeldFrom(WithAnns(t, n, anns), b, m) {
      AnnsHeld(t, n, anns, b, m);
    }
    forall m | Attached(t, m) ensures Attached(WithAnns(t, n, anns), m) {
      AnnsAttached(t, n, anns, m);
    }
  }

  lemma PruneKeepsWf(t: Trie, n: NodeId)
    requires TrieWf(t) && n in t && n != ROOT
    ensures NodeWf(t, n) && TrieWf(Pruned(t, n))
  {
    assert NodeWf(t, n);
    var t' := Pruned(t, n);
    forall m | m in t' ensures NodeWf(t', m) {
      assert NodeWf(t, m);
    }
  }

  lemma PruneLoses(t: Trie, n: NodeId, a: AnnId)
    requires TrieWf(t) && Attached(t, n) && NodeWf(t, n) && n != ROOT && t[n].anns == {}
    ensures Loses(t, Pruned(t, n), a) && Attached(Pruned(t, n), t[n].parent)
  {
    var t' := Pruned(t, n);
    forall b, m | Anchored(t, b, m) ensures Anchored(t', b, m) {
      PruneKeeps(t, n, b, m);
    }
    PruneAttached(t, n, t[n].parent);
  }

  // What a removal leaves behind.

  /** n has nothing but a in it and no children, and is not the root. */
  predicate OnlyHolds(t: Trie, n: NodeId, a: AnnId)
    requires n in t
  {
    n != ROOT && t[n].anns <= {a} && t[n].children == map[]
  }

  /** a taken from n and, as long as that leaves nothing in a node, the node from its parent and a from the parent. */
  ghost function Removed(t: Trie, n: NodeId, a: AnnId): (t': Trie)
    requires TrieWf(t) && n in t
    ensures t'.Keys == t.Keys
    decreases n
  {
    var u := WithAnns(t, n, t[n].anns - {a});
    AnnsKeepWf(t, n, t[n].anns - {a});
    if OnlyHolds(t, n, a) then
      PruneKeepsWf(u, n);
      Removed(Pruned(u, n), t[n].parent, a)
    else u
  }

  lemma {:induction false} RemovedAbove(t: Trie, n: NodeId, a: AnnId, m: NodeId)
    requires TrieWf(t) && n in t && m in t && m > n
    ensures Removed(t, n, a)[m] == t[m]
    decreases n
  {
    if OnlyHolds(t, n, a) {
      var u := WithAnns(t, n, t[n].anns - {a});
      AnnsKeepWf(t, n, t[n].anns - {a});
      PruneKeepsWf(u, n);
      RemovedAbove(Pruned(u, n), t[n].parent, a, m);
    }
  }

  /**
   A removal starts at the announcement's last node and goes up only from a node it leaves empty: the node above still
   holds the ended announcement exactly when the one below holds another or has children.
   */
  lemma LingersIff(t: Trie, n: NodeId, a: AnnId)
    requires TrieWf(t) && n in t && n != ROOT && t[n].parent in t && a in t[t[n].parent].anns
    ensures a !in Removed(t, n, a)[n].anns
    ensures a in Removed(t, n, a)[t[n].parent].anns <==> !OnlyHolds(t, n, a)
  {
    assert NodeWf(t, n);
    if OnlyHolds(t, n, a) {
      var p := t[n].parent;
      var u := WithAnns(t, n, t[n].anns - {a});
      AnnsKeepWf(t, n, t[n].anns - {a});
      PruneKeepsWf(u, n);
      RemovedAbove(Pruned(u, n), p, a, n);
      RemovedHere(Pruned(u, n), p, a);
    }
  }

  lemma RemovedHere(t: Trie, n: NodeId, a: AnnId)
    requires TrieWf(t) && n in t
    ensures a !in Removed(t, n, a)[n].anns
  {
    if OnlyHolds(t, n, a) {
      assert NodeWf(t, n);
      var u := WithAnns(t, n, t[n].anns - {a});
      AnnsKeepWf(t, n, t[n].anns - {a});
      PruneKeepsWf(u, n);
      RemovedAbove(Pruned(u, n), t[n].parent, a, n);
    }
  }

  /** Two announcements in one directory. */
  function TwoInOne(a: AnnId, b: AnnId, seg: string): Trie {
    map[ROOT := Node(0, "", map[seg := 1], {a, b}, []), 1 := Node(0, seg, map[], {a, b}, [seg])]
  }

  /** So when two announcements of a directory end, one after the other, the first stays in the root for ever. */
  lemma FirstLingers(a: AnnId, b: AnnId, seg: string)
    requires a != b
    ensures var t := TwoInOne(a, b, seg);
            && TrieWf(t) && Anchored(t, a, 1) && Anchored(t, b, 1) && TrieWf(Removed(t, 1, a))
            && a in Removed(Removed(t, 1, a), 1, b)[ROOT].anns
  {
    var t := TwoInOne(a, b, seg);
    assert NodeWf(t, ROOT) && NodeWf(t, 1);
    assert Attached(t, ROOT) && HeldFrom(t, a, ROOT) && HeldFrom(t, b, ROOT);
    var u := Removed(t, 1, a);
    assert b in t[1].anns && !OnlyHolds(t, 1, a);
    AnnsKeepWf(t, 1, t[1].anns - {a});
    var v := WithAnns(u, 1, u[1].anns - {b});
    AnnsKeepWf(u, 1, u[1].anns - {b});
    PruneKeepsWf(v, 1);
    assert Removed(u, 1, b) == Removed(Pruned(v, 1), ROOT, b);
  }

  class Tree {
    var nodes: Trie
    var next: NodeId

    ghost predicate Valid()
      reads this
    {
      TrieWf(nodes) && forall n :: n in nodes ==> n < next
    }

    constructor ()
      ensures Valid()
      ensures nodes == map[ROOT := Node(0, "", map[], {}, [])]
    {
      nodes, next := map[ROOT := Node(0, "", map[], {}, [])], 1;
    }

    method GetChild(n: NodeId, seg: string) returns (child: NodeId)
      requires Valid() && Attached(nodes, n)
      modifies this
      ensures Valid() && Grows(old(nodes), nodes)
      ensures Attached(nodes, child) && n < child && nodes[child].parent == n && nodes[child].path == nodes[n].path + [seg]
    {
      if seg in nodes[n].children {
        child := nodes[n].children[seg];
        ChildThere(nodes, n, seg);
        return;
      }
      child := next;
      ghost var t := nodes;
      nodes, next := WithChild(nodes, n, seg, child), next + 1;
      ChildKeepsWf(t, n, seg, child);
      ChildGrows(t, n, seg, child);
    }

    method CreateNode(n: NodeId, segments: seq<string>) returns (leaf: NodeId)
      requires Valid() && Attached(nodes, n)
      modifies this
      ensures Valid() && Grows(old(nodes), nodes)
      ensures Attached(nodes, leaf) && nodes[leaf].path == nodes[n].path + segments
      decreases |segments|
    {
      if |segments| == 0 {
        return n;
      }
      ghost var t := nodes;
      var child := GetChild(n, segments[0]);
      ghost var u := nodes;
      leaf := CreateNode(child, segments[1..]);
      GrowsOn(t, u, nodes);
      assert nodes[leaf].path == u[child].path + segments[1..] && nodes[n].path == t[n].path == u[n].path;
    }

    /** One more node at the end of a chain. */
    method Descend(list: seq<NodeId>, segment: string) returns (longer: seq<NodeId>)
      requires Valid() && IsChain(nodes, list) && Attached(nodes, list[|list| - 1])
      modifies this
      ensures Valid() && Grows(old(nodes), nodes)
      ensures IsChain(nodes, longer) && |longer| == |list| + 1 && Attached(nodes, longer[|list|])
      ensures nodes[longer[|list|]].path == old(nodes)[list[|list| - 1]].path + [segment]
    {
      var child := GetChild(list[|list| - 1], segment);
      ChainStays(old(nodes), nodes, list);
      longer := list + [child];
    }

    /** The nodes from the root down through the segments, created where missing. */
    method Walk(segments: seq<string>) returns (list: seq<NodeId>)
      requires Valid()
      modifies this
      ensures Valid() && Grows(old(nodes), nodes)
      ensures IsChain(nodes, list) && |list| == |segments| + 1
      ensures var last := list[|segments|]; Attached(nodes, last) && nodes[last].path == segments
    {
      list := [ROOT];
      assert NodeWf(nodes, ROOT);
      for i := 0 to |segments|
        invariant Valid() && Grows(old(nodes), nodes)
        invariant |list| == i + 1 && IsChain(nodes, list)
        invariant Attached(nodes, list[i]) && nodes[list[i]].path == segments[..i]
      {
        ghost var t := nodes;
        list := Descend(list, segments[i]);
        GrowsOn(old(nodes), t, nodes);
        assert segments[..i + 1] == segments[..i] + [segments[i]];
      }
      assert segments[..|segments|] == segments;
    }

    method AddTo(list: seq<NodeId>, a: AnnId)
      requires Valid() && IsChain(nodes, list)
      modifies this`nodes
      ensures Valid() && Gains(old(nodes), nodes, a)
      ensures HeldFrom(nodes, a, list[|list| - 1])
    {
      for i := 0 to |list|
        invariant Valid() && Gains(old(nodes), nodes, a)
        invariant IsChain(nodes, list)
        invariant i > 0 ==> HeldFrom(nodes, a, list[i - 1])
      {
        AddAnnouncement(list[i], a);
      }
    }

    method AddAnnouncement(n: NodeId, a: AnnId)
      requires Valid() && n in nodes
      requires n != ROOT ==> nodes[n].parent < n && HeldFrom(nodes, a, nodes[n].parent)
      modifies this`nodes
      ensures Valid() && Gains(old(nodes), nodes, a)
      ensures HeldFrom(nodes, a, n)
    {
      ghost var t := nodes;
      nodes := WithAnns(nodes, n, nodes[n].anns + {a});
      AnnsKeepWf(t, n, t[n].anns + {a});
      forall m | Attached(t, m) ensures Attached(nodes, m) {
        AnnsAttached(t, n, t[n].anns + {a}, m);
      }
      forall b, m | HeldFrom(t, b, m) ensures HeldFrom(nodes, b, m) {
        AnnsHeld(t, n, t[n].anns + {a}, b, m);
      }
    }

    method RemoveAnnouncement(n: NodeId, a: AnnId)
      requires Valid() && Attached(nodes, n)
      modifies this`nodes
      ensures Valid() && Loses(old(nodes), nodes, a)
      ensures nodes == Removed(old(nodes), n, a)
      decreases n
    {
      ghost var t := nodes;
      nodes := WithAnns(nodes, n, nodes[n].anns - {a});
      AnnsKeepWf(t, n, t[n].anns - {a});
      TakeKeeps(t, n, a);
      assert |nodes[n].anns| == 0 <==> t[n].anns <= {a};
      assert |nodes[n].children| == 0 <==> nodes[n].children == map[];
      if |nodes[n].anns| == 0 && |nodes[n].children| == 0 && n != ROOT {
        ghost var u := nodes;
        var parent := nodes[n].parent;
        nodes := Pruned(nodes, n);
        PruneKeepsWf(u, n);
        PruneLoses(u, n, a);
        RemoveAnnouncement(parent, a);
      }
    }
  }
}
