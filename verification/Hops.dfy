/**
 Hop lists: how an announcement records the relays it came through, and why relays stay loop free.
 */
module Hops {
  type HopId = nat
  type Node = nat

  /** An id of 0 is a node that does not take part in hop tracking. */
  const UNTRACKED: HopId := 0

  // One announce stream: what the sender leaves out and what the receiver adds.

  /** Whether the sender, with id own, keeps an announcement from a peer that asked to exclude its own id. */
  predicate Excludes(own: HopId, exclude: HopId, hops: seq<HopId>) {
    exclude != UNTRACKED && exclude in hops + [own]
  }

  method ShouldExclude(own: HopId, exclude: HopId, hops: seq<HopId>) returns (skip: bool)
    ensures skip == Excludes(own, exclude, hops)
  {
    if exclude == 0 { return false; }
    if exclude == own { return true; }
    for i := 0 to |hops|
      invariant exclude !in hops[..i]
    {
      if hops[i] == exclude { return true; }
    }
    assert hops[..|hops|] == hops;
    return false;
  }

  function Appended(hops: seq<HopId>, peer: HopId): seq<HopId> {
    if peer == UNTRACKED then hops else hops + [peer]
  }

  method AppendHopID(hops: array<HopId>, peer: HopId) returns (result: array<HopId>)
    ensures result[..] == Appended(hops[..], peer)
    ensures peer != 0 ==> fresh(result)
  {
    if peer == 0 { return hops; }
    result := new HopId[hops.Length + 1];
    for i := 0 to hops.Length
      invariant result[..i] == hops[..i]
    {
      result[i] := hops[i];
    }
    result[hops.Length] := peer;
    assert result[..] == result[..hops.Length] + [peer];
  }

  // A network of relays.

  /** An announcement some node has; trail is the path of nodes it really came along, which no node sees. */
  datatype Held = Held(node: Node, hops: seq<HopId>, trail: seq<Node>)

  /** A broadcast on its way between two nodes; a session joins different nodes. */
  datatype Packet = Packet(sender: Node, receiver: Node, hops: seq<HopId>, trail: seq<Node>)

  datatype Network = Network(held: set<Held>, wire: set<Packet>)

  datatype Step =
    | Publish(node: Node)
    | Forward(h: Held, receiver: Node)
    | Receive(p: Packet)

  type Ids = map<Node, HopId>

  predicate Enabled(ids: Ids, net: Network, s: Step) {
    match s
    case Publish(node) => node in ids
    case Forward(h, receiver) =>
      && h in net.held && h.node in ids && receiver in ids && receiver != h.node
      && !Excludes(ids[h.node], ids[receiver], h.hops)
    case Receive(p) => p in net.wire && p.sender in ids
  }

  function Apply(ids: Ids, net: Network, s: Step): Network
    requires Enabled(ids, net, s)
  {
    match s
    case Publish(node) => net.(held := net.held + {Held(node, [], [])})
    case Forward(h, receiver) => net.(wire := net.wire + {Packet(h.node, receiver, h.hops, h.trail)})
    case Receive(p) =>
      net.(held := net.held + {Held(p.receiver, Appended(p.hops, ids[p.sender]), p.trail + [p.sender])})
  }

  /** Announcements end and packets are lost, so a state may hold less than the steps have added. */
  predicate Next(ids: Ids, net: Network, s: Step, net': Network) {
    Enabled(ids, net, s) && net'.held <= Apply(ids, net, s).held && net'.wire <= Apply(ids, net, s).wire
  }

  ghost predicate IsRun(ids: Ids, nets: seq<Network>, steps: seq<Step>) {
    && |nets| == |steps| + 1
    && nets[0] == Network({}, {})
    && forall i :: 0 <= i < |steps| ==> Next(ids, nets[i], steps[i], nets[i + 1])
  }

  /** The ids of the tracked nodes along a trail, in order. */
  function Tracked(ids: Ids, trail: seq<Node>): seq<HopId>
    requires forall v <- trail :: v in ids
  {
    if trail == [] then [] else Appended(Tracked(ids, trail[..|trail| - 1]), ids[trail[|trail| - 1]])
  }

  ghost predicate NoRepeat<T(!new)>(s: seq<T>) {
    forall i, j :: 0 <= i < j < |s| ==> s[i] != s[j]
  }

  /** No node twice in a row. */
  ghost predicate NoStutter(trail: seq<Node>) {
    forall i :: 0 < i < |trail| ==> trail[i - 1] != trail[i]
  }

  /** A hop list a node may hold: no zero, no repeat, not its own id, and exactly the tracked part of the trail. */
  ghost predicate Clean(ids: Ids, node: Node, hops: seq<HopId>, trail: seq<Node>) {
    && node in ids
    && UNTRACKED !in hops
    && NoRepeat(hops)
    && ids[node] !in hops
    && (forall v <- trail :: v in ids)
    && hops == Tracked(ids, trail)
    && NoStutter(trail + [node])
  }

  /** A packet is clean at its sender and will be at its receiver, once the sender's id is appended. */
  ghost predicate Inv(ids: Ids, net: Network) {
    && (forall h <- net.held :: Clean(ids, h.node, h.hops, h.trail))
    && (forall p <- net.wire ::
          && Clean(ids, p.sender, p.hops, p.trail)
          && p.receiver in ids && p.receiver != p.sender
          && !Excludes(ids[p.sender], ids[p.receiver], p.hops))
  }

  lemma ReceiveKeeps(ids: Ids, p: Packet)
    requires Clean(ids, p.sender, p.hops, p.trail) && p.receiver in ids && p.receiver != p.sender
    requires !Excludes(ids[p.sender], ids[p.receiver], p.hops)
    ensures Clean(ids, p.receiver, Appended(p.hops, ids[p.sender]), p.trail + [p.sender])
  {
    var trail := p.trail + [p.sender];
    assert trail[..|trail| - 1] == p.trail;
    assert forall v <- trail :: v in ids;
    assert ids[p.receiver] == UNTRACKED || ids[p.receiver] !in Appended(p.hops, ids[p.sender]);
  }

  lemma {:induction false} RunKeeps(ids: Ids, nets: seq<Network>, steps: seq<Step>, n: nat)
    requires IsRun(ids, nets, steps) && n < |nets|
    ensures Inv(ids, nets[n])
  {
    if n > 0 {
      RunKeeps(ids, nets, steps, n - 1);
      assert Next(ids, nets[n - 1], steps[n - 1], nets[n]);
      if steps[n - 1].Receive? {
        ReceiveKeeps(ids, steps[n - 1].p);
      }
    }
  }

  /** In any network, over any topology and in any order, a held hop list has no zero, no repeat and not its holder. */
  lemma HeldIsClean(ids: Ids, nets: seq<Network>, steps: seq<Step>, n: nat, h: Held)
    requires IsRun(ids, nets, steps) && n < |nets| && h in nets[n].held
    ensures UNTRACKED !in h.hops && NoRepeat(h.hops)
    ensures h.node in ids && ids[h.node] !in h.hops
  {
    RunKeeps(ids, nets, steps, n);
  }

  // Paths are bounded by the ids in use.

  lemma {:induction false} TrackedAll(ids: Ids, trail: seq<Node>)
    requires forall v <- trail :: v in ids && ids[v] != UNTRACKED
    ensures |Tracked(ids, trail)| == |trail|
    ensures forall i :: 0 <= i < |trail| ==> Tracked(ids, trail)[i] == ids[trail[i]]
  {
    if trail != [] {
      TrackedAll(ids, trail[..|trail| - 1]);
    }
  }

  lemma {:induction false} NoRepeatFits(s: seq<HopId>, within: set<HopId>)
    requires NoRepeat(s) && forall x <- s :: x in within
    ensures |s| <= |within|
  {
    if s != [] {
      var n := |s| - 1;
      NoRepeatFits(s[..n], within - {s[n]});
    }
  }

  /** With every id non-zero, an announcement has come fewer hops than there are distinct ids. */
  lemma PathIsShort(ids: Ids, nets: seq<Network>, steps: seq<Step>, n: nat, h: Held)
    requires IsRun(ids, nets, steps) && n < |nets| && h in nets[n].held
    requires UNTRACKED !in ids.Values
    ensures |h.trail| < |ids.Values|
  {
    RunKeeps(ids, nets, steps, n);
    assert forall v <- h.trail :: ids[v] in ids.Values;
    TrackedAll(ids, h.trail);
    NoRepeatFits(h.hops, ids.Values - {ids[h.node]});
  }

  /** With distinct non-zero ids the trail is a simple path, and what a node excludes is exactly what would close a loop. */
  lemma ExcludesExactlyLoops(ids: Ids, nets: seq<Network>, steps: seq<Step>, n: nat, h: Held, receiver: Node)
    requires IsRun(ids, nets, steps) && n < |nets| && h in nets[n].held && receiver in ids
    requires UNTRACKED !in ids.Values
    requires forall u, v :: u in ids && v in ids && ids[u] == ids[v] ==> u == v
    ensures h.node in ids && NoRepeat(h.trail + [h.node])
    ensures Excludes(ids[h.node], ids[receiver], h.hops) <==> receiver in h.trail + [h.node]
  {
    RunKeeps(ids, nets, steps, n);
    assert forall v <- h.trail :: ids[v] in ids.Values;
    assert ids[receiver] in ids.Values;
    TrackedAll(ids, h.trail);
    var all := h.hops + [ids[h.node]];
    assert forall i :: 0 <= i < |all| ==> all[i] == ids[(h.trail + [h.node])[i]];
    if receiver in h.trail + [h.node] {
      var i :| 0 <= i < |all| && (h.trail + [h.node])[i] == receiver;
      assert all[i] == ids[receiver];
    }
  }

  // Untracked nodes.

  ghost predicate AtMostOneUntracked(ids: Ids) {
    forall u, v :: u in ids && v in ids && ids[u] == UNTRACKED && ids[v] == UNTRACKED ==> u == v
  }

  /** Between two visits to the one untracked node there is a tracked one. */
  lemma {:induction false} HalfTracked(ids: Ids, trail: seq<Node>)
    requires AtMostOneUntracked(ids) && NoStutter(trail) && forall v <- trail :: v in ids
    ensures |trail| <= 2 * |Tracked(ids, trail)| + 1
    ensures trail == [] || ids[trail[|trail| - 1]] != UNTRACKED ==> |trail| <= 2 * |Tracked(ids, trail)|
  {
    if trail != [] {
      HalfTracked(ids, trail[..|trail| - 1]);
    }
  }

  function TrackedIds(ids: Ids): set<HopId> {
    ids.Values - {UNTRACKED}
  }

  lemma {:induction false} TrackedWithin(ids: Ids, trail: seq<Node>)
    requires forall v <- trail :: v in ids
    ensures forall x <- Tracked(ids, trail) :: x in TrackedIds(ids)
  {
    if trail != [] {
      TrackedWithin(ids, trail[..|trail| - 1]);
    }
  }

  /** With at most one untracked node, an announcement has come at most twice as many hops as there are tracked ids. */
  lemma PathIsBounded(ids: Ids, nets: seq<Network>, steps: seq<Step>, n: nat, h: Held)
    requires IsRun(ids, nets, steps) && n < |nets| && h in nets[n].held
    requires AtMostOneUntracked(ids)
    ensures |h.trail| <= 2 * |TrackedIds(ids)|
  {
    RunKeeps(ids, nets, steps, n);
    var all := h.trail + [h.node];
    assert all[..|all| - 1] == h.trail;
    assert Tracked(ids, all) == Appended(h.hops, ids[h.node]);
    assert NoRepeat(Tracked(ids, all));
    HalfTracked(ids, all);
    TrackedWithin(ids, all);
    NoRepeatFits(Tracked(ids, all), TrackedIds(ids));
  }

  /** Nothing stops a loop between two untracked nodes of any network: they can pass an announcement to and fro for ever. */
  lemma {:induction false} UntrackedLoop(ids: Ids, u: Node, v: Node, hops: nat) returns (nets: seq<Network>, steps: seq<Step>, h: Held)
    requires u in ids && v in ids && u != v && ids[u] == UNTRACKED && ids[v] == UNTRACKED
    ensures IsRun(ids, nets, steps) && h in nets[|nets| - 1].held && |h.trail| == hops
    ensures (h.node == u || h.node == v) && h.hops == []
  {
    if hops == 0 {
      h := Held(u, [], []);
      nets, steps := [Network({}, {}), Network({h}, {})], [Publish(u)];
    } else {
      var g;
      nets, steps, g := UntrackedLoop(ids, u, v, hops - 1);
      var to := if g.node == u then v else u;
      var p := Packet(g.node, to, g.hops, g.trail);
      var sent := Apply(ids, nets[|nets| - 1], Forward(g, to));
      h := Held(to, [], g.trail + [g.node]);
      nets, steps := nets + [sent, Apply(ids, sent, Receive(p))], steps + [Forward(g, to), Receive(p)];
    }
  }

  ghost predicate HeldIn(ids: Ids, nets: seq<Network>, steps: seq<Step>, n: nat, h: Held) {
    IsRun(ids, nets, steps) && n < |nets| && h in nets[n].held
  }

  ghost predicate Reachable(ids: Ids, h: Held) {
    exists nets, steps, n :: HeldIn(ids, nets, steps, n, h)
  }

  ghost predicate TrailsWithin(ids: Ids, bound: nat) {
    forall h :: Reachable(ids, h) ==> |h.trail| <= bound
  }

  /** Announcements of a network travel a bounded way exactly when at most one of its nodes is untracked. */
  lemma BoundedIff(ids: Ids)
    ensures (exists bound: nat :: TrailsWithin(ids, bound)) <==> AtMostOneUntracked(ids)
  {
    if AtMostOneUntracked(ids) {
      var bound: nat := 2 * |TrackedIds(ids)|;
      forall h | Reachable(ids, h) ensures |h.trail| <= bound {
        var nets, steps, n :| HeldIn(ids, nets, steps, n, h);
        PathIsBounded(ids, nets, steps, n, h);
      }
      assert TrailsWithin(ids, bound);
    } else {
      var u, v :| u in ids && v in ids && ids[u] == UNTRACKED && ids[v] == UNTRACKED && u != v;
      forall bound: nat ensures !TrailsWithin(ids, bound) {
        var nets, steps, h := UntrackedLoop(ids, u, v, bound + 1);
        assert HeldIn(ids, nets, steps, |nets| - 1, h);
      }
    }
  }
}
