/**
 Delta updates: wire operations kept as one slice per kind beside the order they came in, and read back
 from there in that order.
 */
module CatalogDelta {
  import opened Wrappers
  import opened Tracks

  datatype Kind = Add | Remove | Clone

  datatype WireOp = AddOp(adds: seq<Track>) | RemoveOp(removes: seq<TrackRef>) | CloneOp(clones: seq<TrackClone>) | UnknownOp(op: string)

  /** A recorded operation: its kind and how many tracks it takes from the slice of that kind. */
  datatype DeltaOp = DeltaOp(kind: Kind, n: nat)

  datatype Span = Span(kind: Kind, lo: nat, hi: nat)

  datatype Delta = Delta(adds: seq<Track>, removes: seq<TrackRef>, clones: seq<TrackClone>, ops: seq<DeltaOp>)

  /** A number for every kind: a position in each slice, or the length of each. */
  datatype PerKind = PerKind(add: nat, remove: nat, clone: nat)

  function At(p: PerKind, k: Kind): nat {
    match k
    case Add => p.add
    case Remove => p.remove
    case Clone => p.clone
  }

  function With(p: PerKind, k: Kind, n: nat): PerKind {
    match k
    case Add => p.(add := n)
    case Remove => p.(remove := n)
    case Clone => p.(clone := n)
  }

  function Lens(d: Delta): PerKind {
    PerKind(|d.adds|, |d.removes|, |d.clones|)
  }

  predicate Within(p: PerKind, lens: PerKind) {
    p.add <= lens.add && p.remove <= lens.remove && p.clone <= lens.clone
  }

  function Min(a: nat, b: nat): nat {
    if a < b then a else b
  }

  // operations().

  /** Where one operation leaves the positions. */
  function Past(op: DeltaOp, next: PerKind, lens: PerKind): (r: PerKind)
    requires Within(next, lens)
    ensures Within(r, lens) && Within(next, r)
  {
    With(next, op.kind, Min(At(next, op.kind) + op.n, At(lens, op.kind)))
  }

  /** The span of one operation. An empty operation is kept, one that has run out is not. */
  function SpanOf(op: DeltaOp, next: PerKind, lens: PerKind): seq<Span>
    requires Within(next, lens)
  {
    var lo, hi := At(next, op.kind), At(Past(op, next, lens), op.kind);
    if hi > lo || op.n == 0 then [Span(op.kind, lo, hi)] else []
  }

  /** The spans of the recorded operations from position next on. */
  function Recorded(ops: seq<DeltaOp>, next: PerKind, lens: PerKind): seq<Span>
    requires Within(next, lens)
    decreases |ops|
  {
    if ops == [] then [] else SpanOf(ops[0], next, lens) + Recorded(ops[1..], Past(ops[0], next, lens), lens)
  }

  /** How far the recorded operations reach into each slice. */
  function Reached(ops: seq<DeltaOp>, next: PerKind, lens: PerKind): (r: PerKind)
    requires Within(next, lens)
    ensures Within(r, lens) && Within(next, r)
    decreases |ops|
  {
    if ops == [] then next else Reached(ops[1..], Past(ops[0], next, lens), lens)
  }

  function LeftOver(k: Kind, next: PerKind, lens: PerKind): seq<Span> {
    if At(next, k) < At(lens, k) then [Span(k, At(next, k), At(lens, k))] else []
  }

  const START := PerKind(0, 0, 0)

  function Operations(d: Delta): seq<Span> {
    var reached := Reached(d.ops, START, Lens(d));
    Recorded(d.ops, START, Lens(d)) + LeftOver(Add, reached, Lens(d)) + LeftOver(Remove, reached, Lens(d)) + LeftOver(Clone, reached, Lens(d))
  }

  lemma {:induction false} RecordedAppend(ops: seq<DeltaOp>, op: DeltaOp, next: PerKind, lens: PerKind)
    requires Within(next, lens)
    ensures var r := Reached(ops, next, lens);
            && Recorded(ops + [op], next, lens) == Recorded(ops, next, lens) + SpanOf(op, r, lens)
            && Reached(ops + [op], next, lens) == Past(op, r, lens)
    decreases |ops|
  {
    if ops == [] {
      RecordedOne(op, next, lens);
      assert ops + [op] == [op];
    } else {
      var past := Past(ops[0], next, lens);
      assert (ops + [op])[1..] == ops[1..] + [op];
      RecordedAppend(ops[1..], op, past, lens);
      Associative(SpanOf(ops[0], next, lens), Recorded(ops[1..], past, lens), SpanOf(op, Reached(ops[1..], past, lens), lens));
    }
  }

  lemma RecordedOne(op: DeltaOp, next: PerKind, lens: PerKind)
    requires Within(next, lens)
    ensures Recorded([op], next, lens) == SpanOf(op, next, lens) && Reached([op], next, lens) == Past(op, next, lens)
  {
    assert [op][1..] == [];
    assert SpanOf(op, next, lens) + [] == SpanOf(op, next, lens);
  }

  method ComputeOperations(d: Delta) returns (spans: seq<Span>)
    ensures spans == Operations(d)
  {
    var lens := Lens(d);
    var next := START;
    spans := [];
    for i := 0 to |d.ops|
      invariant Within(next, lens)
      invariant next == Reached(d.ops[..i], START, lens)
      invariant spans == Recorded(d.ops[..i], START, lens)
    {
      var op := d.ops[i];
      var lo := At(next, op.kind);
      var hi := Min(lo + op.n, At(lens, op.kind));
      RecordedAppend(d.ops[..i], op, START, lens);
      Longer(d.ops, i);
      ghost var before := spans;
      if hi > lo || op.n == 0 {
        spans := spans + [Span(op.kind, lo, hi)];
      }
      assert spans == before + SpanOf(op, next, lens);
      next := With(next, op.kind, hi);
    }
    assert d.ops[..|d.ops|] == d.ops;
    spans := AppendLeftOver(spans, Add, next, lens);
    spans := AppendLeftOver(spans, Remove, next, lens);
    spans := AppendLeftOver(spans, Clone, next, lens);
  }

  /** One round of the closing loop over the kinds. */
  method AppendLeftOver(spans: seq<Span>, kind: Kind, next: PerKind, lens: PerKind) returns (more: seq<Span>)
    ensures more == spans + LeftOver(kind, next, lens)
  {
    more := spans;
    if At(next, kind) < At(lens, kind) {
      more := more + [Span(kind, At(next, kind), At(lens, kind))];
    }
  }

  // Every slice is covered exactly once, in order.

  /** The spans of kind k follow one another from lo to hi without gap or overlap. */
  predicate Covers(spans: seq<Span>, k: Kind, lo: nat, hi: nat) {
    if spans == [] then lo == hi
    else if spans[0].kind == k then spans[0].lo == lo && lo <= spans[0].hi <= hi && Covers(spans[1..], k, spans[0].hi, hi)
    else Covers(spans[1..], k, lo, hi)
  }

  lemma {:induction false} CoversAppend(xs: seq<Span>, ys: seq<Span>, k: Kind, lo: nat, mid: nat, hi: nat)
    requires Covers(xs, k, lo, mid) && Covers(ys, k, mid, hi) && mid <= hi
    ensures Covers(xs + ys, k, lo, hi)
  {
    if xs == [] {
      assert xs + ys == ys;
    } else {
      assert (xs + ys)[1..] == xs[1..] + ys;
      CoversAppend(xs[1..], ys, k, if xs[0].kind == k then xs[0].hi else lo, mid, hi);
    }
  }

  lemma SpanCovers(op: DeltaOp, k: Kind, next: PerKind, lens: PerKind)
    requires Within(next, lens)
    ensures Covers(SpanOf(op, next, lens), k, At(next, k), At(Past(op, next, lens), k))
  {
  }

  lemma {:induction false} RecordedCovers(ops: seq<DeltaOp>, k: Kind, next: PerKind, lens: PerKind)
    requires Within(next, lens)
    ensures Covers(Recorded(ops, next, lens), k, At(next, k), At(Reached(ops, next, lens), k))
    decreases |ops|
  {
    if ops != [] {
      var past := Past(ops[0], next, lens);
      SpanCovers(ops[0], k, next, lens);
      RecordedCovers(ops[1..], k, past, lens);
      CoversAppend(SpanOf(ops[0], next, lens), Recorded(ops[1..], past, lens), k, At(next, k), At(past, k), At(Reached(ops, next, lens), k));
    }
  }

  lemma LeftOverCovers(j: Kind, k: Kind, next: PerKind, lens: PerKind)
    requires Within(next, lens)
    ensures Covers(LeftOver(j, next, lens), k, At(next, k), if j == k then At(lens, k) else At(next, k))
  {
  }

  /** For any delta, built or decoded, its operations take each slice exactly once and in order. */
  lemma OperationsCover(d: Delta, k: Kind)
    ensures Covers(Operations(d), k, 0, At(Lens(d), k))
  {
    var lens := Lens(d);
    var r := Reached(d.ops, START, lens);
    var n, m := At(r, k), At(lens, k);
    RecordedCovers(d.ops, k, START, lens);
    LeftOverCovers(Add, k, r, lens);
    LeftOverCovers(Remove, k, r, lens);
    LeftOverCovers(Clone, k, r, lens);
    var s := Recorded(d.ops, START, lens);
    CoversAppend(s, LeftOver(Add, r, lens), k, 0, n, if k == Add then m else n);
    s := s + LeftOver(Add, r, lens);
    if k == Add {
      CoversNothing(LeftOver(Remove, r, lens), k, m);
    }
    if k != Clone {
      CoversNothing(LeftOver(Clone, r, lens), k, m);
    }
    CoversAppend(s, LeftOver(Remove, r, lens), k, 0, if k == Add then m else n, if k == Clone then n else m);
    s := s + LeftOver(Remove, r, lens);
    CoversAppend(s, LeftOver(Clone, r, lens), k, 0, if k == Clone then n else m, m);
  }

  lemma {:induction false} CoversNothing(spans: seq<Span>, k: Kind, at: nat)
    requires forall i :: 0 <= i < |spans| ==> spans[i].kind != k
    ensures Covers(spans, k, at, at)
  {
    if spans != [] {
      CoversNothing(spans[1..], k, at);
    }
  }

  // The op list on the wire.

  predicate InRange(d: Delta, s: Span) {
    s.lo <= s.hi <= At(Lens(d), s.kind)
  }

  function OpOf(d: Delta, s: Span): WireOp
    requires InRange(d, s)
  {
    match s.kind
    case Add => AddOp(d.adds[s.lo..s.hi])
    case Remove => RemoveOp(d.removes[s.lo..s.hi])
    case Clone => CloneOp(d.clones[s.lo..s.hi])
  }

  predicate AllInRange(d: Delta, spans: seq<Span>) {
    forall i :: 0 <= i < |spans| ==> InRange(d, spans[i])
  }

  function OpsOf(d: Delta, spans: seq<Span>): (wire: seq<WireOp>)
    requires AllInRange(d, spans)
    ensures |wire| == |spans|
  {
    if spans == [] then [] else [OpOf(d, spans[0])] + OpsOf(d, spans[1..])
  }

  lemma {:induction false} RecordedInRange(d: Delta, ops: seq<DeltaOp>, next: PerKind)
    requires Within(next, Lens(d))
    ensures AllInRange(d, Recorded(ops, next, Lens(d)))
  {
    if ops != [] {
      RecordedInRange(d, ops[1..], Past(ops[0], next, Lens(d)));
    }
  }

  lemma OperationsInRange(d: Delta)
    ensures AllInRange(d, Operations(d))
  {
    RecordedInRange(d, d.ops, START);
  }

  /** What MarshalJSON writes as deltaUpdate. */
  function Wire(d: Delta): seq<WireOp> {
    OperationsInRange(d);
    OpsOf(d, Operations(d))
  }

  /** What decodeDeltaOps makes of one more operation. */
  function Recording(d: Delta, w: WireOp): Delta
    requires !w.UnknownOp?
  {
    match w
    case AddOp(adds) => d.(adds := d.adds + adds, ops := d.ops + [DeltaOp(Add, |adds|)])
    case RemoveOp(removes) => d.(removes := d.removes + removes, ops := d.ops + [DeltaOp(Remove, |removes|)])
    case CloneOp(clones) => d.(clones := d.clones + clones, ops := d.ops + [DeltaOp(Clone, |clones|)])
  }

  predicate Known(wire: seq<WireOp>) {
    forall i :: 0 <= i < |wire| ==> !wire[i].UnknownOp?
  }

  const EMPTY_DELTA := Delta([], [], [], [])

  function Decoded(wire: seq<WireOp>): Delta
    requires Known(wire)
  {
    if wire == [] then EMPTY_DELTA else Recording(Decoded(wire[..|wire| - 1]), wire[|wire| - 1])
  }

  lemma DecodedNext(wire: seq<WireOp>, i: nat)
    requires i < |wire| && Known(wire[..i]) && !wire[i].UnknownOp?
    ensures Known(wire[..i + 1]) && Decoded(wire[..i + 1]) == Recording(Decoded(wire[..i]), wire[i])
  {
    Longer(wire, i);
  }

  class DeltaDecoder {
    var adds: seq<Track>
    var removes: seq<TrackRef>
    var clones: seq<TrackClone>
    var ops: seq<DeltaOp>

    function View(): Delta
      reads this
    {
      Delta(adds, removes, clones, ops)
    }

    constructor ()
      ensures View() == EMPTY_DELTA
    {
      adds, removes, clones, ops := [], [], [], [];
    }

    /** Fails at the first operation of no known kind; what came before it stays recorded. */
    method DecodeDeltaOps(wire: seq<WireOp>) returns (ok: bool)
      requires View() == EMPTY_DELTA
      modifies this
      ensures ok == Known(wire)
      ensures ok ==> View() == Decoded(wire)
    {
      for i := 0 to |wire|
        invariant Known(wire[..i]) && View() == Decoded(wire[..i])
      {
        var w := wire[i];
        ghost var before := View();
        match w {
          case AddOp(add) =>
            adds := adds + add;
            ops := ops + [DeltaOp(Add, |add|)];
          case RemoveOp(remove) =>
            removes := removes + remove;
            ops := ops + [DeltaOp(Remove, |remove|)];
          case CloneOp(clone) =>
            clones := clones + clone;
            ops := ops + [DeltaOp(Clone, |clone|)];
          case UnknownOp(_) =>
            return false;
        }
        assert View() == Recording(before, w);
        DecodedNext(wire, i);
      }
      assert wire[..|wire|] == wire;
      return true;
    }
  }

  // Decoding what was encoded.

  function Total(ops: seq<DeltaOp>, k: Kind): nat {
    if ops == [] then 0 else (if ops[0].kind == k then ops[0].n else 0) + Total(ops[1..], k)
  }

  lemma {:induction false} TotalAppend(ops: seq<DeltaOp>, op: DeltaOp, k: Kind)
    ensures Total(ops + [op], k) == Total(ops, k) + if op.kind == k then op.n else 0
  {
    if ops == [] {
      assert ops + [op] == [op];
    } else {
      assert (ops + [op])[1..] == ops[1..] + [op];
      TotalAppend(ops[1..], op, k);
    }
  }

  /** The operations fit what is left of the slices. */
  predicate Fit(ops: seq<DeltaOp>, next: PerKind, lens: PerKind) {
    && next.add + Total(ops, Add) <= lens.add
    && next.remove + Total(ops, Remove) <= lens.remove
    && next.clone + Total(ops, Clone) <= lens.clone
  }

  /** Operations that fit are taken whole, however long the slices are. */
  lemma {:induction false} FitsWhole(ops: seq<DeltaOp>, next: PerKind, lens: PerKind, longer: PerKind)
    requires Fit(ops, next, lens) && Within(lens, longer)
    ensures Recorded(ops, next, lens) == Recorded(ops, next, longer)
    ensures Reached(ops, next, lens) == PerKind(next.add + Total(ops, Add), next.remove + Total(ops, Remove), next.clone + Total(ops, Clone))
    ensures Reached(ops, next, longer) == Reached(ops, next, lens)
    decreases |ops|
  {
    if ops != [] {
      FirstFits(ops, next, lens, longer);
      FitsWhole(ops[1..], Past(ops[0], next, lens), lens, longer);
    }
  }

  lemma FirstFits(ops: seq<DeltaOp>, next: PerKind, lens: PerKind, longer: PerKind)
    requires ops != [] && Fit(ops, next, lens) && Within(lens, longer)
    ensures Within(next, lens)
    ensures Past(ops[0], next, lens) == With(next, ops[0].kind, At(next, ops[0].kind) + ops[0].n) == Past(ops[0], next, longer)
    ensures Fit(ops[1..], Past(ops[0], next, lens), lens)
  {
  }

  /** The recorded operations of a decoded delta use up its slices. */
  predicate Exact(d: Delta) {
    Lens(d) == PerKind(Total(d.ops, Add), Total(d.ops, Remove), Total(d.ops, Clone))
  }

  lemma {:induction false} DecodedExact(wire: seq<WireOp>)
    requires Known(wire)
    ensures Exact(Decoded(wire))
  {
    if wire != [] {
      var d, w := Decoded(wire[..|wire| - 1]), wire[|wire| - 1];
      DecodedExact(wire[..|wire| - 1]);
      var op := Recording(d, w).ops[|d.ops|];
      TotalAppend(d.ops, op, Add);
      TotalAppend(d.ops, op, Remove);
      TotalAppend(d.ops, op, Clone);
    }
  }

  lemma ExactOperations(d: Delta)
    requires Exact(d)
    ensures Operations(d) == Recorded(d.ops, START, Lens(d))
    ensures Reached(d.ops, START, Lens(d)) == Lens(d)
  {
    FitsWhole(d.ops, START, Lens(d), Lens(d));
  }

  /** d' has the slices of d with more behind them. */
  predicate Extends(d: Delta, d': Delta) {
    d.adds <= d'.adds && d.removes <= d'.removes && d.clones <= d'.clones
  }

  lemma {:induction false} ExtendsKeepsOps(d: Delta, d': Delta, spans: seq<Span>)
    requires Extends(d, d') && AllInRange(d, spans)
    ensures AllInRange(d', spans) && OpsOf(d', spans) == OpsOf(d, spans)
  {
    if spans != [] {
      assert InRange(d, spans[0]) && InRange(d', spans[0]);
      var s := spans[0];
      match s.kind {
        case Add => assert d'.adds[s.lo..s.hi] == d.adds[s.lo..s.hi];
        case Remove => assert d'.removes[s.lo..s.hi] == d.removes[s.lo..s.hi];
        case Clone => assert d'.clones[s.lo..s.hi] == d.clones[s.lo..s.hi];
      }
      ExtendsKeepsOps(d, d', spans[1..]);
    }
  }

  lemma {:induction false} OpsOfAppend(d: Delta, xs: seq<Span>, y: Span)
    requires AllInRange(d, xs) && InRange(d, y)
    ensures AllInRange(d, xs + [y]) && OpsOf(d, xs + [y]) == OpsOf(d, xs) + [OpOf(d, y)]
  {
    if xs == [] {
      assert xs + [y] == [y] && [y][1..] == [];
    } else {
      assert (xs + [y])[1..] == xs[1..] + [y];
      OpsOfAppend(d, xs[1..], y);
    }
  }

  lemma RecordingExact(d: Delta, w: WireOp)
    requires Exact(d) && !w.UnknownOp?
    ensures Exact(Recording(d, w))
  {
    var op := Recording(d, w).ops[|d.ops|];
    TotalAppend(d.ops, op, Add);
    TotalAppend(d.ops, op, Remove);
    TotalAppend(d.ops, op, Clone);
  }

  lemma RecordingAddsSpan(d: Delta, w: WireOp)
    requires Exact(d) && !w.UnknownOp?
    ensures var d' := Recording(d, w);
            var k := d'.ops[|d.ops|].kind;
            Operations(d') == Operations(d) + [Span(k, At(Lens(d), k), At(Lens(d'), k))]
  {
    var d' := Recording(d, w);
    var op := d'.ops[|d.ops|];
    RecordingExact(d, w);
    ExactOperations(d);
    ExactOperations(d');
    FitsWhole(d.ops, START, Lens(d), Lens(d'));
    RecordedAppend(d.ops, op, START, Lens(d'));
    assert SpanOf(op, Lens(d), Lens(d')) == [Span(op.kind, At(Lens(d), op.kind), At(Lens(d'), op.kind))];
  }

  lemma RecordingAppends(d: Delta, w: WireOp)
    requires Exact(d) && !w.UnknownOp?
    ensures Wire(Recording(d, w)) == Wire(d) + [w]
  {
    var d' := Recording(d, w);
    var k := d'.ops[|d.ops|].kind;
    var last := Span(k, At(Lens(d), k), At(Lens(d'), k));
    OperationsInRange(d);
    RecordingAddsSpan(d, w);
    LastOp(d, w);
    ExtendsKeepsOps(d, d', Operations(d));
    OpsOfAppend(d', Operations(d), last);
  }

  /** The span a recorded operation adds is that operation. */
  lemma LastOp(d: Delta, w: WireOp)
    requires !w.UnknownOp?
    ensures var d' := Recording(d, w);
            var k := d'.ops[|d.ops|].kind;
            Extends(d, d') && OpOf(d', Span(k, At(Lens(d), k), At(Lens(d'), k))) == w
  {
  }

  /** Decoding an op list and encoding it again gives it back, empty operations and all. */
  lemma {:induction false} WireOfDecoded(wire: seq<WireOp>)
    requires Known(wire)
    ensures Wire(Decoded(wire)) == wire
  {
    if wire != [] {
      var init := wire[..|wire| - 1];
      WireOfDecoded(init);
      DecodedExact(init);
      RecordingAppends(Decoded(init), wire[|wire| - 1]);
      InitLast(wire);
    }
  }

  // Encoding any delta and decoding it again.

  function AddsIn(w: WireOp): seq<Track> {
    if w.AddOp? then w.adds else []
  }

  function AddsOf(wire: seq<WireOp>): seq<Track> {
    if wire == [] then [] else AddsIn(wire[0]) + AddsOf(wire[1..])
  }

  function RemovesIn(w: WireOp): seq<TrackRef> {
    if w.RemoveOp? then w.removes else []
  }

  function RemovesOf(wire: seq<WireOp>): seq<TrackRef> {
    if wire == [] then [] else RemovesIn(wire[0]) + RemovesOf(wire[1..])
  }

  function ClonesIn(w: WireOp): seq<TrackClone> {
    if w.CloneOp? then w.clones else []
  }

  function ClonesOf(wire: seq<WireOp>): seq<TrackClone> {
    if wire == [] then [] else ClonesIn(wire[0]) + ClonesOf(wire[1..])
  }

  lemma {:induction false} AddsAppend(wire: seq<WireOp>, w: WireOp)
    ensures AddsOf(wire + [w]) == AddsOf(wire) + AddsIn(w)
  {
    if wire == [] {
      assert wire + [w] == [w] && [w][1..] == [];
    } else {
      var more := wire[1..];
      assert (wire + [w])[1..] == more + [w];
      AddsAppend(more, w);
      assert AddsIn(wire[0]) + (AddsOf(more) + AddsIn(w)) == AddsIn(wire[0]) + AddsOf(more) + AddsIn(w);
    }
  }

  lemma {:induction false} RemovesAppend(wire: seq<WireOp>, w: WireOp)
    ensures RemovesOf(wire + [w]) == RemovesOf(wire) + RemovesIn(w)
  {
    if wire == [] {
      assert wire + [w] == [w] && [w][1..] == [];
    } else {
      var more := wire[1..];
      assert (wire + [w])[1..] == more + [w];
      RemovesAppend(more, w);
      assert RemovesIn(wire[0]) + (RemovesOf(more) + RemovesIn(w)) == RemovesIn(wire[0]) + RemovesOf(more) + RemovesIn(w);
    }
  }

  lemma {:induction false} ClonesAppend(wire: seq<WireOp>, w: WireOp)
    ensures ClonesOf(wire + [w]) == ClonesOf(wire) + ClonesIn(w)
  {
    if wire == [] {
      assert wire + [w] == [w] && [w][1..] == [];
    } else {
      var more := wire[1..];
      assert (wire + [w])[1..] == more + [w];
      ClonesAppend(more, w);
      assert ClonesIn(wire[0]) + (ClonesOf(more) + ClonesIn(w)) == ClonesIn(wire[0]) + ClonesOf(more) + ClonesIn(w);
    }
  }

  lemma {:induction false} DecodedSlices(wire: seq<WireOp>)
    requires Known(wire)
    ensures Decoded(wire).adds == AddsOf(wire)
    ensures Decoded(wire).removes == RemovesOf(wire)
    ensures Decoded(wire).clones == ClonesOf(wire)
  {
    if wire != [] {
      var init := wire[..|wire| - 1];
      DecodedSlices(init);
      AddsAppend(init, wire[|wire| - 1]);
      RemovesAppend(init, wire[|wire| - 1]);
      ClonesAppend(init, wire[|wire| - 1]);
      InitLast(wire);
    }
  }

  lemma OpsOfTail(d: Delta, spans: seq<Span>)
    requires AllInRange(d, spans) && spans != []
    ensures OpsOf(d, spans)[0] == OpOf(d, spans[0]) && OpsOf(d, spans)[1..] == OpsOf(d, spans[1..])
  {
  }

  lemma {:induction false} CoveredAdds(d: Delta, spans: seq<Span>, lo: nat, hi: nat)
    requires AllInRange(d, spans) && Covers(spans, Add, lo, hi) && lo <= hi <= |d.adds|
    ensures AddsOf(OpsOf(d, spans)) == d.adds[lo..hi]
  {
    if spans != [] {
      OpsOfTail(d, spans);
      CoveredAdds(d, spans[1..], if spans[0].kind == Add then spans[0].hi else lo, hi);
      if spans[0].kind == Add {
        Adjacent(d.adds, lo, spans[0].hi, hi);
      }
    }
  }

  lemma {:induction false} CoveredRemoves(d: Delta, spans: seq<Span>, lo: nat, hi: nat)
    requires AllInRange(d, spans) && Covers(spans, Remove, lo, hi) && lo <= hi <= |d.removes|
    ensures RemovesOf(OpsOf(d, spans)) == d.removes[lo..hi]
  {
    if spans != [] {
      OpsOfTail(d, spans);
      CoveredRemoves(d, spans[1..], if spans[0].kind == Remove then spans[0].hi else lo, hi);
      if spans[0].kind == Remove {
        Adjacent(d.removes, lo, spans[0].hi, hi);
      }
    }
  }

  lemma {:induction false} CoveredClones(d: Delta, spans: seq<Span>, lo: nat, hi: nat)
    requires AllInRange(d, spans) && Covers(spans, Clone, lo, hi) && lo <= hi <= |d.clones|
    ensures ClonesOf(OpsOf(d, spans)) == d.clones[lo..hi]
  {
    if spans != [] {
      OpsOfTail(d, spans);
      CoveredClones(d, spans[1..], if spans[0].kind == Clone then spans[0].hi else lo, hi);
      if spans[0].kind == Clone {
        Adjacent(d.clones, lo, spans[0].hi, hi);
      }
    }
  }

  lemma {:induction false} OpsOfKnown(d: Delta, spans: seq<Span>)
    requires AllInRange(d, spans)
    ensures Known(OpsOf(d, spans))
  {
    if spans != [] {
      OpsOfKnown(d, spans[1..]);
      var wire := OpsOf(d, spans);
      assert forall i :: 0 < i < |wire| ==> wire[i] == OpsOf(d, spans[1..])[i - 1];
    }
  }

  lemma WireKeepsAdds(d: Delta)
    ensures AddsOf(Wire(d)) == d.adds
  {
    OperationsInRange(d);
    OperationsCover(d, Add);
    CoveredAdds(d, Operations(d), 0, |d.adds|);
  }

  lemma WireKeepsRemoves(d: Delta)
    ensures RemovesOf(Wire(d)) == d.removes
  {
    OperationsInRange(d);
    OperationsCover(d, Remove);
    CoveredRemoves(d, Operations(d), 0, |d.removes|);
  }

  lemma WireKeepsClones(d: Delta)
    ensures ClonesOf(Wire(d)) == d.clones
  {
    OperationsInRange(d);
    OperationsCover(d, Clone);
    CoveredClones(d, Operations(d), 0, |d.clones|);
  }

  /** Any delta, however built, keeps its slices over the wire and is encoded the same again. */
  lemma DecodedWire(d: Delta)
    ensures Known(Wire(d))
    ensures var d' := Decoded(Wire(d)); d'.adds == d.adds && d'.removes == d.removes && d'.clones == d.clones && Wire(d') == Wire(d)
  {
    OperationsInRange(d);
    OpsOfKnown(d, Operations(d));
    WireKeepsAdds(d);
    WireKeepsRemoves(d);
    WireKeepsClones(d);
    DecodedSlices(Wire(d));
    WireOfDecoded(Wire(d));
  }
}
