/**
 Subscription delivery, end to end: a publisher opens and drops groups and closes; the subscriber
 receives group streams and responses in any order, returns every group once, and then io.EOF.
 */
module Delivery {
  import opened Wrappers
  import opened SettledGroups
  import opened SubscribeStream

  // The publisher: OpenGroup and DropNextGroups one after another, all successful.

  datatype Op = OpenGroup | DropNext(n: nat)

  function Sequentially(w: Writer, op: Op): Writer {
    match op
    case OpenGroup => Apply(Apply(Apply(Apply(w, Reserve(0)), Enter(0)), Answer(0, Sent)), Opened(0))
    case DropNext(n) =>
      if n == 0 then w else Apply(Apply(Apply(w, ReserveDrop(0, n)), Enter(0)), WriteDropped(0, Sent))
  }

  function Publish(ops: seq<Op>): Writer {
    if ops == [] then NEW_WRITER.(phases := map[0 := Idle])
    else Sequentially(Publish(ops[..|ops| - 1]), ops[|ops| - 1])
  }

  /** Every sequence used fits the wire, as it must for the calls to succeed. */
  ghost predicate Fits(ops: seq<Op>) {
    forall k :: 0 <= k <= |ops| ==> Total(ops[..k]) <= MAX_GROUP_SEQUENCE
  }

  function Total(ops: seq<Op>): nat {
    if ops == [] then 0
    else Total(ops[..|ops| - 1]) + match ops[|ops| - 1] case OpenGroup => 1 case DropNext(n) => n
  }

  /** The stream's whole content once the track is closed. */
  function FinalLog(ops: seq<Op>): seq<Msg> {
    var w := Publish(ops);
    Apply(w, Close(Sent)).response.log
  }

  predicate Dropped(log: seq<Msg>, x: int) {
    exists i :: 0 <= i < |log| && log[i].Drop? && log[i].start <= x <= log[i].end
  }

  /** The publisher's log resolves a start from which each sequence is opened or dropped, never both. */
  ghost predicate PublisherInv(w: Writer, total: nat) {
    var log := w.response.log;
    && w.counter == total && !w.response.dead && !w.response.endSent
    && w.phases == map[0 := Idle] && !w.stopped
    && (w.response.responseStarted <==> log != [])
    && (log == [] ==> total == 0 && w.groups == {})
    && (log != [] ==> total > 0 && log[0].Ok?)
    && (log != [] && log[0].group == 0 ==> total == MAX_GROUP_SEQUENCE && w.groups == {})
    && (forall i :: 1 <= i < |log| ==> log[i].Drop? && 0 < log[i].start <= log[i].end <= total)
    && (log != [] && log[0].group > 0 ==>
          && log[0].group <= total + 1
          && (forall g :: g in w.groups ==> log[0].group <= g <= total)
          && (forall x :: log[0].group <= x <= total ==> (x in w.groups <==> !Dropped(log, x))))
  }

  lemma OpenKeeps(w: Writer, total: nat)
    requires PublisherInv(w, total) && total + 1 <= MAX_GROUP_SEQUENCE
    ensures PublisherInv(Sequentially(w, OpenGroup), total + 1)
  {
    var w1 := Apply(w, Reserve(0));
    var w2 := Apply(w1, Enter(0));
    var w3 := Apply(w2, Answer(0, Sent));
    var w4 := Apply(w3, Opened(0));
    assert w1.phases == map[0 := HasSequence(total + 1)];
    assert w2.phases == map[0 := Opening(total + 1)];
    assert w3.phases == map[0 := Answering(total + 1)];
    assert w4.phases == map[0 := Idle];
    assert w4 == Sequentially(w, OpenGroup);
    assert w4.groups == w.groups + {total + 1};
    var log, log' := w.response.log, w4.response.log;
    assert log' == if log == [] then [Ok(total + 1)] else log;
    assert !Dropped(log', total + 1);
  }

  lemma DropKeeps(w: Writer, total: nat, n: nat)
    requires PublisherInv(w, total) && total + n <= MAX_GROUP_SEQUENCE && n > 0
    ensures PublisherInv(Sequentially(w, DropNext(n)), total + n)
  {
    var w1 := Apply(w, ReserveDrop(0, n));
    var w2 := Apply(w1, Enter(0));
    var w3 := Apply(w2, WriteDropped(0, Sent));
    assert w1.phases == map[0 := HasDrop(total + 1, total + n)];
    assert w2.phases == map[0 := Dropping(total + 1, total + n)];
    assert w3.phases == map[0 := Idle];
    assert w3 == Sequentially(w, DropNext(n));
    var log, log' := w.response.log, w3.response.log;
    assert log' == if log == [] then [Ok(Next(total + n))] else log + [Drop(total + 1, total + n)];
    if log != [] {
      forall x ensures Dropped(log', x) <==> Dropped(log, x) || total + 1 <= x <= total + n {
        DroppedAppend(log, Drop(total + 1, total + n), x);
      }
    }
  }

  lemma DroppedAppend(log: seq<Msg>, m: Msg, x: int)
    ensures Dropped(log + [m], x) <==> Dropped(log, x) || (m.Drop? && m.start <= x <= m.end)
  {
    if m.Drop? && m.start <= x <= m.end {
      assert (log + [m])[|log|] == m;
    }
    if Dropped(log, x) {
      var i :| 0 <= i < |log| && log[i].Drop? && log[i].start <= x <= log[i].end;
      assert (log + [m])[i] == log[i];
    }
  }

  lemma {:induction false} PublishKeeps(ops: seq<Op>)
    requires Fits(ops)
    ensures PublisherInv(Publish(ops), Total(ops))
  {
    if ops != [] {
      var n := |ops| - 1;
      assert forall k :: 0 <= k <= n ==> ops[..n][..k] == ops[..k];
      assert ops[..|ops|] == ops;
      PublishKeeps(ops[..n]);
      match ops[n]
      case OpenGroup => OpenKeeps(Publish(ops[..n]), Total(ops[..n]));
      case DropNext(m) => if m > 0 { DropKeeps(Publish(ops[..n]), Total(ops[..n]), m); }
    }
  }

  // The subscriber.

  datatype Result = Group(group: nat) | Eof | Blocked

  function Covering(rs: seq<Range>, lo: Sequence, hi: Sequence): bool {
    exists i :: 0 <= i < |rs| && rs[i].lo <= lo && hi <= rs[i].hi
  }

  /** One pass of AcceptGroup's loop. lapsed: the stream has closed and the grace has passed. */
  function Outcome(queue: seq<nat>, eof: bool, s: Subscription, settled: seq<Range>, lapsed: bool): Result {
    if queue != [] then Group(queue[0])
    else if eof then Eof
    else if s.ended && (s.resolvedStart == 0 || s.endGroup < s.resolvedStart
                        || Covering(settled, s.resolvedStart, s.endGroup) || lapsed) then Eof
    else Blocked
  }

  /** The subscriber's end of a subscription. */
  class TrackReader {
    var queueing: seq<nat>
    var eof: bool
    const settled: SettledGroups
    const stream: SendSubscribeStream

    ghost predicate Valid()
      reads this, settled
    {
      settled.Valid()
    }

    constructor ()
      ensures Valid() && fresh(settled) && fresh(stream)
      ensures queueing == [] && !eof && settled.ranges == [] && stream.View() == PENDING
    {
      queueing, eof := [], false;
      settled := new SettledGroups();
      stream := new SendSubscribeStream();
    }

    method EnqueueGroup(group: nat, cancelled: bool) returns (queued: bool)
      requires Valid()
      modifies this, settled
      ensures Valid() && eof == old(eof)
      ensures queued == !(cancelled || eof)
      ensures queueing == if queued then old(queueing) + [group] else old(queueing)
      ensures settled.ranges == if queued then Added(old(settled.ranges), group, group) else old(settled.ranges)
    {
      if cancelled || eof { return false; }
      settled.Add(group, group);
      queueing := queueing + [group];
      return true;
    }

    method SettleDropped(start: nat, end: nat)
      requires Valid()
      modifies settled
      ensures Valid()
      ensures settled.ranges == Added(old(settled.ranges), start, end)
    {
      settled.Add(start, end);
    }

    method AcceptOnce(lapsed: bool) returns (r: Result)
      requires Valid()
      modifies this
      ensures Valid()
      ensures r == Outcome(old(queueing), old(eof), stream.View(), settled.ranges, lapsed)
      ensures stream.ended && lapsed ==> !r.Blocked?
      ensures !stream.ended ==> r == Outcome(old(queueing), old(eof), stream.View(), settled.ranges, false)
      ensures queueing == if r.Group? then old(queueing)[1..] else old(queueing)
      ensures eof == (old(eof) || r.Eof?)
    {
      if |queueing| > 0 {
        r := Group(queueing[0]);
        queueing := queueing[1..];
        return;
      }
      if eof { return Eof; }
      if stream.ended {
        var start, end := stream.resolvedStart, stream.endGroup;
        if start == 0 || end < start {
          eof := true;
          return Eof;
        }
        var covered := settled.Covers(start, end);
        CoversMeans(settled.ranges, start, end);
        if covered || lapsed {
          eof := true;
          return Eof;
        }
      }
      return Blocked;
    }
  }

  // Every arrival order.

  /** AcceptLate is a pass once the stream has closed and the grace has passed. */
  datatype Event = Message | Stream(group: nat) | Accept | AcceptLate

  /**
   read counts the messages read; adds is everything settled, in order; returned is what AcceptGroup returned; late is
   io.EOF decided by the grace alone.
   */
  datatype Reader = Reader(read: nat, adds: seq<Interval>, queue: seq<nat>, returned: seq<nat>, eof: bool, late: bool)

  const NEW_READER := Reader(0, [], [], [], false, false)

  predicate Arrived(r: Reader, g: nat) {
    g in r.queue || g in r.returned
  }

  ghost predicate Possible(log: seq<Msg>, groups: set<nat>, r: Reader, e: Event) {
    match e
    case Message => r.read < |log|
    case Stream(g) => g in groups && !Arrived(r, g)
    case Accept => r.read > 0
    case AcceptLate => r.read > 0
  }

  function AcceptResult(log: seq<Msg>, r: Reader, lapsed: bool): Result
    requires r.read <= |log|
  {
    Outcome(r.queue, r.eof, ReceivedAll(log[..r.read]), After(r.adds), lapsed)
  }

  function Accepted(log: seq<Msg>, r: Reader, lapsed: bool): Reader
    requires r.read <= |log|
  {
    match AcceptResult(log, r, lapsed)
    case Group(g) => r.(queue := r.queue[1..], returned := r.returned + [g])
    case Eof => r.(eof := true, late := r.late || AcceptResult(log, r, false).Blocked?)
    case Blocked => r
  }

  function React(log: seq<Msg>, r: Reader, e: Event): Reader
    requires r.read <= |log| && (e.Message? ==> r.read < |log|)
  {
    match e
    case Message =>
      (match log[r.read]
       case Drop(lo, hi) => r.(read := r.read + 1, adds := r.adds + [Interval(lo, hi)])
       case _ => r.(read := r.read + 1))
    case Stream(g) => if r.eof then r else r.(adds := r.adds + [Interval(g, g)], queue := r.queue + [g])
    case Accept => Accepted(log, r, false)
    case AcceptLate => Accepted(log, r, true)
  }

  ghost predicate IsRun(log: seq<Msg>, groups: set<nat>, readers: seq<Reader>, events: seq<Event>) {
    && |readers| == |events| + 1 && readers[0] == NEW_READER
    && forall i :: 0 <= i < |events| ==>
         && readers[i].read <= |log| && Possible(log, groups, readers[i], events[i])
         && readers[i + 1] == React(log, readers[i], events[i])
  }

  ghost predicate NoDuplicates(s: seq<nat>) {
    forall i, j :: 0 <= i < j < |s| ==> s[i] != s[j]
  }

  /** No group is held twice, and none that was not opened. */
  ghost predicate HeldOnce(log: seq<Msg>, groups: set<nat>, r: Reader) {
    && r.read <= |log|
    && NoDuplicates(r.returned + r.queue)
    && (forall g :: Arrived(r, g) ==> g in groups)
  }

  /** The settled intervals are what arrived and what was dropped. */
  ghost predicate Accounted(log: seq<Msg>, r: Reader)
    requires r.read <= |log|
  {
    OnWire(r.adds) && forall x :: Settles(r.adds, x) <==> (x >= 0 && Arrived(r, x)) || Dropped(log[..r.read], x)
  }

  /** At io.EOF everything was read and accepted; short of the grace, only groups below the watermark can be missing. */
  ghost predicate EofMeans(log: seq<Msg>, groups: set<nat>, r: Reader) {
    r.eof ==>
      && r.read == |log| && r.queue == []
      && (!r.late ==> forall g :: g in groups && Watermark(r.adds) <= g ==> Arrived(r, g))
  }

  ghost predicate ReaderInv(log: seq<Msg>, groups: set<nat>, r: Reader) {
    HeldOnce(log, groups, r) && Accounted(log, r) && EofMeans(log, groups, r)
  }

  /** What the theorems assume of the publisher: the log and the groups of a closed run. */
  ghost predicate Published(ops: seq<Op>, log: seq<Msg>, groups: set<nat>) {
    Fits(ops) && log == FinalLog(ops) && groups == Publish(ops).groups
  }

  lemma FinalLogEnds(ops: seq<Op>)
    requires Fits(ops)
    ensures FinalLog(ops) == Publish(ops).response.log + [End(Total(ops))]
  {
    PublishKeeps(ops);
    CloseEnds(Publish(ops), Total(ops));
  }

  lemma CloseEnds(w: Writer, total: nat)
    requires PublisherInv(w, total) && Enabled(w, Close(Sent))
    ensures Apply(w, Close(Sent)).response.log == w.response.log + [End(total)]
  {
  }

  /** The start the log resolves; 0 when it holds no OK. */
  function StartOf(log: seq<Msg>): nat {
    if log != [] && log[0].Ok? then log[0].group else 0
  }

  /** What the publisher's final log says of each sequence from its start on. */
  lemma FinalLogSettles(ops: seq<Op>, log: seq<Msg>, groups: set<nat>)
    requires Published(ops, log, groups)
    ensures forall i :: 0 <= i < |log| - 1 ==> !log[i].End?
    ensures forall g :: g in groups ==> 0 < StartOf(log) <= g <= Total(ops)
    ensures StartOf(log) > 0 ==> forall x :: StartOf(log) <= x <= Total(ops) ==> (x in groups <==> !Dropped(log, x))
  {
    PublishKeeps(ops);
    FinalLogEnds(ops);
    EndSettles(Publish(ops), Total(ops), Publish(ops).response.log);
  }

  lemma EndSettles(w: Writer, total: nat, before: seq<Msg>)
    requires PublisherInv(w, total) && before == w.response.log
    ensures var log := before + [End(total)];
            && (forall i :: 0 <= i < |log| - 1 ==> !log[i].End?)
            && (forall g :: g in w.groups ==> 0 < StartOf(log) <= g <= total)
            && (StartOf(log) > 0 ==> forall x :: StartOf(log) <= x <= total ==> (x in w.groups <==> !Dropped(log, x)))
  {
    var log := before + [End(total)];
    assert StartOf(log) == StartOf(before);
    forall x ensures Dropped(log, x) <==> Dropped(before, x) {
      DroppedAppend(before, End(total), x);
    }
  }

  /** After the whole log the subscriber holds the publisher's start and end. */
  lemma ReadWholeLog(ops: seq<Op>)
    requires Fits(ops)
    ensures var s := ReceivedAll(FinalLog(ops));
            && s.ended && s.endGroup == Total(ops)
            && s.resolvedStart == StartOf(FinalLog(ops))
  {
    PublishKeeps(ops);
    FinalLogEnds(ops);
    var log := Publish(ops).response.log;
    assert FinalLog(ops)[..|log|] == log;
    ReadOkDrops(log);
  }

  lemma {:induction false} ReadOkDrops(log: seq<Msg>)
    requires log != [] ==> log[0].Ok? && forall i :: 1 <= i < |log| ==> log[i].Drop?
    ensures var s := ReceivedAll(log);
            && !Over(s) && !s.ended && (s.first <==> log == [])
            && s.resolvedStart == StartOf(log)
  {
    if log != [] {
      ReadOkDrops(log[..|log| - 1]);
    }
  }

  lemma {:induction false} NotEndedBefore(log: seq<Msg>, k: nat)
    requires k <= |log| && forall i :: 0 <= i < k ==> !log[i].End?
    ensures !ReceivedAll(log[..k]).ended
  {
    if k > 0 {
      assert log[..k][..k - 1] == log[..k - 1];
      NotEndedBefore(log, k - 1);
    }
  }

  lemma SettlesAppend(adds: seq<Interval>, a: Interval, x: int)
    ensures Settles(adds + [a], x) <==> Settles(adds, x) || a.lo <= x <= a.hi
  {
    SettlesStep(adds + [a], x);
    assert (adds + [a])[..|adds|] == adds;
  }

  lemma HeldOnceKeeps(log: seq<Msg>, groups: set<nat>, r: Reader, e: Event)
    requires HeldOnce(log, groups, r) && Possible(log, groups, r, e)
    ensures HeldOnce(log, groups, React(log, r, e))
  {
    var r' := React(log, r, e);
    match e
    case Message =>
    case Stream(g) =>
      assert r'.returned + r'.queue == if r.eof then r.returned + r.queue else (r.returned + r.queue) + [g];
    case Accept => AcceptMoves(log, r, false);
    case AcceptLate => AcceptMoves(log, r, true);
  }

  /** A pass of AcceptGroup takes the first group queued, if there is one, and loses none. */
  lemma AcceptMoves(log: seq<Msg>, r: Reader, lapsed: bool)
    requires r.read <= |log|
    ensures var r' := Accepted(log, r, lapsed);
            && r'.returned + r'.queue == r.returned + r.queue
            && (forall x :: Arrived(r', x) <==> Arrived(r, x))
            && r'.read == r.read && r'.adds == r.adds
  {
    var r' := Accepted(log, r, lapsed);
    if r.queue != [] {
      assert r.queue == [r.queue[0]] + r'.queue;
      Associative(r.returned, [r.queue[0]], r'.queue);
    }
    assert forall x :: Arrived(r, x) <==> x in r.returned + r.queue;
    assert forall x :: Arrived(r', x) <==> x in r'.returned + r'.queue;
  }

  lemma MessageKeeps(ops: seq<Op>, log: seq<Msg>, groups: set<nat>, r: Reader)
    requires Published(ops, log, groups) && ReaderInv(log, groups, r) && r.read < |log|
    ensures ReaderInv(log, groups, React(log, r, Message))
  {
    var m := log[r.read];
    var r' := React(log, r, Message);
    HeldOnceKeeps(log, groups, r, Message);
    PublishedWithin(ops, log, groups);
    Longer(log, r.read);
    forall x ensures Settles(r'.adds, x) <==> (x >= 0 && Arrived(r', x)) || Dropped(log[..r'.read], x) {
      DroppedAppend(log[..r.read], m, x);
      if m.Drop? { SettlesAppend(r.adds, Interval(m.start, m.end), x); }
    }
  }

  lemma StreamKeeps(log: seq<Msg>, groups: set<nat>, r: Reader, g: nat)
    requires ReaderInv(log, groups, r) && g in groups && !Arrived(r, g)
    ensures ReaderInv(log, groups, React(log, r, Stream(g)))
  {
    var r' := React(log, r, Stream(g));
    HeldOnceKeeps(log, groups, r, Stream(g));
    forall x ensures Settles(r'.adds, x) <==> (x >= 0 && Arrived(r', x)) || Dropped(log[..r'.read], x) {
      SettlesAppend(r.adds, Interval(g, g), x);
    }
  }

  /** io.EOF is decided, by the grace or not, only once the whole log was read and the queue is empty. */
  lemma EofReadAll(ops: seq<Op>, log: seq<Msg>, groups: set<nat>, r: Reader, lapsed: bool)
    requires Published(ops, log, groups) && ReaderInv(log, groups, r)
    requires AcceptResult(log, r, lapsed).Eof?
    ensures r.read == |log| && r.queue == []
  {
    if !r.eof {
      FinalLogSettles(ops, log, groups);
      NotEndedBefore(log, if r.read < |log| then r.read else 0);
    }
  }

  /**
   Short of the grace, io.EOF is decided only when the whole log was read and every opened group at or above the
   watermark has arrived; while the cap is not hit the watermark is 0.
   */
  lemma EofIsComplete(ops: seq<Op>, log: seq<Msg>, groups: set<nat>, r: Reader)
    requires Published(ops, log, groups) && ReaderInv(log, groups, r)
    requires AcceptResult(log, r, false).Eof? && !r.eof
    ensures r.read == |log| && forall g :: g in groups && Watermark(r.adds) <= g ==> Arrived(r, g)
    ensures Watermark(r.adds) > 0 <==> CapHit(r.adds)
  {
    EofReadAll(ops, log, groups, r, false);
    FinalLogSettles(ops, log, groups);
    ReadWholeLog(ops);
    var start, total := StartOf(log), Total(ops);
    assert log[..|log|] == log;
    HistoryExact(r.adds, 0);
    forall g | g in groups && Watermark(r.adds) <= g ensures Arrived(r, g) {
      assert Covering(After(r.adds), start, total);
      HistoryNormal(r.adds);
      CoversMeans(After(r.adds), start, total);
      HistoryExact(r.adds, g);
      assert Settles(r.adds, g);
    }
  }

  lemma AcceptKeeps(ops: seq<Op>, log: seq<Msg>, groups: set<nat>, r: Reader, lapsed: bool)
    requires Published(ops, log, groups) && ReaderInv(log, groups, r) && r.read > 0
    ensures ReaderInv(log, groups, Accepted(log, r, lapsed))
  {
    HeldOnceKeeps(log, groups, r, if lapsed then AcceptLate else Accept);
    AcceptMoves(log, r, lapsed);
    if AcceptResult(log, r, lapsed).Eof? && !r.eof {
      EofReadAll(ops, log, groups, r, lapsed);
      if AcceptResult(log, r, false).Eof? {
        EofIsComplete(ops, log, groups, r);
      }
    }
  }

  /** Whatever the order of arrival and the length of the track, every reachable state has the invariant. */
  lemma {:induction false} RunKeeps(ops: seq<Op>, log: seq<Msg>, groups: set<nat>, readers: seq<Reader>, events: seq<Event>, k: nat)
    requires Published(ops, log, groups) && IsRun(log, groups, readers, events) && k < |readers|
    ensures ReaderInv(log, groups, readers[k])
  {
    if k == 0 {
      assert log[..0] == [];
    } else {
      RunKeeps(ops, log, groups, readers, events, k - 1);
      match events[k - 1]
      case Message => MessageKeeps(ops, log, groups, readers[k - 1]);
      case Stream(g) => StreamKeeps(log, groups, readers[k - 1], g);
      case Accept => AcceptKeeps(ops, log, groups, readers[k - 1], false);
      case AcceptLate => AcceptKeeps(ops, log, groups, readers[k - 1], true);
    }
  }

  ghost predicate Within(adds: seq<Interval>, total: nat) {
    forall i :: 0 <= i < |adds| ==> 1 <= adds[i].lo && adds[i].hi <= total
  }

  lemma GroupsWithin(w: Writer, total: nat)
    requires PublisherInv(w, total)
    ensures forall g :: g in w.groups ==> 1 <= g <= total
  {
  }

  lemma DropsWithin(w: Writer, total: nat)
    requires PublisherInv(w, total)
    ensures forall i :: 0 <= i < |w.response.log| && w.response.log[i].Drop? ==> 1 <= w.response.log[i].start && w.response.log[i].end <= total
  {
  }

  lemma PublishedWithin(ops: seq<Op>, log: seq<Msg>, groups: set<nat>)
    requires Published(ops, log, groups)
    ensures forall g :: g in groups ==> 1 <= g <= Total(ops)
    ensures forall i :: 0 <= i < |log| && log[i].Drop? ==> 1 <= log[i].start && log[i].end <= Total(ops)
  {
    var w, total := Publish(ops), Total(ops);
    PublishKeeps(ops);
    GroupsWithin(w, total);
    DropsWithin(w, total);
    FinalLogEnds(ops);
    EndIsNoDrop(w.response.log, total);
  }

  lemma EndIsNoDrop(log: seq<Msg>, total: nat)
    ensures forall i :: 0 <= i < |log + [End(total)]| && (log + [End(total)])[i].Drop? ==> i < |log| && (log + [End(total)])[i] == log[i]
  {
  }

  lemma ReactWithin(log: seq<Msg>, groups: set<nat>, r: Reader, e: Event, total: nat)
    requires forall g :: g in groups ==> 1 <= g <= total
    requires forall i :: 0 <= i < |log| && log[i].Drop? ==> 1 <= log[i].start && log[i].end <= total
    requires r.read <= |log| && Possible(log, groups, r, e) && Within(r.adds, total)
    ensures Within(React(log, r, e).adds, total)
  {
  }

  lemma {:induction false} RunWithin(log: seq<Msg>, groups: set<nat>, readers: seq<Reader>, events: seq<Event>, k: nat, total: nat)
    requires forall g :: g in groups ==> 1 <= g <= total
    requires forall i :: 0 <= i < |log| && log[i].Drop? ==> 1 <= log[i].start && log[i].end <= total
    requires IsRun(log, groups, readers, events) && k < |readers|
    ensures Within(readers[k].adds, total)
  {
    if k > 0 {
      RunWithin(log, groups, readers, events, k - 1, total);
      ReactWithin(log, groups, readers[k - 1], events[k - 1], total);
    }
  }

  /** A track of up to 2048 sequences stays below the cap whatever the order of arrival. */
  lemma ShortTrack(ops: seq<Op>, log: seq<Msg>, groups: set<nat>, readers: seq<Reader>, events: seq<Event>, k: nat)
    requires Published(ops, log, groups) && IsRun(log, groups, readers, events) && k < |readers|
    requires Total(ops) <= 2 * MAX_SETTLED_RANGES
    ensures Within(readers[k].adds, Total(ops)) && !CapHit(readers[k].adds)
  {
    PublishedWithin(ops, log, groups);
    RunWithin(log, groups, readers, events, k, Total(ops));
    ShortTrackBelowCap(readers[k].adds, Total(ops));
  }

  /**
   Once AcceptGroup has returned io.EOF below the cap and not by the grace, it has returned each opened group exactly
   once and nothing else, and it stays io.EOF.
   */
  lemma EachGroupOnceThenEof(ops: seq<Op>, log: seq<Msg>, groups: set<nat>, readers: seq<Reader>, events: seq<Event>, k: nat)
    requires Published(ops, log, groups) && IsRun(log, groups, readers, events) && k < |readers|
    requires readers[k].eof && !readers[k].late && !CapHit(readers[k].adds)
    ensures readers[k].read == |log| && NoDuplicates(readers[k].returned)
    ensures forall g :: g in readers[k].returned <==> g in groups
    ensures forall lapsed :: AcceptResult(log, readers[k], lapsed) == Eof && Accepted(log, readers[k], lapsed) == readers[k]
    ensures forall e :: Possible(log, groups, readers[k], e) ==> e.Accept? || e.AcceptLate?
  {
    RunKeeps(ops, log, groups, readers, events, k);
    HistoryExact(readers[k].adds, 0);
    assert readers[k].returned + [] == readers[k].returned;
  }

  /** io.EOF is for ever, and short of the grace it leaves out only groups below the watermark, past the cap too. */
  lemma {:induction false} EofIsForEver(ops: seq<Op>, log: seq<Msg>, groups: set<nat>, readers: seq<Reader>, events: seq<Event>, k: nat, n: nat)
    requires Published(ops, log, groups) && IsRun(log, groups, readers, events) && k <= n < |readers| && readers[k].eof
    ensures readers[n] == readers[k]
    ensures !readers[k].late ==> forall g :: g in groups && Watermark(readers[k].adds) <= g ==> g in readers[n].returned
  {
    RunKeeps(ops, log, groups, readers, events, k);
    if k < n {
      EofIsForEver(ops, log, groups, readers, events, k, n - 1);
    }
  }

  lemma {:induction false} RunHoldsOnce(log: seq<Msg>, groups: set<nat>, readers: seq<Reader>, events: seq<Event>, k: nat)
    requires IsRun(log, groups, readers, events) && k < |readers|
    ensures HeldOnce(log, groups, readers[k])
  {
    if k > 0 {
      RunHoldsOnce(log, groups, readers, events, k - 1);
      HeldOnceKeeps(log, groups, readers[k - 1], events[k - 1]);
    }
  }

  lemma NoDuplicatesFirst(a: seq<nat>, b: seq<nat>)
    requires NoDuplicates(a + b)
    ensures NoDuplicates(a)
  {
    forall i, j | 0 <= i < j < |a| ensures a[i] != a[j] {
      assert (a + b)[i] != (a + b)[j];
    }
  }

  /** At any time, whatever the publisher wrote, no group has been returned twice, and none that was not opened. */
  lemma NeverTwice(log: seq<Msg>, groups: set<nat>, readers: seq<Reader>, events: seq<Event>, k: nat)
    requires IsRun(log, groups, readers, events) && k < |readers|
    ensures NoDuplicates(readers[k].returned) && forall g :: g in readers[k].returned ==> g in groups
  {
    RunHoldsOnce(log, groups, readers, events, k);
    NoDuplicatesFirst(readers[k].returned, readers[k].queue);
  }

  /** Once everything has arrived, AcceptGroup never waits: it returns a queued group or io.EOF, with no grace needed. */
  lemma NoGraceNeeded(ops: seq<Op>, log: seq<Msg>, groups: set<nat>, r: Reader)
    requires Published(ops, log, groups) && ReaderInv(log, groups, r)
    requires r.read == |log| && forall g :: g in groups ==> Arrived(r, g)
    ensures !AcceptResult(log, r, false).Blocked? && (r.queue == [] ==> AcceptResult(log, r, false).Eof?)
  {
    FinalLogSettles(ops, log, groups);
    ReadWholeLog(ops);
    var start, total := StartOf(log), Total(ops);
    assert log[..|log|] == log;
    if r.queue == [] && 0 < start <= total {
      HistoryNormal(r.adds);
      forall x | start <= x <= total ensures In(After(r.adds), x) {
        assert Settles(r.adds, x);
        HistoryExact(r.adds, x);
      }
      CoversMeans(After(r.adds), start, total);
    }
  }

  function Missing(groups: set<nat>, r: Reader): set<nat> {
    set g | g in groups && !Arrived(r, g)
  }

  /** The next event of an order that finishes: what is left to read, then to arrive, then to accept. */
  ghost function NextEvent(log: seq<Msg>, groups: set<nat>, r: Reader): Event {
    if r.read < |log| then Message
    else if Missing(groups, r) != {} then Stream(var g :| g in Missing(groups, r); g)
    else Accept
  }

  /** r' is nearer to io.EOF: more read, or as much and less missing, or as much and a shorter queue, or at io.EOF. */
  ghost predicate Nearer(log: seq<Msg>, groups: set<nat>, r: Reader, r': Reader) {
    || r.read < r'.read <= |log|
    || (r'.read == r.read && Missing(groups, r') < Missing(groups, r))
    || (r'.read == r.read && Missing(groups, r') == Missing(groups, r) && |r'.queue| < |r.queue|)
    || (r'.read == r.read && Missing(groups, r') == Missing(groups, r) && |r'.queue| == |r.queue| && r'.eof)
  }

  lemma StreamNearer(log: seq<Msg>, groups: set<nat>, r: Reader, g: nat)
    requires r.read <= |log| && !r.eof && g in Missing(groups, r)
    ensures Nearer(log, groups, r, React(log, r, Stream(g)))
  {
    var r' := React(log, r, Stream(g));
    assert Arrived(r', g) && g !in Missing(groups, r');
    assert forall x :: Arrived(r, x) ==> Arrived(r', x);
  }

  lemma AcceptNearer(ops: seq<Op>, log: seq<Msg>, groups: set<nat>, r: Reader)
    requires Published(ops, log, groups) && ReaderInv(log, groups, r) && !r.eof
    requires r.read == |log| && Missing(groups, r) == {}
    ensures Nearer(log, groups, r, React(log, r, Accept))
  {
    assert forall g :: g in groups && !Arrived(r, g) ==> g in Missing(groups, r);
    NoGraceNeeded(ops, log, groups, r);
    AcceptMoves(log, r, false);
  }

  /** Until io.EOF there is an event that is possible and brings it nearer; io.EOF itself comes only with nothing missing. */
  lemma Progress(ops: seq<Op>, log: seq<Msg>, groups: set<nat>, r: Reader)
    requires Published(ops, log, groups) && ReaderInv(log, groups, r) && !r.eof
    ensures var e := NextEvent(log, groups, r);
            var r' := React(log, r, e);
            Possible(log, groups, r, e) && Nearer(log, groups, r, r') && (r'.eof ==> Missing(groups, r') == {})
  {
    FinalLogEnds(ops);
    var e := NextEvent(log, groups, r);
    match e
    case Message =>
    case Stream(g) => StreamNearer(log, groups, r, g);
    case Accept =>
      AcceptNearer(ops, log, groups, r);
      AcceptMoves(log, r, false);
  }

  /** A run not yet at io.EOF, or there with nothing missing, can be carried on to io.EOF, whatever the length of the track. */
  lemma {:induction false} EveryRunCanFinish(ops: seq<Op>, log: seq<Msg>, groups: set<nat>, readers: seq<Reader>, events: seq<Event>)
    returns (readers': seq<Reader>, events': seq<Event>)
    requires Published(ops, log, groups) && IsRun(log, groups, readers, events)
    requires var last := readers[|readers| - 1]; last.eof ==> Missing(groups, last) == {}
    ensures IsRun(log, groups, readers', events') && readers <= readers' && events <= events'
    ensures var last := readers'[|readers'| - 1]; last.eof && forall g :: g in last.returned <==> g in groups
    decreases |log| - readers[|readers| - 1].read, Missing(groups, readers[|readers| - 1]),
              |readers[|readers| - 1].queue|, if readers[|readers| - 1].eof then 0 else 1
  {
    var n := |events|;
    var r := readers[n];
    RunKeeps(ops, log, groups, readers, events, n);
    if r.eof {
      forall g | g in groups ensures g in r.returned {
        assert g !in Missing(groups, r);
      }
      return readers, events;
    }
    Progress(ops, log, groups, r);
    var e := NextEvent(log, groups, r);
    RunLonger(log, groups, readers, events, e);
    readers', events' := EveryRunCanFinish(ops, log, groups, readers + [React(log, r, e)], events + [e]);
  }

  lemma RunLonger(log: seq<Msg>, groups: set<nat>, readers: seq<Reader>, events: seq<Event>, e: Event)
    requires IsRun(log, groups, readers, events) && readers[|events|].read <= |log| && Possible(log, groups, readers[|events|], e)
    ensures IsRun(log, groups, readers + [React(log, readers[|events|], e)], events + [e])
  {
  }

  /** readers' and events' carry a run on to io.EOF with exactly the opened groups returned. */
  ghost predicate Completes(log: seq<Msg>, groups: set<nat>, readers: seq<Reader>, events: seq<Event>,
                            readers': seq<Reader>, events': seq<Event>)
  {
    && IsRun(log, groups, readers', events') && readers <= readers' && events <= events'
    && readers'[|readers'| - 1].eof
    && forall g :: g in readers'[|readers'| - 1].returned <==> g in groups
  }

  ghost predicate CanFinish(log: seq<Msg>, groups: set<nat>, readers: seq<Reader>, events: seq<Event>) {
    exists readers', events' :: Completes(log, groups, readers, events, readers', events')
  }

  lemma CompletedMissesNothing(ops: seq<Op>, log: seq<Msg>, groups: set<nat>, readers: seq<Reader>, events: seq<Event>,
                               readers': seq<Reader>, events': seq<Event>)
    requires Published(ops, log, groups) && IsRun(log, groups, readers, events)
    requires Completes(log, groups, readers, events, readers', events')
    ensures readers[|readers| - 1].eof ==> Missing(groups, readers[|readers| - 1]) == {}
  {
    if readers[|events|].eof {
      EofIsForEver(ops, log, groups, readers', events', |events|, |readers'| - 1);
    }
  }

  /** A run can finish exactly when it has not come to io.EOF with a group missing. */
  lemma CanFinishIff(ops: seq<Op>, log: seq<Msg>, groups: set<nat>, readers: seq<Reader>, events: seq<Event>)
    requires Published(ops, log, groups) && IsRun(log, groups, readers, events)
    ensures CanFinish(log, groups, readers, events) <==>
            (readers[|readers| - 1].eof ==> Missing(groups, readers[|readers| - 1]) == {})
  {
    if CanFinish(log, groups, readers, events) {
      var readers', events' :| Completes(log, groups, readers, events, readers', events');
      CompletedMissesNothing(ops, log, groups, readers, events, readers', events');
    }
    if readers[|readers| - 1].eof ==> Missing(groups, readers[|readers| - 1]) == {} {
      var readers', events' := EveryRunCanFinish(ops, log, groups, readers, events);
      assert Completes(log, groups, readers, events, readers', events');
    }
  }

  // After the grace.

  /** Before END the grace changes nothing; after it no pass waits, whatever is missing. */
  lemma GraceEndsWaiting(log: seq<Msg>, r: Reader)
    requires r.read <= |log|
    ensures var ended := ReceivedAll(log[..r.read]).ended;
            && (!ended ==> AcceptResult(log, r, true) == AcceptResult(log, r, false))
            && (ended ==> !AcceptResult(log, r, true).Blocked?)
  {
  }

  /** n passes of AcceptGroup after the grace. */
  function LatePasses(log: seq<Msg>, r: Reader, n: nat): (r': Reader)
    requires r.read <= |log|
    ensures r'.read == r.read && r'.adds == r.adds
  {
    if n == 0 then r else Accepted(log, LatePasses(log, r, n - 1), true)
  }

  lemma LatePass(log: seq<Msg>, r: Reader)
    requires r.read <= |log| && ReceivedAll(log[..r.read]).ended
    ensures AcceptResult(log, r, true) == if r.queue == [] then Eof else Group(r.queue[0])
    ensures var r' := Accepted(log, r, true);
            if r.queue == [] then r'.queue == [] && r'.returned == r.returned && r'.eof
            else r'.queue == r.queue[1..] && r'.returned == r.returned + [r.queue[0]] && r'.eof == r.eof
  {
  }

  lemma {:induction false} LatePassesFrom(log: seq<Msg>, r: Reader, n: nat)
    requires r.read <= |log| && ReceivedAll(log[..r.read]).ended
    ensures var r' := LatePasses(log, r, n);
            var m := if n < |r.queue| then n else |r.queue|;
            && r'.returned == r.returned + r.queue[..m] && r'.queue == r.queue[m..]
            && (r'.eof <==> r.eof || n > |r.queue|)
  {
    if n > 0 {
      LatePassesFrom(log, r, n - 1);
      LatePass(log, LatePasses(log, r, n - 1));
      if n <= |r.queue| {
        Longer(r.queue, n - 1);
        Associative(r.returned, r.queue[..n - 1], [r.queue[n - 1]]);
        ShorterRest(r.queue, n - 1, 1);
      }
    }
  }

  /**
   From every reachable state in which END was read, passes after the grace return exactly the queued groups in order,
   and then io.EOF for ever, whatever is missing.
   */
  lemma LatePassesDrain(ops: seq<Op>, log: seq<Msg>, groups: set<nat>, readers: seq<Reader>, events: seq<Event>, k: nat, n: nat)
    requires Published(ops, log, groups) && IsRun(log, groups, readers, events) && k < |readers| && readers[k].read == |log|
    ensures var r := readers[k];
            var r' := LatePasses(log, r, n);
            var m := if n < |r.queue| then n else |r.queue|;
            && r'.returned == r.returned + r.queue[..m] && r'.queue == r.queue[m..]
            && (r'.eof <==> r.eof || n > |r.queue|)
            && AcceptResult(log, r', true) == if n < |r.queue| then Group(r.queue[n]) else Eof
  {
    var r := readers[k];
    ReadWholeLog(ops);
    assert log[..|log|] == log;
    LatePassesFrom(log, r, n);
    LatePass(log, LatePasses(log, r, n));
  }
}
