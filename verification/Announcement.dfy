/**
 The lifecycle of an announcement: callbacks registered, stopped, and claimed by its end, each run
 exactly once unless its stop came first.
 */
module Announcement {
  import opened Wrappers

  type CallbackId = nat

  /** What AfterFunc returns: the place of the callback in the list, or nothing to stop. */
  datatype Handle = Live(index: nat) | AlreadyEnded

  datatype Stage = Fresh | Deactivated | Snapshotted

  /**
   handlers is the callback list while it exists, a stopped entry being None; pending are callbacks claimed but not
   yet run, by end or by a goroutine of their own.
   */
  datatype State = State(stage: Stage, handlers: seq<Option<CallbackId>>, registered: nat,
                         pending: multiset<CallbackId>, ran: multiset<CallbackId>, stopped: set<CallbackId>)

  const ANNOUNCED := State(Fresh, [], 0, multiset{}, multiset{}, {})

  predicate IsActive(s: State) {
    s.stage == Fresh
  }

  function Claimed(handlers: seq<Option<CallbackId>>): multiset<CallbackId> {
    multiset(NonNil(handlers))
  }

  /** The callbacks of a list that have not been stopped, in order. */
  function NonNil(handlers: seq<Option<CallbackId>>): seq<CallbackId> {
    if handlers == [] then []
    else
      var rest := NonNil(handlers[..|handlers| - 1]);
      match handlers[|handlers| - 1]
      case Some(f) => rest + [f]
      case None => rest
  }

  function Registered(s: State): (State, Handle) {
    var f := s.registered;
    if !IsActive(s) then (s.(registered := f + 1, pending := s.pending + multiset{f}), AlreadyEnded)
    else (s.(registered := f + 1, handlers := s.handlers + [Some(f)]), Live(|s.handlers|))
  }

  function Stopping(s: State, h: Handle): (State, bool) {
    match h
    case AlreadyEnded => (s, false)
    case Live(index) =>
      if s.stage == Snapshotted || index >= |s.handlers| || s.handlers[index].None? then (s, false)
      else (s.(handlers := s.handlers[index := None], stopped := s.stopped + {s.handlers[index].value}), true)
  }

  function Snapshot(s: State): State {
    s.(stage := Snapshotted, handlers := [], pending := s.pending + Claimed(s.handlers))
  }

  datatype Step = AfterFunc | Stop(h: Handle) | Deactivate | TakeHandlers | Run(f: CallbackId)

  predicate Enabled(s: State, e: Step) {
    match e
    case AfterFunc => true
    case Stop(h) => true
    case Deactivate => s.stage == Fresh
    case TakeHandlers => s.stage == Deactivated
    case Run(f) => f in s.pending
  }

  function Apply(s: State, e: Step): State
    requires Enabled(s, e)
  {
    match e
    case AfterFunc => Registered(s).0
    case Stop(h) => Stopping(s, h).0
    case Deactivate => s.(stage := Deactivated)
    case TakeHandlers => Snapshot(s)
    case Run(f) => s.(pending := s.pending - multiset{f}, ran := s.ran + multiset{f})
  }

  function Count(b: bool): nat {
    if b then 1 else 0
  }

  /** Each registered callback is in exactly one place, once: in the list, stopped, claimed, or run. */
  ghost predicate Inv(s: State) {
    && (forall i :: 0 <= i < |s.handlers| && s.handlers[i].Some? ==> s.handlers[i].value == i)
    && (s.stage == Fresh ==> |s.handlers| == s.registered)
    && (s.stage == Snapshotted ==> s.handlers == [])
    && |s.handlers| <= s.registered
    && (forall f: CallbackId :: s.pending[f] + s.ran[f] + Count(InList(s, f)) + Count(f in s.stopped) == Count(f < s.registered))
  }

  predicate InList(s: State, f: CallbackId) {
    f < |s.handlers| && s.handlers[f].Some?
  }

  lemma {:induction false} ClaimedCounts(handlers: seq<Option<CallbackId>>, f: CallbackId)
    requires forall i :: 0 <= i < |handlers| && handlers[i].Some? ==> handlers[i].value == i
    ensures Claimed(handlers)[f] == Count(f < |handlers| && handlers[f].Some?)
  {
    if handlers != [] {
      ClaimedCounts(handlers[..|handlers| - 1], f);
    }
  }

  lemma SnapshotKeeps(s: State)
    requires Inv(s)
    ensures Inv(Snapshot(s))
  {
    forall f: CallbackId ensures Claimed(s.handlers)[f] == Count(InList(s, f)) {
      ClaimedCounts(s.handlers, f);
    }
  }

  lemma StoppingKeeps(s: State, h: Handle)
    requires Inv(s)
    ensures Inv(Stopping(s, h).0)
  {
  }

  lemma StepKeeps(s: State, e: Step)
    requires Inv(s) && Enabled(s, e)
    ensures Inv(Apply(s, e))
  {
    match e
    case Stop(h) => StoppingKeeps(s, h);
    case TakeHandlers => SnapshotKeeps(s);
    case _ =>
  }

  ghost predicate IsRun(states: seq<State>, steps: seq<Step>) {
    && |states| == |steps| + 1 && states[0] == ANNOUNCED
    && forall i :: 0 <= i < |steps| ==> Enabled(states[i], steps[i]) && states[i + 1] == Apply(states[i], steps[i])
  }

  lemma {:induction false} RunKeeps(states: seq<State>, steps: seq<Step>, k: nat)
    requires IsRun(states, steps) && k < |states|
    ensures Inv(states[k])
  {
    if k > 0 {
      RunKeeps(states, steps, k - 1);
      StepKeeps(states[k - 1], steps[k - 1]);
    }
  }

  /** At any time a callback has run at most once, and never when its stop returned true. */
  lemma AtMostOnce(states: seq<State>, steps: seq<Step>, k: nat, f: CallbackId)
    requires IsRun(states, steps) && k < |states|
    ensures states[k].ran[f] <= 1 && (f in states[k].stopped ==> states[k].ran[f] == 0 && states[k].pending[f] == 0)
  {
    RunKeeps(states, steps, k);
  }

  /** Once the announcement has ended and nothing claimed is left to run, each callback ran exactly once unless it was stopped. */
  lemma ExactlyOnce(states: seq<State>, steps: seq<Step>, k: nat, f: CallbackId)
    requires IsRun(states, steps) && k < |states|
    requires states[k].stage == Snapshotted && states[k].pending == multiset{} && f < states[k].registered
    ensures states[k].ran[f] == if f in states[k].stopped then 0 else 1
  {
    RunKeeps(states, steps, k);
  }

  /** A stop returns true for one callback at most once: after it, the same handle finds nothing. */
  lemma StopsOnce(s: State, h: Handle)
    requires Inv(s) && Stopping(s, h).1
    ensures h.Live? && h.index in Stopping(s, h).0.stopped && h.index !in s.stopped
    ensures !Stopping(Stopping(s, h).0, h).1
  {
    assert Count(InList(s, h.index)) == 1;
  }

  // A callback and its own stop.

  /** Until its list is taken, no callback in it is claimed or has run. */
  ghost predicate ListUntouched(s: State) {
    s.stage != Snapshotted ==> forall f: CallbackId :: f < |s.handlers| ==> s.pending[f] == 0 && s.ran[f] == 0
  }

  lemma {:induction false} RunLeavesList(states: seq<State>, steps: seq<Step>, k: nat)
    requires IsRun(states, steps) && k < |states|
    ensures ListUntouched(states[k])
  {
    if k > 0 {
      RunLeavesList(states, steps, k - 1);
      RunKeeps(states, steps, k - 1);
      StepLeavesList(states[k - 1], steps[k - 1]);
    }
  }

  lemma StepLeavesList(s: State, e: Step)
    requires Inv(s) && ListUntouched(s) && Enabled(s, e)
    ensures ListUntouched(Apply(s, e))
  {
  }

  /** A callback registered while the announcement is active has its own place in the list until that is taken. */
  lemma {:induction false} Listed(states: seq<State>, steps: seq<Step>, i: nat, k: nat)
    requires IsRun(states, steps) && i < k < |states| && steps[i].AfterFunc? && states[i].stage == Fresh
    ensures var f := states[i].registered;
            && Registered(states[i]).1 == Live(f) && f < states[k].registered
            && (states[k].stage != Snapshotted ==> f < |states[k].handlers|)
  {
    RunKeeps(states, steps, i);
    if i + 1 < k {
      Listed(states, steps, i, k - 1);
    }
  }

  /** The stop that AfterFunc returned stops that callback and no other: exactly until it is taken or already stopped. */
  lemma OwnStop(states: seq<State>, steps: seq<Step>, i: nat, k: nat)
    requires IsRun(states, steps) && i < k < |states| && steps[i].AfterFunc? && states[i].stage == Fresh
    ensures var f, h := states[i].registered, Registered(states[i]).1;
            && (Stopping(states[k], h).1 <==> states[k].stage != Snapshotted && f !in states[k].stopped)
            && (Stopping(states[k], h).1 ==> Stopping(states[k], h).0.stopped == states[k].stopped + {f})
  {
    var f, s := states[i].registered, states[k];
    Listed(states, steps, i, k);
    RunKeeps(states, steps, k);
    RunLeavesList(states, steps, k);
    assert s.stage != Snapshotted ==> s.pending[f] == 0 && s.ran[f] == 0;
    assert s.pending[f] + s.ran[f] + Count(InList(s, f)) + Count(f in s.stopped) == 1;
  }

  /** The stop h returned true at some step between i and k. */
  ghost predicate StoppedBy(states: seq<State>, steps: seq<Step>, h: Handle, i: nat, k: nat)
    requires i < k <= |steps| < |states|
  {
    exists j :: i < j < k && ReturnsTrue(states[j], steps[j], h)
  }

  predicate ReturnsTrue(s: State, e: Step, h: Handle) {
    e == Stop(h) && Stopping(s, h).1
  }

  lemma StoppedByGrows(states: seq<State>, steps: seq<Step>, h: Handle, i: nat, k: nat)
    requires i + 1 < k <= |steps| < |states|
    ensures StoppedBy(states, steps, h, i, k) <==> StoppedBy(states, steps, h, i, k - 1) || ReturnsTrue(states[k - 1], steps[k - 1], h)
  {
  }

  lemma StopsOnlyItsOwn(s: State, e: Step, f: CallbackId)
    requires Inv(s) && Enabled(s, e)
    ensures f in Apply(s, e).stopped <==> f in s.stopped || ReturnsTrue(s, e, Live(f))
  {
  }

  lemma NotYetStopped(s: State)
    requires Inv(s)
    ensures s.registered !in s.stopped
  {
    var f := s.registered;
    assert s.pending[f] + s.ran[f] + Count(InList(s, f)) + Count(f in s.stopped) == 0;
  }

  /** A callback is stopped exactly when its own stop returned true. */
  lemma StoppedIff(states: seq<State>, steps: seq<Step>, i: nat, k: nat)
    requires IsRun(states, steps) && i < k < |states| && steps[i].AfterFunc? && states[i].stage == Fresh
    ensures states[i].registered in states[k].stopped <==> StoppedBy(states, steps, Registered(states[i]).1, i, k)
  {
    Listed(states, steps, i, k);
    RunKeeps(states, steps, i);
    NotYetStopped(states[i]);
    StoppedSince(states, steps, i, k, states[i].registered);
  }

  lemma StoppedStep(states: seq<State>, steps: seq<Step>, k: nat, f: CallbackId)
    requires IsRun(states, steps) && k < |steps|
    ensures f in states[k + 1].stopped <==> f in states[k].stopped || ReturnsTrue(states[k], steps[k], Live(f))
  {
    RunKeeps(states, steps, k);
    StopsOnlyItsOwn(states[k], steps[k], f);
  }

  lemma {:induction false} StoppedSince(states: seq<State>, steps: seq<Step>, i: nat, k: nat, f: CallbackId)
    requires IsRun(states, steps) && i < k < |states| && f !in states[i + 1].stopped
    ensures f in states[k].stopped <==> StoppedBy(states, steps, Live(f), i, k)
  {
    if i + 1 < k {
      StoppedSince(states, steps, i, k - 1, f);
      StoppedByGrows(states, steps, Live(f), i, k);
      StoppedStep(states, steps, k - 1, f);
    }
  }

  /** So once all that was claimed has run, each callback ran exactly once, unless its own stop returned true, and then never. */
  lemma RunsUnlessStopped(states: seq<State>, steps: seq<Step>, i: nat, k: nat)
    requires IsRun(states, steps) && i < k < |states| && steps[i].AfterFunc?
    requires states[k].stage == Snapshotted && states[k].pending == multiset{}
    ensures states[k].ran[states[i].registered] ==
            if states[i].stage == Fresh && StoppedBy(states, steps, Registered(states[i]).1, i, k) then 0 else 1
  {
    if states[i].stage == Fresh {
      Listed(states, steps, i, k);
      StoppedIff(states, steps, i, k);
    } else {
      TooLateToStop(states, steps, i, k);
    }
    ExactlyOnce(states, steps, k, states[i].registered);
  }

  /** A callback registered once the announcement is no longer active is claimed at once, and nothing stops it. */
  lemma {:induction false} TooLateToStop(states: seq<State>, steps: seq<Step>, i: nat, k: nat)
    requires IsRun(states, steps) && i < k < |states| && steps[i].AfterFunc? && states[i].stage != Fresh
    ensures var f := states[i].registered;
            && Registered(states[i]).1 == AlreadyEnded && !Stopping(states[k], AlreadyEnded).1
            && f < states[k].registered && TooLate(states[k], f)
  {
    RunKeeps(states, steps, k - 1);
    if k == i + 1 {
      NotYetStopped(states[i]);
    } else {
      TooLateToStop(states, steps, i, k - 1);
      TooLateStays(states[k - 1], steps[k - 1], states[i].registered);
    }
  }

  /** f is outside a list that no longer grows, and not stopped. */
  predicate TooLate(s: State, f: CallbackId) {
    s.stage != Fresh && |s.handlers| <= f && f !in s.stopped
  }

  lemma TooLateStays(s: State, e: Step, f: CallbackId)
    requires Inv(s) && Enabled(s, e) && TooLate(s, f)
    ensures TooLate(Apply(s, e), f) && s.registered <= Apply(s, e).registered
  {
    StopsOnlyItsOwn(s, e, f);
  }

  /** Every run can be carried on until the announcement has ended and every callback claimed has run. */
  lemma {:induction false} EveryRunCanEnd(states: seq<State>, steps: seq<Step>) returns (states': seq<State>, steps': seq<Step>)
    requires IsRun(states, steps)
    ensures IsRun(states', steps') && states <= states' && steps <= steps'
    ensures var last := states'[|states'| - 1];
            last.stage == Snapshotted && last.pending == multiset{} && last.registered == states[|states| - 1].registered
    decreases match states[|states| - 1].stage case Fresh => 2 case Deactivated => 1 case Snapshotted => 0,
              |states[|states| - 1].pending|
  {
    var s := states[|steps|];
    if s.stage == Snapshotted && s.pending == multiset{} {
      return states, steps;
    }
    var e := if s.stage == Fresh then Deactivate else if s.stage == Deactivated then TakeHandlers else Run(PickOne(s.pending));
    if e.Run? {
      assert |Apply(s, e).pending| == |s.pending| - 1;
    }
    RunLonger(states, steps, e);
    states', steps' := EveryRunCanEnd(states + [Apply(s, e)], steps + [e]);
  }

  ghost function PickOne(m: multiset<CallbackId>): (f: CallbackId)
    requires m != multiset{}
    ensures f in m
  {
    var f :| f in m;
    f
  }

  lemma RunLonger(states: seq<State>, steps: seq<Step>, e: Step)
    requires IsRun(states, steps) && Enabled(states[|steps|], e)
    ensures IsRun(states + [Apply(states[|steps|], e)], steps + [e])
  {
  }

  class Announcement {
    var active: bool
    var ended: bool
    var isNil: bool
    var afterHandlers: seq<Option<CallbackId>>
    var registered: nat
    ghost var stopped: set<CallbackId>

    ghost function View(pending: multiset<CallbackId>, ran: multiset<CallbackId>): State
      reads this
    {
      State(if active then Fresh else if isNil then Snapshotted else Deactivated, afterHandlers, registered, pending, ran, stopped)
    }

    ghost predicate Valid()
      reads this
    {
      (active ==> !isNil && !ended) && (isNil ==> afterHandlers == [])
    }

    constructor ()
      ensures Valid() && View(multiset{}, multiset{}) == ANNOUNCED
    {
      active, ended, isNil := true, false, false;
      afterHandlers, registered, stopped := [], 0, {};
    }

    /** spawned is the callback run in a goroutine of its own when the announcement has already ended. */
    method AfterFunc() returns (h: Handle, spawned: multiset<CallbackId>)
      requires Valid()
      modifies this
      ensures Valid()
      ensures forall p, r :: (View(p + spawned, r), h) == Registered(old(View(p, r)))
      ensures if old(active) then h == Live(|old(afterHandlers)|) && afterHandlers == old(afterHandlers) + [Some(old(registered))] && spawned == multiset{}
              else h == AlreadyEnded && afterHandlers == old(afterHandlers) && spawned == multiset{old(registered)}
    {
      var f := registered;
      registered := registered + 1;
      if !active { return AlreadyEnded, multiset{f}; }
      h, spawned := Live(|afterHandlers|), multiset{};
      afterHandlers := afterHandlers + [Some(f)];
      assert forall p: multiset<CallbackId> :: p + multiset{} == p;
    }

    method Stop(h: Handle) returns (r: bool)
      requires Valid()
      modifies this
      ensures Valid()
      ensures forall p, n :: (View(p, n), r) == Stopping(old(View(p, n)), h)
      ensures r == (h.Live? && !isNil && h.index < |old(afterHandlers)| && old(afterHandlers)[h.index].Some?)
      ensures afterHandlers == if r then old(afterHandlers)[h.index := None] else old(afterHandlers)
    {
      match h
      case AlreadyEnded => return false;
      case Live(index) =>
        if isNil || index >= |afterHandlers| { return false; }
        if afterHandlers[index].None? { return false; }
        stopped := stopped + {afterHandlers[index].value};
        afterHandlers := afterHandlers[index := None];
        return true;
    }

    /** The first half of end, under its once: the announcement is no longer active. */
    method BeginEnd() returns (first: bool)
      requires Valid()
      modifies this
      ensures Valid() && first == !old(ended) && ended && (first ==> !active)
      ensures forall p, n :: View(p, n) == if first && old(active) then old(View(p, n)).(stage := Deactivated) else old(View(p, n))
    {
      if ended { return false; }
      ended, active := true, false;
      return true;
    }

    /** The second half: takes the list and hands its callbacks to the workers. */
    method FinishEnd(numCPU: nat) returns (chunks: seq<seq<CallbackId>>)
      requires Valid() && ended && !isNil && numCPU > 0
      modifies this
      ensures Valid()
      ensures forall p, n :: View(p + multiset(Concat(chunks)), n) == Snapshot(old(View(p, n)))
      ensures isNil && afterHandlers == [] && Concat(chunks) == NonNil(old(afterHandlers))
    {
      var handlers := afterHandlers;
      afterHandlers, isNil := [], true;
      chunks := Distribute(handlers, numCPU);
    }
  }

  // The workers.

  function Concat(chunks: seq<seq<CallbackId>>): seq<CallbackId> {
    if chunks == [] then [] else Concat(chunks[..|chunks| - 1]) + chunks[|chunks| - 1]
  }

  lemma ConcatAppend(chunks: seq<seq<CallbackId>>, chunk: seq<CallbackId>)
    ensures Concat(chunks + [chunk]) == Concat(chunks) + chunk
  {
    assert (chunks + [chunk])[..|chunks|] == chunks;
  }

  function Min(a: nat, b: nat): nat {
    if a < b then a else b
  }

  lemma Times(i: nat, size: nat)
    ensures (i + 1) * size == i * size + size
  {
  }

  lemma CeilingCovers(count: nat, workers: nat)
    requires workers > 0
    ensures workers * ((count + workers - 1) / workers) >= count
  {
  }

  method LiveHandlers(handlers: seq<Option<CallbackId>>) returns (live: seq<CallbackId>)
    ensures live == NonNil(handlers)
  {
    live := [];
    for i := 0 to |handlers|
      invariant live == NonNil(handlers[..i])
    {
      assert handlers[..i + 1][..i] == handlers[..i];
      if handlers[i].Some? { live := live + [handlers[i].value]; }
    }
    assert handlers[..|handlers|] == handlers;
  }

  /** i * size, by addition. */
  function Steps(i: nat, size: nat): nat {
    if i == 0 then 0 else Steps(i - 1, size) + size
  }

  lemma {:induction false} StepsAre(i: nat, size: nat)
    ensures Steps(i, size) == i * size
  {
    if i > 0 {
      StepsAre(i - 1, size);
      Times(i - 1, size);
    }
  }

  /** The callbacks from start on that are worker's: chunkSize of them, or what is left. */
  method ChunkOf(live: seq<CallbackId>, i: nat, chunkSize: nat) returns (chunk: seq<CallbackId>)
    ensures var start := Steps(i, chunkSize);
            chunk == if start < |live| then live[start..Min(start + chunkSize, |live|)] else []
  {
    StepsAre(i, chunkSize);
    var start := i * chunkSize;
    var end := Min(start + chunkSize, |live|);
    chunk := if start < |live| then live[start..end] else [];
  }

  method CutBy(live: seq<CallbackId>, workerCount: nat, chunkSize: nat) returns (chunks: seq<seq<CallbackId>>)
    requires Steps(workerCount, chunkSize) >= |live|
    ensures Concat(chunks) == live && |chunks| <= workerCount
  {
    chunks := [];
    for i := 0 to workerCount
      invariant |chunks| <= i && Concat(chunks) == live[..Min(Steps(i, chunkSize), |live|)]
    {
      var chunk := ChunkOf(live, i, chunkSize);
      ghost var start := Steps(i, chunkSize);
      if |chunk| > 0 {
        ConcatAppend(chunks, chunk);
        Adjacent(live, 0, start, Min(start + chunkSize, |live|));
        chunks := chunks + [chunk];
      }
    }
    assert live[..|live|] == live;
  }

  /** Cuts the callbacks into one chunk a worker, the last ones perhaps short or missing. */
  method Cut(live: seq<CallbackId>, workerCount: nat) returns (chunks: seq<seq<CallbackId>>)
    requires workerCount > 0
    ensures Concat(chunks) == live && |chunks| <= workerCount
  {
    var chunkSize := (|live| + workerCount - 1) / workerCount;
    CeilingCovers(|live|, workerCount);
    StepsAre(workerCount, chunkSize);
    chunks := CutBy(live, workerCount, chunkSize);
  }

  /** Up to 128 callbacks run inline; more are cut into chunks. Nothing is lost, repeated or reordered. */
  method Distribute(handlers: seq<Option<CallbackId>>, numCPU: nat) returns (chunks: seq<seq<CallbackId>>)
    requires numCPU > 0
    ensures Concat(chunks) == NonNil(handlers)
    ensures |chunks| <= if |NonNil(handlers)| <= 128 then 1 else numCPU
  {
    var live := LiveHandlers(handlers);
    if |live| <= 128 {
      chunks := [live];
      assert Concat(chunks[..0]) == [];
    } else {
      chunks := Cut(live, Min(numCPU, |live|));
    }
  }
}
