/**
 The subscribe stream: what a publisher may write on it under concurrent OpenGroup, DropGroups,
 Redirect and Close, and how the subscriber reads it.
 */
module SubscribeStream {

  const MIN_GROUP_SEQUENCE: nat := 0
  const MAX_GROUP_SEQUENCE: nat := 0x3FFF_FFFF_FFFF_FFFF
  const UINT64: nat := 0x1_0000_0000_0000_0000

  /** The next group sequence; the largest wraps to the smallest. */
  function Next(group: nat): nat {
    if group == MAX_GROUP_SEQUENCE then MIN_GROUP_SEQUENCE else group + 1
  }

  datatype Msg = Ok(group: nat) | Drop(start: nat, end: nat) | End(group: nat) | Redirect

  /** What becomes of a write on a live stream: all of it goes out, none of it, or only its start. */
  datatype Fate = Sent | Lost | Torn

  /** The answering side: whole messages written, whether a partial one follows, whether the stream is over, and the flags. */
  datatype Response = Response(log: seq<Msg>, torn: bool, dead: bool,
                               responseStarted: bool, endSent: bool, redirected: bool)

  const FRESH := Response([], false, false, false, false, false)

  /** A write on a stream already closed or reset fails; one that fails is the stream's last. */
  predicate Succeeds(s: Response, fate: Fate) {
    !s.dead && fate == Sent
  }

  function Written(s: Response, m: Msg, fate: Fate): Response {
    if s.dead then s
    else if fate == Sent then s.(log := s.log + [m])
    else s.(dead := true, torn := fate == Torn)
  }

  function WroteOk(s: Response, group: nat, fate: Fate): Response {
    var w := Written(s, Ok(group), fate);
    if Succeeds(s, fate) then w.(responseStarted := true) else w
  }

  function Reset(s: Response): Response {
    if s.redirected then s else s.(dead := true)
  }

  function EnsuredOk(s: Response, group: nat, fate: Fate): Response {
    if s.responseStarted then s
    else if Succeeds(s, fate) then WroteOk(s, group, fate)
    else Reset(WroteOk(s, group, fate))
  }

  function WroteDrop(s: Response, start: nat, end: nat, fate: Fate): Response {
    if !s.responseStarted then WroteOk(s, Next(end), fate) else Written(s, Drop(start, end), fate)
  }

  function WroteEnd(s: Response, group: nat, fate: Fate): Response {
    if s.endSent then s
    else
      var w := Written(s, End(group), fate);
      if Succeeds(s, fate) then w.(endSent := true) else w
  }

  predicate Answered(s: Response) {
    s.responseStarted || s.endSent
  }

  function WroteRedirect(s: Response, fate: Fate): Response {
    if Answered(s) then s
    else Written(s, Redirect, fate).(responseStarted := true, endSent := true, redirected := true, dead := true)
  }

  function Closed(s: Response): Response {
    if s.redirected then s else s.(dead := true)
  }

  /** The publisher's end of a subscribe stream. Each method is one critical section. */
  class ReceiveSubscribeStream {
    var log: seq<Msg>
    var torn: bool
    var dead: bool
    var responseStarted: bool
    var endSent: bool
    var redirected: bool

    function View(): Response
      reads this
    {
      Response(log, torn, dead, responseStarted, endSent, redirected)
    }

    constructor ()
      ensures View() == FRESH
    {
      log, torn, dead := [], false, false;
      responseStarted, endSent, redirected := false, false, false;
    }

    method Write(m: Msg, fate: Fate) returns (ok: bool)
      modifies `log, `dead, `torn
      ensures ok == Succeeds(old(View()), fate)
      ensures View() == Written(old(View()), m, fate)
    {
      if dead { return false; }
      if fate == Sent {
        log := log + [m];
        return true;
      }
      dead, torn := true, fate == Torn;
      return false;
    }

    method WriteOkLocked(group: nat, fate: Fate) returns (ok: bool)
      modifies this
      ensures ok == Succeeds(old(View()), fate)
      ensures View() == WroteOk(old(View()), group, fate)
    {
      ok := Write(Ok(group), fate);
      if ok { responseStarted := true; }
    }

    method EnsureOk(group: nat, fate: Fate) returns (ok: bool)
      modifies this
      ensures ok == (old(responseStarted) || Succeeds(old(View()), fate))
      ensures View() == EnsuredOk(old(View()), group, fate)
    {
      if responseStarted { return true; }
      ok := WriteOkLocked(group, fate);
      if !ok { CloseWithError(); }
    }

    method WriteDrop(start: nat, end: nat, fate: Fate) returns (ok: bool)
      modifies this
      ensures ok == Succeeds(old(View()), fate)
      ensures View() == WroteDrop(old(View()), start, end, fate)
    {
      if !responseStarted {
        ok := WriteOkLocked(Next(end), fate);
      } else {
        ok := Write(Drop(start, end), fate);
      }
    }

    method WriteEnd(group: nat, fate: Fate) returns (ok: bool)
      modifies this
      ensures ok == (old(endSent) || Succeeds(old(View()), fate))
      ensures View() == WroteEnd(old(View()), group, fate)
    {
      if endSent { return true; }
      ok := Write(End(group), fate);
      if ok { endSent := true; }
    }

    method WriteRedirect(fate: Fate) returns (answered: bool)
      modifies this
      ensures answered == Answered(old(View()))
      ensures View() == WroteRedirect(old(View()), fate)
    {
      if responseStarted || endSent { return true; }
      responseStarted, endSent, redirected := true, true, true;
      var ok := Write(Redirect, fate);
      dead := true;
      return false;
    }

    method Close()
      modifies `dead
      ensures View() == Closed(old(View()))
    {
      if redirected { return; }
      dead := true;
    }

    method CloseWithError()
      modifies `dead
      ensures View() == Reset(old(View()))
    {
      if redirected { return; }
      dead := true;
    }
  }

  // The track writer's operations, interleaved.

  type Thread = nat

  /** Where an OpenGroup or DropGroups call is. Opening and beyond hold the writer's read lock. */
  datatype Phase =
    | Idle
    | HasSequence(group: nat)
    | Opening(group: nat)
    | Answering(group: nat)
    | HasDrop(start: nat, end: nat)
    | Dropping(start: nat, end: nat)

  /** stopped is the group manager gone; groups holds the sequences of the groups opened. */
  datatype Writer = Writer(counter: nat, stopped: bool, response: Response, phases: map<Thread, Phase>, groups: set<nat>)

  const NEW_WRITER := Writer(0, false, FRESH, map[], {})

  function PhaseOf(w: Writer, t: Thread): Phase {
    if t in w.phases then w.phases[t] else Idle
  }

  predicate HoldsReadLock(p: Phase) {
    p.Opening? || p.Answering? || p.Dropping?
  }

  /** Close, CloseWithError and Redirect take the write lock, so no reader is inside. */
  ghost predicate NoReaders(w: Writer) {
    forall t :: t in w.phases ==> !HoldsReadLock(w.phases[t])
  }

  datatype Step =
    | Reserve(t: Thread)
    | ReserveAt(t: Thread, group: nat)
    | Skip(n: nat)
    | ReserveDrop(t: Thread, n: nat)
    | AskDrop(t: Thread, start: nat, end: nat)
    | Enter(t: Thread)
    | Answer(t: Thread, fate: Fate)
    | Opened(t: Thread)
    | WriteDropped(t: Thread, fate: Fate)
    | GiveUp(t: Thread)
    | Close(fate: Fate)
    | CloseWithError
    | SendRedirect(fate: Fate)
    | StreamDies

  function Move(w: Writer, t: Thread, p: Phase): Writer {
    w.(phases := w.phases[t := p])
  }

  /** Whether a step may be taken in a state. */
  ghost predicate Enabled(w: Writer, s: Step) {
    match s
    case Reserve(t) => PhaseOf(w, t).Idle?
    case ReserveAt(t, group) => PhaseOf(w, t).Idle? && group < UINT64
    case Skip(n) => n < UINT64
    case ReserveDrop(t, n) => PhaseOf(w, t).Idle? && 0 < n && (w.counter + n) % UINT64 >= (w.counter + 1) % UINT64 && n < UINT64
    case AskDrop(t, start, end) => PhaseOf(w, t).Idle? && 0 < start <= end < UINT64
    case Enter(t) => (PhaseOf(w, t).HasSequence? && !w.stopped) || PhaseOf(w, t).HasDrop?
    case Answer(t, _) => PhaseOf(w, t).Opening?
    case Opened(t) => PhaseOf(w, t).Answering?
    case WriteDropped(t, _) => PhaseOf(w, t).Dropping?
    case GiveUp(t) => true
    case Close(_) => NoReaders(w)
    case CloseWithError => NoReaders(w)
    case SendRedirect(_) => NoReaders(w)
    case StreamDies => true
  }

  function Apply(w: Writer, s: Step): Writer {
    match s
    case Reserve(t) => Move(w.(counter := (w.counter + 1) % UINT64), t, HasSequence((w.counter + 1) % UINT64))
    case ReserveAt(t, group) => Move(w.(counter := if group > w.counter then group else w.counter), t, HasSequence(group))
    case Skip(n) => w.(counter := (w.counter + n) % UINT64)
    case ReserveDrop(t, n) =>
      Move(w.(counter := (w.counter + n) % UINT64), t, HasDrop((w.counter + 1) % UINT64, (w.counter + n) % UINT64))
    case AskDrop(t, start, end) => Move(w, t, HasDrop(start, end))
    case Enter(t) =>
      (match PhaseOf(w, t)
       case HasSequence(group) => Move(w, t, Opening(group))
       case HasDrop(start, end) => if start == 0 || end == 0 then Move(w, t, Idle) else Move(w, t, Dropping(start, end))
       case _ => w)
    case Answer(t, fate) =>
      (match PhaseOf(w, t)
       case Opening(group) =>
         var ok := w.response.responseStarted || Succeeds(w.response, fate);
         Move(w.(response := EnsuredOk(w.response, group, fate)), t, if ok then Answering(group) else Idle)
       case _ => w)
    case Opened(t) =>
      (match PhaseOf(w, t)
       case Answering(group) => Move(w.(groups := w.groups + {group}), t, Idle)
       case _ => w)
    case WriteDropped(t, fate) =>
      (match PhaseOf(w, t)
       case Dropping(start, end) => Move(w.(response := WroteDrop(w.response, start, end, fate)), t, Idle)
       case _ => w)
    case GiveUp(t) => Move(w, t, Idle)
    case Close(fate) => w.(stopped := true, response := Closed(WroteEnd(w.response, w.counter, fate)))
    case CloseWithError => w.(stopped := true, response := Reset(w.response))
    case SendRedirect(fate) =>
      if Answered(w.response) then w else w.(stopped := true, response := WroteRedirect(w.response, fate))
    case StreamDies => w.(response := w.response.(dead := true))
  }

  /** OK, then DROPs, then perhaps END; END alone; or REDIRECT alone. */
  predicate LegalLog(log: seq<Msg>) {
    || log == []
    || (|log| == 1 && (log[0].End? || log[0].Redirect?))
    || (log[0].Ok? && forall i :: 1 <= i < |log| ==> log[i].Drop? || (log[i].End? && i == |log| - 1))
  }

  ghost predicate LogInv(s: Response) {
    && LegalLog(s.log)
    && (s.torn ==> s.dead)
    && (s.log != [] && (s.log[|s.log| - 1].End? || s.log[|s.log| - 1].Redirect?) ==> s.dead)
    && (!s.dead ==> (s.responseStarted <==> s.log != []) && !s.endSent && !s.redirected)
  }

  lemma StepKeepsLog(w: Writer, s: Step)
    requires LogInv(w.response)
    ensures LogInv(Apply(w, s).response)
    ensures w.response.log <= Apply(w, s).response.log
  {
  }

  /** Every group opened, and every sequence a call has yet to open, is at most bound. */
  ghost predicate UpTo(w: Writer, bound: nat) {
    && (forall g :: g in w.groups ==> g <= bound)
    && (forall t :: t in w.phases ==> PhaseUpTo(w.phases[t], bound))
  }

  predicate PhaseUpTo(p: Phase, bound: nat) {
    match p
    case HasSequence(g) => g <= bound
    case Opening(g) => g <= bound
    case Answering(g) => g <= bound
    case _ => true
  }

  /** The counter, which END will name, bounds every sequence in use. */
  ghost predicate Bounded(w: Writer) {
    UpTo(w, w.counter)
  }

  ghost predicate EndCovers(w: Writer) {
    forall i, g :: 0 <= i < |w.response.log| && w.response.log[i].End? && g in w.groups ==> g <= w.response.log[i].group
  }

  /** Once END is out the track has stopped and no call is inside: nothing more opens. */
  ghost predicate EndIsFinal(w: Writer) {
    HasEnd(w.response.log) ==>
      w.stopped && forall t :: t in w.phases ==> !w.phases[t].Opening? && !w.phases[t].Answering?
  }

  /** The counter does not wrap in the step: what a caller of OpenGroup or SkipGroups can check beforehand. */
  predicate NoWrap(w: Writer, s: Step) {
    match s
    case Reserve(_) => w.counter + 1 < UINT64
    case Skip(n) => w.counter + n < UINT64
    case ReserveDrop(_, n) => w.counter + n < UINT64
    case _ => true
  }

  ghost predicate Inv(w: Writer) {
    LogInv(w.response) && Bounded(w) && EndCovers(w) && EndIsFinal(w)
  }

  lemma UpToGrows(w: Writer, bound: nat, more: nat)
    requires UpTo(w, bound) && bound <= more
    ensures UpTo(w, more)
  {
    assert forall t :: t in w.phases ==> PhaseUpTo(w.phases[t], bound);
  }

  /** A call that moves on, to a phase within the bound, and a group opened within it. */
  lemma MoveKeepsUpTo(w: Writer, t: Thread, p: Phase, bound: nat)
    requires UpTo(w, bound) && PhaseUpTo(p, bound)
    ensures UpTo(Move(w, t, p), bound)
  {
    assert forall u :: u in w.phases && u != t ==> Move(w, t, p).phases[u] == w.phases[u];
  }

  lemma StepKeepsBound(w: Writer, s: Step)
    requires Bounded(w) && Enabled(w, s) && NoWrap(w, s)
    ensures Bounded(Apply(w, s)) && w.counter <= Apply(w, s).counter
  {
    UpToGrows(w, w.counter, Apply(w, s).counter);
    match s
    case Reserve(t) => MoveKeepsUpTo(w, t, PhaseOf(Apply(w, s), t), Apply(w, s).counter);
    case ReserveAt(t, g) => MoveKeepsUpTo(w, t, PhaseOf(Apply(w, s), t), Apply(w, s).counter);
    case ReserveDrop(t, n) => MoveKeepsUpTo(w, t, PhaseOf(Apply(w, s), t), Apply(w, s).counter);
    case AskDrop(t, _, _) => MoveKeepsUpTo(w, t, PhaseOf(Apply(w, s), t), w.counter);
    case Enter(t) => CallKeepsBound(w, s, t);
    case Answer(t, _) => CallKeepsBound(w, s, t);
    case Opened(t) => CallKeepsBound(w, s, t);
    case WriteDropped(t, _) => CallKeepsBound(w, s, t);
    case GiveUp(t) => MoveKeepsUpTo(w, t, Idle, w.counter);
    case _ =>
  }

  /** A step within a call leaves the counter alone and opens only the sequence the call has. */
  lemma CallKeepsBound(w: Writer, s: Step, t: Thread)
    requires Bounded(w) && Enabled(w, s)
    requires s == Enter(t) || (s.Answer? && s.t == t) || s == Opened(t) || (s.WriteDropped? && s.t == t)
    ensures Bounded(Apply(w, s)) && Apply(w, s).counter == w.counter
  {
    assert t in w.phases ==> PhaseUpTo(w.phases[t], w.counter);
    MoveKeepsUpTo(w, t, PhaseOf(Apply(w, s), t), w.counter);
  }

  /**
   OpenGroup, SkipGroups and DropNextGroups keep the bound exactly when the counter does not wrap or what remains of it
   is still enough for every group opened and every call on its way to open one. No other step breaks it.
   */
  lemma WrapKeepsBoundIff(w: Writer, s: Step)
    requires Bounded(w) && Enabled(w, s)
    ensures Bounded(Apply(w, s)) <==> NoWrap(w, s) || UpTo(w, Apply(w, s).counter)
  {
    if NoWrap(w, s) {
      StepKeepsBound(w, s);
    } else {
      var w' := Apply(w, s);
      assert w'.groups == w.groups;
      match s
      case Reserve(t) => MovedUpTo(w, t, w'.phases[t], w'.counter);
      case ReserveDrop(t, n) => MovedUpTo(w, t, w'.phases[t], w'.counter);
      case _ =>
    }
  }

  /** A call that was idle and takes a sequence within the bound changes nothing for it. */
  lemma MovedUpTo(w: Writer, t: Thread, p: Phase, bound: nat)
    requires PhaseOf(w, t).Idle? && PhaseUpTo(p, bound)
    ensures UpTo(Move(w, t, p), bound) <==> UpTo(w, bound)
  {
    var w' := Move(w, t, p);
    assert forall u :: u in w.phases && u != t ==> w'.phases[u] == w.phases[u];
    assert forall u :: u in w'.phases && u != t ==> u in w.phases;
  }

  /** A caller's guard: the step does not wrap the counter, or leaves it large enough. */
  ghost predicate KeepsBound(w: Writer, s: Step) {
    NoWrap(w, s) || UpTo(w, Apply(w, s).counter)
  }

  /** A step appends at most one message; only Close appends an END, and it names the counter. */
  lemma StepAppends(w: Writer, s: Step)
    requires LogInv(w.response) && Enabled(w, s)
    ensures var before, after := w.response.log, Apply(w, s).response.log;
            || after == before
            || (|after| == |before| + 1 && before == after[..|before|] &&
                (after[|before|].End? ==> s.Close? && after[|before|].group == w.counter))
  {
    var before, after := w.response.log, Apply(w, s).response.log;
    if after != before {
      assert after == before + [after[|before|]];
    }
  }

  predicate HasEnd(log: seq<Msg>) {
    exists i :: 0 <= i < |log| && log[i].End?
  }

  lemma StepKeepsCovers(w: Writer, s: Step)
    requires Inv(w) && Enabled(w, s)
    ensures EndCovers(Apply(w, s))
  {
    StepAppends(w, s);
    var before, after := w.response.log, Apply(w, s).response.log;
    assert forall i :: 0 <= i < |before| ==> after[i] == before[i];
    if HasEnd(before) {
      EndIsLast(w, s);
    }
  }

  /** After END the log and the groups stay as they are. */
  lemma EndIsLast(w: Writer, s: Step)
    requires Inv(w) && Enabled(w, s) && HasEnd(w.response.log)
    ensures Apply(w, s).response.log == w.response.log && Apply(w, s).groups == w.groups
  {
    EndMeansDead(w);
  }

  lemma EndMeansDead(w: Writer)
    requires LogInv(w.response) && HasEnd(w.response.log)
    ensures w.response.dead
  {
  }

  lemma StepKeepsFinal(w: Writer, s: Step)
    requires Inv(w) && Enabled(w, s)
    ensures EndIsFinal(Apply(w, s))
  {
    StepAppends(w, s);
    if HasEnd(w.response.log) {
      EndIsLast(w, s);
    } else if HasEnd(Apply(w, s).response.log) {
      var before, after := w.response.log, Apply(w, s).response.log;
      assert forall i :: 0 <= i < |before| ==> after[i] == before[i];
      assert s.Close?;
    }
  }

  lemma StepKeepsEnd(w: Writer, s: Step)
    requires Inv(w) && Enabled(w, s) && KeepsBound(w, s)
    ensures Inv(Apply(w, s))
  {
    StepKeepsLog(w, s);
    WrapKeepsBoundIff(w, s);
    StepKeepsCovers(w, s);
    StepKeepsFinal(w, s);
  }

  /** A run from a fresh writer; steps[i] leads from states[i] to states[i + 1]. */
  ghost predicate IsRun(states: seq<Writer>, steps: seq<Step>) {
    && |states| == |steps| + 1
    && states[0] == NEW_WRITER
    && forall i :: 0 <= i < |steps| ==> Enabled(states[i], steps[i]) && states[i + 1] == Apply(states[i], steps[i])
  }

  /** Whatever runs concurrently, the log is OK DROP* END, END or REDIRECT, or a prefix of one. */
  lemma {:induction false} EveryLogIsLegal(states: seq<Writer>, steps: seq<Step>, k: nat)
    requires IsRun(states, steps) && k < |states|
    ensures LogInv(states[k].response) && LegalLog(states[k].response.log)
  {
    if k > 0 {
      EveryLogIsLegal(states, steps, k - 1);
      StepKeepsLog(states[k - 1], steps[k - 1]);
    }
  }

  /** In a run whose steps keep the bound, wrapping or not, any END names a sequence at least that of every group opened. */
  lemma {:induction false} EndNamesTheLast(states: seq<Writer>, steps: seq<Step>, k: nat)
    requires IsRun(states, steps) && k < |states|
    requires forall i :: 0 <= i < k ==> KeepsBound(states[i], steps[i])
    ensures Inv(states[k])
  {
    if k > 0 {
      EndNamesTheLast(states, steps, k - 1);
      StepKeepsEnd(states[k - 1], steps[k - 1]);
    }
  }

  // What goes out.

  /** What a step owes the subscriber whose stream is live, if its write goes out. */
  function Owed(w: Writer, s: Step): seq<Msg> {
    match s
    case Answer(t, fate) =>
      (match PhaseOf(w, t)
       case Opening(group) => if fate == Sent && w.response.log == [] then [Ok(group)] else []
       case _ => [])
    case WriteDropped(t, fate) =>
      (match PhaseOf(w, t)
       case Dropping(start, end) => if fate == Sent then [if w.response.log == [] then Ok(Next(end)) else Drop(start, end)] else []
       case _ => [])
    case Close(fate) => if fate == Sent then [End(w.counter)] else []
    case SendRedirect(fate) => if fate == Sent && w.response.log == [] then [Redirect] else []
    case _ => []
  }

  lemma StepWrites(w: Writer, s: Step)
    requires LogInv(w.response) && Enabled(w, s)
    ensures Apply(w, s).response.log == w.response.log + (if w.response.dead then [] else Owed(w, s))
    ensures (w.response.dead ==> Apply(w, s).response.dead) && (s.Close? || s.CloseWithError? || s.StreamDies? ==> Apply(w, s).response.dead)
    ensures s.SendRedirect? && w.response.log == [] ==> Apply(w, s).response.dead
  {
  }

  lemma {:induction false} DeadIsSilent(states: seq<Writer>, steps: seq<Step>, i: nat, k: nat)
    requires IsRun(states, steps) && i <= k < |states| && states[i].response.dead
    ensures states[k].response.dead && states[k].response.log == states[i].response.log
  {
    if i < k {
      DeadIsSilent(states, steps, i, k - 1);
      EveryLogIsLegal(states, steps, k - 1);
      StepWrites(states[k - 1], steps[k - 1]);
    }
  }

  lemma {:induction false} LogGrows(states: seq<Writer>, steps: seq<Step>, i: nat, k: nat)
    requires IsRun(states, steps) && i <= k < |states|
    ensures states[i].response.log <= states[k].response.log
  {
    if i < k {
      LogGrows(states, steps, i, k - 1);
      EveryLogIsLegal(states, steps, k - 1);
      StepKeepsLog(states[k - 1], steps[k - 1]);
    }
  }

  /**
   What is owed is in every later log, in its place: the OK for the first group or drop, each DROP, the END with the
   counter, or the REDIRECT, which is sent only as the first response. The last two are also the log's last.
   */
  lemma WhatIsOwedIsWritten(states: seq<Writer>, steps: seq<Step>, i: nat, k: nat)
    requires IsRun(states, steps) && i < k < |states| && !states[i].response.dead
    ensures states[i].response.log + Owed(states[i], steps[i]) <= states[k].response.log
    ensures steps[i].Close? || (steps[i].SendRedirect? && states[i].response.log == []) ==>
              states[k].response.log == states[i].response.log + Owed(states[i], steps[i])
  {
    EveryLogIsLegal(states, steps, i);
    StepWrites(states[i], steps[i]);
    LogGrows(states, steps, i + 1, k);
    if states[i + 1].response.dead {
      DeadIsSilent(states, steps, i + 1, k);
    }
  }

  /** A group is opened only behind an OK; and a closed or redirected track opens none. */
  ghost predicate OkComesFirst(w: Writer) {
    && (w.groups != {} ==> StartsOk(w.response.log))
    && (forall t :: t in w.phases && w.phases[t].Answering? ==> StartsOk(w.response.log))
    && (w.response.responseStarted && !w.response.redirected ==> StartsOk(w.response.log))
    && StoppedOpensNone(w)
  }

  ghost predicate StoppedOpensNone(w: Writer) {
    && (w.response.redirected ==> w.stopped)
    && (w.stopped ==> forall t :: t in w.phases ==> !w.phases[t].Opening? && !w.phases[t].Answering?)
  }

  predicate StartsOk(log: seq<Msg>) {
    log != [] && log[0].Ok?
  }

  lemma StepKeepsStopped(w: Writer, s: Step)
    requires StoppedOpensNone(w) && Enabled(w, s)
    ensures StoppedOpensNone(Apply(w, s))
  {
  }

  lemma StepKeepsOk(w: Writer, s: Step)
    requires OkComesFirst(w) && LogInv(w.response) && Enabled(w, s)
    ensures OkComesFirst(Apply(w, s))
  {
    StepWrites(w, s);
    StepKeepsStopped(w, s);
    match s
    case Enter(t) =>
    case Answer(t, _) =>
    case Opened(t) =>
    case WriteDropped(t, _) =>
    case Close(_) =>
    case SendRedirect(_) =>
    case _ =>
  }

  lemma {:induction false} OpenedBehindOk(states: seq<Writer>, steps: seq<Step>, k: nat)
    requires IsRun(states, steps) && k < |states|
    ensures OkComesFirst(states[k])
  {
    if k > 0 {
      OpenedBehindOk(states, steps, k - 1);
      EveryLogIsLegal(states, steps, k - 1);
      StepKeepsOk(states[k - 1], steps[k - 1]);
    }
  }

  /** Nothing has ended the response, and no call holds the read lock. */
  ghost predicate CanStillClose(w: Writer) {
    LogInv(w.response) && !w.response.dead && !w.stopped && NoReaders(w)
  }

  ghost predicate Leads(w: Writer, steps: seq<Step>, last: Writer)
    decreases |steps|
  {
    if steps == [] then last == w else Enabled(w, steps[0]) && Leads(Apply(w, steps[0]), steps[1..], last)
  }

  lemma LeadsOn(w: Writer, s: Step, steps: seq<Step>, last: Writer)
    requires Enabled(w, s) && Leads(Apply(w, s), steps, last)
    ensures Leads(w, [s] + steps, last)
  {
    assert ([s] + steps)[1..] == steps;
  }

  /** Once the bound is broken, calls that can still be made bring an END below a group that was opened. */
  lemma BrokenBoundShows(w: Writer) returns (steps: seq<Step>, last: Writer)
    requires CanStillClose(w) && !Bounded(w)
    ensures Leads(w, steps, last) && !EndCovers(last)
  {
    if g :| g in w.groups && g > w.counter {
      steps, last := CloseShows(w, g);
    } else {
      var t :| t in w.phases && !PhaseUpTo(w.phases[t], w.counter);
      steps, last := OpeningShows(w, t, w.phases[t].group);
    }
  }

  lemma OpeningShows(w: Writer, t: Thread, g: nat) returns (steps: seq<Step>, last: Writer)
    requires CanStillClose(w) && PhaseOf(w, t) == HasSequence(g) && g > w.counter
    ensures Leads(w, steps, last) && !EndCovers(last)
  {
    var w1 := Apply(w, Enter(t));
    var w2 := Apply(w1, Answer(t, Sent));
    var w3 := Apply(w2, Opened(t));
    assert PhaseOf(w1, t) == Opening(g) && PhaseOf(w2, t) == Answering(g);
    StepKeepsLog(w1, Answer(t, Sent));
    OthersIdle(w, t);
    steps, last := CloseShows(w3, g);
    LeadsOn(w2, Opened(t), steps, last);
    LeadsOn(w1, Answer(t, Sent), [Opened(t)] + steps, last);
    LeadsOn(w, Enter(t), [Answer(t, Sent)] + ([Opened(t)] + steps), last);
    steps := [Enter(t)] + ([Answer(t, Sent)] + ([Opened(t)] + steps));
  }

  lemma OthersIdle(w: Writer, t: Thread)
    requires NoReaders(w)
    ensures NoReaders(Move(w, t, Idle))
  {
  }

  lemma CloseShows(w: Writer, g: nat) returns (steps: seq<Step>, last: Writer)
    requires CanStillClose(w) && g in w.groups && g > w.counter
    ensures Leads(w, steps, last) && !EndCovers(last)
  {
    last := Apply(w, Close(Sent));
    steps := [Close(Sent)];
    LeadsOn(w, Close(Sent), [], last);
    var n := |w.response.log|;
    assert last.response.log == w.response.log + [End(w.counter)];
    assert last.response.log[n].End? && last.response.log[n].group < g;
  }

  /** A wrapped counter breaks it: open group 1, skip 2^64 - 1, close, and END names 0. */
  lemma WrappedEnd()
    ensures var steps := [Reserve(0), Enter(0), Answer(0, Sent), Opened(0), Skip(UINT64 - 1), Close(Sent)];
            exists states :: IsRun(states, steps) && !EndCovers(states[6])
  {
    var steps := [Reserve(0), Enter(0), Answer(0, Sent), Opened(0), Skip(UINT64 - 1), Close(Sent)];
    var ok := FRESH.(log := [Ok(1)], responseStarted := true);
    var s1 := Writer(1, false, FRESH, map[0 := HasSequence(1)], {});
    var s2 := s1.(phases := map[0 := Opening(1)]);
    var s3 := Writer(1, false, ok, map[0 := Answering(1)], {});
    var s4 := Writer(1, false, ok, map[0 := Idle], {1});
    var s5 := s4.(counter := 0);
    var s6 := Writer(0, true, ok.(log := [Ok(1), End(0)], endSent := true, dead := true), map[0 := Idle], {1});
    var states := [NEW_WRITER, s1, s2, s3, s4, s5, s6];
    assert s1 == Apply(NEW_WRITER, steps[0]);
    assert s2 == Apply(s1, steps[1]);
    assert s3 == Apply(s2, steps[2]);
    assert s4 == Apply(s3, steps[3]);
    assert s5 == Apply(s4, steps[4]);
    assert s6 == Apply(s5, steps[5]);
    assert IsRun(states, steps);
    assert s6.response.log[1].End? && 1 in s6.groups;
    assert !EndCovers(states[6]);
  }

  // The subscriber's reading of the log.

  /** The state readSubscribeResponses keeps, and the two errors a publisher's message can raise. */
  datatype Subscription = Subscription(first: bool, okReceived: bool, resolvedStart: nat, ended: bool, endGroup: nat,
                                       drops: seq<(nat, nat)>, redirected: bool, unexpectedDrop: bool, violation: bool)

  const PENDING := Subscription(true, false, 0, false, 0, [], false, false, false)

  predicate Over(s: Subscription) {
    s.redirected || s.unexpectedDrop || s.violation
  }

  /** One message: the first is read by subscribe, the rest by readSubscribeResponses. */
  function Received(s: Subscription, m: Msg): Subscription {
    if Over(s) then s
    else
      match m
      case Ok(g) => s.(first := false, okReceived := true, resolvedStart := g)
      case End(g) => if s.ended then s.(first := false) else s.(first := false, ended := true, endGroup := g)
      case Drop(lo, hi) => if s.first then s.(unexpectedDrop := true) else s.(drops := s.drops + [(lo, hi)])
      case Redirect => if s.first then s.(redirected := true) else s.(violation := true)
  }

  function ReceivedAll(log: seq<Msg>): Subscription {
    if log == [] then PENDING else Received(ReceivedAll(log[..|log| - 1]), log[|log| - 1])
  }

  lemma LegalPrefix(log: seq<Msg>, k: nat)
    requires LegalLog(log) && k <= |log|
    ensures LegalLog(log[..k])
  {
  }

  function Count(b: bool): nat {
    if b then 1 else 0
  }

  /** No prefix of a legal log drives the subscriber into its unexpected-DROP error or its redirect violation. */
  lemma {:induction false} LegalLogIsAccepted(log: seq<Msg>)
    requires LegalLog(log)
    ensures !ReceivedAll(log).unexpectedDrop && !ReceivedAll(log).violation
    ensures ReceivedAll(log).first <==> log == [] || log[0].Redirect?
    ensures ReceivedAll(log).redirected <==> log != [] && log[0].Redirect?
    ensures ReceivedAll(log).ended <==> log != [] && log[|log| - 1].End?
    ensures ReceivedAll(log).ended ==> ReceivedAll(log).endGroup == log[|log| - 1].group
    ensures ReceivedAll(log).okReceived <==> log != [] && log[0].Ok?
    ensures ReceivedAll(log).okReceived ==> ReceivedAll(log).resolvedStart == log[0].group
    ensures var drops, n := ReceivedAll(log).drops, |ReceivedAll(log).drops|;
            && n == (if ReceivedAll(log).okReceived then |log| - 1 - Count(ReceivedAll(log).ended) else 0)
            && forall i :: 0 <= i < n ==> log[i + 1] == Drop(drops[i].0, drops[i].1)
  {
    if log != [] {
      var n := |log| - 1;
      LegalPrefix(log, n);
      LegalLogIsAccepted(log[..n]);
      assert n > 0 ==> log[..n][0] == log[0] && log[..n][n - 1] == log[n - 1];
    }
  }

  /** End to end: the subscriber that has read any part of what a concurrent publisher wrote is in neither error. */
  lemma SubscriberNeverErrs(states: seq<Writer>, steps: seq<Step>, k: nat, read: nat)
    requires IsRun(states, steps) && k < |states| && read <= |states[k].response.log|
    ensures var s := ReceivedAll(states[k].response.log[..read]); !s.unexpectedDrop && !s.violation
  {
    EveryLogIsLegal(states, steps, k);
    LegalPrefix(states[k].response.log, read);
    LegalLogIsAccepted(states[k].response.log[..read]);
  }

  /** The subscriber's end of the stream. */
  class SendSubscribeStream {
    var first: bool
    var okReceived: bool
    var resolvedStart: nat
    var ended: bool
    var endGroup: nat
    var drops: seq<(nat, nat)>
    var redirected: bool
    var unexpectedDrop: bool
    var violation: bool

    function View(): Subscription
      reads this
    {
      Subscription(first, okReceived, resolvedStart, ended, endGroup, drops, redirected, unexpectedDrop, violation)
    }

    constructor ()
      ensures View() == PENDING
    {
      first, okReceived, resolvedStart, ended, endGroup := true, false, 0, false, 0;
      drops, redirected, unexpectedDrop, violation := [], false, false, false;
    }

    method SetResolvedStart(group: nat)
      modifies `resolvedStart, `okReceived
      ensures resolvedStart == group && okReceived
    {
      resolvedStart, okReceived := group, true;
    }

    method SetEnd(group: nat)
      modifies `endGroup, `ended
      ensures ended && endGroup == if old(ended) then old(endGroup) else group
    {
      if ended { return; }
      endGroup, ended := group, true;
    }

    method Respond(m: Msg)
      modifies this
      ensures View() == Received(old(View()), m)
    {
      if redirected || unexpectedDrop || violation { return; }
      match m
      case Ok(g) =>
        SetResolvedStart(g);
        first := false;
      case End(g) =>
        SetEnd(g);
        first := false;
      case Drop(lo, hi) =>
        if first { unexpectedDrop := true; } else { drops := drops + [(lo, hi)]; }
      case Redirect =>
        if first { redirected := true; } else { violation := true; }
    }

    /** Reads the stream's messages until it ends. */
    method ReadResponses(log: seq<Msg>)
      requires View() == PENDING
      modifies this
      ensures View() == ReceivedAll(log)
    {
      for i := 0 to |log|
        invariant View() == ReceivedAll(log[..i])
      {
        assert log[..i + 1][..i] == log[..i];
        Respond(log[i]);
      }
      assert log[..|log|] == log;
    }
  }
}
