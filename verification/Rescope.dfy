/**
 Admission of subscriptions against the scope, racing the coalescing rescope loop: check, register,
 check again, while grants come and go.
 */
module Rescope {
  import opened Wrappers
  import opened PathPattern
  import opened Grants
  import opened AuthWriter

  type SubscribeId = nat

  /** Where a subscribe handler is: checked but not registered, registered but not re-checked, refused by the re-check, serving, closed. */
  datatype Handler =
    | Checked(path: string) | Registered(path: string) | Unauthorized(path: string)
    | Serving(path: string) | Done(path: string)

  /** The rescope loop: idle, scanning the writers (under the map's lock), or closing those it found. */
  datatype Pass = NoPass | Scanning(todo: set<SubscribeId>, revoked: set<SubscribeId>) | Revoking(revoked: set<SubscribeId>)

  /** unsignalled counts grant changes made whose changed callback has not run; token is the pending wake-up. */
  datatype Session = Session(grants: map<WriterId, Grant>, unsignalled: nat, token: bool, pass: Pass,
                             writers: map<SubscribeId, string>, handlers: map<SubscribeId, Handler>)

  const NEW_SESSION := Session(map[], 0, false, NoPass, map[], map[])

  ghost predicate Covered(cls: CharClass, grants: map<WriterId, Grant>, path: string) {
    exists w :: w in grants && GrantWellFormed(cls, grants[w]) && MatchesAny(ScopeOf(cls, grants[w]).subscribe, path)
  }

  datatype Step =
    | SetGrant(w: WriterId, g: Grant)
    | RemoveGrant(w: WriterId)
    | Signal
    | StartPass
    | Examine(id: SubscribeId)
    | EndScan
    | Revoke(id: SubscribeId)
    | EndPass
    | Admit(id: SubscribeId, path: string)
    | Register(id: SubscribeId)
    | Recheck(id: SubscribeId)
    | CloseUnauthorized(id: SubscribeId)
    | Finish(id: SubscribeId)

  predicate MapUnlocked(s: Session) {
    !s.pass.Scanning?
  }

  ghost predicate Enabled(cls: CharClass, s: Session, e: Step) {
    match e
    case SetGrant(w, g) => GrantWellFormed(cls, g)
    case RemoveGrant(w) => true
    case Signal => s.unsignalled > 0
    case StartPass => s.token && s.pass.NoPass?
    case Examine(id) => s.pass.Scanning? && id in s.pass.todo
    case EndScan => s.pass.Scanning? && s.pass.todo == {}
    case Revoke(id) => s.pass.Revoking? && id in s.pass.revoked
    case EndPass => s.pass.Revoking? && s.pass.revoked == {}
    case Admit(id, path) => id !in s.handlers && Covered(cls, s.grants, path)
    case Register(id) => id in s.handlers && s.handlers[id].Checked? && MapUnlocked(s)
    case Recheck(id) => id in s.handlers && s.handlers[id].Registered?
    case CloseUnauthorized(id) => id in s.handlers && s.handlers[id].Unauthorized? && MapUnlocked(s)
    case Finish(id) => id in s.handlers && s.handlers[id].Serving? && MapUnlocked(s)
  }

  function Unregister(s: Session, id: SubscribeId): Session {
    s.(writers := s.writers - {id})
  }

  function Examined(s: Session, id: SubscribeId, covered: bool): Session
    requires s.pass.Scanning?
  {
    s.(pass := Scanning(s.pass.todo - {id}, if covered then s.pass.revoked else s.pass.revoked + {id}))
  }

  function Rechecked(s: Session, id: SubscribeId, covered: bool): Session
    requires id in s.handlers
  {
    var path := s.handlers[id].path;
    s.(handlers := s.handlers[id := if covered then Serving(path) else Unauthorized(path)])
  }

  ghost function Apply(cls: CharClass, s: Session, e: Step): Session
    requires Enabled(cls, s, e) && (forall w :: w in s.grants ==> GrantWellFormed(cls, s.grants[w]))
  {
    match e
    case SetGrant(w, g) =>
      var same := w in s.grants && SameScope(ScopeOf(cls, s.grants[w]), ScopeOf(cls, g));
      s.(grants := s.grants[w := g], unsignalled := if same then s.unsignalled else s.unsignalled + 1)
    case RemoveGrant(w) =>
      s.(grants := s.grants - {w}, unsignalled := if w in s.grants then s.unsignalled + 1 else s.unsignalled)
    case Signal => s.(unsignalled := s.unsignalled - 1, token := true)
    case StartPass => s.(token := false, pass := Scanning(s.writers.Keys, {}))
    case Examine(id) => Examined(s, id, id in s.writers && Covered(cls, s.grants, s.writers[id]))
    case EndScan => s.(pass := Revoking(s.pass.revoked))
    case Revoke(id) => Unregister(s.(pass := Revoking(s.pass.revoked - {id})), id)
    case EndPass => s.(pass := NoPass)
    case Admit(id, path) => s.(handlers := s.handlers[id := Checked(path)])
    case Register(id) =>
      var path := s.handlers[id].path;
      s.(handlers := s.handlers[id := Registered(path)], writers := s.writers[id := path])
    case Recheck(id) => Rechecked(s, id, Covered(cls, s.grants, s.handlers[id].path))
    case CloseUnauthorized(id) => Unregister(s.(handlers := s.handlers[id := Done(s.handlers[id].path)]), id)
    case Finish(id) => Unregister(s.(handlers := s.handlers[id := Done(s.handlers[id].path)]), id)
  }

  ghost predicate GrantsWellFormed(cls: CharClass, s: Session) {
    forall w :: w in s.grants ==> GrantWellFormed(cls, s.grants[w])
  }

  /** Something will still look at a serving writer: a change to signal, a pass to start, or the pass that runs. */
  ghost predicate Watched(s: Session, id: SubscribeId) {
    || s.unsignalled > 0
    || s.token
    || (s.pass.Scanning? && (id in s.pass.todo || id in s.pass.revoked))
    || (s.pass.Revoking? && id in s.pass.revoked)
  }

  ghost predicate Safe(cls: CharClass, s: Session, id: SubscribeId)
    requires id in s.writers
  {
    && id in s.handlers && s.handlers[id].path == s.writers[id] && !s.handlers[id].Checked? && !s.handlers[id].Done?
    && (s.handlers[id].Serving? ==> Covered(cls, s.grants, s.writers[id]) || Watched(s, id))
  }

  ghost predicate Inv(cls: CharClass, s: Session) {
    GrantsWellFormed(cls, s) && forall id :: id in s.writers ==> Safe(cls, s, id)
  }

  lemma SetGrantKeeps(cls: CharClass, s: Session, w: WriterId, g: Grant)
    requires Inv(cls, s) && GrantWellFormed(cls, g)
    ensures Inv(cls, Apply(cls, s, SetGrant(w, g)))
  {
    var s' := Apply(cls, s, SetGrant(w, g));
    if s'.unsignalled == s.unsignalled {
      SameScopeSameGrant(cls, s.grants[w], g);
      forall path ensures Covered(cls, s.grants, path) ==> Covered(cls, s'.grants, path) {
        if Covered(cls, s.grants, path) {
          var v :| v in s.grants && GrantWellFormed(cls, s.grants[v]) && MatchesAny(ScopeOf(cls, s.grants[v]).subscribe, path);
          assert v in s'.grants && ScopeOf(cls, s'.grants[v]) == ScopeOf(cls, s.grants[v]);
        }
      }
      forall id | id in s'.writers ensures Safe(cls, s', id) {
        assert Safe(cls, s, id);
      }
    } else {
      forall id | id in s'.writers ensures Safe(cls, s', id) {
        assert Safe(cls, s, id);
      }
    }
  }

  lemma RemoveGrantKeeps(cls: CharClass, s: Session, w: WriterId)
    requires Inv(cls, s)
    ensures Inv(cls, Apply(cls, s, RemoveGrant(w)))
  {
    if w !in s.grants {
      assert s.grants - {w} == s.grants;
    } else {
      var s' := Apply(cls, s, RemoveGrant(w));
      forall id | id in s'.writers ensures Safe(cls, s', id) {
        assert Safe(cls, s, id);
      }
    }
  }

  /** A step of the rescope loop; the grants stay as they are. */
  lemma PassKeeps(cls: CharClass, s: Session, e: Step)
    requires Inv(cls, s) && Enabled(cls, s, e)
    requires e.Signal? || e.StartPass? || e.Examine? || e.EndScan? || e.Revoke? || e.EndPass?
    ensures Inv(cls, Apply(cls, s, e))
  {
    var s' := Apply(cls, s, e);
    assert s'.grants == s.grants && s'.handlers == s.handlers;
    forall id | id in s'.writers ensures Safe(cls, s', id) {
      assert Safe(cls, s, id);
      assert s'.writers[id] == s.writers[id];
      if !Covered(cls, s.grants, s.writers[id]) && s.handlers[id].Serving? {
        assert Watched(s, id);
        assert Watched(s', id);
      }
    }
  }

  /** A step of a subscribe handler. */
  lemma HandlerKeeps(cls: CharClass, s: Session, e: Step)
    requires Inv(cls, s) && Enabled(cls, s, e)
    requires e.Admit? || e.Register? || e.Recheck? || e.CloseUnauthorized? || e.Finish?
    ensures Inv(cls, Apply(cls, s, e))
  {
    var s' := Apply(cls, s, e);
    assert s'.grants == s.grants && s'.pass == s.pass && s'.token == s.token && s'.unsignalled == s.unsignalled;
    forall id | id in s'.writers ensures Safe(cls, s', id) {
      if id in s.writers {
        assert Safe(cls, s, id);
        assert Watched(s, id) <==> Watched(s', id);
      }
    }
  }

  lemma StepKeeps(cls: CharClass, s: Session, e: Step)
    requires Inv(cls, s) && Enabled(cls, s, e)
    ensures Inv(cls, Apply(cls, s, e))
  {
    match e
    case SetGrant(w, g) => SetGrantKeeps(cls, s, w, g);
    case RemoveGrant(w) => RemoveGrantKeeps(cls, s, w);
    case Admit(_, _) => HandlerKeeps(cls, s, e);
    case Register(_) => HandlerKeeps(cls, s, e);
    case Recheck(_) => HandlerKeeps(cls, s, e);
    case CloseUnauthorized(_) => HandlerKeeps(cls, s, e);
    case Finish(_) => HandlerKeeps(cls, s, e);
    case _ => PassKeeps(cls, s, e);
  }

  ghost predicate IsRun(cls: CharClass, states: seq<Session>, steps: seq<Step>) {
    && |states| == |steps| + 1 && states[0] == NEW_SESSION
    && forall i :: 0 <= i < |steps| ==>
         && Enabled(cls, states[i], steps[i]) && GrantsWellFormed(cls, states[i])
         && states[i + 1] == Apply(cls, states[i], steps[i])
  }

  /** No wake-up pending, no change unsignalled, no pass running, no handler between registering and the end of its re-check. */
  ghost predicate Quiet(s: Session) {
    && !s.token && s.unsignalled == 0 && s.pass.NoPass?
    && forall id :: id in s.handlers ==> !s.handlers[id].Registered? && !s.handlers[id].Unauthorized?
  }

  lemma {:induction false} RunKeeps(cls: CharClass, states: seq<Session>, steps: seq<Step>, k: nat)
    requires IsRun(cls, states, steps) && k < |states|
    ensures Inv(cls, states[k])
  {
    if k > 0 {
      RunKeeps(cls, states, steps, k - 1);
      StepKeeps(cls, states[k - 1], steps[k - 1]);
    }
  }

  /** Whenever the session is quiet, every registered track writer's path is covered by a grant in force, under its root. */
  lemma QuietMeansCovered(cls: CharClass, states: seq<Session>, steps: seq<Step>, k: nat, id: SubscribeId)
    requires IsRun(cls, states, steps) && k < |states| && Quiet(states[k]) && id in states[k].writers
    ensures Covered(cls, states[k].grants, states[k].writers[id])
    ensures exists w :: w in states[k].grants && states[k].grants[w].root <= states[k].writers[id]
  {
    var s := states[k];
    RunKeeps(cls, states, steps, k);
    assert Safe(cls, s, id);
    var w :| w in s.grants && GrantWellFormed(cls, s.grants[w]) && MatchesAny(ScopeOf(cls, s.grants[w]).subscribe, s.writers[id]);
    CoveredLiesUnderRoot(cls, s.grants[w], s.writers[id]);
  }

  // What is covered is served.

  /** Every id of the pass belongs to a handler. */
  ghost predicate PassKnown(s: Session) {
    match s.pass
    case NoPass => true
    case Scanning(todo, revoked) => (forall id :: id in todo || id in revoked ==> id in s.handlers)
    case Revoking(revoked) => (forall id :: id in revoked ==> id in s.handlers)
  }

  predicate IsRevoked(s: Session, id: SubscribeId) {
    !s.pass.NoPass? && id in s.pass.revoked
  }

  lemma StepKeepsKnown(cls: CharClass, s: Session, e: Step)
    requires Inv(cls, s) && PassKnown(s) && Enabled(cls, s, e)
    ensures PassKnown(Apply(cls, s, e))
    ensures forall id :: id in s.handlers ==> id in Apply(cls, s, e).handlers
  {
    forall id | id in s.writers ensures id in s.handlers {
      assert Safe(cls, s, id);
    }
  }

  lemma {:induction false} RunKnown(cls: CharClass, states: seq<Session>, steps: seq<Step>, k: nat)
    requires IsRun(cls, states, steps) && k < |states|
    ensures PassKnown(states[k])
  {
    if k > 0 {
      RunKnown(cls, states, steps, k - 1);
      RunKeeps(cls, states, steps, k - 1);
      StepKeepsKnown(cls, states[k - 1], steps[k - 1]);
    }
  }

  /** A subscription admitted to path that nothing has refused, with its writer in place from registration to its own end. */
  ghost predicate InGoodStanding(s: Session, id: SubscribeId, path: string) {
    && id in s.handlers && s.handlers[id].path == path && !s.handlers[id].Unauthorized?
    && (s.handlers[id].Checked? ==> !IsRevoked(s, id) && !(s.pass.Scanning? && id in s.pass.todo))
    && (s.handlers[id].Registered? || s.handlers[id].Serving? ==>
          !IsRevoked(s, id) && id in s.writers && s.writers[id] == path)
  }

  /** A handler that has only been checked has no writer. */
  predicate CheckedApart(s: Session, id: SubscribeId) {
    id in s.handlers && s.handlers[id].Checked? ==> id !in s.writers
  }

  lemma GrantsLeaveStanding(cls: CharClass, s: Session, e: Step, id: SubscribeId, path: string)
    requires GrantsWellFormed(cls, s) && Enabled(cls, s, e) && InGoodStanding(s, id, path)
    requires e.SetGrant? || e.RemoveGrant? || e.Signal?
    ensures InGoodStanding(Apply(cls, s, e), id, path)
  {
    var s' := Apply(cls, s, e);
    assert s'.handlers == s.handlers && s'.writers == s.writers && s'.pass == s.pass;
  }

  lemma ExamineLeavesStanding(s: Session, x: SubscribeId, covered: bool, id: SubscribeId, path: string)
    requires s.pass.Scanning? && x in s.pass.todo && InGoodStanding(s, id, path)
    requires x == id && id in s.writers && s.writers[id] == path ==> covered
    ensures InGoodStanding(Examined(s, x, covered), id, path)
  {
  }

  lemma PassLeavesStanding(cls: CharClass, s: Session, e: Step, id: SubscribeId, path: string)
    requires GrantsWellFormed(cls, s) && Enabled(cls, s, e) && InGoodStanding(s, id, path) && CheckedApart(s, id)
    requires e.StartPass? || e.EndScan? || e.Revoke? || e.EndPass?
    ensures InGoodStanding(Apply(cls, s, e), id, path)
  {
  }

  lemma RecheckLeavesStanding(s: Session, x: SubscribeId, covered: bool, id: SubscribeId, path: string)
    requires x in s.handlers && s.handlers[x].Registered? && InGoodStanding(s, id, path) && (x == id ==> covered)
    ensures InGoodStanding(Rechecked(s, x, covered), id, path)
    ensures x == id ==> Rechecked(s, x, covered).handlers[id] == Serving(path)
  {
  }

  lemma HandlerLeavesStanding(cls: CharClass, s: Session, e: Step, id: SubscribeId, path: string)
    requires GrantsWellFormed(cls, s) && Enabled(cls, s, e) && InGoodStanding(s, id, path)
    requires e.Admit? || e.Register? || e.CloseUnauthorized? || e.Finish?
    ensures InGoodStanding(Apply(cls, s, e), id, path)
  {
  }

  lemma StandingStays(cls: CharClass, s: Session, e: Step, id: SubscribeId, path: string)
    requires GrantsWellFormed(cls, s) && Enabled(cls, s, e) && InGoodStanding(s, id, path) && CheckedApart(s, id)
    requires Covered(cls, s.grants, path)
    ensures InGoodStanding(Apply(cls, s, e), id, path)
    ensures e == Recheck(id) ==> Apply(cls, s, e).handlers[id] == Serving(path)
  {
    if e.Examine? {
      ExamineLeavesStanding(s, e.id, e.id in s.writers && Covered(cls, s.grants, s.writers[e.id]), id, path);
    } else if e.Recheck? {
      RecheckLeavesStanding(s, e.id, Covered(cls, s.grants, s.handlers[e.id].path), id, path);
    } else if e.StartPass? || e.EndScan? || e.Revoke? || e.EndPass? {
      PassLeavesStanding(cls, s, e, id, path);
    } else if e.SetGrant? || e.RemoveGrant? || e.Signal? {
      GrantsLeaveStanding(cls, s, e, id, path);
    } else {
      HandlerLeavesStanding(cls, s, e, id, path);
    }
  }

  lemma RunChecked(cls: CharClass, states: seq<Session>, steps: seq<Step>, k: nat, id: SubscribeId)
    requires IsRun(cls, states, steps) && k < |states|
    ensures CheckedApart(states[k], id) && PassKnown(states[k])
  {
    RunKeeps(cls, states, steps, k);
    RunKnown(cls, states, steps, k);
    assert id in states[k].writers ==> Safe(cls, states[k], id);
  }

  /**
   A subscription whose path stays covered is never refused or revoked, whatever other grants come and go and whatever
   passes run: once registered it keeps its writer until it finishes, and its re-check can only serve it.
   */
  lemma {:induction false} CoveredIsServed(cls: CharClass, states: seq<Session>, steps: seq<Step>, i: nat, k: nat, id: SubscribeId, path: string)
    requires IsRun(cls, states, steps) && i < k < |states| && steps[i] == Admit(id, path)
    requires forall j :: i < j < k ==> Covered(cls, states[j].grants, path)
    ensures InGoodStanding(states[k], id, path)
    ensures steps[k - 1] == Recheck(id) && i + 1 < k ==> states[k].handlers[id] == Serving(path)
  {
    RunChecked(cls, states, steps, k - 1, id);
    if i + 1 < k {
      CoveredIsServed(cls, states, steps, i, k - 1, id, path);
      StandingStays(cls, states[k - 1], steps[k - 1], id, path);
    }
  }

  ghost predicate Leads(cls: CharClass, s: Session, e: Step, t: Session) {
    Enabled(cls, s, e) && GrantsWellFormed(cls, s) && t == Apply(cls, s, e)
  }

  /** The run with one more step, which is not a re-check. */
  lemma Further(cls: CharClass, states: seq<Session>, steps: seq<Step>, e: Step, t: Session)
    returns (states': seq<Session>, steps': seq<Step>)
    requires IsRun(cls, states, steps) && Leads(cls, states[|steps|], e, t) && NoRecheck(steps) && !e.Recheck?
    ensures IsRun(cls, states', steps') && |steps'| == |steps| + 1 && states'[|steps'|] == t && NoRecheck(steps')
  {
    states', steps' := states + [t], steps + [e];
  }

  predicate NoRecheck(steps: seq<Step>) {
    forall i :: 0 <= i < |steps| ==> !steps[i].Recheck?
  }

  lemma OneGrantCovers(cls: CharClass, g: Grant, path: string)
    requires GrantWellFormed(cls, g) && MatchesAny(ScopeOf(cls, g).subscribe, path)
    ensures Covered(cls, map[0 := g], path)
  {
    var grants: map<WriterId, Grant> := map[0 := g];
    assert 0 in grants && grants[0] == g;
  }

  /** A new session in which the grant g is made, a subscription to path is checked, and the grant is removed again. */
  lemma CheckedThenRemoved(cls: CharClass, g: Grant, path: string, id: SubscribeId) returns (states: seq<Session>, steps: seq<Step>)
    requires GrantWellFormed(cls, g) && MatchesAny(ScopeOf(cls, g).subscribe, path)
    ensures IsRun(cls, states, steps) && |steps| == 3 && NoRecheck(steps)
    ensures states[3] == Session(map[], 2, false, NoPass, map[], map[id := Checked(path)])
  {
    var s1 := NEW_SESSION.(grants := map[0 := g], unsignalled := 1);
    var s2 := s1.(handlers := map[id := Checked(path)]);
    var s3 := s2.(grants := map[], unsignalled := 2);
    GrantAdmits(cls, g, path, id);
    GrantGoes(cls, g, path, id);
    states, steps := [NEW_SESSION], [];
    states, steps := Further(cls, states, steps, SetGrant(0, g), s1);
    states, steps := Further(cls, states, steps, Admit(id, path), s2);
    states, steps := Further(cls, states, steps, RemoveGrant(0), s3);
  }

  lemma GrantAdmits(cls: CharClass, g: Grant, path: string, id: SubscribeId)
    requires GrantWellFormed(cls, g) && MatchesAny(ScopeOf(cls, g).subscribe, path)
    ensures var s1 := NEW_SESSION.(grants := map[0 := g], unsignalled := 1);
            Leads(cls, NEW_SESSION, SetGrant(0, g), s1) && Leads(cls, s1, Admit(id, path), s1.(handlers := map[id := Checked(path)]))
  {
    OneGrantCovers(cls, g, path);
    assert NEW_SESSION.grants[0 := g] == map[0 := g];
  }

  lemma GrantGoes(cls: CharClass, g: Grant, path: string, id: SubscribeId)
    requires GrantWellFormed(cls, g)
    ensures var s2 := NEW_SESSION.(grants := map[0 := g], unsignalled := 1, handlers := map[id := Checked(path)]);
            Leads(cls, s2, RemoveGrant(0), s2.(grants := map[], unsignalled := 2))
  {
  }

  /** The pass for both changes comes and goes while there is no writer to find. */
  lemma PassFindsNothing(cls: CharClass, states: seq<Session>, steps: seq<Step>, h: map<SubscribeId, Handler>)
    returns (states': seq<Session>, steps': seq<Step>)
    requires IsRun(cls, states, steps) && NoRecheck(steps) && states[|steps|] == Session(map[], 2, false, NoPass, map[], h)
    ensures IsRun(cls, states', steps') && states'[|steps'|] == Session(map[], 0, false, NoPass, map[], h)
    ensures NoRecheck(steps')
  {
    var s := states[|steps|];
    var s1 := s.(unsignalled := 1, token := true);
    var s2 := s1.(unsignalled := 0);
    var s3 := s2.(token := false, pass := Scanning({}, {}));
    var s4 := s3.(pass := Revoking({}));
    var s5 := s4.(pass := NoPass);
    states', steps' := Further(cls, states, steps, Signal, s1);
    states', steps' := Further(cls, states', steps', Signal, s2);
    assert s2.writers.Keys == {};
    states', steps' := Further(cls, states', steps', StartPass, s3);
    states', steps' := Further(cls, states', steps', EndScan, s4);
    states', steps' := Further(cls, states', steps', EndPass, s5);
  }

  /** The checked handler registers a writer that nothing covers, with no change or pass to come. */
  lemma RegistersTooLate(cls: CharClass, path: string, id: SubscribeId) returns (t: Session)
    ensures Leads(cls, Session(map[], 0, false, NoPass, map[], map[id := Checked(path)]), Register(id), t)
    ensures t.writers == map[id := path] && !Covered(cls, t.grants, path) && !Watched(t, id)
  {
    t := Session(map[], 0, false, NoPass, map[id := path], map[id := Registered(path)]);
  }

  /**
   Without the re-check the race is lost, whatever the grant and the path it covers: a grant removed between the check
   and the registration leaves, after its pass has come and gone, a registered writer that nothing covers and nothing
   will look at again.
   */
  lemma RecheckIsNeeded(cls: CharClass, g: Grant, path: string, id: SubscribeId) returns (states: seq<Session>, steps: seq<Step>)
    requires GrantWellFormed(cls, g) && MatchesAny(ScopeOf(cls, g).subscribe, path)
    ensures IsRun(cls, states, steps) && NoRecheck(steps)
    ensures var s := states[|steps|];
            id in s.writers && !Covered(cls, s.grants, s.writers[id]) && !Watched(s, id)
  {
    states, steps := CheckedThenRemoved(cls, g, path, id);
    states, steps := PassFindsNothing(cls, states, steps, map[id := Checked(path)]);
    var t := RegistersTooLate(cls, path, id);
    states, steps := Further(cls, states, steps, Register(id), t);
  }

  /** The session's own objects. One pass here runs with nothing interleaved. */
  class RescopeSession {
    const scope: AuthScope
    var trackWriters: map<SubscribeId, string>
    var rescopePending: bool

    ghost predicate Valid()
      reads this, scope
    {
      scope.Valid()
    }

    constructor (scope: AuthScope)
      requires scope.Valid()
      ensures Valid() && this.scope == scope && trackWriters == map[] && !rescopePending
    {
      this.scope := scope;
      trackWriters, rescopePending := map[], false;
    }

    /** Never blocks: a wake-up already pending stands for this one too. */
    method RequestRescope()
      modifies `rescopePending
      ensures rescopePending
    {
      rescopePending := true;
    }

    method AddTrackWriter(id: SubscribeId, path: string)
      modifies `trackWriters
      ensures trackWriters == old(trackWriters)[id := path]
    {
      trackWriters := trackWriters[id := path];
    }

    method RemoveTrackWriter(id: SubscribeId)
      modifies `trackWriters
      ensures trackWriters == old(trackWriters) - {id}
    {
      trackWriters := trackWriters - {id};
    }

    /** Takes the wake-up, finds the writers the scope no longer covers, and closes them. */
    method RescopePass()
      requires Valid() && rescopePending
      modifies this
      ensures Valid() && !rescopePending
      ensures trackWriters == map id | id in old(trackWriters) && CanSubscribe(scope.grants, old(trackWriters)[id]) :: old(trackWriters)[id]
    {
      rescopePending := false;
      var revoked: set<SubscribeId> := {};
      var left := trackWriters.Keys;
      while left != {}
        invariant left <= trackWriters.Keys && revoked <= trackWriters.Keys && revoked !! left
        invariant !rescopePending && trackWriters == old(trackWriters)
        invariant forall id :: id in trackWriters && id !in left ==>
                    (id in revoked <==> !CanSubscribe(scope.grants, trackWriters[id]))
        decreases left
      {
        var id :| id in left;
        var ok := scope.MaySubscribe(trackWriters[id]);
        if !ok { revoked := revoked + {id}; }
        left := left - {id};
      }
      ghost var found := revoked;
      while revoked != {}
        invariant !rescopePending && trackWriters == old(trackWriters) - (found - revoked) && revoked <= found
        decreases revoked
      {
        var id :| id in revoked;
        RemoveTrackWriter(id);
        revoked := revoked - {id};
      }
    }
  }
}
