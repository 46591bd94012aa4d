/**
 One token's grant: the acceptor's answers on its Auth Stream, its expiry timers, and its entry
 in the session's scope.
 */
module AuthWriter {
  import opened Segments
  import opened Wrappers
  import opened PathPattern
  import opened Grants

  const UINT64: nat := 0x1_0000_0000_0000_0000

  type WriterId = nat

  ghost predicate ValidGrant(g: ScopeGrant) {
    && (forall i :: 0 <= i < |g.publish| ==> Valid(g.publish[i]))
    && (forall i :: 0 <= i < |g.subscribe| ==> Valid(g.subscribe[i]))
  }

  // The scope: the union of the grants in force.

  predicate CanSubscribe(grants: map<WriterId, ScopeGrant>, path: string) {
    exists w :: w in grants && MatchesAny(grants[w].subscribe, path)
  }

  predicate CanPublish(grants: map<WriterId, ScopeGrant>, path: string) {
    exists w :: w in grants && MatchesAny(grants[w].publish, path)
  }

  predicate CanList(grants: map<WriterId, ScopeGrant>, prefix: string) {
    exists w :: w in grants && grants[w].root != "" && HasPrefix(prefix, grants[w].root)
  }

  /** Setting w's grant changes what the scope allows unless the grant says the same. */
  predicate SetChanges(grants: map<WriterId, ScopeGrant>, w: WriterId, g: ScopeGrant) {
    w !in grants || !SameScope(grants[w], g)
  }

  /** The scope that a set of grants gives, each as its token's entry. */
  ghost function ScopesOf(cls: CharClass, given: map<WriterId, Grant>): map<WriterId, ScopeGrant>
    requires forall w :: w in given ==> GrantWellFormed(cls, given[w])
  {
    map w | w in given :: ScopeOf(cls, given[w])
  }

  /** Whatever the peer may publish or subscribe to lies within a root it may list: the root of a grant in force. */
  lemma AllowedLiesWithinRoots(cls: CharClass, given: map<WriterId, Grant>, path: string)
    requires forall w :: w in given ==> GrantWellFormed(cls, given[w])
    requires CanPublish(ScopesOf(cls, given), path) || CanSubscribe(ScopesOf(cls, given), path)
    ensures CanList(ScopesOf(cls, given), path)
  {
    var grants := ScopesOf(cls, given);
    var w :| w in grants && (MatchesAny(grants[w].publish, path) || MatchesAny(grants[w].subscribe, path));
    CoveredLiesUnderRoot(cls, given[w], path);
    assert grants[w].root == given[w].root;
  }

  /** A pattern of the list that matches the path beneath the root. */
  ghost predicate AnyReaches(cls: CharClass, root: string, patterns: seq<string>, path: string) {
    exists p :: p in patterns && Reaches(cls, root, p, path)
  }

  /** In the terms of the grants as they came: publishing takes a publish pattern of one of them, and subscribing a subscribe pattern. */
  lemma AllowedByAGrant(cls: CharClass, given: map<WriterId, Grant>, path: string)
    requires forall w :: w in given ==> GrantWellFormed(cls, given[w])
    ensures CanPublish(ScopesOf(cls, given), path) <==> exists w :: w in given && AnyReaches(cls, given[w].root, given[w].publish, path)
    ensures CanSubscribe(ScopesOf(cls, given), path) <==> exists w :: w in given && AnyReaches(cls, given[w].root, given[w].subscribe, path)
  {
    forall w | w in given
      ensures MatchesAny(ScopesOf(cls, given)[w].publish, path) <==> AnyReaches(cls, given[w].root, given[w].publish, path)
      ensures MatchesAny(ScopesOf(cls, given)[w].subscribe, path) <==> AnyReaches(cls, given[w].root, given[w].subscribe, path)
    {
      EachListItsOwn(cls, given[w], path);
    }
  }

  class AuthScope {
    var grants: map<WriterId, ScopeGrant>

    ghost predicate Valid()
      reads this
    {
      forall w :: w in grants ==> ValidGrant(grants[w])
    }

    constructor ()
      ensures Valid() && grants == map[]
    {
      grants := map[];
    }

    /** changed reports whether the scope's changed callback is due. */
    method Set(w: WriterId, g: ScopeGrant) returns (changed: bool)
      requires Valid() && ValidGrant(g)
      modifies this
      ensures Valid() && grants == old(grants)[w := g]
      ensures changed == SetChanges(old(grants), w, g)
    {
      changed := w !in grants || !SameScope(grants[w], g);
      grants := grants[w := g];
    }

    method Remove(w: WriterId) returns (changed: bool)
      requires Valid()
      modifies this
      ensures Valid() && grants == old(grants) - {w}
      ensures changed == (w in old(grants))
    {
      changed := w in grants;
      grants := grants - {w};
    }

    /** anyGrant over the publish patterns. */
    method MayPublish(path: string) returns (r: bool)
      requires Valid()
      ensures r <==> CanPublish(grants, path)
    {
      var left := grants.Keys;
      while left != {}
        invariant left <= grants.Keys
        invariant forall w :: w in grants && w !in left ==> !MatchesAny(grants[w].publish, path)
        decreases left
      {
        var w :| w in left;
        var m := MatchAny(grants[w].publish, path);
        if m { return true; }
        left := left - {w};
      }
      return false;
    }

    /** anyGrant over the roots. */
    method MayList(prefix: string) returns (r: bool)
      ensures r <==> CanList(grants, prefix)
    {
      var left := grants.Keys;
      while left != {}
        invariant left <= grants.Keys
        invariant forall w :: w in grants && w !in left ==> !(grants[w].root != "" && HasPrefix(prefix, grants[w].root))
        decreases left
      {
        var w :| w in left;
        if grants[w].root != "" && HasPrefix(prefix, grants[w].root) { return true; }
        left := left - {w};
      }
      return false;
    }

    /** anyGrant over the subscribe patterns. */
    method MaySubscribe(path: string) returns (r: bool)
      requires Valid()
      ensures r <==> CanSubscribe(grants, path)
    {
      var left := grants.Keys;
      while left != {}
        invariant left <= grants.Keys
        invariant forall w :: w in grants && w !in left ==> !MatchesAny(grants[w].subscribe, path)
        decreases left
      {
        var w :| w in left;
        var m := MatchAny(grants[w].subscribe, path);
        if m { return true; }
        left := left - {w};
      }
      return false;
    }
  }

  // One token.

  datatype Reply = AuthOk(grant: ScopeGrant) | AuthError

  /**
   count numbers the grants made; the code keeps it modulo 2^64 as the generation. armed is the grant whose
   expiry timer runs, waiting the grants whose timer has fired and whose callback waits for the lock.
   */
  datatype Token = Token(ended: bool, count: nat, armed: Option<nat>, waiting: multiset<nat>,
                         entry: Option<ScopeGrant>, hasStream: bool, log: seq<Reply>, closed: bool)

  function NewToken(hasStream: bool): Token {
    Token(false, 0, None, multiset{}, None, hasStream, [], false)
  }

  function Sends(t: Token, r: Reply, sent: bool): Token {
    if !t.hasStream || t.closed then t
    else if sent then t.(log := t.log + [r])
    else t.(closed := true)
  }

  function Granted(t: Token, g: ScopeGrant, timed: bool, sent: bool): Token {
    if t.ended then t
    else Sends(t.(entry := Some(g), count := t.count + 1, armed := if timed then Some(t.count + 1) else None),
               AuthOk(g), sent)
  }

  function Ended(t: Token): Token {
    t.(ended := true, armed := None, entry := None)
  }

  function Refused(t: Token, sent: bool): Token {
    if t.ended then t
    else
      var e := Sends(Ended(t), AuthError, sent);
      if t.hasStream then e.(closed := true) else e
  }

  function Withdrawn(t: Token): Token {
    if t.ended then t else Ended(t)
  }

  function Fired(t: Token): Token {
    match t.armed
    case Some(i) => t.(armed := None, waiting := t.waiting + multiset{i})
    case None => t
  }

  /** Whether the callback of the i-th grant's timer revokes. */
  predicate Revokes(t: Token, i: nat) {
    !t.ended && t.count % UINT64 == i % UINT64
  }

  function CalledBack(t: Token, i: nat, sent: bool): Token {
    var u := t.(waiting := t.waiting - multiset{i});
    if Revokes(t, i) then Refused(u, sent) else u
  }

  datatype Step =
    | Grant(g: ScopeGrant, timed: bool, sent: bool)
    | GrantTooLarge(sent: bool)
    | Refuse(sent: bool)
    | Withdraw
    | TimerFires
    | Callback(i: nat, sent: bool)

  predicate Enabled(t: Token, s: Step) {
    s.Callback? ==> s.i in t.waiting
  }

  function Apply(t: Token, s: Step): Token {
    match s
    case Grant(g, timed, sent) => Granted(t, g, timed, sent)
    case GrantTooLarge(sent) => Refused(t, sent)
    case Refuse(sent) => Refused(t, sent)
    case Withdraw => Withdrawn(t)
    case TimerFires => Fired(t)
    case Callback(i, sent) => CalledBack(t, i, sent)
  }

  /** AUTH_OK any number of times, then at most one AUTH_ERROR, and that one only once the token has ended. */
  predicate LegalLog(t: Token) {
    && (forall i :: 0 <= i < |t.log| - 1 ==> t.log[i].AuthOk?)
    && (t.log != [] && t.log[|t.log| - 1].AuthError? ==> t.ended && t.closed)
  }

  /** An entry in the scope is the grant of the last AUTH_OK, unless that could not be sent. */
  predicate EntryIsLastOk(t: Token) {
    t.entry.Some? && t.hasStream && !t.closed ==> t.log != [] && t.log[|t.log| - 1] == AuthOk(t.entry.value)
  }

  ghost predicate Inv(t: Token) {
    && (t.ended ==> t.entry.None? && t.armed.None?)
    && LegalLog(t) && EntryIsLastOk(t)
    && (t.armed.Some? ==> 0 < t.armed.value == t.count)
    && (forall i :: i in t.waiting ==> 0 < i <= t.count)
    && (!t.ended && t.count > 0 ==> t.entry.Some?)
  }

  lemma GrantKeeps(t: Token, g: ScopeGrant, timed: bool, sent: bool)
    requires Inv(t)
    ensures Inv(Granted(t, g, timed, sent))
  {
  }

  lemma RefuseKeeps(t: Token, sent: bool)
    requires Inv(t)
    ensures Inv(Refused(t, sent)) && Refused(t, sent).ended
    ensures t.log <= Refused(t, sent).log
  {
  }

  lemma WithdrawnKeeps(t: Token)
    requires Inv(t)
    ensures Inv(Withdrawn(t))
  {
  }

  lemma FiredKeeps(t: Token)
    requires Inv(t)
    ensures Inv(Fired(t))
  {
  }

  lemma CalledBackKeeps(t: Token, i: nat, sent: bool)
    requires Inv(t) && i in t.waiting
    ensures Inv(CalledBack(t, i, sent))
  {
    RefuseKeeps(t.(waiting := t.waiting - multiset{i}), sent);
  }

  lemma StepKeeps(t: Token, s: Step)
    requires Inv(t) && Enabled(t, s)
    ensures Inv(Apply(t, s))
  {
    match s
    case Grant(g, timed, sent) => GrantKeeps(t, g, timed, sent);
    case GrantTooLarge(sent) => RefuseKeeps(t, sent);
    case Refuse(sent) => RefuseKeeps(t, sent);
    case Withdraw => WithdrawnKeeps(t);
    case TimerFires => FiredKeeps(t);
    case Callback(i, sent) => CalledBackKeeps(t, i, sent);
  }

  /** A step of an ended token changes nothing that anyone sees. */
  lemma EndedStays(t: Token, s: Step)
    requires t.ended && Enabled(t, s)
    ensures Apply(t, s).ended && Apply(t, s).log == t.log
  {
  }

  ghost predicate IsRun(tokens: seq<Token>, steps: seq<Step>) {
    && |tokens| == |steps| + 1
    && tokens[0] == NewToken(tokens[0].hasStream)
    && forall i :: 0 <= i < |steps| ==> Enabled(tokens[i], steps[i]) && tokens[i + 1] == Apply(tokens[i], steps[i])
  }

  /** Whatever the order of grants, refusals, withdrawal, timers and late callbacks, an ended token has no entry and its log is legal. */
  lemma {:induction false} EveryTokenIsSound(tokens: seq<Token>, steps: seq<Step>, k: nat)
    requires IsRun(tokens, steps) && k < |tokens|
    ensures Inv(tokens[k])
    ensures tokens[k].ended ==> tokens[k].entry.None?
    ensures LegalLog(tokens[k])
  {
    if k > 0 {
      EveryTokenIsSound(tokens, steps, k - 1);
      StepKeeps(tokens[k - 1], steps[k - 1]);
    }
  }

  /** The answer a live token with an open stream gives, if the write goes out. */
  function Answered(t: Token, r: Reply, sent: bool): seq<Reply> {
    if t.hasStream && !t.closed && sent then t.log + [r] else t.log
  }

  /** In every run: a grant puts a live token's entry in the scope and answers AUTH_OK. */
  lemma GrantTakesEffect(tokens: seq<Token>, steps: seq<Step>, k: nat)
    requires IsRun(tokens, steps) && k < |steps| && steps[k].Grant? && !tokens[k].ended
    ensures var t := tokens[k + 1];
            && !t.ended && t.entry == Some(steps[k].g) && t.count == tokens[k].count + 1
            && t.log == Answered(tokens[k], AuthOk(steps[k].g), steps[k].sent)
            && t.armed == if steps[k].timed then Some(t.count) else None
  {
  }

  /** In every run: a timer that fires leaves its grant's callback waiting, once. */
  lemma FiringWaits(tokens: seq<Token>, steps: seq<Step>, k: nat)
    requires IsRun(tokens, steps) && k < |steps| && steps[k].TimerFires? && tokens[k].armed.Some?
    ensures tokens[k + 1].armed.None? && tokens[k + 1].waiting == tokens[k].waiting + multiset{tokens[k].armed.value}
  {
  }

  /** In every run: a withdrawn token has ended, out of the scope, without a message. */
  lemma WithdrawEnds(tokens: seq<Token>, steps: seq<Step>, k: nat)
    requires IsRun(tokens, steps) && k < |steps| && steps[k].Withdraw?
    ensures tokens[k + 1].ended && tokens[k + 1].entry.None? && tokens[k + 1].armed.None?
    ensures tokens[k + 1].log == tokens[k].log
  {
    EveryTokenIsSound(tokens, steps, k + 1);
    EveryTokenIsSound(tokens, steps, k);
  }

  /** In every run: a refused token has ended, out of the scope, and answered AUTH_ERROR if it was live. */
  lemma RefuseEnds(tokens: seq<Token>, steps: seq<Step>, k: nat)
    requires IsRun(tokens, steps) && k < |steps| && (steps[k].Refuse? || steps[k].GrantTooLarge?)
    ensures tokens[k + 1].ended && tokens[k + 1].entry.None? && tokens[k + 1].armed.None?
    ensures tokens[k + 1].log == if tokens[k].ended then tokens[k].log else Answered(tokens[k], AuthError, steps[k].sent)
  {
    EveryTokenIsSound(tokens, steps, k + 1);
    EveryTokenIsSound(tokens, steps, k);
  }

  /** A token that has ended stays ended, out of the scope, and silent. */
  lemma {:induction false} EndIsForEver(tokens: seq<Token>, steps: seq<Step>, j: nat, k: nat)
    requires IsRun(tokens, steps) && j <= k < |tokens| && tokens[j].ended
    ensures tokens[k].ended && tokens[k].entry.None? && tokens[k].log == tokens[j].log
  {
    EveryTokenIsSound(tokens, steps, k);
    if j < k {
      EndIsForEver(tokens, steps, j, k - 1);
      EndedStays(tokens[k - 1], steps[k - 1]);
    }
  }

  /**
   A late callback revokes exactly when the number of grants made since its own is a multiple of 2^64, the generation
   being a 64-bit counter; otherwise it changes nothing.
   */
  lemma CallbackRevokesIff(tokens: seq<Token>, steps: seq<Step>, k: nat)
    requires IsRun(tokens, steps) && k < |steps| && steps[k].Callback? && !tokens[k].ended
    ensures steps[k].i <= tokens[k].count
    ensures tokens[k + 1].ended <==> (tokens[k].count - steps[k].i) % UINT64 == 0
    ensures !tokens[k + 1].ended ==> tokens[k + 1].entry == tokens[k].entry && tokens[k + 1].log == tokens[k].log
  {
    EveryTokenIsSound(tokens, steps, k);
    SameResidue(tokens[k].count, steps[k].i);
  }

  /** So below 2^64 grants it revokes exactly the grant it was set for. */
  lemma ExpiryRevokesItsOwnGrant(tokens: seq<Token>, steps: seq<Step>, k: nat)
    requires IsRun(tokens, steps) && k < |steps| && steps[k].Callback? && !tokens[k].ended
    requires tokens[k].count < steps[k].i + UINT64
    ensures tokens[k + 1].ended <==> steps[k].i == tokens[k].count
    ensures steps[k].i != tokens[k].count ==> tokens[k + 1].entry == tokens[k].entry && tokens[k + 1].log == tokens[k].log
  {
    CallbackRevokesIff(tokens, steps, k);
  }

  lemma SameResidue(a: nat, b: nat)
    requires b <= a
    ensures a % UINT64 == b % UINT64 <==> (a - b) % UINT64 == 0
  {
  }

  /** A run in which the timer of the first grant fires, and n grants are made before its callback has the lock. */
  lemma {:induction false} Overtaking(g: ScopeGrant, n: nat) returns (tokens: seq<Token>, steps: seq<Step>)
    ensures IsRun(tokens, steps) && |steps| == n + 2
    ensures var t := tokens[n + 2]; !t.ended && t.count == n + 1 && 1 in t.waiting
  {
    if n == 0 {
      var t0 := NewToken(true);
      var t1 := Apply(t0, Step.Grant(g, true, true));
      tokens, steps := [t0, t1, Apply(t1, TimerFires)], [Step.Grant(g, true, true), TimerFires];
    } else {
      tokens, steps := Overtaking(g, n - 1);
      var last := tokens[n + 1];
      tokens, steps := tokens + [Apply(last, Step.Grant(g, false, true))], steps + [Step.Grant(g, false, true)];
    }
  }

  /** It does happen: overtaken by any multiple of 2^64 grants, the callback of the first revokes the latest. */
  lemma OvertakenCallbackRevokes(g: ScopeGrant, m: nat) returns (tokens: seq<Token>, steps: seq<Step>)
    ensures var k := m * UINT64 + 2;
            && IsRun(tokens, steps) && |steps| == k + 1 && steps[k].Callback? && steps[k].i == 1
            && tokens[k].count == 1 + m * UINT64 && !tokens[k].ended && tokens[k + 1].ended
  {
    var n := m * UINT64;
    tokens, steps := Overtaking(g, n);
    tokens, steps := tokens + [Apply(tokens[n + 2], Callback(1, true))], steps + [Callback(1, true)];
    MultipleOf(m);
    CallbackRevokesIff(tokens, steps, n + 2);
  }

  lemma {:induction false} MultipleOf(m: nat)
    ensures m * UINT64 % UINT64 == 0
  {
    if m > 0 {
      MultipleOf(m - 1);
    }
  }

  /** The object that answers one token. waiting and the fate of a write belong to the runtime, so they are passed in. */
  class AuthWriter {
    const id: WriterId
    const scope: AuthScope
    const hasStream: bool
    var ended: bool
    // The running expiry timer, as the generation its callback captured.
    var expiry: Option<nat>
    var generation: nat
    // The same two, not wrapped at 64 bits.
    ghost var armed: Option<nat>
    ghost var count: nat
    var log: seq<Reply>
    var closed: bool

    ghost function View(waiting: multiset<nat>): Token
      reads this, scope
    {
      Token(ended, count, armed, waiting, if id in scope.grants then Some(scope.grants[id]) else None, hasStream, log, closed)
    }

    ghost predicate Valid()
      reads this, scope
    {
      && scope.Valid() && generation == count % UINT64
      && expiry == (match armed case Some(i) => Some(i % UINT64) case None => None)
      && (ended ==> id !in scope.grants && expiry.None?)
    }

    ghost predicate OthersUntouched(before: map<WriterId, ScopeGrant>)
      reads this, scope
    {
      scope.grants - {id} == before - {id}
    }

    constructor (id: WriterId, scope: AuthScope, hasStream: bool)
      requires scope.Valid() && id !in scope.grants
      ensures Valid() && this.id == id && this.scope == scope
      ensures View(multiset{}) == NewToken(hasStream)
    {
      this.id, this.scope, this.hasStream := id, scope, hasStream;
      ended, expiry, generation, armed, count := false, None, 0, None, 0;
      log, closed := [], false;
    }

    method Send(r: Reply, sent: bool)
      requires Valid()
      modifies `log, `closed
      ensures Valid()
      ensures forall w :: View(w) == Sends(old(View(w)), r, sent)
      ensures log == if hasStream && !old(closed) && sent then old(log) + [r] else old(log)
    {
      if !hasStream || closed { return; }
      if sent { log := log + [r]; } else { closed := true; }
    }

    method EndLocked() returns (changed: bool)
      requires Valid()
      modifies this, scope
      ensures Valid() && OthersUntouched(old(scope.grants))
      ensures forall w :: View(w) == Ended(old(View(w)))
      ensures ended && id !in scope.grants && expiry.None? && log == old(log) && closed == old(closed)
      ensures changed == (id in old(scope.grants))
    {
      ended := true;
      expiry, armed := None, None;
      changed := scope.Remove(id);
    }

    method RefuseLocked(sent: bool) returns (changed: bool)
      requires Valid() && !ended
      modifies this, scope
      ensures Valid() && OthersUntouched(old(scope.grants))
      ensures forall w :: View(w) == Refused(old(View(w)), sent)
      ensures ended && id !in scope.grants && expiry.None?
      ensures log == if hasStream && !old(closed) && sent then old(log) + [AuthError] else old(log)
      ensures changed == (id in old(scope.grants))
    {
      changed := EndLocked();
      if hasStream {
        Send(AuthError, sent);
        closed := true;
      }
    }

    method Grant(g: ScopeGrant, timed: bool, tooLarge: bool, sent: bool) returns (authEnded: bool, changed: bool)
      requires Valid() && ValidGrant(g)
      modifies this, scope
      ensures Valid() && OthersUntouched(old(scope.grants))
      ensures authEnded == old(ended)
      ensures forall w :: View(w) == if tooLarge then Refused(old(View(w)), sent) else Granted(old(View(w)), g, timed, sent)
      ensures !old(ended) && !tooLarge ==>
                && !ended && id in scope.grants && scope.grants[id] == g && count == old(count) + 1
                && armed == (if timed then Some(count) else None)
                && log == if hasStream && !old(closed) && sent then old(log) + [AuthOk(g)] else old(log)
      ensures !old(ended) && tooLarge ==>
                && ended && id !in scope.grants
                && log == if hasStream && !old(closed) && sent then old(log) + [AuthError] else old(log)
      ensures changed == (!old(ended) && if tooLarge then id in old(scope.grants) else SetChanges(old(scope.grants), id, g))
    {
      if ended { return true, false; }
      if tooLarge {
        changed := RefuseLocked(sent);
        return false, changed;
      }
      changed := scope.Set(id, g);
      ExpireAfterLocked(timed);
      Send(AuthOk(g), sent);
      return false, changed;
    }

    method ExpireAfterLocked(timed: bool)
      requires Valid() && !ended
      modifies `generation, `expiry, `armed, `count
      ensures Valid() && count == old(count) + 1
      ensures armed == if timed then Some(count) else None
    {
      generation := (generation + 1) % UINT64;
      count := count + 1;
      expiry, armed := None, None;
      if timed {
        expiry, armed := Some(generation), Some(count);
      }
    }

    method Refuse(sent: bool) returns (authEnded: bool, changed: bool)
      requires Valid()
      modifies this, scope
      ensures Valid() && OthersUntouched(old(scope.grants))
      ensures authEnded == old(ended)
      ensures forall w :: View(w) == Refused(old(View(w)), sent)
      ensures ended && expiry.None? && id !in scope.grants
      ensures log == if !old(ended) && hasStream && !old(closed) && sent then old(log) + [AuthError] else old(log)
      ensures changed == (!old(ended) && id in old(scope.grants))
    {
      if ended { return true, false; }
      changed := RefuseLocked(sent);
      return false, changed;
    }

    /** The presenter withdrew the token, or its handler returned. */
    method End() returns (changed: bool)
      requires Valid()
      modifies this, scope
      ensures Valid() && OthersUntouched(old(scope.grants))
      ensures forall w :: View(w) == Withdrawn(old(View(w)))
      ensures ended && expiry.None? && id !in scope.grants && log == old(log)
      ensures changed == (!old(ended) && id in old(scope.grants))
    {
      changed := false;
      if !ended { changed := EndLocked(); }
    }

    /** The callback of an expiry timer, set for the i-th grant, once it has the lock. */
    method Lapse(captured: nat, ghost i: nat, ghost waiting: multiset<nat>, sent: bool) returns (changed: bool)
      requires Valid() && captured == i % UINT64
      modifies this, scope
      ensures Valid() && OthersUntouched(old(scope.grants))
      ensures View(waiting - multiset{i}) == CalledBack(old(View(waiting)), i, sent)
      ensures !old(ended) && old(count) % UINT64 == i % UINT64 ==> ended && id !in scope.grants
      ensures changed == (old(Revokes(View(waiting), i)) && id in old(scope.grants))
    {
      if ended || generation != captured { return false; }
      changed := RefuseLocked(sent);
    }
  }
}
