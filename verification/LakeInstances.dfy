/**
 * The cache of prepared instances, the sessions on them, and their spill directories, in any
 * interleaving of the steps the process takes between one await and the next.
 *
 * An instance is named by the promise it is prepared under, a number; a session by its own.
 * Connecting to an instance that is already closed fails, as does waiting for one whose
 * setup failed.
 */
module LakeInstances {
  import opened Basics
  import opened SpillRegistry

  type Key = string

  datatype Phase = Preparing | Tracked | Ready | Failed

  datatype Instance = Instance(key: Key, phase: Phase, closed: bool)

  /** `counted`: the registry counts it. `doomed`: the instance was closed when it set out to connect. */
  datatype Session = Waiting(on: nat) | Connecting(on: nat, counted: bool, doomed: bool) | Connected(on: nat) | Closed(on: nat) | Ended

  /**
   * `retiring`: instances out of the cache whose retirement is still to run. `failed`: failed
   * setups whose clean-up is still to run.
   */
  datatype World = World(cache: map<Key, nat>, instances: seq<Instance>, sessions: seq<Session>,
                         spills: Registry, retiring: multiset<nat>, failed: set<nat>)

  const START := World(map[], [], [], EMPTY, multiset{}, {})

  datatype Event =
    | Call(key: Key)               // a caller asks for a session
    | Opened(p: nat)               // the instance is there, its directory tracked
    | Prepared(p: nat)
    | SetupFails(p: nat)           // before or after it was tracked
    | Uncache(p: nat)              // what follows a failed setup, once
    | SetOut(s: nat)               // the session has its instance: count it, and connect
    | Connects(s: nat)
    | ConnectFails(s: nat, lost: bool)
    | GivesUp(s: nat)              // the setup it waited for failed
    | LosesInstance(s: nat)        // a statement fails with what means the instance is lost
    | CloseSession(s: nat)
    | RetireNext(p: nat)
    | Shutdown
    | ReleaseIdle(key: Key)
    | Removed(p: nat)
    | Settles(p: nat)              // the promise its retirement gave

  predicate Enabled(w: World, e: Event) {
    match e
    case Call(_) => true
    case Opened(p) => p < |w.instances| && w.instances[p].phase.Preparing?
    case Prepared(p) => p < |w.instances| && w.instances[p].phase.Tracked?
    case SetupFails(p) => p < |w.instances| && (w.instances[p].phase.Preparing? || w.instances[p].phase.Tracked?)
    case Uncache(p) => p in w.failed && p < |w.instances| && w.instances[p].phase.Failed?
    case SetOut(s) => s < |w.sessions| && w.sessions[s].Waiting? && Phased(w, w.sessions[s].on, Ready)
    case Connects(s) => s < |w.sessions| && w.sessions[s].Connecting? && !w.sessions[s].doomed
    case ConnectFails(s, lost) => s < |w.sessions| && w.sessions[s].Connecting? && (w.sessions[s].doomed ==> lost)
    case GivesUp(s) => s < |w.sessions| && w.sessions[s].Waiting? && Phased(w, w.sessions[s].on, Failed)
    case LosesInstance(s) => s < |w.sessions| && (w.sessions[s].Connected? || w.sessions[s].Closed?)
    case CloseSession(s) => s < |w.sessions| && (w.sessions[s].Connected? || w.sessions[s].Closed?)
    case RetireNext(p) => p in w.retiring && p < |w.instances| && (w.instances[p].phase.Ready? || w.instances[p].phase.Failed?)
    case Shutdown => true
    case ReleaseIdle(key) => true
    case Removed(p) => p in w.spills.releases
    case Settles(p) => MaySettle(w.spills, p)
  }

  predicate Phased(w: World, p: nat, phase: Phase) { p < |w.instances| && w.instances[p].phase == phase }

  /** Closed at once, and retired in the registry. */
  function RetireInstance(w: World, p: nat): World
    requires p < |w.instances|
  {
    w.(instances := w.instances[p := w.instances[p].(closed := true)], spills := Retire(w.spills, p))
  }

  /** Out of the cache, if it is this instance that is in it, and to be retired. */
  function Forget(w: World, p: nat): World
    requires p < |w.instances|
  {
    var key := w.instances[p].key;
    if key in w.cache && w.cache[key] == p then
      w.(cache := w.cache - {key}, retiring := w.retiring + multiset{p})
    else w
  }

  function Next(w: World, e: Event): World
    requires Enabled(w, e) && SessionsKnown(w)
  {
    match e
    case Call(key) =>
      if key in w.cache then w.(sessions := w.sessions + [Waiting(w.cache[key])])
      else
        var p := |w.instances|;
        w.(cache := w.cache[key := p], instances := w.instances + [Instance(key, Preparing, false)],
           sessions := w.sessions + [Waiting(p)])
    case Opened(p) =>
      w.(instances := w.instances[p := w.instances[p].(phase := Tracked)], spills := Track(w.spills, p))
    case Prepared(p) => w.(instances := w.instances[p := w.instances[p].(phase := Ready)])
    case SetupFails(p) =>
      var failed := w.(instances := w.instances[p := w.instances[p].(phase := Failed)], failed := w.failed + {p});
      if w.instances[p].phase.Tracked? then RetireInstance(failed, p) else failed
    case Uncache(p) => w.(cache := w.cache - {w.instances[p].key}, failed := w.failed - {p})
    case SetOut(s) =>
      var p := w.sessions[s].on;
      w.(sessions := w.sessions[s := Connecting(p, p in w.spills.held, w.instances[p].closed)], spills := Open(w.spills, p))
    case Connects(s) => w.(sessions := w.sessions[s := Connected(w.sessions[s].on)])
    case ConnectFails(s, lost) =>
      var p := w.sessions[s].on;
      var closed := w.(sessions := w.sessions[s := Ended], spills := Close(w.spills, p));
      if lost then Forget(closed, p) else closed
    case GivesUp(s) => w.(sessions := w.sessions[s := Ended])
    case LosesInstance(s) => Forget(w, w.sessions[s].on)
    case CloseSession(s) =>
      var p := w.sessions[s].on;
      if w.sessions[s].Closed? then w
      else w.(sessions := w.sessions[s := Closed(p)], spills := Close(w.spills, p))
    case RetireNext(p) =>
      var next := w.(retiring := w.retiring - multiset{p});
      if w.instances[p].phase.Ready? then RetireInstance(next, p) else next
    case Shutdown => w.(cache := map[], retiring := w.retiring + multiset(w.cache.Values))
    case ReleaseIdle(key) =>
      if key in w.cache && Phased(w, w.cache[key], Ready) && Sessions(w.spills, w.cache[key]) <= 0 then
        RetireInstance(w.(cache := w.cache - {key}), w.cache[key])
      else w
    case Removed(p) => w.(spills := w.spills.(finished := w.spills.finished + {p}))
    case Settles(p) => w.(spills := w.spills.(settled := w.spills.settled + {p}))
  }

  predicate SessionsKnown(w: World) {
    forall s :: 0 <= s < |w.sessions| && !w.sessions[s].Ended? ==> w.sessions[s].on < |w.instances|
  }

  // ---- how many hold an instance ----

  predicate Holds(s: Session, p: nat) {
    match s
    case Connecting(on, counted, _) => on == p && counted
    case Connected(on) => on == p
    case _ => false
  }

  function Holding(sessions: seq<Session>, p: nat): nat {
    if sessions == [] then 0
    else Holding(sessions[..|sessions| - 1], p) + if Holds(sessions[|sessions| - 1], p) then 1 else 0
  }

  lemma {:induction false} HoldingUpdates(sessions: seq<Session>, s: nat, x: Session, p: nat)
    requires s < |sessions|
    ensures Holding(sessions[s := x], p)
      == Holding(sessions, p) - (if Holds(sessions[s], p) then 1 else 0) + (if Holds(x, p) then 1 else 0)
  {
    var n := |sessions| - 1;
    if s < n {
      HoldingUpdates(sessions[..n], s, x, p);
      assert sessions[s := x][..n] == sessions[..n][s := x];
    } else {
      assert sessions[s := x][..n] == sessions[..n];
    }
  }

  lemma HoldingWaits(sessions: seq<Session>, x: Session, p: nat)
    requires x.Waiting?
    ensures Holding(sessions + [x], p) == Holding(sessions, p)
  {
    assert (sessions + [x])[..|sessions|] == sessions;
  }

  lemma {:induction false} HoldingNone(sessions: seq<Session>, p: nat)
    ensures Holding(sessions, p) == 0 <==> forall s :: 0 <= s < |sessions| ==> !Holds(sessions[s], p)
  {
    if sessions != [] {
      HoldingNone(sessions[..|sessions| - 1], p);
      assert forall s :: 0 <= s < |sessions| - 1 ==> sessions[..|sessions| - 1][s] == sessions[s];
    }
  }

  // ---- what every step keeps ----

  function HeldOf(r: Registry, p: nat): Option<Held> { if p in r.held then Some(r.held[p]) else None }

  predicate Cached(w: World, p: nat)
    requires p < |w.instances|
  {
    w.instances[p].key in w.cache && w.cache[w.instances[p].key] == p
  }

  /**
   * One instance, its entry in the registry, whether its removal has begun, how many sessions
   * hold it, whether it is in the cache and how often it is to be retired.
   */
  predicate InstanceOk(i: Instance, held: Option<Held>, released: bool, holding: nat, cached: bool, retiring: nat) {
    && (i.closed ==> i.phase.Ready? || i.phase.Failed?)
    && (i.phase.Preparing? ==> held.None? && !released)
    && (i.phase.Tracked? ==> held.Some?)
    && (i.phase.Ready? ==> held.Some? || released)
    && (i.phase.Failed? ==> held.None?)
    && (!i.phase.Ready? ==> holding == 0)
    && (held.Some? ==>
          && held.value.sessions == holding && held.value.retired == i.closed
          && (i.closed ==> holding > 0) && !released)
    && (released ==> i.closed && holding == 0)
    && retiring + (if cached then 1 else 0) <= 1
    && (retiring > 0 || cached ==> i.phase.Failed? || !i.closed)
  }

  predicate InstanceInv(w: World, p: nat)
    requires p < |w.instances|
  {
    InstanceOk(w.instances[p], HeldOf(w.spills, p), p in w.spills.releases, Holding(w.sessions, p), Cached(w, p),
               w.retiring[p])
  }

  predicate SessionInv(w: World, x: Session) {
    match x
    case Waiting(p) => p < |w.instances|
    case Connecting(p, counted, doomed) =>
      && Phased(w, p, Ready) && (doomed ==> w.instances[p].closed)
      && (!counted ==> doomed && p in w.spills.releases)
    case Connected(p) => Phased(w, p, Ready)
    case Closed(p) => Phased(w, p, Ready)
    case Ended => true
  }

  predicate Distinct(s: seq<nat>) { forall i, j :: 0 <= i < j < |s| ==> s[i] != s[j] }

  ghost predicate NamesInv(w: World) {
    && (forall key :: key in w.cache ==> w.cache[key] < |w.instances| && w.instances[w.cache[key]].key == key)
    && (forall p: nat :: p in w.retiring || p in w.spills.held || p in w.spills.releases ==> p < |w.instances|)
  }

  predicate LogInv(r: Registry) {
    && Distinct(r.releases) && (forall p :: p in r.finished ==> p in r.releases) && r.unheld == []
    && forall p :: p in r.settled ==> p in r.finished
  }

  ghost predicate InstancesInv(w: World) { forall p: nat :: p < |w.instances| ==> InstanceInv(w, p) }

  ghost predicate SessionsInv(w: World) { forall s :: 0 <= s < |w.sessions| ==> SessionInv(w, w.sessions[s]) }

  ghost predicate WorldInv(w: World) {
    NamesInv(w) && LogInv(w.spills) && InstancesInv(w) && SessionsInv(w)
  }

  lemma InvKnows(w: World)
    requires SessionsInv(w)
    ensures SessionsKnown(w)
  {
    forall s | 0 <= s < |w.sessions| && !w.sessions[s].Ended? ensures w.sessions[s].on < |w.instances| {
      assert SessionInv(w, w.sessions[s]);
    }
  }

  lemma StartHolds()
    ensures WorldInv(START)
  {
  }

  /** Instances go on being what they are: a ready one ready, a closed one closed. */
  predicate Onward(a: seq<Instance>, b: seq<Instance>) {
    && |a| <= |b|
    && forall p :: 0 <= p < |a| ==>
         b[p].key == a[p].key && (a[p].phase.Ready? ==> b[p].phase.Ready?) && (a[p].closed ==> b[p].closed)
  }

  /** Sessions stay in order when instances go onward and one session at most is another. */
  lemma SessionsStand(w: World, next: World, s: nat)
    requires SessionsInv(w) && Onward(w.instances, next.instances) && |w.sessions| <= |next.sessions|
    requires forall p :: p in w.spills.releases ==> p in next.spills.releases
    requires forall t :: 0 <= t < |next.sessions| && t != s ==> t < |w.sessions| && next.sessions[t] == w.sessions[t]
    requires s < |next.sessions| ==> SessionInv(next, next.sessions[s])
    ensures SessionsInv(next)
  {
    forall t | 0 <= t < |next.sessions| ensures SessionInv(next, next.sessions[t]) {
      var x := next.sessions[t];
      if t != s { assert SessionInv(w, x); }
    }
  }

  lemma HoldingUnknown(w: World, p: nat)
    requires SessionsInv(w) && p >= |w.instances|
    ensures Holding(w.sessions, p) == 0
  {
    HoldingNone(w.sessions, p);
    assert forall s :: 0 <= s < |w.sessions| ==> SessionInv(w, w.sessions[s]);
  }

  lemma CallKeeps(w: World, key: Key)
    requires WorldInv(w) && SessionsKnown(w)
    ensures WorldInv(Next(w, Call(key)))
  {
    hide Holding, LogInv;
    var next := Next(w, Call(key));
    var n := |w.sessions|;
    forall p: nat | p < |next.instances| ensures InstanceInv(next, p) {
      HoldingWaits(w.sessions, next.sessions[n], p);
      if p < |w.instances| { assert InstanceInv(w, p); } else { HoldingUnknown(w, p); }
    }
    SessionsStand(w, next, n);
  }

  lemma SetupKeeps(w: World, p: nat, e: Event)
    requires WorldInv(w) && SessionsKnown(w) && Enabled(w, e)
    requires e == Opened(p) || e == Prepared(p) || e == Uncache(p)
    ensures WorldInv(Next(w, e))
  {
    hide Holding;
    var next := Next(w, e);
    assert InstanceInv(w, p);
    forall q: nat | q < |next.instances| ensures InstanceInv(next, q) { assert InstanceInv(w, q); }
    SessionsStand(w, next, |w.sessions|);
  }

  lemma SetupFailsKeeps(w: World, p: nat)
    requires WorldInv(w) && SessionsKnown(w) && Enabled(w, SetupFails(p))
    ensures WorldInv(Next(w, SetupFails(p)))
  {
    hide Holding;
    var next := Next(w, SetupFails(p));
    assert InstanceInv(w, p);
    forall q: nat | q < |next.instances| ensures InstanceInv(next, q) { assert InstanceInv(w, q); }
    SessionsStand(w, next, |w.sessions|);
  }

  /** Retiring an instance that was ready and in service. */
  lemma RetireKeeps(w: World, before: World, p: nat)
    requires WorldInv(before) && p < |before.instances| && before.instances[p].phase.Ready? && !before.instances[p].closed
    requires w == before.(cache := w.cache, retiring := w.retiring) && NamesInv(w)
    requires forall q: nat :: q < |w.instances| && q != p ==> Cached(w, q) == Cached(before, q) && w.retiring[q] == before.retiring[q]
    requires !Cached(w, p) && w.retiring[p] == 0
    ensures WorldInv(RetireInstance(w, p))
  {
    hide Holding;
    var next := RetireInstance(w, p);
    assert InstanceInv(before, p);
    forall q: nat | q < |next.instances| ensures InstanceInv(next, q) { assert InstanceInv(before, q); }
    SessionsStand(before, next, |w.sessions|);
  }

  lemma RetireNextKeeps(w: World, p: nat)
    requires WorldInv(w) && SessionsKnown(w) && Enabled(w, RetireNext(p))
    ensures WorldInv(Next(w, RetireNext(p)))
  {
    hide Holding;
    assert InstanceInv(w, p);
    var next := w.(retiring := w.retiring - multiset{p});
    if w.instances[p].phase.Ready? {
      RetireKeeps(next, w, p);
    } else {
      forall q: nat | q < |next.instances| ensures InstanceInv(next, q) { assert InstanceInv(w, q); }
      SessionsStand(w, next, |w.sessions|);
    }
  }

  lemma ReleaseIdleKeeps(w: World, key: Key)
    requires WorldInv(w) && SessionsKnown(w)
    ensures WorldInv(Next(w, ReleaseIdle(key)))
  {
    hide Holding;
    if Next(w, ReleaseIdle(key)) != w {
      var p := w.cache[key];
      assert InstanceInv(w, p);
      RetireKeeps(w.(cache := w.cache - {key}), w, p);
    }
  }

  lemma ShutdownKeeps(w: World)
    requires WorldInv(w) && SessionsKnown(w)
    ensures WorldInv(Next(w, Shutdown))
  {
    hide Holding;
    var next := Next(w, Shutdown);
    forall q: nat | q < |next.instances| ensures InstanceInv(next, q) {
      assert InstanceInv(w, q);
      if Cached(w, q) { assert q in w.cache.Values; }
      assert q in w.cache.Values ==> Cached(w, q);
    }
    SessionsStand(w, next, |w.sessions|);
  }

  lemma RemovedKeeps(w: World, p: nat, e: Event)
    requires WorldInv(w) && SessionsKnown(w) && Enabled(w, e) && (e == Removed(p) || e == Settles(p))
    ensures WorldInv(Next(w, e))
  {
    hide Holding;
    var next := Next(w, e);
    forall q: nat | q < |next.instances| ensures InstanceInv(next, q) { assert InstanceInv(w, q); }
    SessionsStand(w, next, |w.sessions|);
  }

  /** A session moves: the registry counts one more, one fewer, or as many as before. */
  lemma SessionKeeps(w: World, s: nat, x: Session, spills: Registry)
    requires WorldInv(w) && s < |w.sessions| && !w.sessions[s].Ended? && SessionInv(w, x)
    requires w.sessions[s].on < |w.instances| && (!x.Ended? ==> x.on == w.sessions[s].on)
    requires var p := w.sessions[s].on; var (was, will) := (Holds(w.sessions[s], p), Holds(x, p));
      && (will ==> w.instances[p].phase.Ready?)
      && (was == will ==> spills == w.spills)
      && (!was && will ==> p in w.spills.held && spills == Open(w.spills, p))
      && (was && !will ==> spills == Close(w.spills, p))
    ensures WorldInv(w.(sessions := w.sessions[s := x], spills := spills))
  {
    var next := w.(sessions := w.sessions[s := x], spills := spills);
    var p := w.sessions[s].on;
    assert InstanceInv(w, p);
    assert LogInv(spills) && NamesInv(next) by { hide InstancesInv, SessionsInv, Holding; }
    hide LogInv, Distinct, NamesInv;
    forall q: nat | q < |next.instances| ensures InstanceInv(next, q) {
      assert InstanceInv(w, q);
      HoldingUpdates(w.sessions, s, x, q);
    }
    SessionsStand(w, next, s);
  }

  lemma ForgetKeeps(w: World, p: nat)
    requires WorldInv(w) && p < |w.instances|
    ensures WorldInv(Forget(w, p))
  {
    hide Holding;
    var next := Forget(w, p);
    forall q: nat | q < |next.instances| ensures InstanceInv(next, q) { assert InstanceInv(w, q); }
    SessionsStand(w, next, |w.sessions|);
  }

  lemma SessionStepKeeps(w: World, e: Event)
    requires WorldInv(w) && SessionsKnown(w) && Enabled(w, e)
    requires e.SetOut? || e.Connects? || e.ConnectFails? || e.GivesUp? || e.LosesInstance? || e.CloseSession?
    ensures WorldInv(Next(w, e))
  {
    hide Holding, NamesInv, LogInv;
    assert SessionInv(w, w.sessions[e.s]);
    var p := w.sessions[e.s].on;
    assert InstanceInv(w, p);
    match e
    case SetOut(s) => SessionKeeps(w, s, Connecting(p, p in w.spills.held, w.instances[p].closed), Open(w.spills, p));
    case Connects(s) => SessionKeeps(w, s, Connected(p), w.spills);
    case ConnectFails(s, lost) =>
      SessionKeeps(w, s, Ended, Close(w.spills, p));
      ForgetKeeps(w.(sessions := w.sessions[s := Ended], spills := Close(w.spills, p)), p);
    case GivesUp(s) => SessionKeeps(w, s, Ended, w.spills);
    case LosesInstance(s) => ForgetKeeps(w, p);
    case CloseSession(s) => if w.sessions[s].Connected? { SessionKeeps(w, s, Closed(p), Close(w.spills, p)); }
  }

  lemma StepKeeps(w: World, e: Event)
    requires WorldInv(w) && SessionsKnown(w) && Enabled(w, e)
    ensures WorldInv(Next(w, e)) && SessionsKnown(Next(w, e))
  {
    hide WorldInv, Next, Enabled;
    match e {
      case Call(key) => CallKeeps(w, key);
      case Opened(p) => SetupKeeps(w, p, e);
      case Prepared(p) => SetupKeeps(w, p, e);
      case SetupFails(p) => SetupFailsKeeps(w, p);
      case Uncache(p) => SetupKeeps(w, p, e);
      case RetireNext(p) => RetireNextKeeps(w, p);
      case Shutdown => ShutdownKeeps(w);
      case ReleaseIdle(key) => ReleaseIdleKeeps(w, key);
      case Removed(p) => RemovedKeeps(w, p, e);
      case Settles(p) => RemovedKeeps(w, p, e);
      case _ => SessionStepKeeps(w, e);
    }
    WorldKnows(Next(w, e));
  }

  lemma WorldKnows(w: World)
    requires WorldInv(w)
    ensures SessionsKnown(w)
  {
    InvKnows(w);
  }

  // ---- over every run ----

  /** Where a run of steps leads, if each of them could be taken. */
  ghost function After(events: seq<Event>): (w: Option<World>)
    ensures w.Some? ==> WorldInv(w.value) && SessionsKnown(w.value)
  {
    if events == [] then
      StartHolds();
      Some(START)
    else
      var e := events[|events| - 1];
      match After(events[..|events| - 1])
      case None => None
      case Some(w) => if Enabled(w, e) then StepKeeps(w, e); Some(Next(w, e)) else None
  }

  /** A session that reads through an instance, or may yet come to. */
  predicate Uses(x: Session, p: nat) { x == Connected(p) || (x.Connecting? && x.on == p && !x.doomed) }

  /**
   * At every moment of every run: a directory's removal has begun just when its instance is
   * closed and no session the registry counts holds it; no session is then using it; no
   * removal begins twice; and retiring an instance settles only once the removal has run.
   */
  lemma DirectoriesOutliveSessions(events: seq<Event>, p: nat)
    requires After(events).Some? && p < |After(events).value.instances|
    ensures var w := After(events).value;
      && (w.instances[p].phase.Ready? ==>
            (p in w.spills.releases <==> w.instances[p].closed && Holding(w.sessions, p) == 0))
      && (p in w.spills.releases ==> forall s :: 0 <= s < |w.sessions| ==> !Uses(w.sessions[s], p))
      && Distinct(w.spills.releases) && (p in w.spills.finished ==> p in w.spills.releases)
      && (p in w.spills.settled ==> p in w.spills.finished) && (Enabled(w, Settles(p)) <==> p in w.spills.finished)
  {
    var w := After(events).value;
    hide After;
    assert InstanceInv(w, p);
    HoldingNone(w.sessions, p);
    forall s | 0 <= s < |w.sessions| && p in w.spills.releases ensures !Uses(w.sessions[s], p) {
      assert SessionInv(w, w.sessions[s]);
      assert !Holds(w.sessions[s], p);
    }
  }

  /** An instance no longer in the cache that nothing will ever retire. */
  predicate Abandoned(w: World, p: nat) {
    && p < |w.instances| && !w.instances[p].phase.Failed? && !w.instances[p].closed
    && !Cached(w, p) && w.retiring[p] == 0
  }

  /** A failed setup's clean-up takes a newer instance out of the cache. */
  predicate Evicts(w: World, e: Event, p: nat) {
    && e.Uncache? && e.p < |w.instances| && p < |w.instances| && e.p != p && !w.instances[p].phase.Failed?
    && w.instances[e.p].key == w.instances[p].key && Cached(w, p)
  }

  lemma ForgetAbandons(w: World, q: nat, p: nat)
    requires q < |w.instances|
    ensures Abandoned(Forget(w, q), p) == Abandoned(w, p) && Forget(w, q).instances == w.instances
  {
  }

  /** What a step does to an instance's being abandoned. */
  predicate AbandonsOnly(w: World, e: Event, next: World, p: nat) {
    && (!Abandoned(w, p) ==> (Abandoned(next, p) <==> Evicts(w, e, p)))
    && (Abandoned(w, p) && w.instances[p].phase.Ready? ==> Abandoned(next, p) && next.instances[p].phase.Ready?)
  }

  lemma SessionAbandons(w: World, e: Event, p: nat)
    requires WorldInv(w) && SessionsKnown(w) && Enabled(w, e)
    requires e.SetOut? || e.Connects? || e.ConnectFails? || e.GivesUp? || e.LosesInstance? || e.CloseSession?
    ensures AbandonsOnly(w, e, Next(w, e), p)
  {
    hide Holding, WorldInv, Forget;
    var q := w.sessions[e.s].on;
    match e
    case ConnectFails(s, lost) =>
      ForgetAbandons(w.(sessions := w.sessions[s := Ended], spills := Close(w.spills, q)), q, p);
    case LosesInstance(s) => ForgetAbandons(w, q, p);
    case _ =>
  }

  lemma SetupAbandons(w: World, e: Event, p: nat)
    requires WorldInv(w) && SessionsKnown(w) && Enabled(w, e)
    requires e.Call? || e.Opened? || e.Prepared? || e.SetupFails? || e.Uncache?
    ensures AbandonsOnly(w, e, Next(w, e), p)
  {
    hide Holding, LogInv, SessionsInv, Distinct;
    if p < |w.instances| { assert InstanceInv(w, p); }
  }

  lemma ShutdownAbandons(w: World, p: nat)
    requires WorldInv(w) && SessionsKnown(w)
    ensures AbandonsOnly(w, Shutdown, Next(w, Shutdown), p)
  {
    hide Holding, LogInv, SessionsInv, Distinct;
    if p < |w.instances| {
      assert InstanceInv(w, p);
      if Cached(w, p) { assert p in w.cache.Values; }
    }
  }

  lemma ServiceAbandons(w: World, e: Event, p: nat)
    requires WorldInv(w) && SessionsKnown(w) && Enabled(w, e)
    requires e.RetireNext? || e.ReleaseIdle? || e.Removed? || e.Settles?
    ensures AbandonsOnly(w, e, Next(w, e), p)
  {
    hide Holding, LogInv, SessionsInv, Distinct, Retire, Sessions;
    if p < |w.instances| { assert InstanceInv(w, p); }
  }

  lemma StepAbandonsOnly(w: World, e: Event, p: nat)
    requires WorldInv(w) && SessionsKnown(w) && Enabled(w, e)
    ensures AbandonsOnly(w, e, Next(w, e), p)
  {
    if e.SetOut? || e.Connects? || e.ConnectFails? || e.GivesUp? || e.LosesInstance? || e.CloseSession? {
      SessionAbandons(w, e, p);
    } else if e.Shutdown? {
      ShutdownAbandons(w, p);
    } else if e.RetireNext? || e.ReleaseIdle? || e.Removed? || e.Settles? {
      ServiceAbandons(w, e, p);
    } else {
      SetupAbandons(w, e, p);
    }
  }

  /** An instance comes to be abandoned exactly when a failed setup's clean-up evicts it. */
  lemma StepAbandons(w: World, e: Event, p: nat)
    requires WorldInv(w) && SessionsKnown(w) && Enabled(w, e) && !Abandoned(w, p)
    ensures Abandoned(Next(w, e), p) <==> Evicts(w, e, p)
  {
    hide Next, Abandoned, Evicts;
    StepAbandonsOnly(w, e, p);
  }

  /** Abandoned, and ready. */
  predicate Stranded(w: World, p: nat) { Abandoned(w, p) && w.instances[p].phase.Ready? }

  lemma StrandedStep(w: World, e: Event, p: nat)
    requires WorldInv(w) && SessionsKnown(w) && Enabled(w, e) && Stranded(w, p)
    ensures Stranded(Next(w, e), p)
  {
    StepAbandonsOnly(w, e, p);
  }

  lemma AfterOne(events: seq<Event>, e: Event)
    ensures After(events + [e]) ==
      if After(events).Some? && Enabled(After(events).value, e) then Some(Next(After(events).value, e)) else None
  {
    assert (events + [e])[..|events|] == events;
  }

  lemma StrandedLonger(events: seq<Event>, e: Event, p: nat)
    requires After(events).Some? && Stranded(After(events).value, p) && After(events + [e]).Some?
    ensures Stranded(After(events + [e]).value, p)
  {
    hide Stranded, Next, Enabled, WorldInv, SessionsKnown;
    AfterOne(events, e);
    hide After;
    StrandedStep(After(events).value, e, p);
  }

  lemma {:induction false} StaysStranded(events: seq<Event>, more: seq<Event>, p: nat)
    requires After(events).Some? && After(events + more).Some? && Stranded(After(events).value, p)
    ensures Stranded(After(events + more).value, p)
  {
    hide Stranded, After, Next, Enabled, WorldInv, SessionsKnown;
    if more == [] {
      assert events + more == events;
    } else {
      var n := |more| - 1;
      assert events + more == (events + more[..n]) + [more[n]];
      AfterOne(events + more[..n], more[n]);
      StaysStranded(events, more[..n], p);
      StrandedLonger(events + more[..n], more[n], p);
    }
  }

  /** Once ready and abandoned, an instance stays so: its directory is never removed. */
  lemma AbandonedForGood(events: seq<Event>, more: seq<Event>, p: nat)
    requires After(events).Some? && After(events + more).Some? && Stranded(After(events).value, p)
    ensures Stranded(After(events + more).value, p) && p !in After(events + more).value.spills.releases
  {
    hide After;
    StaysStranded(events, more, p);
    assert InstanceInv(After(events + more).value, p);
  }

  /** Worlds some run comes to. */
  ghost predicate Reached(w: World) { exists events :: After(events) == Some(w) }

  lemma ReachedOn(w: World, e: Event, next: World)
    requires Reached(w) && SessionsKnown(w) && Enabled(w, e) && Next(w, e) == next
    ensures Reached(next)
  {
    var events :| After(events) == Some(w);
    AfterOne(events, e);
  }

  lemma ReachedAtFirst()
    ensures Reached(START)
  {
    assert After([]) == Some(START);
  }

  /** A run that does it: the cache is cleared over a setup that then fails, behind a newer one. */
  lemma SetupFailureAbandons(key: Key)
    ensures exists w :: Reached(w) && Stranded(w, 1)
  {
    hide Reached;
    var begun, failed := Instance(key, Preparing, false), Instance(key, Failed, false);
    var both := [Waiting(0), Waiting(1)];
    var w1 := World(map[key := 0], [begun], [Waiting(0)], EMPTY, multiset{}, {});
    ReachedAtFirst();
    ReachedOn(START, Call(key), w1);
    var w2 := World(map[], [begun], [Waiting(0)], EMPTY, multiset{0}, {});
    assert w1.cache.Values == {0};
    ReachedOn(w1, Shutdown, w2);
    var w3 := World(map[key := 1], [begun, begun], both, EMPTY, multiset{0}, {});
    ReachedOn(w2, Call(key), w3);
    SetupFailsBehind(key, w3);
  }

  lemma SetupFailsBehind(key: Key, w3: World)
    requires Reached(w3)
    requires var begun := Instance(key, Preparing, false);
      w3 == World(map[key := 1], [begun, begun], [Waiting(0), Waiting(1)], EMPTY, multiset{0}, {})
    ensures exists w :: Reached(w) && Stranded(w, 1)
  {
    hide Reached;
    var begun, failed := Instance(key, Preparing, false), Instance(key, Failed, false);
    var tracked, ready := Instance(key, Tracked, false), Instance(key, Ready, false);
    var held := Track(EMPTY, 1);
    var w4 := w3.(instances := [begun, tracked], spills := held);
    ReachedOn(w3, Opened(1), w4);
    var w5 := w4.(instances := [begun, ready]);
    ReachedOn(w4, Prepared(1), w5);
    var w6 := w5.(instances := [failed, ready], failed := {0});
    ReachedOn(w5, SetupFails(0), w6);
    var w7 := w6.(cache := map[], failed := {});
    ReachedOn(w6, Uncache(0), w7);
  }

  ghost predicate Evictions(events: seq<Event>, n: nat)
    requires n < |events|
  {
    After(events[..n]).Some? && exists p: nat :: Evicts(After(events[..n]).value, events[n], p)
  }

  /** In a run where no clean-up evicts another's instance, every instance in service can still be retired. */
  lemma {:induction false} NoneAbandoned(events: seq<Event>, p: nat)
    requires After(events).Some? && forall n: nat :: n < |events| ==> !Evictions(events, n)
    ensures !Abandoned(After(events).value, p)
  {
    if events != [] {
      var before, e := events[..|events| - 1], events[|events| - 1];
      forall n: nat | n < |before| ensures !Evictions(before, n) {
        assert before[..n] == events[..n] && !Evictions(events, n);
      }
      NoneAbandoned(before, p);
      assert !Evictions(events, |events| - 1);
      var w := After(before).value;
      assert !Evicts(w, e, p);
      hide Next, Enabled, Abandoned, Evicts, Evictions;
      StepAbandons(w, e, p);
    }
  }

  // ---- the module's own state, changed a step at a time ----

  class Connections {
    var cache: map<Key, nat>
    var instances: seq<Instance>
    var sessions: seq<Session>
    var retiring: multiset<nat>
    var failed: set<nat>
    const spills: Spills

    ghost function Value(): World reads this, spills {
      World(cache, instances, sessions, spills.Value(), retiring, failed)
    }

    ghost predicate Valid() reads this, spills { WorldInv(Value()) && SessionsKnown(Value()) }

    constructor ()
      ensures Valid() && Value() == START && fresh(spills)
    {
      cache, instances, sessions, retiring, failed := map[], [], [], multiset{}, {};
      spills := new Spills();
    }

    /** Up to the wait for the instance, which is prepared if none is cached. */
    method OpenBucketSession(key: Key) returns (s: nat)
      requires Valid()
      modifies this
      ensures Valid() && Value() == Next(old(Value()), Call(key)) && s == old(|sessions|)
    {
      StepKeeps(Value(), Call(key));
      hide Valid, WorldInv;
      if key !in cache {
        var p := |instances|;
        instances := instances + [Instance(key, Preparing, false)];
        cache := cache[key := p];
      }
      s := |sessions|;
      sessions := sessions + [Waiting(cache[key])];
    }

    /** The instance is there: its directory is tracked before any session can spill to it. */
    method InstanceOpened(p: nat)
      requires Valid() && Enabled(Value(), Opened(p))
      modifies this, spills
      ensures Valid() && Value() == Next(old(Value()), Opened(p))
    {
      StepKeeps(Value(), Opened(p));
      hide WorldInv;
      instances := instances[p := instances[p].(phase := Tracked)];
      spills.TrackKey(p);
    }

    method SetupDone(p: nat)
      requires Valid() && Enabled(Value(), Prepared(p))
      modifies this
      ensures Valid() && Value() == Next(old(Value()), Prepared(p))
    {
      StepKeeps(Value(), Prepared(p));
      hide WorldInv;
      instances := instances[p := instances[p].(phase := Ready)];
    }

    /** Setup failed: what was opened is retired, and no session ever held it. */
    method SetupFailed(p: nat)
      requires Valid() && Enabled(Value(), SetupFails(p))
      modifies this, spills
      ensures Valid() && Value() == Next(old(Value()), SetupFails(p))
    {
      StepKeeps(Value(), SetupFails(p));
      hide WorldInv;
      var tracked := instances[p].phase.Tracked?;
      instances, failed := instances[p := instances[p].(phase := Failed)], failed + {p};
      if tracked { var _ := RetireNow(p); }
    }

    /** The clean-up of a failed setup: the key goes out of the cache, whatever is under it by now. */
    method DropFailed(p: nat)
      requires Valid() && Enabled(Value(), Uncache(p))
      modifies this
      ensures Valid() && Value() == Next(old(Value()), Uncache(p))
    {
      StepKeeps(Value(), Uncache(p));
      hide WorldInv;
      cache, failed := cache - {instances[p].key}, failed - {p};
    }

    /** Once it has its instance a session is counted, and only then waits for a connection. */
    method HaveInstance(s: nat)
      requires Valid() && Enabled(Value(), SetOut(s))
      modifies this, spills
      ensures Valid() && Value() == Next(old(Value()), SetOut(s))
    {
      StepKeeps(Value(), SetOut(s));
      hide WorldInv;
      var p := sessions[s].on;
      sessions := sessions[s := Connecting(p, p in spills.held, instances[p].closed)];
      spills.OpenKey(p);
    }

    method RetireNow(p: nat) returns (waits: bool)
      requires p < |instances|
      modifies this, spills
      ensures Value() == RetireInstance(old(Value()), p)
      ensures waits <==> spills.unheld == old(spills.unheld)
    {
      instances := instances[p := instances[p].(closed := true)];
      waits := spills.RetireKey(p);
    }

    method ForgetInstance(p: nat)
      requires p < |instances|
      modifies this
      ensures Value() == Forget(old(Value()), p)
    {
      var key := instances[p].key;
      if key in cache && cache[key] == p {
        cache := cache - {key};
        retiring := retiring + multiset{p};
      }
    }

    method ConnectionOpened(s: nat)
      requires Valid() && Enabled(Value(), Connects(s))
      modifies this
      ensures Valid() && Value() == Next(old(Value()), Connects(s))
    {
      StepKeeps(Value(), Connects(s));
      hide WorldInv;
      sessions := sessions[s := Connected(sessions[s].on)];
    }

    method ConnectionRefused(s: nat, lost: bool)
      requires Valid() && Enabled(Value(), ConnectFails(s, lost))
      modifies this, spills
      ensures Valid() && Value() == Next(old(Value()), ConnectFails(s, lost))
    {
      StepKeeps(Value(), ConnectFails(s, lost));
      hide WorldInv;
      var p := sessions[s].on;
      assert p < |instances| by { assert SessionsKnown(Value()); }
      var _ := spills.CloseKey(p);
      sessions := sessions[s := Ended];
      if lost { ForgetInstance(p); }
    }

    method StatementLostInstance(s: nat)
      requires Valid() && Enabled(Value(), LosesInstance(s))
      modifies this
      ensures Valid() && Value() == Next(old(Value()), LosesInstance(s))
    {
      StepKeeps(Value(), LosesInstance(s));
      hide WorldInv;
      assert sessions[s].on < |instances| by { assert SessionsKnown(Value()); }
      ForgetInstance(sessions[s].on);
    }

    /** Closing twice counts once. */
    method CloseOpened(s: nat) returns (waits: bool)
      requires Valid() && Enabled(Value(), CloseSession(s))
      modifies this, spills
      ensures Valid() && Value() == Next(old(Value()), CloseSession(s))
      ensures waits <==> |spills.releases| > |old(spills.releases)|
    {
      StepKeeps(Value(), CloseSession(s));
      hide WorldInv;
      if sessions[s].Closed? { return false; }
      var p := sessions[s].on;
      sessions := sessions[s := Closed(p)];
      waits := spills.CloseKey(p);
    }

    /** The retirement of an instance that is out of the cache, once its setup has settled. */
    method RetireForgotten(p: nat) returns (waits: bool)
      requires Valid() && Enabled(Value(), RetireNext(p))
      modifies this, spills
      ensures Valid() && Value() == Next(old(Value()), RetireNext(p))
      ensures old(instances)[p].phase.Ready? ==> waits
    {
      StepKeeps(Value(), RetireNext(p));
      hide WorldInv;
      retiring := retiring - multiset{p};
      waits := false;
      if instances[p].phase.Ready? { waits := RetireNow(p); }
      NothingUnheld(Value());
    }

    method CloseLakeInstances()
      requires Valid()
      modifies this
      ensures Valid() && Value() == Next(old(Value()), Shutdown)
    {
      StepKeeps(Value(), Shutdown);
      hide WorldInv;
      retiring := retiring + multiset(cache.Values);
      cache := map[];
    }

    /** One turn of the loop over the cached instances. */
    method ReleaseIfIdle(key: Key) returns (released: bool)
      requires Valid()
      modifies this, spills
      ensures Valid() && Value() == Next(old(Value()), ReleaseIdle(key))
      ensures released <==> old(key in cache) && key !in cache
    {
      StepKeeps(Value(), ReleaseIdle(key));
      hide WorldInv;
      assert key in cache ==> cache[key] < |instances| by { CacheKnown(Value(), key); }
      released := key in cache && instances[cache[key]].phase.Ready?
        && (if cache[key] in spills.held then spills.held[cache[key]].sessions else 0) <= 0;
      if released {
        var p := cache[key];
        cache := cache - {key};
        var _ := RetireNow(p);
      }
    }
  }

  lemma CacheKnown(w: World, key: Key)
    requires WorldInv(w)
    ensures key in w.cache ==> w.cache[key] < |w.instances|
  {
  }

  lemma NothingUnheld(w: World)
    requires WorldInv(w)
    ensures w.spills.unheld == []
  {
  }
}
