/**
 * What the instance cache is for: a caller is given the prepared instance there is, or a new
 * one; an instance that failed or was lost is given to nobody again; and what was taken out of
 * service is closed, and its directory removed once its sessions are gone.
 */
module LakeService {
  import opened Basics
  import opened SpillRegistry
  import opened LakeInstances

  /** No caller is given instance `p` any more. */
  ghost predicate OutOfCache(w: World, p: nat) { forall key :: key in w.cache ==> w.cache[key] != p }

  // ---- callers ----

  /**
   * A caller waits for the instance cached under its key, if there is one, and otherwise for a
   * new one, which the next caller then waits for too.
   */
  lemma CallerIsServed(w: World, key: Key)
    requires WorldInv(w) && SessionsKnown(w)
    ensures var next, fresh' := Next(w, Call(key)), |w.instances|;
      && next.sessions == w.sessions + [Waiting(if key in w.cache then w.cache[key] else fresh')]
      && (key in w.cache ==> next == w.(sessions := next.sessions))
      && (key !in w.cache ==>
            && next.cache == w.cache[key := fresh'] && next.instances == w.instances + [Instance(key, Preparing, false)]
            && next == w.(sessions := next.sessions, cache := next.cache, instances := next.instances))
      && key in next.cache && SessionsKnown(next)
      && Next(next, Call(key)).sessions == next.sessions + [next.sessions[|w.sessions|]]
  {
    StepKeeps(w, Call(key));
  }

  // ---- an instance that is lost ----

  predicate Loses(w: World, e: Event) {
    Enabled(w, e) && (e.LosesInstance? || (e.ConnectFails? && e.lost))
  }

  /**
   * A session that finds its instance lost takes it out of the cache, whichever session is
   * first: if it was there, it is to be retired, and the next caller has a new one prepared.
   * Nobody else's instance is touched.
   */
  lemma LostIsReplaced(w: World, e: Event)
    requires WorldInv(w) && SessionsKnown(w) && Loses(w, e)
    ensures var next, p := Next(w, e), w.sessions[e.s].on;
      && p < |w.instances| && OutOfCache(next, p) && SessionsKnown(next)
      && (forall other :: other in w.cache && w.cache[other] != p ==> other in next.cache && next.cache[other] == w.cache[other])
      && (forall other :: other in next.cache ==> other in w.cache)
      && (forall q :: q != p ==> next.retiring[q] == w.retiring[q])
      && next.retiring[p] == w.retiring[p] + (if OutOfCache(w, p) then 0 else 1)
      && (!OutOfCache(w, p) ==>
            Next(next, Call(w.instances[p].key)).sessions == next.sessions + [Waiting(|w.instances|)])
  {
    StepKeeps(w, e);
    hide Holding, InstancesInv, SessionsInv, LogInv, Close;
    var p := w.sessions[e.s].on;
    if !OutOfCache(w, p) {
      var key :| key in w.cache && w.cache[key] == p;
      assert w.instances[p].key == key;
    }
  }

  /** A session whose connection opens is connected, and one whose instance never came is over; nothing else changes. */
  lemma WaitingEnds(w: World, s: nat)
    requires WorldInv(w) && SessionsKnown(w)
    ensures Enabled(w, Connects(s)) ==>
      Next(w, Connects(s)) == w.(sessions := w.sessions[s := Connected(w.sessions[s].on)])
    ensures Enabled(w, GivesUp(s)) ==> Next(w, GivesUp(s)) == w.(sessions := w.sessions[s := Ended])
  {
  }

  /** A removal that has run is over, and then what waited for it settles; nothing else changes. */
  lemma RemovalSettles(w: World, p: nat)
    requires WorldInv(w) && SessionsKnown(w) && Enabled(w, Removed(p))
    ensures var removed := Next(w, Removed(p));
      && removed == w.(spills := removed.spills) && removed.spills == w.spills.(finished := w.spills.finished + {p})
      && SessionsKnown(removed) && Enabled(removed, Settles(p))
      && Next(removed, Settles(p)) == removed.(spills := removed.spills.(settled := w.spills.settled + {p}))
  {
  }

  /** A refused connection is given back: the session is over, and counted no more. */
  lemma RefusedIsOver(w: World, s: nat, lost: bool)
    requires WorldInv(w) && SessionsKnown(w) && Enabled(w, ConnectFails(s, lost))
    ensures var next := Next(w, ConnectFails(s, lost));
      next.sessions == w.sessions[s := Ended] && (!lost ==> next.cache == w.cache && next.retiring == w.retiring)
  {
  }

  /** Closing a session ends its hold, once. */
  lemma ClosedIsOver(w: World, s: nat)
    requires WorldInv(w) && SessionsKnown(w) && Enabled(w, CloseSession(s))
    ensures var (was, next, p) := (w.sessions[s], Next(w, CloseSession(s)), w.sessions[s].on);
      && next.sessions == w.sessions[s := Closed(p)]
      && Holding(next.sessions, p) == Holding(w.sessions, p) - (if was.Connected? then 1 else 0)
      && next.cache == w.cache && next.retiring == w.retiring
  {
    HoldingUpdates(w.sessions, s, Next(w, CloseSession(s)).sessions[s], w.sessions[s].on);
    assert w.sessions == w.sessions[s := w.sessions[s]];
  }

  // ---- an instance whose setup failed ----

  /** The clean-up leaves the failed setup to no caller: the next one has a new instance prepared. */
  lemma FailedIsReplaced(w: World, p: nat)
    requires WorldInv(w) && SessionsKnown(w) && Enabled(w, Uncache(p))
    ensures var (next, key) := (Next(w, Uncache(p)), w.instances[p].key);
      && OutOfCache(next, p) && SessionsKnown(next)
      && Next(next, Call(key)).sessions == next.sessions + [Waiting(|w.instances|)]
      && (forall other :: other in w.cache && other != key ==> other in next.cache && next.cache[other] == w.cache[other])
  {
    StepKeeps(w, Uncache(p));
  }

  /** Every setup that fails is cleaned up after, if it has not been yet. */
  lemma FailureIsRemembered(w: World, p: nat)
    requires WorldInv(w) && SessionsKnown(w) && Enabled(w, SetupFails(p))
    ensures Enabled(Next(w, SetupFails(p)), Uncache(p))
  {
  }

  // ---- nothing comes back ----

  /** An instance there has been, and no caller is given any more. */
  ghost predicate Gone(w: World, p: nat) { p < |w.instances| && OutOfCache(w, p) }

  lemma OutStep(w: World, e: Event, p: nat)
    requires WorldInv(w) && SessionsKnown(w) && Enabled(w, e) && Gone(w, p)
    ensures Gone(Next(w, e), p)
  {
    hide Holding, WorldInv, Close, Retire, Open, Track, Sessions;
  }

  /** Once out of the cache an instance is never given to a caller again, in any run. */
  lemma {:induction false} OutForGood(events: seq<Event>, more: seq<Event>, p: nat)
    requires After(events).Some? && After(events + more).Some? && Gone(After(events).value, p)
    ensures Gone(After(events + more).value, p)
  {
    hide *;
    if more == [] {
      assert events + more == events;
    } else {
      var n := |more| - 1;
      assert events + more == (events + more[..n]) + [more[n]];
      AfterOne(events + more[..n], more[n]);
      OutForGood(events, more[..n], p);
      OutStep(After(events + more[..n]).value, more[n], p);
    }
  }

  // ---- nothing is stuck ----

  /**
   * Whatever is under way can go on: a setup can end either way, a session that waits can set
   * out or give up once the setup has ended, can connect if its instance was in service when it
   * set out and be refused in any case, and can be closed once it is connected; and what is to
   * be retired, cleaned up after, removed or settled can be.
   */
  lemma NothingIsStuck(w: World, p: nat, s: nat)
    requires WorldInv(w) && SessionsKnown(w)
    ensures p < |w.instances| ==>
      && (w.instances[p].phase.Preparing? ==> Enabled(w, Opened(p)) && Enabled(w, SetupFails(p)))
      && (w.instances[p].phase.Tracked? ==> Enabled(w, Prepared(p)) && Enabled(w, SetupFails(p)))
      && (w.retiring[p] > 0 && (w.instances[p].phase.Ready? || w.instances[p].phase.Failed?) ==> Enabled(w, RetireNext(p)))
      && (p in w.spills.releases ==> Enabled(w, Removed(p)))
    ensures s < |w.sessions| ==>
      match w.sessions[s]
      case Waiting(on) =>
        && (w.instances[on].phase.Ready? ==> Enabled(w, SetOut(s)))
        && (w.instances[on].phase.Failed? ==> Enabled(w, GivesUp(s)))
      case Connecting(_, _, doomed) => Enabled(w, ConnectFails(s, true)) && (!doomed ==> Enabled(w, Connects(s)) && Enabled(w, ConnectFails(s, false)))
      case Connected(_) => Enabled(w, CloseSession(s)) && Enabled(w, LosesInstance(s))
      case Closed(_) => Enabled(w, CloseSession(s)) && Enabled(w, LosesInstance(s))
      case Ended => true
  {
  }

  // ---- out of service ----

  /** A shutdown leaves nothing in the cache, and all that was there to be retired. */
  lemma ShutdownEmpties(w: World, p: nat)
    requires WorldInv(w) && SessionsKnown(w)
    ensures var next := Next(w, Shutdown);
      && next.cache == map[] && (next.retiring[p] > 0 <==> w.retiring[p] > 0 || !OutOfCache(w, p))
      && next == w.(cache := next.cache, retiring := next.retiring)
  {
    assert !OutOfCache(w, p) <==> p in w.cache.Values;
  }

  /** Retiring what is to be retired closes it, if it was ever ready. */
  lemma RetiringCloses(w: World, p: nat)
    requires WorldInv(w) && SessionsKnown(w) && Enabled(w, RetireNext(p))
    ensures var next := Next(w, RetireNext(p));
      && next.retiring == w.retiring - multiset{p} && next.cache == w.cache && next.sessions == w.sessions
      && (w.instances[p].phase.Ready? ==> next.instances[p].closed)
  {
  }

  /** Idle release closes and uncaches the key's instance exactly if it is ready and no session is connected or connecting. */
  lemma IdleIsReleased(w: World, key: Key)
    requires WorldInv(w) && SessionsKnown(w)
    ensures var next := Next(w, ReleaseIdle(key));
      if key in w.cache && w.instances[w.cache[key]].phase.Ready? && Holding(w.sessions, w.cache[key]) == 0 then
        && next.cache == w.cache - {key} && next.instances[w.cache[key]].closed
        && next.spills.releases == w.spills.releases + [w.cache[key]]
      else next == w
  {
    if key in w.cache { assert InstanceInv(w, w.cache[key]); }
    hide Holding;
  }

  /**
   * A drained process leaves nothing behind: with the cache empty, no retirement still to run
   * and no session connected or connecting, the removal of every ready instance's directory
   * has begun, unless a failed setup's clean-up once took it from the cache.
   */
  lemma DrainedLeavesNothing(events: seq<Event>, p: nat)
    requires After(events).Some? && forall n: nat :: n < |events| ==> !Evictions(events, n)
    requires var w := After(events).value;
      && w.cache == map[] && w.retiring == multiset{} && p < |w.instances| && w.instances[p].phase.Ready?
      && forall s :: 0 <= s < |w.sessions| ==> !w.sessions[s].Connecting? && !w.sessions[s].Connected?
    ensures p in After(events).value.spills.releases
  {
    var w := After(events).value;
    NoneAbandoned(events, p);
    hide After, Evictions;
    assert InstanceInv(w, p);
    HoldingNone(w.sessions, p);
  }
}
