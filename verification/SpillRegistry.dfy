/**
 * Spill directories of database instances: a registry keeps each from the moment it is tracked
 * until its instance is retired and no session is left on it, and then has it removed.
 */
module SpillRegistry {
  datatype Held = Held(sessions: int, retired: bool)

  /**
   * `releases`: every removal begun, in order. `finished`: those that have run. `unheld`: the
   * calls to retire that found nothing held. `settled`: the
   * keys whose retirement has settled.
   */
  datatype Registry = Registry(held: map<nat, Held>, releases: seq<nat>, finished: set<nat>, unheld: seq<nat>, settled: set<nat>)

  const EMPTY := Registry(map[], [], {}, [], {})

  /** Retiring a key gives a promise that may settle: at once if nothing was held, else when the removal has run. */
  predicate MaySettle(r: Registry, key: nat) { key in r.unheld || key in r.finished }

  function ReleaseIfDone(r: Registry, key: nat): Registry {
    if key !in r.held || !r.held[key].retired || r.held[key].sessions > 0 then r
    else r.(held := r.held - {key}, releases := r.releases + [key])
  }

  function Track(r: Registry, key: nat): Registry { r.(held := r.held[key := Held(0, false)]) }

  function Open(r: Registry, key: nat): Registry {
    if key in r.held then r.(held := r.held[key := r.held[key].(sessions := r.held[key].sessions + 1)]) else r
  }

  function Close(r: Registry, key: nat): Registry {
    ReleaseIfDone(
      if key in r.held then r.(held := r.held[key := r.held[key].(sessions := r.held[key].sessions - 1)]) else r, key)
  }

  function Retire(r: Registry, key: nat): Registry {
    if key !in r.held then r.(unheld := r.unheld + [key])
    else ReleaseIfDone(r.(held := r.held[key := r.held[key].(retired := true)]), key)
  }

  function Sessions(r: Registry, key: nat): int { if key in r.held then r.held[key].sessions else 0 }

  /** What is retired without being held need not be waited for; what is held must be, until its removal has run. */
  lemma RetiringWaits(r: Registry, key: nat)
    ensures key !in r.held ==> MaySettle(Retire(r, key), key)
    ensures key in r.held && !MaySettle(r, key) ==> !MaySettle(Retire(r, key), key)
    ensures key in r.finished ==> MaySettle(r, key)
  {
  }

  class Spills {
    var held: map<nat, Held>
    ghost var releases: seq<nat>
    ghost var finished: set<nat>
    ghost var unheld: seq<nat>
    ghost var settled: set<nat>

    ghost function Value(): Registry reads this { Registry(held, releases, finished, unheld, settled) }

    constructor ()
      ensures Value() == EMPTY
    {
      held, releases, finished, unheld, settled := map[], [], {}, [], {};
    }

    /** Begins the removal where nothing holds it; says whether it did. */
    method ReleaseKeyIfDone(key: nat) returns (began: bool)
      modifies this
      ensures Value() == ReleaseIfDone(old(Value()), key)
      ensures began == (key in old(held) && old(held)[key].retired && old(held)[key].sessions <= 0)
    {
      if key !in held || !held[key].retired || held[key].sessions > 0 { return false; }
      held := held - {key};
      releases := releases + [key];
      return true;
    }

    method TrackKey(key: nat)
      modifies this
      ensures Value() == Track(old(Value()), key)
    {
      held := held[key := Held(0, false)];
    }

    method OpenKey(key: nat)
      modifies this
      ensures Value() == Open(old(Value()), key)
    {
      if key in held { held := held[key := held[key].(sessions := held[key].sessions + 1)]; }
    }

    method CloseKey(key: nat) returns (waits: bool)
      modifies this
      ensures Value() == Close(old(Value()), key)
      ensures waits <==> |releases| > |old(releases)|
    {
      if key in held { held := held[key := held[key].(sessions := held[key].sessions - 1)]; }
      waits := ReleaseKeyIfDone(key);
    }

    /** Whether what it returns waits for a removal: it does not for a key that is not held. */
    method RetireKey(key: nat) returns (waits: bool)
      modifies this
      ensures Value() == Retire(old(Value()), key)
      ensures waits <==> unheld == old(unheld)
      ensures !waits ==> MaySettle(Value(), key)
      ensures waits && !old(MaySettle(Value(), key)) ==> !MaySettle(Value(), key)
    {
      if key !in held {
        unheld := unheld + [key];
        return false;
      }
      held := held[key := held[key].(retired := true)];
      var _ := ReleaseKeyIfDone(key);
      return true;
    }

    /** The removal that was begun has run. */
    method Finish(key: nat)
      modifies this
      ensures Value() == old(Value()).(finished := old(finished) + {key})
    {
      finished := finished + {key};
    }
  }
}
