/**
 * The queue as the object it is: the fields of one worker process, changed in place between
 * one await and the next, and the statements it sends to the database it shares.
 *
 * Every method is proved to do to the fields, or to the rows, exactly the step that the
 * protocol's lemmas are about.
 */
module PostgresJobQueue {
  import opened Basics
  import opened JobTable
  import opened Scheduler

  /** The shared table and the database's clock. */
  class Database {
    var rows: Rows
    var now: Time

    constructor ()
      ensures rows == map[] && now == 0
    {
      rows, now := map[], 0;
    }
  }

  class Queue {
    const db: Database
    const owner: Owner
    const concurrency: nat
    const handled: set<JobType>
    var active: int
    var wakes: nat
    var stopped: bool
    var timerAt: Option<Time>
    var backoffUntil: Time
    var lanes: map<LaneId, Pc>
    var nextLane: LaneId
    var extensions: map<nat, Extension>
    var nextExtension: nat
    ghost var asked: seq<Time>
    ghost var retrying: bool

    /** The process's state as one value. */
    ghost function View(): Sched
      reads this
    {
      Sched(concurrency, handled, active, wakes, stopped, timerAt, backoffUntil, lanes, nextLane,
            extensions, nextExtension, asked, retrying)
    }

    constructor (db: Database, owner: Owner, concurrency: int, handled: set<JobType>)
      ensures this.db == db && this.owner == owner
      ensures View() == Idle(Max(1, concurrency), handled) && SchedInv(View())
    {
      this.db, this.owner, this.concurrency, this.handled := db, owner, Max(1, concurrency), handled;
      active, wakes, stopped, timerAt, backoffUntil := 0, 0, false, None, 0;
      lanes, nextLane, extensions, nextExtension := map[], 0, map[], 0;
      asked, retrying := [], false;
      new;
      assert ActiveLanes(lanes) == {};
    }

    // ---- the timer ----

    method Disarm()
      modifies this
      ensures View() == Scheduler.Disarm(old(View()))
    {
      timerAt := None;
      asked, retrying := [], false;
    }

    method Arm(now: Time, delay: Time)
      modifies this
      ensures View() == Scheduler.Arm(old(View()), now, delay)
      ensures old(TimerInv(View())) ==> TimerInv(View())
    {
      if stopped { return; }
      var wait := Max(delay, backoffUntil - now);
      var at := now + wait;
      asked := asked + [at];
      if timerAt.Some? && timerAt.value <= at { return; }
      timerAt := Some(at);
    }

    method PassFailed(now: Time)
      modifies this
      ensures View() == Scheduler.PassFailed(old(View()), now)
      ensures old(TimerInv(View())) ==> TimerInv(View())
    {
      if old(TimerInv(View())) { PassFailedKeepsInv(View(), now); }
      backoffUntil := now + DRAIN_RETRY_MS;
      Disarm();
      Arm(now, DRAIN_RETRY_MS);
      retrying := !stopped;
    }

    method Stop()
      modifies this
      ensures View() == Scheduler.Stop(old(View())) && timerAt == None
      ensures old(SchedInv(View())) ==> SchedInv(View())
    {
      stopped := true;
      Disarm();
    }

    // ---- passes ----

    /** Start lanes until `concurrency` are taking jobs. */
    method RequestPass(step: nat)
      modifies this
      ensures View() == Scheduler.RequestPass(old(View()), step)
      ensures old(SchedInv(View())) ==> SchedInv(View())
    {
      if old(SchedInv(View())) { RequestKeepsInv(View(), step); }
      hide SchedInv;
      if stopped { return; }
      wakes := wakes + 1;
      var bury := active == 0;
      while active < concurrency
        invariant !stopped && wakes == old(wakes) + 1
        invariant StartLanes(View(), bury, step) == Scheduler.RequestPass(old(View()), step)
        decreases concurrency - active
      {
        active := active + 1;
        lanes := lanes[nextLane := if bury then Burying(false) else Claiming(wakes, step)];
        nextLane := nextLane + 1;
        bury := false;
      }
    }

    method TimerFires(step: nat)
      modifies this
      ensures View() == Fire(old(View()), step)
      ensures old(SchedInv(View())) ==> SchedInv(View())
    {
      Disarm();
      RequestPass(step);
    }

    /** The top of a lane's loop. */
    method Look(l: LaneId, step: nat)
      requires l in lanes
      modifies this
      ensures View() == Scheduler.Look(old(View()), l, step)
    {
      if stopped { EndLane(l, step); } else { lanes := lanes[l := Claiming(wakes, step)]; }
    }

    method EndLane(l: LaneId, step: nat)
      requires l in lanes
      modifies this
      ensures View() == Scheduler.EndLane(old(View()), l, step)
    {
      active := active - 1;
      lanes := if stopped then lanes - {l} else lanes[l := Closing(step)];
    }

    /** What lane `l` awaited has settled. */
    method LaneResumes(l: LaneId, now: Time, outcome: Outcome, step: nat)
      requires l in lanes && CanResume(lanes[l])
      modifies this
      ensures View() == Resume(old(View()), l, now, outcome, step)
      ensures old(SchedInv(View())) ==> SchedInv(View())
    {
      if old(SchedInv(View())) { ResumeKeepsInv(View(), l, now, outcome, step); }
      match lanes[l]
      case Burying(_) => Look(l, step);
      case Claimed(looked, _, _, took) =>
        if took.Some? {
          lanes := lanes[l := Counting(took.value)];
        } else if wakes != looked {
          Look(l, step);
        } else {
          EndLane(l, step);
        }
      case Counting(run) =>
        if run.known {
          lanes := lanes[l := Handling(run, Begun(run, now))];
        } else {
          lanes := lanes[l := Finishing(run, None, ByComplete, false)];
        }
      case Handling(run, hold) =>
        var how := if outcome.Returned? then ByComplete
                   else if outcome.Interrupted? && stopped then ByRelease else ByFail;
        lanes := lanes[l := Finishing(run, Some(hold), how, false)];
      case Finishing(_, _, _, _) => Look(l, step);
      case Closed(_, _, dueIn) =>
        lanes := lanes - {l};
        if dueIn.Some? { Arm(now, Max(dueIn.value, 0)); }
    }

    /** What lane `l` awaited has been rejected. */
    method LaneRejected(l: LaneId, now: Time)
      requires l in lanes && CanReject(lanes[l])
      modifies this
      ensures View() == Reject(old(View()), l, now)
      ensures old(SchedInv(View())) ==> SchedInv(View())
    {
      if old(SchedInv(View())) { RejectKeepsInv(View(), l, now); }
      var pc := lanes[l];
      if pc.Finishing? && pc.held.Some? && pc.how.ByComplete? {
        lanes := lanes[l := Finishing(pc.run, pc.held, ByFail, false)];
        return;
      }
      PassFailed(now);
      if !pc.Closing? && !pc.Closed? { active := active - 1; }
      lanes := lanes - {l};
    }

    /** The interval of `hold` fires. */
    method HoldTicks(l: LaneId, now: Time)
      requires l in lanes && IsHolding(lanes[l])
      modifies this
      ensures View() == Tick(old(View()), l, now)
      ensures old(SchedInv(View())) ==> SchedInv(View())
    {
      if old(SchedInv(View())) { HoldKeepsInv(View(), l, now); }
      var pc := lanes[l];
      var hold := HoldOf(pc);
      if now > hold.until {
        lanes := lanes[l := WithHold(pc, hold.(ticking := false))];
      } else {
        lanes := lanes[l := WithHold(pc, hold.(ticks := hold.ticks + 1))];
        extensions := extensions[nextExtension := Extension(l, pc.run, hold.ticks + 1, now, hold.until)];
        nextExtension := nextExtension + 1;
      }
    }

    // ---- statements ----

    /** Takes the foremost takeable row of those no other statement has locked. */
    method Claim(skipped: set<JobId>) returns (took: Option<JobId>)
      modifies db
      ensures Takes(old(db.rows), db.now, skipped, took)
      ensures db.now == old(db.now) && db.rows == Apply(old(db.rows), db.now, Statement.Claim(owner, skipped, took))
      ensures old(TableInv(db.rows)) ==> TableInv(db.rows)
    {
      var candidates := Candidates(db.rows, db.now, skipped);
      if candidates == {} {
        took := None;
      } else {
        ghost var first := FirstExists(db.rows, candidates);
        var id :| id in candidates && forall other :: other in candidates ==> Before(db.rows, id, other);
        took := Some(id);
        db.rows := db.rows[id := db.rows[id].(
          lockedUntil := Some(db.now + LEASE_MS),
          lockedBy := Some(owner),
          attempts := db.rows[id].attempts + 1,
          updated := db.now)];
      }
    }

    method Complete(id: JobId)
      modifies db
      ensures db.now == old(db.now) && db.rows == Apply(old(db.rows), db.now, Statement.Complete(owner, id))
      ensures old(TableInv(db.rows)) ==> TableInv(db.rows)
    {
      StatementKeepsInvIf(db.rows, db.now, Statement.Complete(owner, id));
      if Mine(db.rows, owner, id) { db.rows := db.rows - {id}; }
    }

    method Fail(id: JobId)
      modifies db
      ensures db.now == old(db.now) && db.rows == Apply(old(db.rows), db.now, Statement.Fail(owner, id))
      ensures old(TableInv(db.rows)) ==> TableInv(db.rows)
    {
      StatementKeepsInvIf(db.rows, db.now, Statement.Fail(owner, id));
      if Mine(db.rows, owner, id) {
        db.rows := db.rows[id := db.rows[id].(
          state := if db.rows[id].attempts >= MAX_ATTEMPTS then Dead else Ready,
          runAt := db.now + RETRY_DELAY_MS,
          lockedUntil := None, lockedBy := None, updated := db.now)];
      }
    }

    method Release(id: JobId)
      modifies db
      ensures db.now == old(db.now) && db.rows == Apply(old(db.rows), db.now, Statement.Release(owner, id))
      ensures old(TableInv(db.rows)) ==> TableInv(db.rows)
    {
      StatementKeepsInvIf(db.rows, db.now, Statement.Release(owner, id));
      if Mine(db.rows, owner, id) {
        db.rows := db.rows[id := db.rows[id].(
          attempts := db.rows[id].attempts - 1, runAt := db.now,
          lockedUntil := None, lockedBy := None, updated := db.now)];
      }
    }

    method Extend(id: JobId)
      modifies db
      ensures db.now == old(db.now) && db.rows == Apply(old(db.rows), db.now, Statement.Extend(owner, id))
      ensures old(TableInv(db.rows)) ==> TableInv(db.rows)
    {
      StatementKeepsInvIf(db.rows, db.now, Statement.Extend(owner, id));
      if Mine(db.rows, owner, id) {
        db.rows := db.rows[id := db.rows[id].(lockedUntil := Some(db.now + LEASE_MS))];
      }
    }

    method BuryExhausted()
      modifies db
      ensures db.now == old(db.now) && db.rows == Apply(old(db.rows), db.now, Statement.BuryExhausted)
      ensures old(TableInv(db.rows)) ==> TableInv(db.rows)
    {
      StatementKeepsInvIf(db.rows, db.now, Statement.BuryExhausted);
      db.rows := map id | id in db.rows ::
        if Exhausted(db.rows[id], db.now)
        then db.rows[id].(state := Dead, lockedUntil := None, lockedBy := None, updated := db.now)
        else db.rows[id];
    }

    /** A dead row becomes ready and due, its attempts counted anew; any other is left alone. */
    method RetryDead(id: JobId) returns (found: bool)
      modifies db
      ensures found == (id in old(db.rows) && old(db.rows)[id].state.Dead?)
      ensures db.now == old(db.now) && db.rows == Apply(old(db.rows), db.now, Statement.RetryDead(id))
      ensures !found ==> db.rows == old(db.rows)
      ensures old(TableInv(db.rows)) ==> TableInv(db.rows)
    {
      StatementKeepsInvIf(db.rows, db.now, Statement.RetryDead(id));
      found := id in db.rows && db.rows[id].state.Dead?;
      if found {
        db.rows := db.rows[id := db.rows[id].(state := Ready, attempts := 0, runAt := db.now, updated := db.now)];
      }
    }

    /** Revives the dead rows of a type that match; tells the payload of each, in whatever order they come. */
    method ReviveDead(typ: JobType, payloads: set<Payload>) returns (told: seq<Payload>, ghost revived: seq<JobId>)
      modifies db
      ensures forall id :: id in revived <==> id in old(db.rows) && Revives(old(db.rows)[id], typ, payloads)
      ensures forall i, j :: 0 <= i < j < |revived| ==> revived[i] != revived[j]
      ensures told == PayloadsAt(old(db.rows), revived)
      ensures db.now == old(db.now) && db.rows == Apply(old(db.rows), db.now, Statement.ReviveDead(typ, payloads))
      ensures old(TableInv(db.rows)) ==> TableInv(db.rows)
    {
      StatementKeepsInvIf(db.rows, db.now, Statement.ReviveDead(typ, payloads));
      told, revived := [], [];
      var matching := set id | id in db.rows && Revives(db.rows[id], typ, payloads);
      var todo := matching;
      while todo != {}
        invariant todo <= matching && forall id :: id in revived <==> id in matching && id !in todo
        invariant forall i, j :: 0 <= i < j < |revived| ==> revived[i] != revived[j]
        invariant told == PayloadsAt(db.rows, revived)
        decreases todo
      {
        var id :| id in todo;
        todo, told, revived := todo - {id}, told + [db.rows[id].payload], revived + [id];
      }
      db.rows := map id | id in db.rows ::
        if id in matching
        then db.rows[id].(state := Ready, attempts := 0, runAt := db.now, updated := db.now)
        else db.rows[id];
    }

    /** Deletes dead rows by the age of their last change, and counts them. */
    method PruneDead(olderThanMs: nat) returns (pruned: nat)
      modifies db
      ensures db.now == old(db.now) && db.rows == Apply(old(db.rows), db.now, Statement.PruneDead(olderThanMs))
      ensures pruned + |db.rows| == |old(db.rows)|
      ensures old(TableInv(db.rows)) ==> TableInv(db.rows)
    {
      StatementKeepsInvIf(db.rows, db.now, Statement.PruneDead(olderThanMs));
      var gone := set id | id in db.rows && db.rows[id].state.Dead? && db.rows[id].updated < db.now - olderThanMs;
      db.rows := db.rows - gone;
      pruned := |gone|;
      assert old(db.rows).Keys == db.rows.Keys + gone;
    }

    /**
     * Write a job, unless one that stands in for it waits (`unlessWaiting`): that one is then
     * raised to this job's priority, and nobody is woken for it. `newId` is the random id.
     */
    method Enqueue(newId: JobId, typ: JobType, payload: Payload, priority: Priority, delayMs: nat,
                   unlessWaiting: bool, skipped: set<JobId>) returns (id: JobId, wake: bool)
      requires newId !in db.rows
      modifies db
      ensures db.now == old(db.now)
      ensures !wake <==> unlessWaiting && exists i ::
        i in old(db.rows) && i !in skipped && StandsIn(old(db.rows)[i], db.now, typ, payload, delayMs)
      ensures id in db.rows && Serves(db.rows[id], typ, payload, priority, db.now + delayMs)
      ensures wake ==> id == newId && db.rows == Apply(old(db.rows), db.now, Insert(newId, typ, payload, priority, delayMs))
      ensures !wake ==>
        && Legal(old(db.rows), db.now, RaiseStandIn(id, typ, payload, priority, delayMs))
        && db.rows == Apply(old(db.rows), db.now, RaiseStandIn(id, typ, payload, priority, delayMs))
      ensures old(TableInv(db.rows)) ==> TableInv(db.rows)
    {
      if unlessWaiting {
        var standIns := set i | i in db.rows && i !in skipped && StandsIn(db.rows[i], db.now, typ, payload, delayMs);
        assert forall i :: i in standIns <==> i in db.rows && i !in skipped && StandsIn(db.rows[i], db.now, typ, payload, delayMs);
        if standIns != {} {
          id :| id in standIns;
          db.rows := db.rows[id := db.rows[id].(priority := Least(db.rows[id].priority, priority))];
          return id, false;
        }
      }
      id, wake := newId, true;
      db.rows := db.rows[id := Row(typ, payload, priority, db.now + delayMs, 0, None, None, Ready, db.now)];
    }
  }

  /** The payloads of these rows, one for each. */
  function PayloadsAt(rows: Rows, ids: seq<JobId>): seq<Payload>
    requires forall id :: id in ids ==> id in rows
  {
    seq(|ids|, i requires 0 <= i < |ids| => rows[ids[i]].payload)
  }

  lemma StatementKeepsInvIf(rows: Rows, now: Time, st: Statement)
    requires Legal(rows, now, st)
    ensures TableInv(rows) ==> TableInv(Apply(rows, now, st))
  {
    if TableInv(rows) { StatementKeepsInv(rows, now, st); }
  }

  /**
   * A coalesced signal: however many requests come in while one is under way, one more follows. `requests` and `covered` are history: how many requests there have been,
   * and how many of them came before the latest sending began.
   */
  class Coalesced {
    var running: bool
    var again: bool
    ghost var requests: nat
    ghost var covered: nat

    /** Every request is behind a sending that began after it, or one is still to come. */
    ghost predicate Valid()
      reads this
    {
      && covered <= requests
      && (again ==> running)
      && (covered < requests ==> running && again)
    }

    constructor ()
      ensures Valid() && !running && requests == 0
    {
      running, again, requests, covered := false, false, 0, 0;
    }

    method Request() returns (sends: bool)
      requires Valid()
      modifies this
      ensures Valid() && running && requests == old(requests) + 1
      ensures sends == !old(running) && (sends ==> covered == requests)
    {
      requests := requests + 1;
      if running {
        again := true;
        return false;
      }
      running, again := true, false;
      covered := requests;
      return true;
    }

    /** The sending in flight has settled; at rest, every request has had a sending after it. */
    method Settled() returns (sends: bool)
      requires Valid() && running
      modifies this
      ensures Valid() && requests == old(requests) && running == sends == old(again)
      ensures covered == requests
    {
      if again {
        again := false;
        covered := requests;
        return true;
      }
      running := false;
      return false;
    }
  }
}
