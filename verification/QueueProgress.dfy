/**
 * What becomes of a lane and its job: which statement a lane comes to send after each thing it
 * awaited, and what that statement makes of the row, over any trace and whatever the other
 * lanes, processes and writers do in between.
 */
module QueueProgress {
  import opened Basics
  import opened JobTable
  import opened Scheduler
  import opened QueueSystem
  import opened QueueLeases
  import opened QueueTiming

  // ---- a lane between two events of its own ----

  /** What lane `l` of `p` awaits is run by the database, settles or is rejected. */
  predicate OwnStep(e: Event, p: Owner, l: LaneId) {
    (e.Execute? || e.Resumes? || e.Rejects?) && e.p == p && e.l == l
  }

  predicate HasLane(s: System, p: Owner, l: LaneId) { p in s.procs && l in s.procs[p].lanes }

  /** The same await; its hold may have ticked, or been extended. */
  predicate SameAwait(a: Pc, b: Pc) {
    || a == b
    || (a.Handling? && b.Handling? && a.run == b.run)
    || (a.Finishing? && b.Finishing? && a.run == b.run && a.how == b.how && a.done == b.done && a.held.Some? && b.held.Some?)
  }

  lemma WaitsOneStep(s: System, e: Event, p: Owner, l: LaneId)
    requires SystemInv(s) && Enabled(s, e) && HasLane(s, p, l) && !OwnStep(e, p, l)
    ensures HasLane(Next(s, e), p, l) && SameAwait(s.procs[p].lanes[l], Next(s, e).procs[p].lanes[l])
  {
    NextProcs(s, e, p);
    hide Next;
    if ProcessOf(e) == Some(p) { WaitsOwnProcess(s, e, l); }
  }

  lemma WaitsOwnProcess(s: System, e: Event, l: LaneId)
    requires SystemInv(s) && Enabled(s, e) && ProcessOf(e).Some? && HasLane(s, e.p, l) && !OwnStep(e, e.p, l)
    ensures l in Stepped(s, e).lanes && SameAwait(s.procs[e.p].lanes[l], Stepped(s, e).lanes[l])
  {
    var proc := s.procs[e.p];
    assert SchedInv(proc);
    match e
    case Request(_) => RequestMovesOn(proc, s.steps);
    case Fires(_) => RequestMovesOn(Disarm(proc), s.steps);
    case Resumes(_, m, outcome) => ResumeMovesOn(proc, m, s.now, outcome, s.steps);
    case Rejects(_, m) => RejectMovesOn(proc, m, s.now);
    case _ =>
  }

  /** Event `k` is the next of the lane's own from step `i` on. */
  ghost predicate NextOwn(t: Trace, i: nat, k: nat, p: Owner, l: LaneId) {
    i <= k < |t.events| && OwnStep(t.events[k], p, l) && forall j :: i <= j < k ==> !OwnStep(t.events[j], p, l)
  }

  lemma {:induction false} LaneWaits(t: Trace, i: nat, k: nat, p: Owner, l: LaneId)
    requires IsTrace(t) && i <= k <= |t.events| && HasLane(t.states[i], p, l)
    requires forall j :: i <= j < k ==> !OwnStep(t.events[j], p, l)
    ensures HasLane(t.states[k], p, l) && SameAwait(t.states[i].procs[p].lanes[l], t.states[k].procs[p].lanes[l])
    decreases k
  {
    if i < k {
      hide SystemInv, Enabled, Next;
      StepOf(t, k - 1);
      hide IsTrace;
      LaneWaits(t, i, k - 1, p, l);
      WaitsOneStep(t.states[k - 1], t.events[k - 1], p, l);
    }
  }

  // ---- no lane is stuck ----

  /** The database has an answer to the question what is due next. */
  lemma {:induction false} DueHasAnswer(rows: Rows, among: set<JobId>, owner: Owner) returns (first: JobId)
    requires among != {} && forall id :: id in among ==> id in rows
    ensures first in among && forall id :: id in among ==> ReadyAt(rows[first]) <= ReadyAt(rows[id])
    decreases |among|
  {
    var id :| id in among;
    var rest := among - {id};
    first := id;
    if rest != {} {
      var least := DueHasAnswer(rows, rest, owner);
      if ReadyAt(rows[least]) < ReadyAt(rows[id]) { first := least; }
    }
    forall other | other in among ensures ReadyAt(rows[first]) <= ReadyAt(rows[other]) {
      if other != id { assert other in rest; }
    }
  }

  lemma DueIsAnswered(rows: Rows, owner: Owner, now: Time)
    ensures exists dueIn :: NextDue(rows, owner, now, dueIn)
  {
    var watched := set id | id in rows && rows[id].state.Ready? && rows[id].lockedBy != Some(owner);
    if watched == {} {
      forall id | id in rows ensures !Watched(rows[id], owner) { assert id !in watched; }
      assert NextDue(rows, owner, now, None);
    } else {
      var first := DueHasAnswer(rows, watched, owner);
      assert Watched(rows[first], owner);
      assert NextDue(rows, owner, now, Some(ReadyAt(rows[first]) - now));
    }
  }

  /** Whatever a lane awaits, the database can run it or it can settle, and unless it is a handler's it can be rejected. */
  lemma LaneCanGoOn(s: System, p: Owner, l: LaneId)
    requires HasLane(s, p, l)
    ensures exists e :: OwnStep(e, p, l) && !e.Rejects? && Enabled(s, e)
    ensures Enabled(s, Rejects(p, l)) <==> !s.procs[p].lanes[l].Counting? && !s.procs[p].lanes[l].Handling?
    ensures s.procs[p].lanes[l].Handling? ==> forall outcome :: Enabled(s, Resumes(p, l, outcome))
  {
    var pc := s.procs[p].lanes[l];
    ClaimIsDetermined(s.rows, s.now, {});
    DueIsAnswered(s.rows, p, s.now);
    var took :| Takes(s.rows, s.now, {}, took);
    var dueIn :| NextDue(s.rows, p, s.now, dueIn);
    hide Takes, NextDue;
    var settles, runs := Resumes(p, l, Returned), Execute(p, l, {}, took, dueIn);
    assert OwnStep(settles, p, l) && OwnStep(runs, p, l);
    if pc.Claiming? || pc.Closing? || (pc.Burying? && !pc.done) || (pc.Finishing? && !pc.done) {
      assert Enabled(s, runs);
    } else {
      assert Enabled(s, settles);
    }
  }

  /** A timer that is due can fire. */
  lemma DueTimerFires(s: System, p: Owner)
    requires p in s.procs && s.procs[p].timerAt.Some? && s.procs[p].timerAt.value <= s.now
    ensures Enabled(s, Fires(p))
  {
  }

  // ---- from the handler's end to the row's ----

  /** How a handler's end is to be told to the table. */
  lemma HandlerSettles(s: Sched, l: LaneId, now: Time, outcome: Outcome, step: nat)
    requires l in s.lanes && s.lanes[l].Handling?
    ensures var t := Resume(s, l, now, outcome, step);
      && t == s.(lanes := t.lanes) && t.lanes.Keys == s.lanes.Keys
      && t.lanes[l].Finishing? && t.lanes[l].run == s.lanes[l].run && t.lanes[l].held == Some(s.lanes[l].hold)
      && !t.lanes[l].done
      && (outcome.Returned? <==> t.lanes[l].how.ByComplete?)
      && (outcome.Interrupted? && s.stopped <==> t.lanes[l].how.ByRelease?)
  {
  }

  /** The row of a job whose run failed. */
  predicate FailedInto(was: Row, row: Row, now: Time) {
    && row == was.(state := row.state, runAt := now + RETRY_DELAY_MS, lockedUntil := None, lockedBy := None, updated := now)
    && (row.state.Dead? <==> was.attempts >= MAX_ATTEMPTS)
  }

  /** The row of a job that is given back, with the attempt, to be taken at once. */
  predicate GivenBack(was: Row, row: Row, now: Time) {
    && row == was.(attempts := was.attempts - 1, runAt := now, lockedUntil := None, lockedBy := None, updated := now)
    && (RowInv(was) ==> Takeable(row, now))
  }

  /** The table after what closes a run of `job`: changed in that row at most, and only if `owner` holds its lease. */
  predicate ClosedRun(rows: Rows, after: Rows, owner: Owner, job: JobId, now: Time, how: Ending) {
    if job !in rows || rows[job].lockedBy != Some(owner) then after == rows
    else if how.ByComplete? then after == rows - {job}
    else
      && after.Keys == rows.Keys && (forall id :: id in rows && id != job ==> after[id] == rows[id])
      && (if how.ByRelease? then GivenBack(rows[job], after[job], now) else FailedInto(rows[job], after[job], now))
  }

  lemma FinishingCloses(s: System, e: Event)
    requires SystemInv(s) && Enabled(s, e) && e.Execute? && s.procs[e.p].lanes[e.l].Finishing?
    ensures var pc := s.procs[e.p].lanes[e.l];
      ClosedRun(s.rows, Next(s, e).rows, e.p, pc.run.job, s.now, pc.how)
  {
    var job := s.procs[e.p].lanes[e.l].run.job;
    assert job in s.rows ==> RowInv(s.rows[job]);
  }

  lemma FinishingThen(t: Trace, i: nat, k: nat, p: Owner, l: LaneId)
    requires IsTrace(t) && i <= |t.events| && HasLane(t.states[i], p, l) && t.states[i].procs[p].lanes[l].Finishing?
    requires NextOwn(t, i, k, p, l) && t.events[k].Execute?
    ensures var pc := t.states[i].procs[p].lanes[l];
      ClosedRun(t.states[k].rows, t.states[k + 1].rows, p, pc.run.job, t.states[k].now, pc.how)
  {
    hide SystemInv, Enabled, Next, ClosedRun;
    LaneWaits(t, i, k, p, l);
    StepOf(t, k);
    FinishingCloses(t.states[k], t.events[k]);
  }

  /**
   * What a handler's end does to its job, by the statement its lane sends next, whenever the
   * database comes to run it: nothing if the process has lost the lease. Otherwise the row is
   * deleted after a return; given back with its attempt, to be taken at once, if it was
   * interrupted by the stop; and after any other end left to be retried, or dead once its
   * attempts are used.
   */
  lemma RunEnds(t: Trace, i: nat, k: nat, p: Owner, l: LaneId)
    requires IsTrace(t) && i < |t.events| && t.events[i].Resumes? && t.events[i].p == p && t.events[i].l == l
    requires HasLane(t.states[i], p, l) && t.states[i].procs[p].lanes[l].Handling?
    requires NextOwn(t, i + 1, k, p, l) && t.events[k].Execute?
    ensures var job := t.states[i].procs[p].lanes[l].run.job; var outcome := t.events[i].outcome;
      var (rows, after, now) := (t.states[k].rows, t.states[k + 1].rows, t.states[k].now);
      if job !in rows || rows[job].lockedBy != Some(p) then after == rows
      else if outcome.Returned? then after == rows - {job}
      else
        && after.Keys == rows.Keys && (forall id :: id in rows && id != job ==> after[id] == rows[id])
        && (if outcome.Interrupted? && t.states[i].procs[p].stopped then GivenBack(rows[job], after[job], now)
            else FailedInto(rows[job], after[job], now))
  {
    var s, e := t.states[i], t.events[i];
    hide SystemInv, GivenBack, FailedInto;
    StepOf(t, i);
    NextProcs(s, e, p);
    HandlerSettles(s.procs[p], l, s.now, e.outcome, s.steps);
    assert Stepped(s, e) == Resume(s.procs[p], l, s.now, e.outcome, s.steps);
    hide IsTrace, Enabled, Next, Resume, Stepped;
    FinishingThen(t, i + 1, k, p, l);
  }

  /** A completion that is rejected is handled as the handler's own failure: the lane's next statement fails the job. */
  lemma RejectedCompletionFails(t: Trace, i: nat, k: nat, p: Owner, l: LaneId)
    requires IsTrace(t) && i < |t.events| && t.events[i].Rejects? && t.events[i].p == p && t.events[i].l == l
    requires HasLane(t.states[i], p, l)
    requires var pc := t.states[i].procs[p].lanes[l]; pc.Finishing? && pc.held.Some? && pc.how.ByComplete?
    requires NextOwn(t, i + 1, k, p, l) && t.events[k].Execute?
    ensures ClosedRun(t.states[k].rows, t.states[k + 1].rows, p, t.states[i].procs[p].lanes[l].run.job, t.states[k].now, ByFail)
  {
    var s, e := t.states[i], t.events[i];
    hide SystemInv, ClosedRun;
    StepOf(t, i);
    NextProcs(s, e, p);
    assert Stepped(s, e) == Reject(s.procs[p], l, s.now);
    hide IsTrace, Enabled, Next;
    FinishingThen(t, i + 1, k, p, l);
  }

  /** A run that is on time until the completion its return sends is run: the job is done, and gone. */
  lemma TimelyRunCompletes(t: Trace, p: Owner, l: LaneId, run: Run, a: nat, i: nat, k: nat, late: nat)
    requires IsTrace(t) && a < i < k < |t.events| && BeginsAlone(t, a, p, l, run) && OnTimeTill(t, p, l, run, a, k, late)
    requires HOLD_INTERVAL_MS + late <= LEASE_MS
    requires t.events[i].Resumes? && t.events[i].p == p && t.events[i].l == l && t.events[i].outcome.Returned?
    requires t.states[i].procs[p].lanes[l].Handling?
    requires NextOwn(t, i + 1, k, p, l) && t.events[k].Execute?
    ensures run.job in t.states[k].rows && t.states[k + 1].rows == t.states[k].rows - {run.job}
  {
    assert |t.states| == |t.events| + 1;
    hide IsTrace, BeginsAlone, OnTime, LosesOf;
    assert InProgress(t.states[i], p, l, run);
    TimedExclusion(t, p, l, run, a, k, late);
    assert Mine(t.states[k].rows, p, run.job);
    RunEnds(t, i, k, p, l);
  }

  // ---- from the claim to the handler ----

  /** What a claim has the lane await. */
  lemma ClaimTells(t: Trace, a: nat, p: Owner, l: LaneId, job: JobId)
    requires IsTrace(t) && a < |t.events| && t.events[a].Execute? && t.events[a].p == p && t.events[a].l == l
    requires HasLane(t.states[a], p, l) && t.states[a].procs[p].lanes[l].Claiming? && t.events[a].took == Some(job)
    ensures job in t.states[a].rows && HasLane(t.states[a + 1], p, l)
    ensures var (s, pc) := (t.states[a], t.states[a + 1].procs[p].lanes[l]);
      pc.Claimed? && pc.took == Some(Run(job, s.rows[job].typ in s.procs[p].handled, s.now, a))
  {
    hide SystemInv;
    StepOf(t, a);
    NextProcs(t.states[a], t.events[a], p);
  }

  /** The handler of a known type begins, and a hold with it; any other job is to be completed unhandled. */
  predicate BeginsHandler(run: Run, pc: Pc, now: Time) {
    if run.known then pc == Handling(run, Hold(now, now + MAX_HOLD_MS, 0, 0, run.claimedAt, true))
    else pc == Finishing(run, None, ByComplete, false)
  }

  /** The next two settled awaits of a lane that has taken a job. */
  lemma TakenResumes(t: Trace, i: nat, p: Owner, l: LaneId)
    requires IsTrace(t) && i < |t.events| && t.events[i].Resumes? && t.events[i].p == p && t.events[i].l == l
    requires HasLane(t.states[i], p, l)
    ensures var was := t.states[i].procs[p].lanes[l];
      && (was.Claimed? && was.took.Some? ==> HasLane(t.states[i + 1], p, l) && t.states[i + 1].procs[p].lanes[l] == Counting(was.took.value))
      && (was.Counting? ==> HasLane(t.states[i + 1], p, l) && BeginsHandler(was.run, t.states[i + 1].procs[p].lanes[l], t.states[i].now))
  {
    hide SystemInv;
    StepOf(t, i);
    NextProcs(t.states[i], t.events[i], p);
    assert Stepped(t.states[i], t.events[i]) == Resume(t.states[i].procs[p], l, t.states[i].now, t.events[i].outcome, t.states[i].steps);
  }

  /**
   * A job that is claimed comes to its handler, if neither of the two awaits between is
   * rejected; one of a type the process has no handler for is to be deleted unhandled.
   */
  lemma ClaimedIsHandled(t: Trace, a: nat, i: nat, j: nat, p: Owner, l: LaneId, job: JobId)
    requires IsTrace(t) && a < |t.events| && t.events[a].Execute? && t.events[a].p == p && t.events[a].l == l
    requires HasLane(t.states[a], p, l) && t.states[a].procs[p].lanes[l].Claiming? && t.events[a].took == Some(job)
    requires NextOwn(t, a + 1, i, p, l) && t.events[i].Resumes? && NextOwn(t, i + 1, j, p, l) && t.events[j].Resumes?
    ensures job in t.states[a].rows && HasLane(t.states[j + 1], p, l)
    ensures var (s, pc) := (t.states[a], t.states[j + 1].procs[p].lanes[l]);
      if s.rows[job].typ in s.procs[p].handled
      then pc.Handling? && pc.run.job == job && pc.hold.start == t.states[j].now && pc.hold.until == t.states[j].now + MAX_HOLD_MS
      else pc.Finishing? && pc.run.job == job && pc.how.ByComplete?
  {
    hide IsTrace;
    ClaimTells(t, a, p, l, job);
    LaneWaits(t, a + 1, i, p, l);
    TakenResumes(t, i, p, l);
    LaneWaits(t, i + 1, j, p, l);
    TakenResumes(t, j, p, l);
  }

  /** And then it is deleted, if the process still holds it. */
  lemma UnknownIsDeleted(t: Trace, a: nat, i: nat, j: nat, k: nat, p: Owner, l: LaneId, job: JobId)
    requires IsTrace(t) && a < |t.events| && t.events[a].Execute? && t.events[a].p == p && t.events[a].l == l
    requires HasLane(t.states[a], p, l) && t.states[a].procs[p].lanes[l].Claiming? && t.events[a].took == Some(job)
    requires job in t.states[a].rows ==> t.states[a].rows[job].typ !in t.states[a].procs[p].handled
    requires NextOwn(t, a + 1, i, p, l) && t.events[i].Resumes? && NextOwn(t, i + 1, j, p, l) && t.events[j].Resumes?
    requires NextOwn(t, j + 1, k, p, l) && t.events[k].Execute?
    ensures t.states[k + 1].rows ==
      if Mine(t.states[k].rows, p, job) then t.states[k].rows - {job} else t.states[k].rows
  {
    hide IsTrace;
    ClaimedIsHandled(t, a, i, j, p, l, job);
    FinishingThen(t, j + 1, k, p, l);
  }

  // ---- while a handler runs ----

  /** The hold of a lane whose handler runs, or whose end is still to be told. */
  function HoldAt(pc: Pc): Option<Hold> {
    match pc
    case Handling(_, hold) => Some(hold)
    case Finishing(_, held, _, _) => held
    case _ => None
  }

  /**
   * As long as a handler runs and until its end is told, its interval ticks, each HOLD_INTERVAL_MS
   * from the start: up to MAX_HOLD_MS a tick sends an extension of the lease, and past that the
   * first one ends the ticking.
   */
  lemma HoldTicksOn(s: System, p: Owner, l: LaneId)
    requires HasLane(s, p, l) && HoldAt(s.procs[p].lanes[l]).Some?
    ensures var (proc, hold) := (s.procs[p], HoldAt(s.procs[p].lanes[l]).value);
      && (Enabled(s, Ticks(p, l)) <==> hold.ticking && s.now >= hold.start + (hold.ticks + 1) * HOLD_INTERVAL_MS)
      && (Enabled(s, Ticks(p, l)) ==>
            && l in Stepped(s, Ticks(p, l)).lanes
            && TicksTo(proc, Stepped(s, Ticks(p, l)), proc.lanes[l], Stepped(s, Ticks(p, l)).lanes[l], l, s.now))
  {
  }

  predicate TicksTo(proc: Sched, after: Sched, was: Pc, pc: Pc, l: LaneId, now: Time)
    requires HoldAt(was).Some?
  {
    var hold := HoldAt(was).value;
    && after == proc.(lanes := proc.lanes[l := pc], extensions := after.extensions, nextExtension := after.nextExtension)
    && SameAwait(was, pc)
    && if now > hold.until then HoldAt(pc) == Some(hold.(ticking := false)) && after.extensions == proc.extensions
       else
         && HoldAt(pc) == Some(hold.(ticks := hold.ticks + 1)) && (was.Handling? || was.Finishing?)
         && after.extensions == proc.extensions[proc.nextExtension := Extension(l, was.run, hold.ticks + 1, now, hold.until)]
  }

  /**
   * An extension lands once or is lost: landing gives the process's lease LEASE_MS more from
   * then, if it still holds it, and nothing else ever comes of it.
   */
  lemma ExtensionLandsOnce(s: System, p: Owner, k: nat)
    requires p in s.procs && k in s.procs[p].extensions
    ensures Enabled(s, Lands(p, k)) && Enabled(s, Loses(p, k))
    ensures Next(s, Lands(p, k)).procs[p].extensions == s.procs[p].extensions - {k} && Next(s, Loses(p, k)).procs[p].extensions == s.procs[p].extensions - {k}
    ensures Next(s, Loses(p, k)).rows == s.rows && Next(s, Loses(p, k)).procs[p].lanes == s.procs[p].lanes
    ensures var job := s.procs[p].extensions[k].run.job;
      Next(s, Lands(p, k)).rows ==
        if job in s.rows && s.rows[job].lockedBy == Some(p) then s.rows[job := s.rows[job].(lockedUntil := Some(s.now + LEASE_MS))]
        else s.rows
  {
  }

  // ---- between jobs ----

  /**
   * Between jobs a lane looks for the next as long as there may be one: after burying, after a
   * run, and after a look that found nothing while a request came. A look that found nothing
   * with none come since ends it, and a stop ends it at any of these.
   */
  lemma LaneLooksOn(s: Sched, l: LaneId, now: Time, outcome: Outcome, step: nat)
    requires l in s.lanes && CanResume(s.lanes[l])
    requires s.lanes[l].Burying? || s.lanes[l].Finishing? || (s.lanes[l].Claimed? && s.lanes[l].took.None?)
    ensures var (t, pc) := (Resume(s, l, now, outcome, step), s.lanes[l]);
      && t == s.(lanes := t.lanes, active := t.active)
      && if s.stopped then t.lanes == s.lanes - {l} && t.active == s.active - 1
         else if pc.Claimed? && pc.looked == s.wakes then t.lanes == s.lanes[l := Closing(step)] && t.active == s.active - 1
         else t.lanes == s.lanes[l := Claiming(s.wakes, step)] && t.active == s.active
  {
  }

  /** A closing lane that has heard what is due is gone, and nothing but the timer is changed by what it heard. */
  lemma ClosedLaneIsGone(s: Sched, l: LaneId, now: Time, outcome: Outcome, step: nat)
    requires l in s.lanes && s.lanes[l].Closed?
    ensures var (t, dueIn) := (Resume(s, l, now, outcome, step), s.lanes[l].dueIn);
      && t == s.(lanes := s.lanes - {l}, timerAt := t.timerAt, asked := t.asked)
      && (dueIn.None? || s.stopped ==> t.timerAt == s.timerAt)
  {
  }

  // ---- a pass from idle buries ----

  /** The table after a burying: ready rows whose lease on the last attempt has run out are dead, and the others as they were. */
  predicate BuriedAll(rows: Rows, after: Rows, now: Time) {
    && after.Keys == rows.Keys
    && forall id :: id in rows ==>
         var r := rows[id];
         if r.state.Ready? && r.attempts >= MAX_ATTEMPTS && r.lockedUntil.Some? && r.lockedUntil.value < now
         then after[id] == r.(state := Dead, lockedUntil := None, lockedBy := None, updated := now)
         else after[id] == r
  }

  lemma IdleRequestBuries(s: Sched, step: nat)
    requires LanesInv(s) && s.active == 0 && !s.stopped
    ensures var t := RequestPass(s, step); s.nextLane in t.lanes && t.lanes[s.nextLane] == Burying(false)
    ensures s.nextLane !in s.lanes
  {
    LanesStarted(s.(wakes := s.wakes + 1), true, step);
    assert s.nextLane in StartLanes(s.(wakes := s.wakes + 1), true, step).lanes by {
      var u := s.(wakes := s.wakes + 1);
      var next := u.(active := u.active + 1, lanes := u.lanes[u.nextLane := Burying(false)], nextLane := u.nextLane + 1);
      LaneAdded(u.lanes, u.nextLane, Burying(false));
      LanesStarted(next, false, step);
    }
  }

  /** A process asked for a pass while none of its lanes takes jobs first buries, whatever else it then does. */
  lemma PassBuries(t: Trace, r: nat, k: nat, p: Owner, l: LaneId)
    requires IsTrace(t) && r < |t.events| && (t.events[r] == Request(p) || t.events[r] == Fires(p)) && p in t.states[r].procs
    requires t.states[r].procs[p].active == 0 && !t.states[r].procs[p].stopped && l == t.states[r].procs[p].nextLane
    requires NextOwn(t, r + 1, k, p, l) && t.events[k].Execute?
    ensures BuriedAll(t.states[k].rows, t.states[k + 1].rows, t.states[k].now)
  {
    var s := t.states[r];
    StepOf(t, r);
    NextProcs(s, t.events[r], p);
    assert SchedInv(s.procs[p]);
    IdleRequestBuries(s.procs[p], s.steps);
    IdleRequestBuries(Disarm(s.procs[p]), s.steps);
    hide SystemInv, BuriedAll, RequestPass, IsTrace;
    LaneWaits(t, r + 1, k, p, l);
    ExecutesBury(t, k, p, l);
  }

  lemma ExecutesBury(t: Trace, k: nat, p: Owner, l: LaneId)
    requires IsTrace(t) && k < |t.events| && t.events[k].Execute? && t.events[k].p == p && t.events[k].l == l
    requires HasLane(t.states[k], p, l) && t.states[k].procs[p].lanes[l].Burying?
    ensures BuriedAll(t.states[k].rows, t.states[k + 1].rows, t.states[k].now)
  {
    hide SystemInv;
    StepOf(t, k);
  }

  // ---- the stop ----

  /** A lane whose look is under way, or is still to come from where it stands. */
  predicate Looks(s: System, p: Owner, l: LaneId) {
    HasLane(s, p, l) && (s.procs[p].lanes[l].Claiming? || s.procs[p].lanes[l].Closing?)
  }

  lemma StoppedStep(s: System, e: Event, p: Owner, l: LaneId)
    requires SystemInv(s) && Enabled(s, e) && p in s.procs && s.procs[p].stopped
    requires Looks(Next(s, e), p, l)
    ensures Looks(s, p, l) && s.procs[p].lanes[l] == Next(s, e).procs[p].lanes[l]
  {
    NextProcs(s, e, p);
    hide Next;
    if ProcessOf(e) == Some(p) { StoppedOwnStep(s, e, l); }
  }

  lemma StoppedOwnStep(s: System, e: Event, l: LaneId)
    requires SystemInv(s) && Enabled(s, e) && ProcessOf(e).Some? && s.procs[e.p].stopped && l in Stepped(s, e).lanes
    requires Stepped(s, e).lanes[l].Claiming? || Stepped(s, e).lanes[l].Closing?
    ensures l in s.procs[e.p].lanes && s.procs[e.p].lanes[l] == Stepped(s, e).lanes[l]
  {
    var proc := s.procs[e.p];
    assert SchedInv(proc);
    match e
    case Request(_) => RequestMovesOn(proc, s.steps);
    case Fires(_) => RequestMovesOn(Disarm(proc), s.steps);
    case Resumes(_, m, outcome) => StoppedResumes(proc, m, s.now, outcome, s.steps);
    case Rejects(_, m) => RejectMovesOn(proc, m, s.now);
    case _ =>
  }

  lemma StoppedResumes(s: Sched, l: LaneId, now: Time, outcome: Outcome, step: nat)
    requires l in s.lanes && CanResume(s.lanes[l]) && s.stopped
    ensures var t := Resume(s, l, now, outcome, step);
      && OnlyLane(s, t, l) && (l in t.lanes ==> !t.lanes[l].Claiming? && !t.lanes[l].Closing?)
  {
    ResumeMovesOn(s, l, now, outcome, step);
  }

  /** From the stop on a process begins no look, and asks no more what is due: it only ends what was under way. */
  lemma {:induction false} StoppedTakesNoMore(t: Trace, p: Owner, l: LaneId, i: nat, k: nat)
    requires IsTrace(t) && i <= k <= |t.events| && p in t.states[i].procs && t.states[i].procs[p].stopped
    requires Looks(t.states[k], p, l)
    ensures Looks(t.states[i], p, l) && t.states[i].procs[p].lanes[l] == t.states[k].procs[p].lanes[l]
    decreases k
  {
    if i < k {
      StoppedTraceStep(t, p, l, i, k - 1);
      hide IsTrace, Looks;
      StoppedTakesNoMore(t, p, l, i, k - 1);
    }
  }

  lemma StoppedTraceStep(t: Trace, p: Owner, l: LaneId, i: nat, m: nat)
    requires IsTrace(t) && i <= m < |t.events| && p in t.states[i].procs && t.states[i].procs[p].stopped
    requires Looks(t.states[m + 1], p, l)
    ensures Looks(t.states[m], p, l) && t.states[m].procs[p].lanes[l] == t.states[m + 1].procs[p].lanes[l]
  {
    hide SystemInv, Enabled, Next, Looks, Stepped;
    TraceKeepsProc(t, p, i, m);
    TraceOnward(t, p, i, m);
    StepOf(t, m);
    hide IsTrace;
    StoppedStep(t.states[m], t.events[m], p, l);
  }

  lemma {:induction false} TraceKeepsProc(t: Trace, p: Owner, i: nat, k: nat)
    requires IsTrace(t) && i <= k <= |t.events| && p in t.states[i].procs
    ensures p in t.states[k].procs
    decreases k
  {
    if i < k {
      TraceKeepsProc(t, p, i, k - 1);
      StepOf(t, k - 1);
    }
  }

  // ---- the back-off, and the timer's times ----

  /** Arming brings the timer forward to the time asked for, no sooner than the back-off, or leaves a sooner one. */
  lemma ArmIsExact(s: Sched, now: Time, delay: Time)
    requires !s.stopped
    ensures var (t, asked) := (Arm(s, now, delay), if now + delay < s.backoffUntil then s.backoffUntil else now + delay);
      t == s.(timerAt := t.timerAt, asked := t.asked)
      && t.timerAt == Some(if s.timerAt.Some? && s.timerAt.value < asked then s.timerAt.value else asked)
  {
  }

  /** Of a process that has not stopped, whatever ends in failure sets its timer a fixed while ahead, in place of any other. */
  lemma FailureSetsTimer(s: System, e: Event)
    requires Enabled(s, e) && e.Rejects? && !s.procs[e.p].stopped
    requires var pc := s.procs[e.p].lanes[e.l]; !(pc.Finishing? && pc.held.Some? && pc.how.ByComplete?)
    ensures var after := Stepped(s, e);
      && after.timerAt == Some(s.now + DRAIN_RETRY_MS) && after.backoffUntil == s.now + DRAIN_RETRY_MS
      && after.lanes == s.procs[e.p].lanes - {e.l}
  {
  }

  lemma BackoffStep(s: System, e: Event, p: Owner)
    requires SystemInv(s) && Enabled(s, e) && p in s.procs
    ensures Next(s, e).procs[p].backoffUntil == s.procs[p].backoffUntil
         || (e.Rejects? && e.p == p && Next(s, e).procs[p].backoffUntil == s.now + DRAIN_RETRY_MS)
  {
    NextProcs(s, e, p);
    hide Next;
    if ProcessOf(e) == Some(p) { BackoffOwnStep(s, e); }
  }

  lemma BackoffOwnStep(s: System, e: Event)
    requires SystemInv(s) && Enabled(s, e) && ProcessOf(e).Some?
    ensures Stepped(s, e).backoffUntil == s.procs[e.p].backoffUntil
         || (e.Rejects? && Stepped(s, e).backoffUntil == s.now + DRAIN_RETRY_MS)
  {
    var proc := s.procs[e.p];
    assert SchedInv(proc);
    match e
    case Request(_) => RequestKeepsBackoff(proc, s.steps);
    case Fires(_) => RequestKeepsBackoff(Disarm(proc), s.steps);
    case _ =>
  }

  lemma RequestKeepsBackoff(s: Sched, step: nat)
    requires LanesInv(s)
    ensures RequestPass(s, step).backoffUntil == s.backoffUntil && RequestPass(s, step).timerAt == s.timerAt
  {
    if !s.stopped { LanesStarted(s.(wakes := s.wakes + 1), s.active == 0, step); }
  }

  lemma {:induction false} BackoffStays(t: Trace, p: Owner, i: nat, k: nat)
    requires IsTrace(t) && i <= k <= |t.events| && p in t.states[i].procs
    requires t.states[i].procs[p].backoffUntil <= t.states[i].now + DRAIN_RETRY_MS
    ensures p in t.states[k].procs && t.states[i].now <= t.states[k].now
    ensures t.states[i].procs[p].backoffUntil <= t.states[k].procs[p].backoffUntil <= t.states[k].now + DRAIN_RETRY_MS
    decreases k
  {
    if i < k {
      hide SystemInv, Enabled, Next;
      BackoffStays(t, p, i, k - 1);
      StepOf(t, k - 1);
      hide IsTrace;
      NextTime(t.states[k - 1], t.events[k - 1]);
      BackoffStep(t.states[k - 1], t.events[k - 1], p);
    }
  }

  /** After a failure the timer does not fire before the back-off is over, whatever else is asked of it. */
  lemma BacksOff(t: Trace, p: Owner, i: nat, k: nat)
    requires IsTrace(t) && i < k < |t.events| && t.events[i].Rejects? && t.events[i].p == p && t.events[k] == Fires(p)
    requires HasLane(t.states[i], p, t.events[i].l) && !t.states[i].procs[p].stopped
    requires var pc := t.states[i].procs[p].lanes[t.events[i].l]; !(pc.Finishing? && pc.held.Some? && pc.how.ByComplete?)
    ensures t.states[k].now >= t.states[i].now + DRAIN_RETRY_MS
  {
    StepOf(t, i);
    StepOf(t, k);
    NextProcs(t.states[i], t.events[i], p);
    NextTime(t.states[i], t.events[i]);
    assert SchedInv(t.states[k].procs[p]);
    hide SystemInv, IsTrace, Next;
    FailureSetsTimer(t.states[i], t.events[i]);
    BackoffStays(t, p, i + 1, k);
  }

  /** A timer that has fired is spent: the pass it asks for sets none. */
  lemma FiredIsSpent(s: System, e: Event)
    requires SystemInv(s) && Enabled(s, e) && e.Fires?
    ensures Stepped(s, e).timerAt.None?
  {
    assert SchedInv(s.procs[e.p]);
    RequestKeepsBackoff(Disarm(s.procs[e.p]), s.steps);
  }
}
