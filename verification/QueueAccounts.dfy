/**
 * What the whole queue owes to its statements: the rows are the history of the statements
 * run, a handler starts only on a claim of its own, and a row is closed only by a run that
 * has ended.
 */
module QueueAccounts {
  import opened Basics
  import opened JobTable
  import opened Scheduler
  import opened QueueSystem
  import opened QueueLeases

  /** The statements the database has run in the first `n` steps. */
  function LogOf(t: Trace, n: nat): seq<Entry>
    requires n <= |t.events| && |t.states| == |t.events| + 1
  {
    if n == 0 then []
    else
      var st := StatementOf(t.states[n - 1], t.events[n - 1]);
      LogOf(t, n - 1) + if st.Some? then [Entry(t.states[n - 1].now, st.value)] else []
  }

  lemma LegalLonger(log: seq<Entry>, entry: Entry)
    requires LegalLog(map[], log) && Legal(Replay(map[], log), entry.now, entry.st)
    ensures LegalLog(map[], log + [entry])
    ensures Replay(map[], log + [entry]) == Apply(Replay(map[], log), entry.now, entry.st)
  {
    var longer := log + [entry];
    assert longer[..|longer| - 1] == log;
    forall k | 0 <= k < |longer| ensures Legal(Replay(map[], longer[..k]), longer[k].now, longer[k].st) {
      if k < |log| { assert longer[..k] == log[..k]; }
    }
  }

  /** In every reachable state the table is what its statements made of an empty one. */
  lemma {:induction false} RowsAreHistory(t: Trace, n: nat)
    requires IsTrace(t) && n <= |t.events|
    ensures LegalLog(map[], LogOf(t, n)) && t.states[n].rows == Replay(map[], LogOf(t, n))
  {
    hide Apply, Legal, SystemInv, Stepped;
    if n > 0 {
      RowsAreHistory(t, n - 1);
      StepOf(t, n - 1);
      var s := t.states[n - 1];
      var st := StatementOf(s, t.events[n - 1]);
      if st.Some? {
        LegalLonger(LogOf(t, n - 1), Entry(s.now, st.value));
      } else {
        assert LogOf(t, n) == LogOf(t, n - 1);
      }
    }
  }

  // ---- handlers started ----

  predicate StartsAt(s: System, e: Event, job: JobId) {
    && e.Resumes? && e.p in s.procs && e.l in s.procs[e.p].lanes
    && s.procs[e.p].lanes[e.l].Counting? && s.procs[e.p].lanes[e.l].run.known
    && s.procs[e.p].lanes[e.l].run.job == job
  }

  predicate ClaimsJob(s: System, e: Event, job: JobId) {
    var st := StatementOf(s, e);
    st.Some? && st.value.Claim? && st.value.took == Some(job)
  }

  function Starts(t: Trace, n: nat, job: JobId): nat
    requires n <= |t.events| && |t.states| == |t.events| + 1
  {
    if n == 0 then 0
    else Starts(t, n - 1, job) + if StartsAt(t.states[n - 1], t.events[n - 1], job) then 1 else 0
  }

  function Claims(t: Trace, n: nat, job: JobId): nat
    requires n <= |t.events| && |t.states| == |t.events| + 1
  {
    if n == 0 then 0
    else Claims(t, n - 1, job) + if ClaimsJob(t.states[n - 1], t.events[n - 1], job) then 1 else 0
  }

  /** Claimed, and the handler not yet started. */
  predicate Pending(pc: Pc, job: JobId) {
    (pc.Claimed? || pc.Counting?) && RunOn(pc).Some? && RunOn(pc).value.job == job
  }

  function PendingLanes(s: System, job: JobId): set<(Owner, LaneId)> {
    set p, l | p in s.procs && l in s.procs[p].lanes && Pending(s.procs[p].lanes[l], job) :: (p, l)
  }

  lemma ResumePends(proc: Sched, l: LaneId, m: LaneId, now: Time, outcome: Outcome, step: nat, job: JobId)
    requires LanesInv(proc) && m in proc.lanes && CanResume(proc.lanes[m])
    requires l in Resume(proc, m, now, outcome, step).lanes && Pending(Resume(proc, m, now, outcome, step).lanes[l], job)
    ensures l in proc.lanes && Pending(proc.lanes[l], job) && !(l == m && proc.lanes[m].Counting? && proc.lanes[m].run.known)
  {
    ResumeMovesOn(proc, m, now, outcome, step);
  }

  /** A lane becomes pending only by the claim, and stops being so as the handler starts. */
  lemma PendingMoves(s: System, e: Event, l: LaneId, job: JobId)
    requires SystemInv(s) && Enabled(s, e) && ProcessOf(e).Some?
    requires l in Stepped(s, e).lanes && Pending(Stepped(s, e).lanes[l], job)
    ensures (e.Execute? && e.l == l && ClaimsJob(s, e, job))
         || (l in s.procs[e.p].lanes && Pending(s.procs[e.p].lanes[l], job) && !(e.Resumes? && e.l == l && StartsAt(s, e, job)))
  {
    var proc := s.procs[e.p];
    assert SchedInv(proc);
    hide SystemInv, Apply, Legal, NextDue, Resume, Reject, Tick, Settle, RequestPass;
    match e
    case Request(_) => RequestMovesOn(proc, s.steps);
    case Fires(_) => RequestMovesOn(Disarm(proc), s.steps);
    case Resumes(_, m, outcome) => ResumePends(proc, l, m, s.now, outcome, s.steps, job);
    case Rejects(_, m) => RejectMovesOn(proc, m, s.now);
    case Ticks(_, m) => HoldsOnly(proc, m, s.now, 0, true);
    case Lands(_, k) => HoldsOnly(proc, 0, s.now, k, true);
    case Loses(_, k) => HoldsOnly(proc, 0, s.now, k, false);
    case _ =>
  }

  /** The lanes that may still be pending after a step. */
  function MayPend(s: System, e: Event, job: JobId): set<(Owner, LaneId)> {
    var before := PendingLanes(s, job);
    if StartsAt(s, e, job) then before - {(e.p, e.l)}
    else if ClaimsJob(s, e, job) && e.Execute? then before + {(e.p, e.l)} else before
  }

  lemma PendingWithin(s: System, e: Event, job: JobId, p: Owner, l: LaneId)
    requires SystemInv(s) && Enabled(s, e) && (p, l) in PendingLanes(Next(s, e), job)
    ensures (p, l) in MayPend(s, e, job)
  {
    hide SystemInv, Enabled, Next, Stepped, StatementOf, Pending, ClaimsJob;
    NextProcs(s, e, p);
    if ProcessOf(e) == Some(p) { PendingMoves(s, e, l, job); }
  }

  lemma PendingCounted(s: System, e: Event, job: JobId)
    requires SystemInv(s) && Enabled(s, e)
    ensures |PendingLanes(Next(s, e), job)| + (if StartsAt(s, e, job) then 1 else 0)
         <= |PendingLanes(s, job)| + (if ClaimsJob(s, e, job) then 1 else 0)
  {
    StartingPends(s, e, job);
    hide SystemInv, Enabled, Next, Stepped, StatementOf, Pending, ClaimsJob;
    var after, bound := PendingLanes(Next(s, e), job), MayPend(s, e, job);
    forall x | x in after ensures x in bound { PendingWithin(s, e, job, x.0, x.1); }
    if StartsAt(s, e, job) { assert (e.p, e.l) in PendingLanes(s, job); }
    SubsetIsSmaller(after, bound);
  }

  lemma StartingPends(s: System, e: Event, job: JobId)
    ensures StartsAt(s, e, job) ==> Pending(s.procs[e.p].lanes[e.l], job)
    ensures ClaimsJob(s, e, job) ==> e.Execute? || e.Outside?
  {
  }

  /** From step `m` to step `n` at most as many handlers start as were pending and are claimed. */
  lemma {:induction false} StartsSince(t: Trace, m: nat, n: nat, job: JobId)
    requires IsTrace(t) && m <= n <= |t.events|
    ensures Starts(t, n, job) - Starts(t, m, job) + |PendingLanes(t.states[n], job)|
      <= |PendingLanes(t.states[m], job)| + Claims(t, n, job) - Claims(t, m, job)
    decreases n
  {
    if m < n {
      hide SystemInv, Enabled, Next, PendingLanes, StartsAt, ClaimsJob;
      StartsSince(t, m, n - 1, job);
      StepOf(t, n - 1);
      PendingCounted(t.states[n - 1], t.events[n - 1], job);
    }
  }

  /** Step `i` puts the job in the table, or puts it back after its death. */
  predicate RestartsAt(t: Trace, i: nat, job: JobId)
    requires i < |t.events| && |t.states| == |t.events| + 1
  {
    var st := StatementOf(t.states[i], t.events[i]);
    st.Some? && Restarts(t.states[i].rows, st.value, job)
  }

  /** The claims of the first `n` steps since step `m` are those of the tally, none having restarted it since. */
  lemma {:induction false} ClaimsTallied(t: Trace, m: nat, n: nat, job: JobId)
    requires IsTrace(t) && m <= n <= |t.events| && forall i :: m <= i < n ==> !RestartsAt(t, i, job)
    ensures TallyOf(LogOf(t, n), job).claims - TallyOf(LogOf(t, m), job).claims == Claims(t, n, job) - Claims(t, m, job)
    decreases n
  {
    if m < n {
      hide SystemInv, Enabled, Next, Restarts, TallyOf;
      ClaimsTallied(t, m, n - 1, job);
      RowsAreHistory(t, n - 1);
      assert !RestartsAt(t, n - 1, job);
      var s, e := t.states[n - 1], t.events[n - 1];
      var st := StatementOf(s, e);
      if st.Some? {
        TallyLonger(LogOf(t, n - 1), Entry(s.now, st.value), job);
      } else {
        assert LogOf(t, n) == LogOf(t, n - 1);
      }
    }
  }

  lemma TallyLonger(log: seq<Entry>, entry: Entry, job: JobId)
    requires !Restarts(Replay(map[], log), entry.st, job)
    ensures TallyOf(log + [entry], job).claims ==
      TallyOf(log, job).claims + (if entry.st.Claim? && entry.st.took == Some(job) then 1 else 0)
  {
    assert (log + [entry])[..|log + [entry]| - 1] == log;
  }

  lemma TallyRestarts(log: seq<Entry>, entry: Entry, job: JobId)
    requires Restarts(Replay(map[], log), entry.st, job)
    ensures TallyOf(log + [entry], job) == Tally(0, 0)
  {
    assert (log + [entry])[..|log + [entry]| - 1] == log;
  }

  /**
   * However the processes interleave, crash or lose their leases, and whatever has become of
   * the row: since the step that put the job in the table, or back in it, its handler has
   * started at most MAX_ATTEMPTS times, once for each time the job was handed back since, and
   * once for each run that was pending then.
   */
  lemma StartsBounded(t: Trace, r: nat, n: nat, job: JobId)
    requires IsTrace(t) && r < n <= |t.events| && RestartsAt(t, r, job)
    requires forall i :: r < i < n ==> !RestartsAt(t, i, job)
    ensures Starts(t, n, job) - Starts(t, r + 1, job)
      <= |PendingLanes(t.states[r + 1], job)| + MAX_ATTEMPTS + TallyOf(LogOf(t, n), job).handBacks
  {
    hide PendingLanes, Restarts, TallyOf, SystemInv;
    StartsSince(t, r + 1, n, job);
    ClaimsTallied(t, r + 1, n, job);
    RowsAreHistory(t, r);
    TallyRestarts(LogOf(t, r), Entry(t.states[r].now, StatementOf(t.states[r], t.events[r]).value), job);
    RowsAreHistory(t, n);
    ClaimsBounded(LogOf(t, n), job);
  }

  /** A job put in the table for the first time has no runs, and never had. */
  lemma {:induction false} InsertedUnstarted(t: Trace, n: nat, job: JobId)
    requires IsTrace(t) && n <= |t.events| && job !in t.states[n].used
    ensures Starts(t, n, job) == 0 && Claims(t, n, job) == 0 && PendingLanes(t.states[n], job) == {}
  {
    if n == 0 {
      assert PendingLanes(t.states[0], job) == {};
    } else {
      hide SystemInv, Enabled, Next, PendingLanes, StartsAt, ClaimsJob;
      StepOf(t, n - 1);
      UsedOnce(t.states[n - 1], t.events[n - 1], job);
      InsertedUnstarted(t, n - 1, job);
      PendingCounted(t.states[n - 1], t.events[n - 1], job);
    }
  }

  /** An id once used stays used, and only a used one is claimed. */
  lemma UsedOnce(s: System, e: Event, job: JobId)
    requires SystemInv(s) && Enabled(s, e)
    ensures s.used <= Next(s, e).used
    ensures ClaimsJob(s, e, job) ==> job in s.used
    ensures e.Outside? && e.st.Insert? && e.st.id == job ==> job !in s.used
  {
  }

  /** So a job never put back starts its handler at most MAX_ATTEMPTS times plus its hand-backs, in the table or out of it. */
  lemma StartsBoundedInAll(t: Trace, r: nat, n: nat, job: JobId)
    requires IsTrace(t) && r < n <= |t.events| && t.events[r].Outside? && t.events[r].st.Insert? && t.events[r].st.id == job
    requires forall i :: r < i < n ==> !RestartsAt(t, i, job)
    ensures Starts(t, n, job) <= MAX_ATTEMPTS + TallyOf(LogOf(t, n), job).handBacks
  {
    StepOf(t, r);
    UsedOnce(t.states[r], t.events[r], job);
    hide SystemInv, PendingLanes, TallyOf, ClaimsJob, StartsAt;
    InsertedUnstarted(t, r, job);
    PendingCounted(t.states[r], t.events[r], job);
    InsertStartsNothing(t.states[r], t.events[r], job);
    StartsBounded(t, r, n, job);
  }

  lemma InsertStartsNothing(s: System, e: Event, job: JobId)
    requires e.Outside? && e.st.Insert?
    ensures !StartsAt(s, e, job) && !ClaimsJob(s, e, job)
  {
  }

  // ---- rows closed ----

  /** What a step that takes a row out of the table is. */
  lemma RowLeaves(s: System, e: Event, job: JobId)
    requires Enabled(s, e) && job in s.rows && job !in Next(s, e).rows
    ensures || (e.Execute? && s.rows[job].lockedBy == Some(e.p) && s.procs[e.p].lanes[e.l].Finishing?
                && s.procs[e.p].lanes[e.l].how.ByComplete? && s.procs[e.p].lanes[e.l].run.job == job)
            || (e.Outside? && (e.st.DeleteDead? || e.st.PruneDead?) && s.rows[job].state.Dead?)
  {
  }

  lemma ResumeCompletes(s: Sched, l: LaneId, now: Time, outcome: Outcome, step: nat)
    requires l in s.lanes && CanResume(s.lanes[l])
    ensures var t := Resume(s, l, now, outcome, step);
      l in t.lanes && t.lanes[l].Finishing? ==>
        || (s.lanes[l].Handling? && t.lanes[l].run == s.lanes[l].run && (t.lanes[l].how.ByComplete? ==> outcome.Returned?))
        || (s.lanes[l].Counting? && !s.lanes[l].run.known && t.lanes[l].run == s.lanes[l].run)
  {
  }

  lemma RejectNeverCompletes(s: Sched, l: LaneId, now: Time)
    requires l in s.lanes && CanReject(s.lanes[l])
    ensures var t := Reject(s, l, now); l in t.lanes && t.lanes[l].Finishing? ==> t.lanes[l].how.ByFail?
  {
  }

  lemma HoldsKeepEnding(s: Sched, l: LaneId, m: LaneId, now: Time, e: nat, landed: bool)
    ensures m in s.lanes && IsHolding(s.lanes[m]) ==>
      var t := Tick(s, m, now); l in t.lanes && t.lanes[l].Finishing? ==>
        l in s.lanes && s.lanes[l].Finishing? && s.lanes[l].how == t.lanes[l].how
    ensures e in s.extensions ==>
      var t := Settle(s, e, landed, now); l in t.lanes && t.lanes[l].Finishing? ==>
        l in s.lanes && s.lanes[l].Finishing? && s.lanes[l].how == t.lanes[l].how
  {
  }

  /** A completion is begun only as the handler returns, or for a type nobody handles. */
  lemma CompletesAfterReturn(s: System, e: Event, l: LaneId)
    requires SystemInv(s) && Enabled(s, e) && ProcessOf(e).Some? && l in Stepped(s, e).lanes
    requires Stepped(s, e).lanes[l].Finishing? && Stepped(s, e).lanes[l].how.ByComplete?
    requires l in s.procs[e.p].lanes ==> !(s.procs[e.p].lanes[l].Finishing? && s.procs[e.p].lanes[l].how.ByComplete?)
    ensures e.Resumes? && e.l == l && l in s.procs[e.p].lanes
    ensures var was := s.procs[e.p].lanes[l];
      || (was.Handling? && e.outcome.Returned? && Stepped(s, e).lanes[l].run == was.run)
      || (was.Counting? && !was.run.known && Stepped(s, e).lanes[l].run == was.run)
  {
    var proc := s.procs[e.p];
    assert SchedInv(proc);
    match e
    case Request(_) => RequestMovesOn(proc, s.steps);
    case Fires(_) => RequestMovesOn(Disarm(proc), s.steps);
    case Resumes(_, m, outcome) =>
      ResumeMovesOn(proc, m, s.now, outcome, s.steps);
      ResumeCompletes(proc, m, s.now, outcome, s.steps);
    case Rejects(_, m) =>
      RejectMovesOn(proc, m, s.now);
      RejectNeverCompletes(proc, m, s.now);
    case Ticks(_, m) => HoldsKeepEnding(proc, l, m, s.now, m, true);
    case Lands(_, k) => HoldsKeepEnding(proc, l, l, s.now, k, true);
    case Loses(_, k) => HoldsKeepEnding(proc, l, l, s.now, k, false);
    case _ =>
  }

  /** At step `j` the handler of the run returned, or its type was found to be nobody's. */
  ghost predicate Ends(t: Trace, j: nat, p: Owner, l: LaneId, run: Run)
    requires IsTrace(t)
  {
    && j < |t.events| && t.events[j].Resumes? && t.events[j].p == p && t.events[j].l == l
    && p in t.states[j].procs && l in t.states[j].procs[p].lanes
    && var was := t.states[j].procs[p].lanes[l];
       || (was.Handling? && was.run == run && t.events[j].outcome.Returned?)
       || (was == Counting(run) && !run.known)
  }

  ghost predicate EndedBefore(t: Trace, n: nat, p: Owner, l: LaneId, run: Run)
    requires IsTrace(t)
  {
    exists j: nat :: j < n && Ends(t, j, p, l, run)
  }

  predicate Completing(s: System, p: Owner, l: LaneId) {
    p in s.procs && l in s.procs[p].lanes && s.procs[p].lanes[l].Finishing? && s.procs[p].lanes[l].how.ByComplete?
  }

  lemma CompletionGoesOn(s: System, e: Event, p: Owner, l: LaneId)
    requires SystemInv(s) && Enabled(s, e) && Completing(Next(s, e), p, l) && Completing(s, p, l)
    ensures Next(s, e).procs[p].lanes[l].run == s.procs[p].lanes[l].run
  {
    NextProcs(s, e, p);
    hide SystemInv, Enabled, Stepped, Next;
    if ProcessOf(e) == Some(p) { RunsCarryOver(s, e, l); }
  }

  /** A lane that is completing a run has seen it end. */
  lemma {:induction false} CompletionRemembered(t: Trace, n: nat, p: Owner, l: LaneId)
    requires IsTrace(t) && n <= |t.events| && Completing(t.states[n], p, l)
    ensures EndedBefore(t, n, p, l, t.states[n].procs[p].lanes[l].run)
  {
    if n > 0 {
      var m := n - 1;
      var s, e := t.states[m], t.events[m];
      StepOf(t, m);
      NextProcs(s, e, p);
      hide SystemInv, Enabled, Stepped;
      if Completing(s, p, l) {
        CompletionGoesOn(s, e, p, l);
        CompletionRemembered(t, m, p, l);
      } else {
        CompletesAfterReturn(s, e, l);
        assert Ends(t, m, p, l, t.states[n].procs[p].lanes[l].run);
      }
    }
  }

  /** Lane `l` of process `p`, whose process holds the job's lease, completes `run`. */
  predicate CompletesJob(s: System, e: Event, job: JobId, run: Run) {
    && e.Execute? && Completing(s, e.p, e.l) && s.procs[e.p].lanes[e.l].run == run && run.job == job
    && Mine(s.rows, e.p, job)
  }

  /**
   * A row leaves the table dead, deleted by hand or by age, or by the completion of a run of
   * the process that holds its lease; and that very run had its handler return before, or was
   * of a type nobody handles.
   */
  lemma RowsLeaveOnly(t: Trace, k: nat, job: JobId)
    requires IsTrace(t) && k < |t.events| && job in t.states[k].rows && job !in t.states[k + 1].rows
    ensures var s, e := t.states[k], t.events[k];
      || (s.rows[job].state.Dead? && e.Outside? && (e.st.DeleteDead? || e.st.PruneDead?))
      || exists run :: CompletesJob(s, e, job, run) && EndedBefore(t, k, e.p, e.l, run)
  {
    StepOf(t, k);
    var s, e := t.states[k], t.events[k];
    RowLeaves(s, e, job);
    if e.Execute? {
      CompletionRemembered(t, k, e.p, e.l);
      assert CompletesJob(s, e, job, s.procs[e.p].lanes[e.l].run);
    }
  }
}
