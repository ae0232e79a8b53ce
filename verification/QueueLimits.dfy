/**
 * Where the queue's promises stop: a lease fences processes from each other but not the lanes
 * of one process, and a sleeping process sets no timer for a job it holds itself. For each, a
 * trace that shows it and the exact condition under which it cannot happen.
 */
module QueueLimits {
  import opened Basics
  import opened JobTable
  import opened Scheduler
  import opened QueueSystem
  import opened QueueLeases

  /** Some trace comes to this state. */
  ghost predicate Reached(s: System) {
    exists t: Trace :: EndsAt(t, s)
  }

  ghost predicate EndsAt(t: Trace, s: System) {
    IsTrace(t) && t.states[|t.events|] == s
  }

  lemma ReachedOn(s: System, e: Event, next: System)
    requires Reached(s) && Enabled(s, e) && Next(s, e) == next
    ensures Reached(next)
  {
    var t: Trace :| EndsAt(t, s);
    var longer := Trace(t.states + [next], t.events + [e]);
    hide Enabled, Next, Initial;
    forall k: nat | k < |longer.events| ensures StepsAt(longer, k) {
      if k < |t.events| { assert StepsAt(t, k); }
    }
    assert EndsAt(longer, next);
  }

  /** A table with at most job 0 and one process, number 1, which handles jobs of type 0. */
  function World(rows: Rows, now: Time, proc: Sched, steps: nat): System {
    System(rows, if steps == 0 then {} else {0}, now, map[1 := proc], steps)
  }

  function Job(runAt: Time, attempts: int, until: Option<Time>, updated: Time): Rows {
    map[0 := Row(0, 0, Normal, runAt, attempts, until, if until.Some? then Some(1) else None, Ready, updated)]
  }

  // ---- the steps the traces take ----

  lemma Begun(concurrency: nat)
    requires concurrency > 0
    ensures Reached(World(Job(0, 0, None, 0), 0, Idle(concurrency, {0}), 1))
  {
    var first := World(map[], 0, Idle(concurrency, {0}), 0);
    assert EndsAt(Trace([first], []), first);
    ReachedOn(first, Outside(Insert(0, 0, 0, Normal, 0)), World(Job(0, 0, None, 0), 0, Idle(concurrency, {0}), 1));
  }

  lemma Elapsed(rows: Rows, now: Time, proc: Sched, steps: nat, ms: nat)
    requires steps > 0 && Reached(World(rows, now, proc, steps))
    ensures Reached(World(rows, now + ms, proc, steps + 1))
  {
    hide Reached;
    ReachedOn(World(rows, now, proc, steps), Elapse(ms), World(rows, now + ms, proc, steps + 1));
  }

  lemma Requested(rows: Rows, now: Time, proc: Sched, steps: nat, next: Sched)
    requires steps > 0 && Reached(World(rows, now, proc, steps)) && RequestPass(proc, steps) == next
    ensures Reached(World(rows, now, next, steps + 1))
  {
    hide Reached, RequestPass;
    ReachedOn(World(rows, now, proc, steps), Request(1), World(rows, now, next, steps + 1));
  }

  lemma Fired(rows: Rows, now: Time, proc: Sched, steps: nat, next: Sched)
    requires steps > 0 && Reached(World(rows, now, proc, steps)) && Fire(proc, steps) == next
    requires proc.timerAt.Some? && proc.timerAt.value <= now
    ensures Reached(World(rows, now, next, steps + 1))
  {
    hide Reached, Fire;
    ReachedOn(World(rows, now, proc, steps), Fires(1), World(rows, now, next, steps + 1));
  }

  lemma Resumed(rows: Rows, now: Time, proc: Sched, steps: nat, l: LaneId, outcome: Outcome, next: Sched)
    requires steps > 0 && Reached(World(rows, now, proc, steps)) && l in proc.lanes && CanResume(proc.lanes[l])
    requires Resume(proc, l, now, outcome, steps) == next
    ensures Reached(World(rows, now, next, steps + 1))
  {
    hide Reached, Resume, CanResume;
    ReachedOn(World(rows, now, proc, steps), Resumes(1, l, outcome), World(rows, now, next, steps + 1));
  }

  lemma Rejected(rows: Rows, now: Time, proc: Sched, steps: nat, l: LaneId, next: Sched)
    requires steps > 0 && Reached(World(rows, now, proc, steps)) && l in proc.lanes && CanReject(proc.lanes[l])
    requires Reject(proc, l, now) == next
    ensures Reached(World(rows, now, next, steps + 1))
  {
    hide Reached, Reject, CanReject;
    ReachedOn(World(rows, now, proc, steps), Rejects(1, l), World(rows, now, next, steps + 1));
  }

  /** The lane at `l` is answered, and goes on from `pc`. */
  function At(proc: Sched, l: LaneId, pc: Pc): Sched { proc.(lanes := proc.lanes[l := pc]) }

  lemma FoundNoneToBury(rows: Rows, now: Time, proc: Sched, steps: nat, l: LaneId)
    requires steps > 0 && Reached(World(rows, now, proc, steps)) && l in proc.lanes && proc.lanes[l] == Burying(false)
    requires Apply(rows, now, BuryExhausted) == rows
    ensures Reached(World(rows, now, At(proc, l, Burying(true)), steps + 1))
  {
    hide Reached, Apply;
    ReachedOn(World(rows, now, proc, steps), Execute(1, l, {}, None, None),
              World(rows, now, At(proc, l, Burying(true)), steps + 1));
  }

  lemma Looked(rows: Rows, now: Time, proc: Sched, steps: nat, l: LaneId, took: Option<JobId>, after: Rows, pc: Pc)
    requires steps > 0 && Reached(World(rows, now, proc, steps)) && l in proc.lanes && proc.lanes[l].Claiming?
    requires Takes(rows, now, {}, took) && Apply(rows, now, Claim(1, {}, took)) == after
    requires pc == Claimed(proc.lanes[l].looked, proc.lanes[l].since, steps, RunOf(World(rows, now, proc, steps), 1, took))
    ensures Reached(World(after, now, At(proc, l, pc), steps + 1))
  {
    hide Reached, Apply, Takes;
    ReachedOn(World(rows, now, proc, steps), Execute(1, l, {}, took, None), World(after, now, At(proc, l, pc), steps + 1));
  }

  lemma FailureSent(rows: Rows, now: Time, proc: Sched, steps: nat, l: LaneId, after: Rows)
    requires steps > 0 && Reached(World(rows, now, proc, steps)) && l in proc.lanes && proc.lanes[l].Finishing?
    requires proc.lanes[l].how == ByFail && !proc.lanes[l].done
    requires Apply(rows, now, Fail(1, proc.lanes[l].run.job)) == after
    ensures Reached(World(after, now, At(proc, l, proc.lanes[l].(done := true)), steps + 1))
  {
    hide Reached, Apply;
    ReachedOn(World(rows, now, proc, steps), Execute(1, l, {}, None, None),
              World(after, now, At(proc, l, proc.lanes[l].(done := true)), steps + 1));
  }

  lemma HeardNothing(rows: Rows, now: Time, proc: Sched, steps: nat, l: LaneId)
    requires steps > 0 && Reached(World(rows, now, proc, steps)) && l in proc.lanes && proc.lanes[l].Closing?
    requires NextDue(rows, 1, now, None)
    ensures Reached(World(rows, now, At(proc, l, Closed(proc.lanes[l].since, steps, None)), steps + 1))
  {
    hide Reached, NextDue;
    ReachedOn(World(rows, now, proc, steps), Execute(1, l, {}, None, None),
              World(rows, now, At(proc, l, Closed(proc.lanes[l].since, steps, None)), steps + 1));
  }

  /** Job 0, alone in its table, is taken when it is takeable, and only then. */
  lemma OnlyJob(rows: Rows, now: Time)
    requires rows.Keys == {0}
    ensures Takes(rows, now, {}, if Takeable(rows[0], now) then Some(0) else None)
  {
    assert Candidates(rows, now, {}) == if Takeable(rows[0], now) then {0} else {};
  }

  // ---- two lanes of one process on one job ----

  const FIRST := Run(0, true, 0, 2)
  const SECOND := Run(0, true, 600001, 8)
  const HOLD := Hold(0, MAX_HOLD_MS, 0, 0, 0, true)

  function TwoLanes(zero: Pc, one: Pc): Sched {
    Idle(2, {0}).(active := 2, wakes := 1, nextLane := 2, lanes := map[0 := zero, 1 := one])
  }

  lemma TwoLanesAt(zero: Pc, one: Pc, pc: Pc)
    ensures At(TwoLanes(zero, one), 0, pc) == TwoLanes(pc, one) && At(TwoLanes(zero, one), 1, pc) == TwoLanes(zero, pc)
  {
    assert TwoLanes(zero, one).lanes[0 := pc] == TwoLanes(pc, one).lanes;
    assert TwoLanes(zero, one).lanes[1 := pc] == TwoLanes(zero, pc).lanes;
  }

  lemma TwoStart()
    ensures RequestPass(Idle(2, {0}), 1) == TwoLanes(Burying(false), Claiming(1, 1))
  {
    var woken := Idle(2, {0}).(wakes := 1);
    var one := woken.(active := 1, nextLane := 1, lanes := map[0 := Burying(false)]);
    assert StartLanes(woken, true, 1) == StartLanes(one, false, 1);
    assert StartLanes(one, false, 1) == TwoLanes(Burying(false), Claiming(1, 1));
  }

  /** The job is taken by lane 1, and handed to its handler, while lane 0 is still burying. */
  lemma FirstRuns()
    ensures Reached(World(Job(0, 1, Some(600000), 0), 0, TwoLanes(Burying(false), Handling(FIRST, HOLD)), 5))
  {
    hide Reached, Takes, RequestPass;
    var free, held := Job(0, 0, None, 0), Job(0, 1, Some(600000), 0);
    var bury := Burying(false);
    Begun(2);
    TwoStart();
    Requested(free, 0, Idle(2, {0}), 1, TwoLanes(bury, Claiming(1, 1)));
    OnlyJob(free, 0);
    var taken := Claimed(1, 1, 2, Some(FIRST));
    Looked(free, 0, TwoLanes(bury, Claiming(1, 1)), 2, 1, Some(0), held, taken);
    TwoLanesAt(bury, Claiming(1, 1), taken);
    TwoLanesAt(bury, taken, Counting(FIRST));
    Resumed(held, 0, TwoLanes(bury, taken), 3, 1, Returned, TwoLanes(bury, Counting(FIRST)));
    TwoLanesAt(bury, Counting(FIRST), Handling(FIRST, HOLD));
    Resumed(held, 0, TwoLanes(bury, Counting(FIRST)), 4, 1, Returned, TwoLanes(bury, Handling(FIRST, HOLD)));
  }

  /** Its lease runs out, and lane 0 takes the job. */
  lemma SecondTakes()
    ensures Reached(World(Job(0, 2, Some(1200001), 600001), 600001,
                          TwoLanes(Claimed(1, 7, 8, Some(SECOND)), Handling(FIRST, HOLD)), 9))
  {
    hide Reached, Takes;
    var held := Job(0, 1, Some(600000), 0);
    var first := Handling(FIRST, HOLD);
    FirstRuns();
    Elapsed(held, 0, TwoLanes(Burying(false), first), 5, 600001);
    FoundNoneToBury(held, 600001, TwoLanes(Burying(false), first), 6, 0);
    TwoLanesAt(Burying(false), first, Burying(true));
    TwoLanesAt(Burying(true), first, Claiming(1, 7));
    Resumed(held, 600001, TwoLanes(Burying(true), first), 7, 0, Returned, TwoLanes(Claiming(1, 7), first));
    OnlyJob(held, 600001);
    var again := Job(0, 2, Some(1200001), 600001);
    var taken := Claimed(1, 7, 8, Some(SECOND));
    Looked(held, 600001, TwoLanes(Claiming(1, 7), first), 8, 0, Some(0), again, taken);
    TwoLanesAt(Claiming(1, 7), first, taken);
  }

  ghost predicate LeaseLost(s: System) {
    && InProgress(s, 1, 0, SECOND) && Punctual(s, 1, 0)
    && SECOND.job in s.rows && Takeable(s.rows[SECOND.job], s.now)
  }

  /**
   * Two lanes of one process: no extension of the first run lands and its lease runs out, the
   * second lane claims the job, and then the first handler throws. Its failure clears the
   * second run's lease, since both are the same owner's, and once the retry delay has passed
   * the job can be claimed a third time while the second run is in progress and punctual.
   */
  lemma SharedOwnerLosesLease()
    ensures exists s :: Reached(s) && LeaseLost(s)
  {
    hide Reached;
    var again, freed := Job(0, 2, Some(1200001), 600001), Job(900001, 2, None, 600001);
    var taken := Claimed(1, 7, 8, Some(SECOND));
    var sent := Finishing(FIRST, Some(HOLD), ByFail, false);
    SecondTakes();
    TwoLanesAt(taken, Handling(FIRST, HOLD), sent);
    Resumed(again, 600001, TwoLanes(taken, Handling(FIRST, HOLD)), 9, 1, Threw, TwoLanes(taken, sent));
    FailureSent(again, 600001, TwoLanes(taken, sent), 10, 1, freed);
    TwoLanesAt(taken, sent, sent.(done := true));
    Elapsed(freed, 600001, TwoLanes(taken, sent.(done := true)), 11, 300000);
    assert LeaseLost(World(freed, 900001, TwoLanes(taken, sent.(done := true)), 12));
  }

  // ---- when a lease is safe ----

  /** `events` lead from `s` to `t`, the run being in progress and punctual all the way. */
  ghost predicate Goes(s: System, events: seq<Event>, t: System, p: Owner, l: LaneId, run: Run)
    decreases |events|
  {
    && InProgress(s, p, l, run) && Punctual(s, p, l)
    && if events == [] then s == t
       else Enabled(s, events[0]) && Goes(Next(s, events[0]), events[1..], t, p, l, run)
  }

  lemma {:induction false} AloneStaysLeased(s: System, events: seq<Event>, t: System, p: Owner, l: LaneId, run: Run)
    requires SystemInv(s) && ClockInv(s) && Holds(s, p, l, run) && Goes(s, events, t, p, l, run)
    ensures Mine(t.rows, p, run.job)
    decreases |events|
  {
    if events != [] {
      var e := events[0];
      assert InProgress(Next(s, e), p, l, run);
      hide SystemInv, ClockInv, Enabled, Next, Holds, InProgress, Punctual;
      StepKeepsInv(s, e);
      StepKeepsClocks(s, e);
      StepHolds(s, e, p, l, run);
      AloneStaysLeased(Next(s, e), events[1..], t, p, l, run);
    }
  }

  /** How far a lane is from sending what ends its run. */
  function Rank(pc: Pc): nat {
    match pc
    case Claimed(_, _, _, _) => 4
    case Counting(_) => 3
    case Handling(_, _) => 2
    case Finishing(_, _, _, done) => if done then 2 else 1
    case _ => 0
  }

  /** What the lane does next, if its handler throws and its answers are lost. */
  function Ending(p: Owner, m: LaneId, pc: Pc): Event {
    if pc.Finishing? && !pc.done then Execute(p, m, {}, None, None)
    else if pc.Finishing? then Rejects(p, m)
    else Resumes(p, m, Threw)
  }

  lemma EndingExecutes(s: System, p: Owner, m: LaneId, job: JobId)
    requires p in s.procs && m in s.procs[p].lanes && MaySend(s.procs[p].lanes[m], job)
    requires s.procs[p].lanes[m].Finishing? && !s.procs[p].lanes[m].done
    ensures var e := Ending(p, m, s.procs[p].lanes[m]);
      && Enabled(s, e) && !Mine(Next(s, e).rows, p, job)
      && OnlyLane(s.procs[p], Stepped(s, e), m)
  {
  }

  /** A lane whose handler throws, or whose completion is rejected, comes nearer to ending its run. */
  lemma LaneEnds(proc: Sched, m: LaneId, now: Time, step: nat, job: JobId)
    requires m in proc.lanes && MaySend(proc.lanes[m], job) && !(proc.lanes[m].Finishing? && !proc.lanes[m].done)
    ensures if proc.lanes[m].Finishing? then CanReject(proc.lanes[m]) else CanResume(proc.lanes[m])
    ensures var t := if proc.lanes[m].Finishing? then Reject(proc, m, now) else Resume(proc, m, now, Threw, step);
      && OnlyLane(proc, t, m) && m in t.lanes && MaySend(t.lanes[m], job) && Rank(t.lanes[m]) < Rank(proc.lanes[m])
  {
  }

  lemma EndingMoves(s: System, p: Owner, m: LaneId, job: JobId)
    requires p in s.procs && m in s.procs[p].lanes && MaySend(s.procs[p].lanes[m], job)
    requires !(s.procs[p].lanes[m].Finishing? && !s.procs[p].lanes[m].done)
    ensures var e := Ending(p, m, s.procs[p].lanes[m]);
      && Enabled(s, e) && OnlyLane(s.procs[p], Stepped(s, e), m) && m in Stepped(s, e).lanes
      && MaySend(Stepped(s, e).lanes[m], job) && Rank(Stepped(s, e).lanes[m]) < Rank(s.procs[p].lanes[m])
  {
    LaneEnds(s.procs[p], m, s.now, s.steps, job);
    hide MaySend, Rank, Resume, Reject, CanResume, CanReject;
  }

  /** The other lane's next step is at hand, takes no time, and leaves the run as it is. */
  lemma EndingStep(s: System, p: Owner, l: LaneId, m: LaneId, run: Run)
    requires SystemInv(s) && InProgress(s, p, l, run) && Punctual(s, p, l)
    requires m != l && m in s.procs[p].lanes && MaySend(s.procs[p].lanes[m], run.job)
    ensures var pc := s.procs[p].lanes[m]; var e := Ending(p, m, pc);
      && Enabled(s, e) && InProgress(Next(s, e), p, l, run) && Punctual(Next(s, e), p, l)
      && if pc.Finishing? && !pc.done then !Mine(Next(s, e).rows, p, run.job)
         else
           var lanes := Next(s, e).procs[p].lanes;
           m in lanes && MaySend(lanes[m], run.job) && Rank(lanes[m]) < Rank(pc)
  {
    var pc := s.procs[p].lanes[m];
    var e := Ending(p, m, pc);
    if pc.Finishing? && !pc.done { EndingExecutes(s, p, m, run.job); } else { EndingMoves(s, p, m, run.job); }
    NextProcs(s, e, p);
    NextTime(s, e);
    hide SystemInv, Enabled, Next, Stepped, MaySend, Rank, Mine;
  }

  lemma {:induction false} OtherMayEnd(s: System, p: Owner, l: LaneId, m: LaneId, run: Run)
    requires SystemInv(s) && InProgress(s, p, l, run) && Punctual(s, p, l)
    requires m != l && m in s.procs[p].lanes && MaySend(s.procs[p].lanes[m], run.job)
    ensures exists events, t :: Goes(s, events, t, p, l, run) && !Mine(t.rows, p, run.job)
    decreases Rank(s.procs[p].lanes[m])
  {
    var pc := s.procs[p].lanes[m];
    var e := Ending(p, m, pc);
    EndingStep(s, p, l, m, run);
    StepKeepsInv(s, e);
    var next := Next(s, e);
    hide SystemInv, Enabled, Next, InProgress, Punctual, Mine, MaySend, Rank;
    if pc.Finishing? && !pc.done {
      assert Goes(next, [], next, p, l, run);
      assert [e][1..] == [];
      assert Goes(s, [e], next, p, l, run);
    } else {
      OtherMayEnd(next, p, l, m, run);
      var events, t :| Goes(next, events, t, p, l, run) && !Mine(t.rows, p, run.job);
      assert ([e] + events)[1..] == events;
      assert Goes(s, [e] + events, t, p, l, run);
    }
  }

  /**
   * Exactly when a lease is safe: of a run in progress and punctual, however the system goes
   * on, its process keeps the lease for as long as the run is in progress and punctual, if
   * and only if no other lane of the process may still send anything about the job.
   */
  lemma LeaseIsSafeIffAlone(s: System, p: Owner, l: LaneId, run: Run)
    requires SystemInv(s) && ClockInv(s) && InProgress(s, p, l, run) && Punctual(s, p, l)
    requires Leased(s.rows, p, s.procs[p].lanes[l])
    ensures AloneOn(s.procs[p].lanes, l, run.job) <==>
      forall events, t :: Goes(s, events, t, p, l, run) ==> Mine(t.rows, p, run.job)
  {
    if AloneOn(s.procs[p].lanes, l, run.job) {
      forall events, t | Goes(s, events, t, p, l, run) ensures Mine(t.rows, p, run.job) {
        AloneStaysLeased(s, events, t, p, l, run);
      }
    } else {
      var m :| m in s.procs[p].lanes && m != l && MaySend(s.procs[p].lanes[m], run.job);
      OtherMayEnd(s, p, l, m, run);
    }
  }

  // ---- a job leased to nobody's lane ----

  const LOST := Run(0, true, 0, 4)

  function OneLane(l: LaneId, pc: Pc, wakes: nat): Sched {
    Idle(1, {0}).(active := if IsActive(pc) then 1 else 0, wakes := wakes, nextLane := l + 1, lanes := map[l := pc],
                  backoffUntil := if wakes == 2 then DRAIN_RETRY_MS else 0)
  }

  function NoLane(wakes: nat, timerAt: Option<Time>): Sched {
    Idle(1, {0}).(wakes := wakes, nextLane := wakes, timerAt := timerAt, backoffUntil := DRAIN_RETRY_MS,
                  asked := if timerAt.Some? then [timerAt.value] else [], retrying := timerAt.Some?)
  }

  lemma OneLaneAt(l: LaneId, pc: Pc, wakes: nat, next: Pc)
    requires IsActive(pc) == IsActive(next)
    ensures At(OneLane(l, pc, wakes), l, next) == OneLane(l, next, wakes)
  {
    assert OneLane(l, pc, wakes).lanes[l := next] == OneLane(l, next, wakes).lanes;
  }

  lemma OneStarts()
    ensures RequestPass(Idle(1, {0}), 1) == OneLane(0, Burying(false), 1)
  {
    var woken := Idle(1, {0}).(wakes := 1);
    var one := woken.(active := 1, nextLane := 1, lanes := map[0 := Burying(false)]);
    assert StartLanes(woken, true, 1) == StartLanes(one, false, 1) == one;
  }

  lemma OneStartsAgain()
    ensures Fire(NoLane(1, Some(30000)), 7) == OneLane(1, Burying(false), 2)
  {
    var woken := Disarm(NoLane(1, Some(30000))).(wakes := 2);
    var one := woken.(active := 1, nextLane := 2, lanes := map[1 := Burying(false)]);
    assert StartLanes(woken, true, 7) == StartLanes(one, false, 7) == one;
  }

  lemma LostClaimFails()
    ensures Reject(OneLane(0, Claimed(1, 3, 4, Some(LOST)), 1), 0, 0) == NoLane(1, Some(30000))
  {
    var s := OneLane(0, Claimed(1, 3, 4, Some(LOST)), 1);
    var t := Disarm(s.(backoffUntil := DRAIN_RETRY_MS));
    assert Arm(t, 0, DRAIN_RETRY_MS) == t.(asked := [30000], timerAt := Some(30000));
    assert s.lanes - {0} == map[];
  }

  lemma OneLooks()
    ensures Reached(World(Job(0, 0, None, 0), 0, OneLane(0, Claiming(1, 3), 1), 4))
  {
    hide Reached, RequestPass;
    var free := Job(0, 0, None, 0);
    Begun(1);
    OneStarts();
    Requested(free, 0, Idle(1, {0}), 1, OneLane(0, Burying(false), 1));
    FoundNoneToBury(free, 0, OneLane(0, Burying(false), 1), 2, 0);
    OneLaneAt(0, Burying(false), 1, Burying(true));
    OneLaneAt(0, Burying(true), 1, Claiming(1, 3));
    Resumed(free, 0, OneLane(0, Burying(true), 1), 3, 0, Returned, OneLane(0, Claiming(1, 3), 1));
  }

  /** The claim takes the job and its answer is lost. */
  lemma ClaimIsLost()
    ensures Reached(World(Job(0, 1, Some(600000), 0), 0, NoLane(1, Some(30000)), 6))
  {
    hide Reached, Takes, Reject;
    var free, held := Job(0, 0, None, 0), Job(0, 1, Some(600000), 0);
    OneLooks();
    OnlyJob(free, 0);
    var taken := Claimed(1, 3, 4, Some(LOST));
    Looked(free, 0, OneLane(0, Claiming(1, 3), 1), 4, 0, Some(0), held, taken);
    OneLaneAt(0, Claiming(1, 3), 1, taken);
    LostClaimFails();
    Rejected(held, 0, OneLane(0, taken, 1), 5, 0, NoLane(1, Some(30000)));
  }

  /** The next pass finds nothing to take, the job being leased. */
  lemma LooksAgain()
    ensures Reached(World(Job(0, 1, Some(600000), 0), 30000, OneLane(1, Claimed(2, 9, 10, None), 2), 11))
  {
    hide Reached, Takes, Fire;
    var held := Job(0, 1, Some(600000), 0);
    ClaimIsLost();
    Elapsed(held, 0, NoLane(1, Some(30000)), 6, 30000);
    OneStartsAgain();
    Fired(held, 30000, NoLane(1, Some(30000)), 7, OneLane(1, Burying(false), 2));
    FoundNoneToBury(held, 30000, OneLane(1, Burying(false), 2), 8, 1);
    OneLaneAt(1, Burying(false), 2, Burying(true));
    OneLaneAt(1, Burying(true), 2, Claiming(2, 9));
    Resumed(held, 30000, OneLane(1, Burying(true), 2), 9, 1, Returned, OneLane(1, Claiming(2, 9), 2));
    OnlyJob(held, 30000);
    var taken := Claimed(2, 9, 10, None);
    Looked(held, 30000, OneLane(1, Claiming(2, 9), 2), 10, 1, None, held, taken);
    OneLaneAt(1, Claiming(2, 9), 2, taken);
  }

  lemma LaneCloses()
    ensures Resume(OneLane(1, Claimed(2, 9, 10, None), 2), 1, 30000, Returned, 11) == OneLane(1, Closing(11), 2)
    ensures Resume(OneLane(1, Closed(11, 12, None), 2), 1, 30000, Returned, 13) == NoLane(2, None)
  {
    assert OneLane(1, Claimed(2, 9, 10, None), 2).lanes[1 := Closing(11)] == OneLane(1, Closing(11), 2).lanes;
    assert OneLane(1, Closed(11, 12, None), 2).lanes - {1} == map[];
  }

  ghost predicate JobForgotten(s: System) {
    && s.procs.Keys == {1} && s.procs[1].lanes == map[] && s.procs[1].timerAt == None && !s.procs[1].stopped
    && Mine(s.rows, 1, 0) && !Watched(s.rows[0], 1) && Takeable(s.rows[0], s.now + LEASE_MS)
  }

  /**
   * A claim's answer is lost: the row is leased to the process, and no lane has it. The next
   * pass finds nothing and asks when something is due; the process's own rows do not count,
   * so it goes to sleep with no timer, and the job waits past the end of its lease for
   * whatever request comes next.
   */
  lemma OwnLeaseIsForgotten()
    ensures exists s :: Reached(s) && JobForgotten(s)
  {
    hide Reached, Resume;
    var held := Job(0, 1, Some(600000), 0);
    LooksAgain();
    LaneCloses();
    Resumed(held, 30000, OneLane(1, Claimed(2, 9, 10, None), 2), 11, 1, Returned, OneLane(1, Closing(11), 2));
    assert NextDue(held, 1, 30000, None);
    HeardNothing(held, 30000, OneLane(1, Closing(11), 2), 12, 1);
    OneLaneAt(1, Closing(11), 2, Closed(11, 12, None));
    Resumed(held, 30000, OneLane(1, Closed(11, 12, None), 2), 13, 1, Returned, NoLane(2, None));
    assert JobForgotten(World(held, 30000, NoLane(2, None), 14));
  }

  lemma WatchedMeans(rows: Rows, p: Owner)
    ensures forall w :: w in rows ==> (Watched(rows[w], p) <==> rows[w].state.Ready? && rows[w].lockedBy != Some(p))
  {
  }

  /**
   * Exactly which ready rows a process going to sleep sets its timer for: those that one of the
   * rows it does not hold itself is ready no later than. A row of its own is covered only so.
   */
  lemma SleepCovers(rows: Rows, p: Owner, now: Time, dueIn: Option<Time>, proc: Sched, l: LaneId, step: nat, id: JobId)
    requires NextDue(rows, p, now, dueIn) && id in rows && rows[id].state.Ready?
    requires l in proc.lanes && proc.lanes[l].Closed? && proc.lanes[l].dueIn == dueIn
    requires !proc.stopped && proc.timerAt.None? && proc.backoffUntil <= now
    ensures var after := Resume(proc, l, now, Returned, step);
      (after.timerAt.Some? && after.timerAt.value <= Max(now, ReadyAt(rows[id])))
      <==> exists w :: w in rows && rows[w].state.Ready? && rows[w].lockedBy != Some(p) && ReadyAt(rows[w]) <= Max(now, ReadyAt(rows[id]))
  {
    hide ReadyAt, Watched;
    if dueIn.Some? {
      var w :| w in rows && Watched(rows[w], p) && now + dueIn.value == ReadyAt(rows[w]);
    }
    WatchedMeans(rows, p);
  }
}
