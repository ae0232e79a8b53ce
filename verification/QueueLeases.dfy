/**
 * Leases and the runs that hold them: a run whose lease has not run out keeps its job to
 * itself. `QueueTiming` says when a lease does not run out.
 */
module QueueLeases {
  import opened Basics
  import opened JobTable
  import opened Scheduler
  import opened QueueSystem

  /** The run a lane has in hand. */
  function RunOn(pc: Pc): Option<Run> {
    match pc
    case Claimed(_, _, _, took) => took
    case Counting(run) => Some(run)
    case Handling(run, _) => Some(run)
    case Finishing(run, _, _, _) => Some(run)
    case _ => None
  }

  predicate Concluded(pc: Pc) { pc.Finishing? && pc.done }

  /** The lane works on `run`, and the database has not yet run what closes it. */
  predicate InProgress(s: System, p: Owner, l: LaneId, run: Run) {
    && p in s.procs && l in s.procs[p].lanes
    && RunOn(s.procs[p].lanes[l]) == Some(run) && !Concluded(s.procs[p].lanes[l])
  }

  /** A statement about `job` may still come of this lane's run. */
  predicate MaySend(pc: Pc, job: JobId) {
    && RunOn(pc).Some? && RunOn(pc).value.job == job
    && (Concluded(pc) ==> pc.how.ByComplete? && pc.held.Some?)
  }

  /** When the run's lease was last renewed, as far as its extensions have landed: at first, by the claim. */
  function Renewed(pc: Pc): Time
    requires RunOn(pc).Some?
  {
    if IsHolding(pc) then HoldOf(pc).renewed else RunOn(pc).value.claimedAt
  }

  function Deadline(pc: Pc): Time
    requires RunOn(pc).Some?
  {
    Renewed(pc) + LEASE_MS
  }

  /** The lease the run was last given has not run out. */
  predicate Punctual(s: System, p: Owner, l: LaneId)
    requires p in s.procs && l in s.procs[p].lanes && RunOn(s.procs[p].lanes[l]).Some?
  {
    s.now <= Deadline(s.procs[p].lanes[l])
  }

  // ---- clocks ----

  predicate LaneClock(pc: Pc, now: Time, steps: nat) {
    && (RunOn(pc).Some? ==> RunOn(pc).value.uid < steps && Renewed(pc) <= now)
    && (IsHolding(pc) ==> HoldClock(RunOn(pc).value, HoldOf(pc), now))
  }

  /** A hold begins after its claim, and the k-th extension renews the lease k intervals later at the earliest. */
  predicate HoldClock(run: Run, hold: Hold, now: Time) {
    && run.claimedAt <= hold.start <= now && run.claimedAt <= hold.renewed && hold.until == hold.start + MAX_HOLD_MS && hold.landed <= hold.ticks
    && (hold.landed > 0 ==> hold.start + hold.landed * HOLD_INTERVAL_MS <= hold.renewed)
  }

  predicate ExtensionClock(ext: Extension, now: Time, steps: nat) {
    && ext.k > 0 && ext.run.uid < steps
    && ext.until - MAX_HOLD_MS + ext.k * HOLD_INTERVAL_MS <= ext.sentAt <= now && ext.sentAt <= ext.until
  }

  /** An extension is of the hold its lane still has, if the lane still has its run. */
  predicate SentOf(ext: Extension, lanes: map<LaneId, Pc>) {
    ext.lane in lanes && RunOn(lanes[ext.lane]) == Some(ext.run) ==>
      && IsHolding(lanes[ext.lane])
      && HoldOf(lanes[ext.lane]).until == ext.until && ext.k <= HoldOf(lanes[ext.lane]).ticks
  }

  ghost predicate SchedClock(s: Sched, now: Time, steps: nat) {
    && (forall l :: l in s.lanes ==> LaneClock(s.lanes[l], now, steps))
    && (forall e :: e in s.extensions ==> ExtensionClock(s.extensions[e], now, steps))
    && (forall e :: e in s.extensions ==> e < s.nextExtension && SentOf(s.extensions[e], s.lanes))
  }

  ghost predicate ClockInv(s: System) {
    forall p :: p in s.procs ==> SchedClock(s.procs[p], s.now, s.steps)
  }

  lemma TickKeepsClock(s: Sched, l: LaneId, now: Time, steps: nat)
    requires SchedClock(s, now, steps) && l in s.lanes && IsHolding(s.lanes[l]) && TickDue(HoldOf(s.lanes[l]), now)
    ensures SchedClock(Tick(s, l, now), now, steps)
  {
    var t := Tick(s, l, now);
    assert LaneClock(s.lanes[l], now, steps);
    TickedClock(s.lanes[l], HoldOf(t.lanes[l]), now, steps);
    hide HoldClock;
    forall m | m in t.lanes ensures LaneClock(t.lanes[m], now, steps) {
      if m != l { assert LaneClock(s.lanes[m], now, steps); }
    }
    forall e | e in t.extensions ensures ExtensionClock(t.extensions[e], now, steps) && SentOf(t.extensions[e], t.lanes) {
      if e in s.extensions && t.extensions[e] == s.extensions[e] {
        assert ExtensionClock(s.extensions[e], now, steps) && SentOf(s.extensions[e], s.lanes);
      }
    }
  }

  lemma TickedClock(pc: Pc, hold: Hold, now: Time, steps: nat)
    requires LaneClock(pc, now, steps) && IsHolding(pc) && TickDue(HoldOf(pc), now)
    requires hold == HoldOf(pc).(ticking := false) || hold == HoldOf(pc).(ticks := HoldOf(pc).ticks + 1)
    ensures LaneClock(WithHold(pc, hold), now, steps) && RunOn(WithHold(pc, hold)) == RunOn(pc)
    ensures HoldOf(pc).until - MAX_HOLD_MS + (HoldOf(pc).ticks + 1) * HOLD_INTERVAL_MS <= now
  {
  }

  lemma SettleKeepsClock(s: Sched, e: nat, landed: bool, now: Time, steps: nat)
    requires SchedClock(s, now, steps) && e in s.extensions
    ensures SchedClock(Settle(s, e, landed, now), now, steps)
  {
    var t := Settle(s, e, landed, now);
    assert ExtensionClock(s.extensions[e], now, steps) && SentOf(s.extensions[e], s.lanes);
    forall m | m in t.lanes ensures LaneClock(t.lanes[m], now, steps) {
      assert LaneClock(s.lanes[m], now, steps);
    }
    forall i | i in t.extensions ensures ExtensionClock(t.extensions[i], now, steps) && SentOf(t.extensions[i], t.lanes) {
      assert ExtensionClock(s.extensions[i], now, steps) && SentOf(s.extensions[i], s.lanes);
    }
  }

  /** The run in a lane's hands goes on as it was: same job, same lease, same hold. */
  predicate GoesOn(before: Pc, after: Pc, now: Time) {
    RunOn(after).Some? ==>
      && RunOn(before) == RunOn(after)
      && Renewed(after) == Renewed(before)
      && (Concluded(before) ==> before.how.ByComplete? && before.held.Some?)
      && (Concluded(after) ==> after == before)
      && (IsHolding(before) ==> IsHolding(after) && HoldOf(after) == HoldOf(before))
      && (IsHolding(after) && !IsHolding(before) ==> before.Counting? && HoldOf(after) == Begun(RunOn(after).value, now))
  }

  lemma ResumeGoesOn(s: Sched, l: LaneId, now: Time, outcome: Outcome, step: nat)
    requires l in s.lanes && CanResume(s.lanes[l])
    ensures var t := Resume(s, l, now, outcome, step); l in t.lanes ==> GoesOn(s.lanes[l], t.lanes[l], now)
  {
  }

  lemma RejectGoesOn(s: Sched, l: LaneId, now: Time)
    requires l in s.lanes && CanReject(s.lanes[l])
    ensures var t := Reject(s, l, now); l in t.lanes ==> GoesOn(s.lanes[l], t.lanes[l], now)
  {
  }

  lemma LaneStepKeepsClock(s: Sched, t: Sched, l: LaneId, now: Time, steps: nat)
    requires SchedClock(s, now, steps) && l in s.lanes && OnlyLane(s, t, l) && t.extensions == s.extensions
    requires t.nextExtension == s.nextExtension
    requires l in t.lanes ==> GoesOn(s.lanes[l], t.lanes[l], now)
    ensures SchedClock(t, now, steps)
  {
    assert LaneClock(s.lanes[l], now, steps);
    forall m | m in t.lanes ensures LaneClock(t.lanes[m], now, steps) {
      if m != l { assert LaneClock(s.lanes[m], now, steps); }
    }
    forall e | e in t.extensions ensures SentOf(t.extensions[e], t.lanes) {
      assert SentOf(s.extensions[e], s.lanes);
    }
  }

  lemma RequestKeepsClock(s: Sched, now: Time, step: nat)
    requires LanesInv(s) && SchedClock(s, now, step)
    ensures SchedClock(RequestPass(s, step), now, step)
  {
    RequestMovesOn(s, step);
    var t := RequestPass(s, step);
    forall m | m in t.lanes ensures LaneClock(t.lanes[m], now, step) {
      if m in s.lanes { assert LaneClock(s.lanes[m], now, step); }
    }
    forall e | e in t.extensions ensures SentOf(t.extensions[e], t.lanes) {
      assert SentOf(s.extensions[e], s.lanes);
    }
  }

  /** Time passes and steps are taken. */
  lemma ClockGoesOn(s: Sched, now: Time, steps: nat, later: Time)
    requires SchedClock(s, now, steps) && now <= later
    ensures SchedClock(s, later, steps + 1)
  {
    forall l | l in s.lanes ensures LaneClock(s.lanes[l], later, steps + 1) {
      assert LaneClock(s.lanes[l], now, steps);
    }
    forall e | e in s.extensions ensures ExtensionClock(s.extensions[e], later, steps + 1) {
      assert ExtensionClock(s.extensions[e], now, steps);
    }
  }

  lemma ExecuteKeepsClock(s: System, e: Event)
    requires SystemInv(s) && ClockInv(s) && Enabled(s, e) && e.Execute?
    ensures SchedClock(Stepped(s, e), s.now, s.steps + 1)
  {
    var proc, after := s.procs[e.p], Stepped(s, e);
    assert SchedClock(proc, s.now, s.steps);
    ClockGoesOn(proc, s.now, s.steps, s.now);
    assert LaneClock(proc.lanes[e.l], s.now, s.steps);
    forall i | i in after.extensions ensures SentOf(after.extensions[i], after.lanes) {
      assert SentOf(proc.extensions[i], proc.lanes) && ExtensionClock(proc.extensions[i], s.now, s.steps);
    }
  }

  lemma StepKeepsClock(s: System, e: Event)
    requires SystemInv(s) && ClockInv(s) && Enabled(s, e) && ProcessOf(e).Some?
    ensures SchedClock(Stepped(s, e), s.now, s.steps + 1)
  {
    var proc, after := s.procs[e.p], Stepped(s, e);
    assert SchedInv(proc) && SchedClock(proc, s.now, s.steps);
    hide SystemInv, ClockInv, SchedClock;
    if e.Execute? {
      ExecuteKeepsClock(s, e);
    } else {
      match e {
        case Ticks(_, l) => TickKeepsClock(proc, l, s.now, s.steps);
        case Lands(_, k) => SettleKeepsClock(proc, k, true, s.now, s.steps);
        case Loses(_, k) => SettleKeepsClock(proc, k, false, s.now, s.steps);
        case Request(_) => RequestKeepsClock(proc, s.now, s.steps);
        case Fires(_) =>
          SameLanesSameClock(proc, Disarm(proc), s.now, s.steps);
          RequestKeepsClock(Disarm(proc), s.now, s.steps);
        case Stops(_) => SameLanesSameClock(proc, after, s.now, s.steps);
        case Resumes(_, l, outcome) =>
          ResumeMovesOn(proc, l, s.now, outcome, s.steps);
          ResumeGoesOn(proc, l, s.now, outcome, s.steps);
          LaneStepKeepsClock(proc, after, l, s.now, s.steps);
        case Rejects(_, l) =>
          RejectMovesOn(proc, l, s.now);
          RejectGoesOn(proc, l, s.now);
          LaneStepKeepsClock(proc, after, l, s.now, s.steps);
      }
      ClockGoesOn(after, s.now, s.steps, s.now);
    }
  }

  lemma SameLanesSameClock(s: Sched, t: Sched, now: Time, steps: nat)
    requires SchedClock(s, now, steps) && t.lanes == s.lanes && t.extensions == s.extensions
    requires t.nextExtension == s.nextExtension
    ensures SchedClock(t, now, steps)
  {
  }

  lemma {:induction false} ReachableClock(t: Trace, n: nat)
    requires IsTrace(t) && n <= |t.events|
    ensures ClockInv(t.states[n])
  {
    if n > 0 {
      hide SystemInv, ClockInv, Enabled, Next;
      ReachableClock(t, n - 1);
      StepOf(t, n - 1);
      StepKeepsClocks(t.states[n - 1], t.events[n - 1]);
    } else {
      forall p | p in t.states[0].procs ensures SchedClock(t.states[0].procs[p], t.states[0].now, t.states[0].steps) {}
    }
  }

  lemma StepKeepsClocks(s: System, e: Event)
    requires SystemInv(s) && ClockInv(s) && Enabled(s, e)
    ensures ClockInv(Next(s, e))
  {
    hide SystemInv, SchedClock, Stepped, Enabled;
    forall p | p in Next(s, e).procs ensures SchedClock(Next(s, e).procs[p], Next(s, e).now, Next(s, e).steps) {
      NextProcs(s, e, p);
      NextTime(s, e);
      if ProcessOf(e) == Some(p) { StepKeepsClock(s, e); } else { ClockGoesOn(s.procs[p], s.now, s.steps, Next(s, e).now); }
    }
  }

  lemma NextTime(s: System, e: Event)
    requires Enabled(s, e)
    ensures s.now <= Next(s, e).now && Next(s, e).steps == s.steps + 1 && (ProcessOf(e).Some? ==> Next(s, e).now == s.now)
  {
    hide Stepped, StatementOf, Apply;
  }

  // ---- exclusion ----

  /** `p` holds the lease on the run's job, for at least as long as the extensions landed have given. */
  predicate Leased(rows: Rows, p: Owner, pc: Pc)
    requires RunOn(pc).Some?
  {
    var job := RunOn(pc).value.job;
    && Mine(rows, p, job)
    && rows[job].state.Ready?
    && rows[job].lockedUntil.Some? && rows[job].lockedUntil.value >= Deadline(pc)
  }

  /** No other lane of the process may still send anything about the job. */
  ghost predicate AloneOn(lanes: map<LaneId, Pc>, l: LaneId, job: JobId) {
    forall m :: m in lanes && m != l ==> !MaySend(lanes[m], job)
  }

  ghost predicate Holds(s: System, p: Owner, l: LaneId, run: Run) {
    && InProgress(s, p, l, run)
    && Leased(s.rows, p, s.procs[p].lanes[l])
    && AloneOn(s.procs[p].lanes, l, run.job)
  }

  /** A statement that is no closing of the run leaves its lease standing. */
  lemma StatementKeepsLease(rows: Rows, now: Time, st: Statement, p: Owner, pc: Pc)
    requires Legal(rows, now, st) && RunOn(pc).Some? && Leased(rows, p, pc)
    requires now <= Deadline(pc) && Renewed(pc) <= now
    requires !(SentFor(st, p, RunOn(pc).value.job) && !st.Extend?)
    ensures Leased(Apply(rows, now, st), p, pc)
    ensures st.Claim? ==> st.took != Some(RunOn(pc).value.job)
  {
    var job := RunOn(pc).value.job;
    assert !Takeable(rows[job], now) && !Exhausted(rows[job], now);
  }

  /** Landing an extension of the run itself renews the lease. */
  lemma LandingKeepsLease(rows: Rows, now: Time, p: Owner, pc: Pc, k: nat)
    requires IsHolding(pc) && Leased(rows, p, pc)
    ensures var hold := HoldOf(pc); var after := WithHold(pc, hold.(landed := Max(hold.landed, k), renewed := now));
      RunOn(after) == RunOn(pc) && Leased(Apply(rows, now, Extend(p, RunOn(pc).value.job)), p, after)
  {
  }

  /** A lane's run is what it was, and it may send nothing it could not. */
  ghost predicate CarriesOver(before: Pc, after: Pc) {
    && RunOn(before) == RunOn(after)
    && forall job :: MaySend(after, job) ==> MaySend(before, job)
  }

  predicate SameLease(before: Pc, after: Pc) {
    RunOn(before).Some? && RunOn(after).Some? ==> Renewed(after) == Renewed(before)
  }

  lemma HoldsCarryOver(s: Sched, l: LaneId, m: LaneId, now: Time, e: nat, landed: bool)
    ensures m in s.lanes && IsHolding(s.lanes[m]) ==>
      var t := Tick(s, m, now); l in t.lanes ==>
        l in s.lanes && CarriesOver(s.lanes[l], t.lanes[l]) && SameLease(s.lanes[l], t.lanes[l])
    ensures e in s.extensions ==>
      var t := Settle(s, e, landed, now); l in t.lanes ==>
        l in s.lanes && CarriesOver(s.lanes[l], t.lanes[l]) && (!landed ==> t.lanes[l] == s.lanes[l])
  {
  }

  /** How a step leaves the run on a lane of its process: as it was, or just claimed. */
  lemma RunsCarryOver(s: System, e: Event, l: LaneId)
    requires SystemInv(s) && Enabled(s, e) && ProcessOf(e).Some?
    requires l in Stepped(s, e).lanes && RunOn(Stepped(s, e).lanes[l]).Some?
    ensures var before, after := s.procs[e.p].lanes, Stepped(s, e).lanes;
      if e.Execute? && l == e.l && l in before && before[l].Claiming? then
        RunOn(after[l]) == RunOf(s, e.p, e.took)
      else
        && l in before && CarriesOver(before[l], after[l])
        && (!e.Lands? ==> SameLease(before[l], after[l]))
  {
    var proc := s.procs[e.p];
    assert SchedInv(proc);
    match e
    case Request(_) => RequestMovesOn(proc, s.steps);
    case Fires(_) => RequestMovesOn(Disarm(proc), s.steps);
    case Resumes(_, m, outcome) =>
      ResumeMovesOn(proc, m, s.now, outcome, s.steps);
      ResumeGoesOn(proc, m, s.now, outcome, s.steps);
    case Rejects(_, m) =>
      RejectMovesOn(proc, m, s.now);
      RejectGoesOn(proc, m, s.now);
    case Ticks(_, m) => HoldsCarryOver(proc, l, m, s.now, 0, true);
    case Lands(_, k) => HoldsCarryOver(proc, l, 0, s.now, k, true);
    case Loses(_, k) => HoldsCarryOver(proc, l, 0, s.now, k, false);
    case _ =>
  }

  /** What the database does for another lane, process, writer or administrator leaves the lease standing. */
  lemma OthersKeepLease(s: System, e: Event, p: Owner, l: LaneId, run: Run)
    requires SystemInv(s) && ClockInv(s) && Enabled(s, e) && Holds(s, p, l, run) && Punctual(s, p, l)
    requires StatementOf(s, e).Some? && !(e.Execute? && e.p == p && e.l == l)
    ensures Leased(Next(s, e).rows, p, s.procs[p].lanes[l])
    ensures e.Execute? && s.procs[e.p].lanes[e.l].Claiming? ==> e.took != Some(run.job)
  {
    var pc := s.procs[p].lanes[l];
    assert SchedClock(s.procs[p], s.now, s.steps);
    assert LaneClock(pc, s.now, s.steps);
    var st := StatementOf(s, e).value;
    if e.Execute? && e.p == p {
      assert !MaySend(s.procs[p].lanes[e.l], run.job);
    }
    StatementKeepsLease(s.rows, s.now, st, p, pc);
  }

  lemma LandingHolds(s: System, e: Event, p: Owner, l: LaneId, run: Run)
    requires SystemInv(s) && ClockInv(s) && Enabled(s, e) && Holds(s, p, l, run) && Punctual(s, p, l)
    requires e.Lands? && e.p == p
    ensures l in Stepped(s, e).lanes && RunOn(Stepped(s, e).lanes[l]) == Some(run)
    ensures Leased(Next(s, e).rows, p, Stepped(s, e).lanes[l])
  {
    var proc := s.procs[p];
    var ext := proc.extensions[e.e];
    OthersKeepLease(s, e, p, l, run);
    if ext.lane == l && IsHolding(proc.lanes[l]) && ext.run == run {
      LandingKeepsLease(s.rows, s.now, p, proc.lanes[l], ext.k);
    }
  }

  lemma StepHolds(s: System, e: Event, p: Owner, l: LaneId, run: Run)
    requires SystemInv(s) && ClockInv(s) && Enabled(s, e) && Holds(s, p, l, run) && Punctual(s, p, l)
    requires InProgress(Next(s, e), p, l, run)
    ensures Holds(Next(s, e), p, l, run)
    ensures e.Execute? && s.procs[e.p].lanes[e.l].Claiming? ==> e.took != Some(run.job)
  {
    var before, after := s.procs[p].lanes, Next(s, e).procs[p].lanes;
    if StatementOf(s, e).Some? && !(e.Execute? && e.p == p && e.l == l) {
      OthersKeepLease(s, e, p, l, run);
    }
    if ProcessOf(e) == Some(p) {
      forall m | m in after && m != l && RunOn(after[m]).Some? ensures !MaySend(after[m], run.job) {
        RunsCarryOver(s, e, m);
      }
      if e.Lands? { LandingHolds(s, e, p, l, run); } else { RunsCarryOver(s, e, l); }
    }
  }

  /**
   * While a run is in progress and punctual, its job stays leased to its process and no claim
   * by any lane of any process can take it, provided the process had no other run of the same
   * job in hand when it began.
   */
  lemma {:induction false} PunctualExcludes(t: Trace, p: Owner, l: LaneId, run: Run, a: nat, b: nat)
    requires IsTrace(t) && a <= b <= |t.events| && Holds(t.states[a], p, l, run)
    requires forall i :: a <= i <= b ==> InProgress(t.states[i], p, l, run) && Punctual(t.states[i], p, l)
    ensures Holds(t.states[b], p, l, run)
    ensures !Takeable(t.states[b].rows[run.job], t.states[b].now)
    ensures forall i :: a <= i < b && t.events[i].Execute? && ClaimsAt(t, i) ==> t.events[i].took != Some(run.job)
    decreases b
  {
    if a < b {
      hide IsTrace, Holds, Punctual, InProgress, Takeable, ClaimsAt;
      PunctualExcludes(t, p, l, run, a, b - 1);
      assert InProgress(t.states[b], p, l, run);
      StepExcludes(t, p, l, run, b - 1);
    }
    HeldIsNotTakeable(t.states[b], p, l, run);
  }

  lemma StepExcludes(t: Trace, p: Owner, l: LaneId, run: Run, m: nat)
    requires IsTrace(t) && m < |t.events| && Holds(t.states[m], p, l, run) && Punctual(t.states[m], p, l)
    requires InProgress(t.states[m + 1], p, l, run)
    ensures Holds(t.states[m + 1], p, l, run)
    ensures t.events[m].Execute? && ClaimsAt(t, m) ==> t.events[m].took != Some(run.job)
  {
    hide SystemInv, ClockInv, Enabled, Next, Punctual, Takeable;
    StepOf(t, m);
    ReachableClock(t, m);
    hide IsTrace;
    StepHolds(t.states[m], t.events[m], p, l, run);
  }

  lemma HeldIsNotTakeable(s: System, p: Owner, l: LaneId, run: Run)
    requires Holds(s, p, l, run) && Punctual(s, p, l)
    ensures run.job in s.rows && !Takeable(s.rows[run.job], s.now)
  {
  }

  /** At step `i` the database answers a claim. */
  ghost predicate ClaimsAt(t: Trace, i: nat)
    requires IsTrace(t) && i < |t.events| && t.events[i].Execute?
  {
    var s, e := t.states[i], t.events[i];
    e.p in s.procs && e.l in s.procs[e.p].lanes && s.procs[e.p].lanes[e.l].Claiming?
  }

  /** A claim that takes a job begins such a run, if no other lane of the process has the job in hand. */
  lemma ClaimBeginsRun(t: Trace, n: nat)
    requires IsTrace(t) && n < |t.events| && t.events[n].Execute? && ClaimsAt(t, n) && t.events[n].took.Some?
    requires AloneOn(t.states[n].procs[t.events[n].p].lanes, t.events[n].l, t.events[n].took.value)
    ensures var s, e := t.states[n], t.events[n];
      RunOf(s, e.p, e.took).Some? && Holds(t.states[n + 1], e.p, e.l, RunOf(s, e.p, e.took).value)
  {
    StepOf(t, n);
  }

  /** With one lane to a process no other ever has. */
  lemma OneLaneIsAlone(s: System, p: Owner, l: LaneId, job: JobId)
    requires SystemInv(s) && p in s.procs && s.procs[p].concurrency == 1
    requires l in s.procs[p].lanes && IsActive(s.procs[p].lanes[l])
    ensures AloneOn(s.procs[p].lanes, l, job)
  {
    var lanes := s.procs[p].lanes;
    assert SchedInv(s.procs[p]);
    forall m | m in lanes && m != l ensures !MaySend(lanes[m], job) {
      if MaySend(lanes[m], job) {
        assert {l, m} <= ActiveLanes(lanes);
        assert |{l, m}| == 2;
        SubsetIsSmaller({l, m}, ActiveLanes(lanes));
      }
    }
  }

  // ---- one run at a time ----

  /** The job is gone from the table, for good. */
  predicate Gone(s: System, job: JobId) { job !in s.rows && job in s.used }

  /** Every run in progress on a job still in the table is punctual. */
  ghost predicate EveryonePunctual(s: System) {
    forall p, l, run {:trigger InProgress(s, p, l, run)} ::
      InProgress(s, p, l, run) && run.job in s.rows ==> Punctual(s, p, l)
  }

  /** Whoever may still send something about a job either holds it alone, or sends it for nothing. */
  ghost predicate Exclusive(s: System) {
    forall p, l :: p in s.procs && l in s.procs[p].lanes && RunOn(s.procs[p].lanes[l]).Some? ==>
      var run := RunOn(s.procs[p].lanes[l]).value;
      MaySend(s.procs[p].lanes[l], run.job) ==> Gone(s, run.job) || Holds(s, p, l, run)
  }

  lemma GoneStays(s: System, e: Event, job: JobId)
    requires SystemInv(s) && Enabled(s, e) && Gone(s, job)
    ensures Gone(Next(s, e), job)
  {
  }

  /** Nobody else had in hand a job that could be claimed. */
  lemma ClaimFindsNobody(s: System, e: Event)
    requires SystemInv(s) && Enabled(s, e) && Exclusive(s) && EveryonePunctual(s)
    requires e.Execute? && s.procs[e.p].lanes[e.l].Claiming? && e.took.Some?
    ensures AloneOn(s.procs[e.p].lanes, e.l, e.took.value)
  {
    var lanes, job := s.procs[e.p].lanes, e.took.value;
    assert job in s.rows && Takeable(s.rows[job], s.now);
    forall m | m in lanes && m != e.l ensures !MaySend(lanes[m], job) {
      assert RunOn(lanes[m]).Some? && InProgress(s, e.p, m, RunOn(lanes[m]).value) && RunOn(lanes[m]).value.job in s.rows
        ==> Punctual(s, e.p, m);
    }
  }

  /** Only the database concludes a run; completing one takes its row out of the table. */
  lemma Concludes(s: System, e: Event, l: LaneId, run: Run)
    requires SystemInv(s) && Enabled(s, e) && ProcessOf(e).Some? && InProgress(s, e.p, l, run)
    requires l in Stepped(s, e).lanes && Concluded(Stepped(s, e).lanes[l])
    ensures e.Execute? && e.l == l
    ensures s.procs[e.p].lanes[l].how.ByComplete? && Mine(s.rows, e.p, run.job) ==> Gone(Next(s, e), run.job)
  {
    var proc := s.procs[e.p];
    assert SchedInv(proc);
    match e
    case Request(_) => RequestMovesOn(proc, s.steps);
    case Fires(_) => RequestMovesOn(Disarm(proc), s.steps);
    case Resumes(_, m, outcome) =>
      ResumeMovesOn(proc, m, s.now, outcome, s.steps);
      ResumeGoesOn(proc, m, s.now, outcome, s.steps);
    case Rejects(_, m) =>
      RejectMovesOn(proc, m, s.now);
      RejectGoesOn(proc, m, s.now);
    case _ =>
  }

  lemma StepKeepsExclusive(s: System, e: Event, p: Owner, l: LaneId, run: Run)
    requires SystemInv(s) && ClockInv(s) && Enabled(s, e) && Exclusive(s) && EveryonePunctual(s)
    requires var after := Next(s, e);
      p in after.procs && l in after.procs[p].lanes && RunOn(after.procs[p].lanes[l]) == Some(run)
      && MaySend(after.procs[p].lanes[l], run.job)
    ensures Gone(Next(s, e), run.job) || Holds(Next(s, e), p, l, run)
  {
    if ProcessOf(e) == Some(p) { RunsCarryOver(s, e, l); }
    if e.Execute? && e.p == p && e.l == l && s.procs[p].lanes[l].Claiming? {
      ClaimFindsNobody(s, e);
    } else {
      assert MaySend(s.procs[p].lanes[l], run.job);
      if Gone(s, run.job) {
        GoneStays(s, e, run.job);
      } else {
        assert Holds(s, p, l, run) && Punctual(s, p, l);
        if InProgress(Next(s, e), p, l, run) {
          StepHolds(s, e, p, l, run);
        } else {
          Concludes(s, e, l, run);
        }
      }
    }
  }

  lemma StepExclusive(s: System, e: Event)
    requires SystemInv(s) && ClockInv(s) && Enabled(s, e) && EveryonePunctual(s) && Exclusive(s)
    ensures Exclusive(Next(s, e))
  {
    hide SystemInv, ClockInv, Enabled, Next, Holds, Gone, MaySend, EveryonePunctual;
    var t := Next(s, e);
    forall p, l | p in t.procs && l in t.procs[p].lanes && RunOn(t.procs[p].lanes[l]).Some?
      ensures var run := RunOn(t.procs[p].lanes[l]).value;
        MaySend(t.procs[p].lanes[l], run.job) ==> Gone(t, run.job) || Holds(t, p, l, run)
    {
      var run := RunOn(t.procs[p].lanes[l]).value;
      if MaySend(t.procs[p].lanes[l], run.job) { StepKeepsExclusive(s, e, p, l, run); }
    }
  }

  lemma {:induction false} ReachableExclusive(t: Trace, n: nat)
    requires IsTrace(t) && n <= |t.events| && forall i :: 0 <= i < n ==> EveryonePunctual(t.states[i])
    ensures Exclusive(t.states[n])
  {
    if n > 0 {
      hide SystemInv, ClockInv, Enabled, Next, EveryonePunctual, Exclusive;
      ReachableExclusive(t, n - 1);
      ReachableClock(t, n - 1);
      StepOf(t, n - 1);
      StepExclusive(t.states[n - 1], t.events[n - 1]);
    }
  }

  /** While everyone is punctual, no job in the table has two runs in progress, anywhere. */
  lemma OneRunAtATime(t: Trace, n: nat, p: Owner, l: LaneId, run: Run, q: Owner, m: LaneId, other: Run)
    requires IsTrace(t) && n <= |t.events| && forall i :: 0 <= i < n ==> EveryonePunctual(t.states[i])
    requires InProgress(t.states[n], p, l, run) && InProgress(t.states[n], q, m, other)
    requires run.job == other.job && run.job in t.states[n].rows
    ensures p == q && l == m && run == other
  {
    ReachableExclusive(t, n);
    var s := t.states[n];
    assert MaySend(s.procs[p].lanes[l], run.job) && MaySend(s.procs[q].lanes[m], run.job);
    assert Holds(s, p, l, run) && Holds(s, q, m, other);
  }
}
