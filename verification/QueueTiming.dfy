/**
 * When a lease does not run out, and when it does: a run whose ticks fire when due and whose
 * extensions land in time keeps its job, and a handler that never returns loses it.
 */
module QueueTiming {
  import opened Basics
  import opened JobTable
  import opened Scheduler
  import opened QueueSystem
  import opened QueueLeases
  import opened QueueAccounts

  // ---- extensions in time ----

  /** An extension lane `l` of process `p` has sent for `run`, and which is on its way. */
  predicate IsOf(ext: Extension, l: LaneId, run: Run) { ext.lane == l && ext.run == run }

  /**
   * Nothing about the run is overdue, its ticks firing up to `late` after they are due:
   * - the run is younger than MAX_HOLD_MS;
   * - until the first extension has landed, the claim's own lease has not run out;
   * - the next tick has fired, if it is due;
   * - an extension after the first is on its way for no longer than the lease outlasts the
   *   interval, and what ticks may be late.
   */
  ghost predicate OnTime(s: System, p: Owner, l: LaneId, run: Run, late: nat)
    requires InProgress(s, p, l, run)
  {
    var proc := s.procs[p]; var pc := proc.lanes[l];
    && s.now <= run.claimedAt + MAX_HOLD_MS
    && (!IsHolding(pc) || HoldOf(pc).landed == 0 ==> s.now <= run.claimedAt + LEASE_MS)
    && (IsHolding(pc) && HoldOf(pc).ticking ==>
          s.now <= HoldOf(pc).start + (HoldOf(pc).ticks + 1) * HOLD_INTERVAL_MS + late)
    && forall e :: e in proc.extensions && IsOf(proc.extensions[e], l, run) && proc.extensions[e].k > 1 ==>
         s.now <= proc.extensions[e].sentAt + LEASE_MS - HOLD_INTERVAL_MS - late
  }

  ghost predicate InFlight(proc: Sched, l: LaneId, run: Run, k: nat) {
    exists e :: e in proc.extensions && IsOf(proc.extensions[e], l, run) && proc.extensions[e].k == k
  }

  predicate SentTimely(ext: Extension, late: nat) {
    ext.sentAt <= ext.until - MAX_HOLD_MS + ext.k * HOLD_INTERVAL_MS + late
  }

  /** Every tick past the last extension landed has its own on the way, and each was sent in time. */
  ghost predicate Accounted(proc: Sched, l: LaneId, run: Run, late: nat)
    requires l in proc.lanes
  {
    && (forall e :: e in proc.extensions && IsOf(proc.extensions[e], l, run) ==> SentTimely(proc.extensions[e], late))
    && (IsHolding(proc.lanes[l]) ==> AllInFlight(proc, HoldOf(proc.lanes[l]), l, run))
  }

  ghost predicate AllInFlight(proc: Sched, hold: Hold, l: LaneId, run: Run) {
    hold.ticking && forall k: nat :: hold.landed < k <= hold.ticks ==> InFlight(proc, l, run, k)
  }

  /** The database never runs an extension of this run. */
  predicate LosesOf(s: System, e: Event, p: Owner, run: Run) {
    e.Loses? && e.p == p && p in s.procs && e.e in s.procs[p].extensions && s.procs[p].extensions[e.e].run == run
  }

  lemma TickAccounts(proc: Sched, l: LaneId, m: LaneId, run: Run, now: Time, steps: nat, late: nat)
    requires SchedClock(proc, now, steps) && l in proc.lanes && RunOn(proc.lanes[l]) == Some(run)
    requires m in proc.lanes && IsHolding(proc.lanes[m]) && TickDue(HoldOf(proc.lanes[m]), now)
    requires Accounted(proc, l, run, late) && now <= run.claimedAt + MAX_HOLD_MS
    requires IsHolding(proc.lanes[l]) ==>
      now <= HoldOf(proc.lanes[l]).start + (HoldOf(proc.lanes[l]).ticks + 1) * HOLD_INTERVAL_MS + late
    ensures l in Tick(proc, m, now).lanes && Accounted(Tick(proc, m, now), l, run, late)
  {
    var t := Tick(proc, m, now);
    assert LaneClock(proc.lanes[l], now, steps);
    if IsHolding(proc.lanes[l]) {
      var hold, after := HoldOf(proc.lanes[l]), HoldOf(t.lanes[l]);
      forall k: nat | after.landed < k <= after.ticks ensures InFlight(t, l, run, k) {
        if k <= hold.ticks {
          assert InFlight(proc, l, run, k);
          var e :| e in proc.extensions && IsOf(proc.extensions[e], l, run) && proc.extensions[e].k == k;
          assert e < proc.nextExtension && t.extensions[e] == proc.extensions[e];
        } else {
          assert IsOf(t.extensions[proc.nextExtension], l, run);
        }
      }
    }
  }

  lemma SettleAccounts(proc: Sched, l: LaneId, e: nat, landed: bool, run: Run, now: Time, late: nat)
    requires l in proc.lanes && RunOn(proc.lanes[l]) == Some(run) && e in proc.extensions
    requires Accounted(proc, l, run, late) && (!landed ==> proc.extensions[e].run != run)
    ensures var t := Settle(proc, e, landed, now); l in t.lanes && Accounted(t, l, run, late)
  {
    var t := Settle(proc, e, landed, now);
    if IsHolding(proc.lanes[l]) {
      var after := HoldOf(t.lanes[l]);
      forall k: nat | after.landed < k <= after.ticks ensures InFlight(t, l, run, k) {
        assert InFlight(proc, l, run, k);
        var i :| i in proc.extensions && IsOf(proc.extensions[i], l, run) && proc.extensions[i].k == k;
        assert i != e && t.extensions[i] == proc.extensions[i];
      }
    }
  }

  lemma MoveAccounts(proc: Sched, t: Sched, l: LaneId, run: Run, now: Time, steps: nat, late: nat)
    requires SchedClock(proc, now, steps) && l in proc.lanes && RunOn(proc.lanes[l]) == Some(run)
    requires Accounted(proc, l, run, late) && t.extensions == proc.extensions && l in t.lanes
    requires RunOn(t.lanes[l]) == Some(run) && GoesOn(proc.lanes[l], t.lanes[l], now)
    ensures Accounted(t, l, run, late)
  {
    if IsHolding(t.lanes[l]) && IsHolding(proc.lanes[l]) {
      var hold := HoldOf(t.lanes[l]);
      forall k: nat | hold.landed < k <= hold.ticks ensures InFlight(t, l, run, k) {
        assert InFlight(proc, l, run, k);
      }
    }
  }

  lemma StepAccounts(s: System, e: Event, p: Owner, l: LaneId, run: Run, late: nat)
    requires SystemInv(s) && ClockInv(s) && Enabled(s, e)
    requires InProgress(s, p, l, run) && OnTime(s, p, l, run, late) && Accounted(s.procs[p], l, run, late)
    requires InProgress(Next(s, e), p, l, run) && !LosesOf(s, e, p, run)
    ensures Accounted(Next(s, e).procs[p], l, run, late)
  {
    NextProcs(s, e, p);
    hide SystemInv, ClockInv, Next, Accounted;
    if ProcessOf(e) == Some(p) {
      OwnStepAccounts(s, e, l, run, late);
    }
  }

  lemma OwnStepAccounts(s: System, e: Event, l: LaneId, run: Run, late: nat)
    requires SystemInv(s) && ClockInv(s) && Enabled(s, e) && ProcessOf(e).Some? && InProgress(s, e.p, l, run)
    requires OnTime(s, e.p, l, run, late) && Accounted(s.procs[e.p], l, run, late) && !LosesOf(s, e, e.p, run)
    requires l in Stepped(s, e).lanes && RunOn(Stepped(s, e).lanes[l]) == Some(run) && !Concluded(Stepped(s, e).lanes[l])
    ensures Accounted(Stepped(s, e), l, run, late)
  {
    var proc := s.procs[e.p];
    assert SchedClock(proc, s.now, s.steps);
    hide SystemInv, ClockInv, SchedClock, Accounted;
    if e.Ticks? {
      TickAccounts(proc, l, e.l, run, s.now, s.steps, late);
    } else if e.Lands? {
      SettleAccounts(proc, l, e.e, true, run, s.now, late);
    } else if e.Loses? {
      SettleAccounts(proc, l, e.e, false, run, s.now, late);
    } else {
      StepGoesOn(s, e, l);
      hide Stepped;
      MoveAccounts(proc, Stepped(s, e), l, run, s.now, s.steps, late);
    }
  }

  /** A step that is no tick and settles no extension. */
  lemma StepGoesOn(s: System, e: Event, l: LaneId)
    requires SystemInv(s) && Enabled(s, e) && ProcessOf(e).Some? && !e.Ticks? && !e.Lands? && !e.Loses?
    requires l in s.procs[e.p].lanes && RunOn(s.procs[e.p].lanes[l]).Some?
    ensures Stepped(s, e).extensions == s.procs[e.p].extensions
    ensures l in Stepped(s, e).lanes ==>
      GoesOn(s.procs[e.p].lanes[l], Stepped(s, e).lanes[l], s.now) || Concluded(Stepped(s, e).lanes[l])
  {
    var proc := s.procs[e.p];
    assert SchedInv(proc);
    match e
    case Request(_) => RequestMovesOn(proc, s.steps);
    case Fires(_) => RequestMovesOn(Disarm(proc), s.steps);
    case Resumes(_, m, outcome) =>
      ResumeMovesOn(proc, m, s.now, outcome, s.steps);
      ResumeGoesOn(proc, m, s.now, outcome, s.steps);
    case Rejects(_, m) =>
      RejectMovesOn(proc, m, s.now);
      RejectGoesOn(proc, m, s.now);
    case _ =>
  }

  /** While nothing is overdue the lease has not run out. */
  lemma OnTimeIsPunctual(s: System, p: Owner, l: LaneId, run: Run, late: nat)
    requires ClockInv(s) && InProgress(s, p, l, run) && OnTime(s, p, l, run, late)
    requires Accounted(s.procs[p], l, run, late) && HOLD_INTERVAL_MS + late <= LEASE_MS
    ensures Punctual(s, p, l)
  {
    var proc := s.procs[p]; var pc := proc.lanes[l];
    assert SchedClock(proc, s.now, s.steps);
    assert LaneClock(pc, s.now, s.steps);
    if IsHolding(pc) && HoldOf(pc).landed > 0 {
      var hold := HoldOf(pc);
      if hold.landed < hold.ticks {
        assert InFlight(proc, l, run, hold.landed + 1);
        var e :| e in proc.extensions && IsOf(proc.extensions[e], l, run) && proc.extensions[e].k == hold.landed + 1;
        assert SentTimely(proc.extensions[e], late) && SentOf(proc.extensions[e], proc.lanes);
      }
    }
  }

  /** At step `a` lane `l` of process `p` claims the job and so begins `run`; no other lane has it in hand. */
  ghost predicate BeginsAlone(t: Trace, a: nat, p: Owner, l: LaneId, run: Run)
    requires IsTrace(t)
  {
    && a < |t.events| && t.events[a].Execute? && t.events[a].p == p && t.events[a].l == l && ClaimsAt(t, a)
    && t.events[a].took == Some(run.job) && RunOf(t.states[a], p, t.events[a].took) == Some(run)
    && AloneOn(t.states[a].procs[p].lanes, l, run.job)
  }

  ghost predicate OnTimeTill(t: Trace, p: Owner, l: LaneId, run: Run, a: nat, b: nat, late: nat)
    requires IsTrace(t) && a < b <= |t.events|
  {
    && (forall i :: a < i <= b ==> InProgress(t.states[i], p, l, run) && OnTime(t.states[i], p, l, run, late))
    && forall i :: a < i < b ==> !LosesOf(t.states[i], t.events[i], p, run)
  }

  lemma {:induction false} RunIsAccounted(t: Trace, p: Owner, l: LaneId, run: Run, a: nat, b: nat, late: nat)
    requires IsTrace(t) && a < b <= |t.events| && BeginsAlone(t, a, p, l, run) && OnTimeTill(t, p, l, run, a, b, late)
    ensures Accounted(t.states[b].procs[p], l, run, late)
    decreases b
  {
    assert |t.states| == |t.events| + 1;
    hide IsTrace, OnTime, Accounted, BeginsAlone, InProgress, LosesOf;
    if b == a + 1 {
      BeginsAccounted(t, p, l, run, a, late);
    } else {
      var m := b - 1;
      RunIsAccounted(t, p, l, run, a, m, late);
      assert InProgress(t.states[m], p, l, run) && OnTime(t.states[m], p, l, run, late);
      assert InProgress(t.states[b], p, l, run) && !LosesOf(t.states[m], t.events[m], p, run);
      hide SystemInv, ClockInv, Enabled, Next;
      StepOf(t, m);
      ReachableClock(t, m);
      StepAccounts(t.states[m], t.events[m], p, l, run, late);
    }
  }

  lemma BeginsAccounted(t: Trace, p: Owner, l: LaneId, run: Run, a: nat, late: nat)
    requires IsTrace(t) && BeginsAlone(t, a, p, l, run)
    ensures p in t.states[a + 1].procs && l in t.states[a + 1].procs[p].lanes
    ensures Accounted(t.states[a + 1].procs[p], l, run, late)
  {
    hide SystemInv, ClockInv, Next, Accounted;
    StepOf(t, a);
    ReachableClock(t, a);
    NextProcs(t.states[a], t.events[a], p);
    hide IsTrace;
    NoneSentYet(t.states[a], t.events[a], run, late);
  }

  lemma NoneSentYet(s: System, e: Event, run: Run, late: nat)
    requires SystemInv(s) && ClockInv(s) && Enabled(s, e) && e.Execute? && s.procs[e.p].lanes[e.l].Claiming?
    requires RunOf(s, e.p, e.took) == Some(run)
    ensures e.l in Stepped(s, e).lanes && Accounted(Stepped(s, e), e.l, run, late)
  {
    var proc := s.procs[e.p];
    assert SchedClock(proc, s.now, s.steps);
    forall i | i in proc.extensions ensures !IsOf(proc.extensions[i], e.l, run) {
      assert ExtensionClock(proc.extensions[i], s.now, s.steps);
    }
  }

  /**
   * Timed exclusion. A run younger than MAX_HOLD_MS keeps its job to its process, and no claim
   * by any lane of any process takes it, if its ticks fire when they are due (or up to `late`
   * after), no extension is lost, the first lands by the end of the claim's lease, and each
   * later one within LEASE_MS less HOLD_INTERVAL_MS (and `late`) of its own tick.
   */
  lemma {:induction false} TimedExclusion(t: Trace, p: Owner, l: LaneId, run: Run, a: nat, b: nat, late: nat)
    requires IsTrace(t) && a < b <= |t.events| && BeginsAlone(t, a, p, l, run) && OnTimeTill(t, p, l, run, a, b, late)
    requires HOLD_INTERVAL_MS + late <= LEASE_MS
    ensures Holds(t.states[b], p, l, run) && Punctual(t.states[b], p, l)
    ensures !Takeable(t.states[b].rows[run.job], t.states[b].now)
    ensures forall i :: a < i < b && t.events[i].Execute? && ClaimsAt(t, i) ==> t.events[i].took != Some(run.job)
  {
    ClaimBeginsRun(t, a);
    forall i | a < i <= b ensures InProgress(t.states[i], p, l, run) && Punctual(t.states[i], p, l) {
      RunIsAccounted(t, p, l, run, a, i, late);
      ReachableClock(t, i);
      assert OnTime(t.states[i], p, l, run, late);
      hide IsTrace, OnTime, Accounted, BeginsAlone, ClockInv;
      OnTimeIsPunctual(t.states[i], p, l, run, late);
    }
    hide IsTrace, OnTimeTill, Holds, Punctual;
    PunctualExcludes(t, p, l, run, a + 1, b);
  }

  // ---- a hold that is never released ----

  /** The row is not leased to anyone but `p`, and for no longer than `bound`. */
  predicate LeasedTill(rows: Rows, p: Owner, job: JobId, bound: Time) {
    job in rows && rows[job].lockedUntil.Some? ==>
      rows[job].lockedBy == Some(p) && rows[job].lockedUntil.value <= bound
  }

  lemma StatementLeasesTill(rows: Rows, now: Time, st: Statement, p: Owner, job: JobId, bound: Time)
    requires TableInv(rows) && Legal(rows, now, st) && LeasedTill(rows, p, job, bound)
    requires !(st.Claim? && st.took == Some(job))
    requires st == Extend(p, job) ==> now + LEASE_MS <= bound
    ensures LeasedTill(Apply(rows, now, st), p, job, bound)
  {
    assert job in rows ==> RowInv(rows[job]);
  }

  predicate HasJob(pc: Pc, job: JobId) { RunOn(pc).Some? && RunOn(pc).value.job == job }

  /** No hold of the job outlasts `till`, nor does an extension that one of them has sent. */
  ghost predicate HeldTill(proc: Sched, job: JobId, till: Time) {
    && (forall m :: m in proc.lanes && HasJob(proc.lanes[m], job) && IsHolding(proc.lanes[m]) ==>
          HoldOf(proc.lanes[m]).until <= till)
    && (forall e :: e in proc.extensions && proc.extensions[e].run.job == job ==> proc.extensions[e].until <= till)
  }

  /** No lane but `l` may still begin to hold the job; nor may `l`, once it has `begun`. */
  ghost predicate NoneBegins(proc: Sched, job: JobId, l: LaneId, begun: bool) {
    forall m :: m in proc.lanes && (begun || m != l) ==> !Pending(proc.lanes[m], job)
  }

  /** A step by the process that claims nothing of the job, and begins no hold of it past `till`. */
  lemma StepHeld(s: System, e: Event, p: Owner, l: LaneId, job: JobId, till: Time, begun: bool)
    requires SystemInv(s) && ClockInv(s) && Enabled(s, e) && ProcessOf(e) == Some(p)
    requires HeldTill(s.procs[p], job, till) && NoneBegins(s.procs[p], job, l, begun)
    requires !ClaimsJob(s, e, job)
    requires !begun && l in Stepped(s, e).lanes && IsHolding(Stepped(s, e).lanes[l]) ==>
      HoldOf(Stepped(s, e).lanes[l]).until <= till
    ensures HeldTill(Stepped(s, e), job, till) && NoneBegins(Stepped(s, e), job, l, begun)
  {
    var proc, after := s.procs[p], Stepped(s, e);
    assert SchedInv(proc) && SchedClock(proc, s.now, s.steps);
    forall m | m in after.lanes && (begun || m != l) ensures !Pending(after.lanes[m], job) {
      if Pending(after.lanes[m], job) { PendingMoves(s, e, m, job); }
    }
    forall m | m in after.lanes && HasJob(after.lanes[m], job) && IsHolding(after.lanes[m])
      ensures HoldOf(after.lanes[m]).until <= till
    {
      if begun || m != l { HeldFromBefore(s, e, m, job); }
    }
    ExtensionsFromBefore(s, e, job, till);
  }

  /** Ticks and settled extensions leave every hold its end. */
  lemma HoldsKeepEnd(proc: Sched, m: LaneId, l: LaneId, e: nat, landed: bool, now: Time)
    ensures l in proc.lanes && IsHolding(proc.lanes[l]) && m in Tick(proc, l, now).lanes ==>
      m in proc.lanes && SameEnd(proc.lanes[m], Tick(proc, l, now).lanes[m])
    ensures e in proc.extensions && m in Settle(proc, e, landed, now).lanes ==>
      m in proc.lanes && SameEnd(proc.lanes[m], Settle(proc, e, landed, now).lanes[m])
  {
  }

  predicate SameEnd(before: Pc, after: Pc) {
    && RunOn(before) == RunOn(after) && IsHolding(before) == IsHolding(after)
    && (IsHolding(before) ==> HoldOf(before).until == HoldOf(after).until)
  }

  /** A lane that was not pending holds as it held. */
  lemma HeldFromBefore(s: System, e: Event, m: LaneId, job: JobId)
    requires SystemInv(s) && Enabled(s, e) && ProcessOf(e).Some?
    requires m in Stepped(s, e).lanes && HasJob(Stepped(s, e).lanes[m], job) && IsHolding(Stepped(s, e).lanes[m])
    requires m in s.procs[e.p].lanes ==> !Pending(s.procs[e.p].lanes[m], job)
    ensures m in s.procs[e.p].lanes && HasJob(s.procs[e.p].lanes[m], job) && IsHolding(s.procs[e.p].lanes[m])
    ensures HoldOf(Stepped(s, e).lanes[m]).until == HoldOf(s.procs[e.p].lanes[m]).until
  {
    var proc := s.procs[e.p];
    assert SchedInv(proc);
    hide SystemInv, Apply, Legal, NextDue, Resume, Reject, Tick, Settle, RequestPass;
    match e
    case Request(_) => RequestMovesOn(proc, s.steps);
    case Fires(_) => RequestMovesOn(Disarm(proc), s.steps);
    case Resumes(_, l, outcome) =>
      ResumeMovesOn(proc, l, s.now, outcome, s.steps);
      ResumeGoesOn(proc, l, s.now, outcome, s.steps);
    case Rejects(_, l) =>
      RejectMovesOn(proc, l, s.now);
      RejectGoesOn(proc, l, s.now);
    case Ticks(_, l) => HoldsKeepEnd(proc, m, l, 0, true, s.now);
    case Lands(_, k) => HoldsKeepEnd(proc, m, 0, k, true, s.now);
    case Loses(_, k) => HoldsKeepEnd(proc, m, 0, k, false, s.now);
    case _ =>
  }

  lemma ExtensionsFromBefore(s: System, e: Event, job: JobId, till: Time)
    requires SystemInv(s) && Enabled(s, e) && ProcessOf(e).Some? && HeldTill(s.procs[e.p], job, till)
    ensures forall i :: i in Stepped(s, e).extensions && Stepped(s, e).extensions[i].run.job == job ==>
      Stepped(s, e).extensions[i].until <= till
  {
    var proc := s.procs[e.p];
    assert SchedInv(proc);
    match e
    case Request(_) => RequestMovesOn(proc, s.steps);
    case Fires(_) => RequestMovesOn(Disarm(proc), s.steps);
    case Resumes(_, l, outcome) => ResumeMovesOn(proc, l, s.now, outcome, s.steps);
    case Rejects(_, l) => RejectMovesOn(proc, l, s.now);
    case Ticks(_, l) => assert HasJob(proc.lanes[l], job) ==> HoldOf(proc.lanes[l]).until <= till;
    case _ =>
  }

  ghost predicate ClaimedIn(t: Trace, job: JobId, a: nat, b: nat)
    requires IsTrace(t) && b <= |t.events|
  {
    exists i: nat :: a <= i < b && ClaimsJob(t.states[i], t.events[i], job)
  }

  predicate PendsAt(s: System, p: Owner, l: LaneId, job: JobId) {
    p in s.procs && l in s.procs[p].lanes && Pending(s.procs[p].lanes[l], job)
  }

  /** A lane that is still to start its handler has been so since the claim. */
  lemma {:induction false} StillPending(t: Trace, p: Owner, l: LaneId, job: JobId, j: nat, i: nat)
    requires IsTrace(t) && j <= i <= |t.events| && !ClaimedIn(t, job, j, i)
    requires PendsAt(t.states[i], p, l, job)
    ensures PendsAt(t.states[j], p, l, job)
    decreases i
  {
    if j < i {
      var m := i - 1;
      assert !ClaimsJob(t.states[m], t.events[m], job);
      hide SystemInv, Enabled, Next, Stepped, Pending, ClaimsJob;
      StepOf(t, m);
      NextProcs(t.states[m], t.events[m], p);
      if ProcessOf(t.events[m]) == Some(p) { PendingMoves(t.states[m], t.events[m], l, job); }
      hide IsTrace;
      StillPending(t, p, l, job, j, m);
    }
  }

  /** At step `i` the handler of the run starts, and with it the hold. */
  ghost predicate HandlerStarts(t: Trace, i: nat, p: Owner, l: LaneId, run: Run)
    requires IsTrace(t)
  {
    && i < |t.events| && t.events[i].Resumes? && t.events[i].p == p && t.events[i].l == l
    && p in t.states[i].procs && l in t.states[i].procs[p].lanes
    && t.states[i].procs[p].lanes[l] == Counting(run) && run.known
  }

  ghost predicate HeldFrom(s: System, p: Owner, l: LaneId, job: JobId, till: Time, begun: bool) {
    p in s.procs && HeldTill(s.procs[p], job, till) && NoneBegins(s.procs[p], job, l, begun)
  }

  lemma ClaimIsHeld(t: Trace, a: nat, p: Owner, l: LaneId, run: Run, till: Time)
    requires IsTrace(t) && BeginsAlone(t, a, p, l, run) && run.claimedAt + MAX_HOLD_MS <= till
    ensures HeldFrom(t.states[a + 1], p, l, run.job, till, false)
  {
    hide SystemInv, ClockInv, Next;
    StepOf(t, a);
    ReachableClock(t, a);
    NextProcs(t.states[a], t.events[a], p);
    hide IsTrace;
    ClaimHolds(t.states[a], t.events[a], run, till);
  }

  lemma ClaimHolds(s: System, e: Event, run: Run, till: Time)
    requires ClockInv(s) && Enabled(s, e) && e.Execute? && s.procs[e.p].lanes[e.l].Claiming?
    requires RunOf(s, e.p, e.took) == Some(run) && AloneOn(s.procs[e.p].lanes, e.l, run.job)
    requires run.claimedAt + MAX_HOLD_MS <= till
    ensures HeldTill(Stepped(s, e), run.job, till) && NoneBegins(Stepped(s, e), run.job, e.l, false)
  {
    var proc, after := s.procs[e.p], Stepped(s, e);
    assert SchedClock(proc, s.now, s.steps);
    forall m | m in after.lanes && HasJob(after.lanes[m], run.job) && IsHolding(after.lanes[m])
      ensures HoldOf(after.lanes[m]).until <= till
    {
      assert LaneClock(proc.lanes[m], s.now, s.steps);
    }
    forall i | i in after.extensions ensures after.extensions[i].until <= till {
      assert ExtensionClock(proc.extensions[i], s.now, s.steps);
    }
    forall m | m in after.lanes && m != e.l ensures !Pending(after.lanes[m], run.job) {
      assert !MaySend(proc.lanes[m], run.job);
    }
  }

  /** From the claim on, no hold of the job outlasts that of the run whose handler starts at step `i`. */
  lemma {:induction false} RunIsHeld(t: Trace, p: Owner, l: LaneId, run: Run, a: nat, i: nat, b: nat)
    requires IsTrace(t) && BeginsAlone(t, a, p, l, run) && a < i && HandlerStarts(t, i, p, l, run)
    requires a < b <= |t.events| && i < |t.events|
    requires !ClaimedIn(t, run.job, a + 1, Max(b, i))
    ensures HeldFrom(t.states[b], p, l, run.job, t.states[i].now + MAX_HOLD_MS, b > i)
    decreases b
  {
    var till := t.states[i].now + MAX_HOLD_MS;
    TimeGoesOn(t, a, i);
    if b == a + 1 {
      ClaimIsHeld(t, a, p, l, run, till);
    } else {
      var m := b - 1;
      assert !ClaimsJob(t.states[m], t.events[m], run.job);
      hide HeldFrom, BeginsAlone, IsTrace;
      RunIsHeld(t, p, l, run, a, i, m);
      if b <= i { StillPending(t, p, l, run.job, b, i); }
      StaysHeld(t, p, l, run, m, i);
    }
  }

  lemma StaysHeld(t: Trace, p: Owner, l: LaneId, run: Run, m: nat, i: nat)
    requires IsTrace(t) && HandlerStarts(t, i, p, l, run) && m < |t.events|
    requires HeldFrom(t.states[m], p, l, run.job, t.states[i].now + MAX_HOLD_MS, m > i)
    requires m < i ==> PendsAt(t.states[m + 1], p, l, run.job)
    requires !ClaimsJob(t.states[m], t.events[m], run.job)
    ensures HeldFrom(t.states[m + 1], p, l, run.job, t.states[i].now + MAX_HOLD_MS, m >= i)
  {
    var till := t.states[i].now + MAX_HOLD_MS;
    hide HeldTill, NoneBegins, ClaimsJob, SystemInv, ClockInv;
    StepOf(t, m);
    ReachableClock(t, m);
    NextProcs(t.states[m], t.events[m], p);
    if ProcessOf(t.events[m]) == Some(p) {
      HoldBegins(t, p, l, run, m, i, till);
      hide IsTrace, Enabled;
      StepHeld(t.states[m], t.events[m], p, l, run.job, till, m > i);
      if m == i { HoldHasBegun(t.states[m + 1].procs[p], run.job, l); }
    }
  }

  lemma HoldHasBegun(proc: Sched, job: JobId, l: LaneId)
    requires NoneBegins(proc, job, l, false) && (l in proc.lanes ==> !Pending(proc.lanes[l], job))
    ensures NoneBegins(proc, job, l, true)
  {
  }

  /** What lane `l` is at after step `m`: still pending, or its hold just begun. */
  lemma HoldBegins(t: Trace, p: Owner, l: LaneId, run: Run, m: nat, i: nat, till: Time)
    requires IsTrace(t) && m < |t.events| && HandlerStarts(t, i, p, l, run) && till == t.states[i].now + MAX_HOLD_MS
    requires ProcessOf(t.events[m]) == Some(p)
    requires m < i ==> PendsAt(t.states[m + 1], p, l, run.job)
    ensures Enabled(t.states[m], t.events[m]) && t.states[m + 1] == Next(t.states[m], t.events[m])
    ensures m <= i && l in Stepped(t.states[m], t.events[m]).lanes && IsHolding(Stepped(t.states[m], t.events[m]).lanes[l]) ==>
      HoldOf(Stepped(t.states[m], t.events[m]).lanes[l]).until <= till
    ensures m == i ==> l in t.states[m + 1].procs[p].lanes && !Pending(t.states[m + 1].procs[p].lanes[l], run.job)
  {
    StepOf(t, m);
    NextProcs(t.states[m], t.events[m], p);
  }

  lemma {:induction false} TimeGoesOn(t: Trace, a: nat, b: nat)
    requires IsTrace(t) && a <= b <= |t.events|
    ensures t.states[a].now <= t.states[b].now
    decreases b
  {
    if a < b {
      hide SystemInv, Enabled, Next;
      StepOf(t, b - 1);
      NextTime(t.states[b - 1], t.events[b - 1]);
      hide IsTrace;
      TimeGoesOn(t, a, b - 1);
    }
  }

  /** Every extension about the job that lands does so within `delay` of its sending. */
  ghost predicate LandsWithin(t: Trace, i: nat, p: Owner, job: JobId, delay: Time)
    requires IsTrace(t) && i < |t.events|
  {
    var s, e := t.states[i], t.events[i];
    e.Lands? && e.p == p && p in s.procs && e.e in s.procs[p].extensions && s.procs[p].extensions[e.e].run.job == job ==>
      s.now <= s.procs[p].extensions[e.e].sentAt + delay
  }

  /**
   * A handler that never returns loses its job: the lease has run out MAX_HOLD_MS, LEASE_MS
   * and the delay of its extensions after the handler started, unless someone has claimed the
   * job before.
   */
  lemma {:induction false} HoldLapses(t: Trace, p: Owner, l: LaneId, run: Run, delay: Time, a: nat, i: nat, b: nat)
    requires IsTrace(t) && BeginsAlone(t, a, p, l, run) && HandlerStarts(t, i, p, l, run)
    requires a < i < |t.events| && a < b <= |t.events| && !ClaimedIn(t, run.job, a + 1, Max(b, i)) && delay >= 0
    requires forall j :: a < j < b ==> LandsWithin(t, j, p, run.job, delay)
    ensures var end := t.states[i].now + MAX_HOLD_MS + LEASE_MS + delay;
      && LeasedTill(t.states[b].rows, p, run.job, end)
      && (run.job in t.states[b].rows && t.states[b].now > end ==> Unleased(t.states[b].rows[run.job], t.states[b].now))
    decreases b
  {
    var end := t.states[i].now + MAX_HOLD_MS + LEASE_MS + delay;
    if b == a + 1 {
      TimeGoesOn(t, a, i);
      ClaimLeasesTill(t, a, p, l, run, end);
    } else {
      var m := b - 1;
      assert !ClaimsJob(t.states[m], t.events[m], run.job) && LandsWithin(t, m, p, run.job, delay);
      hide LeasedTill, ClaimsJob, HeldFrom, BeginsAlone, HandlerStarts, IsTrace, LandsWithin, Unleased;
      RunIsHeld(t, p, l, run, a, i, m);
      HoldLapses(t, p, l, run, delay, a, i, m);
      StaysLeasedTill(t, p, l, run.job, t.states[i].now + MAX_HOLD_MS, delay, m, m > i);
    }
    LeaseEnds(t.states[b], p, run.job, end);
  }

  lemma StaysLeasedTill(t: Trace, p: Owner, l: LaneId, job: JobId, till: Time, delay: Time, m: nat, begun: bool)
    requires IsTrace(t) && m < |t.events| && HeldFrom(t.states[m], p, l, job, till, begun)
    requires LeasedTill(t.states[m].rows, p, job, till + LEASE_MS + delay)
    requires !ClaimsJob(t.states[m], t.events[m], job) && LandsWithin(t, m, p, job, delay)
    ensures LeasedTill(t.states[m + 1].rows, p, job, till + LEASE_MS + delay)
  {
    hide LeasedTill, ClaimsJob, HeldFrom, SystemInv, ClockInv, Next, Stepped, Legal;
    StepOf(t, m);
    ReachableClock(t, m);
    hide IsTrace;
    StepLeasesTill(t.states[m], t.events[m], p, l, job, till, delay, begun);
  }

  lemma ClaimLeasesTill(t: Trace, a: nat, p: Owner, l: LaneId, run: Run, end: Time)
    requires IsTrace(t) && BeginsAlone(t, a, p, l, run) && run.claimedAt + LEASE_MS <= end
    ensures LeasedTill(t.states[a + 1].rows, p, run.job, end)
  {
    hide SystemInv;
    StepOf(t, a);
    hide IsTrace, Stepped;
  }

  lemma LeaseEnds(s: System, p: Owner, job: JobId, end: Time)
    requires LeasedTill(s.rows, p, job, end)
    ensures job in s.rows && s.now > end ==> Unleased(s.rows[job], s.now)
  {
  }

  lemma StepLeasesTill(s: System, e: Event, p: Owner, l: LaneId, job: JobId, till: Time, delay: Time, begun: bool)
    requires SystemInv(s) && ClockInv(s) && Enabled(s, e) && HeldFrom(s, p, l, job, till, begun)
    requires LeasedTill(s.rows, p, job, till + LEASE_MS + delay) && !ClaimsJob(s, e, job)
    requires e.Lands? && e.p == p && s.procs[p].extensions[e.e].run.job == job ==>
      s.now <= s.procs[p].extensions[e.e].sentAt + delay
    ensures LeasedTill(Next(s, e).rows, p, job, till + LEASE_MS + delay)
  {
    hide Apply, Stepped, Legal, LeasedTill;
    var st := StatementOf(s, e);
    if e.Lands? && e.p == p && st == Some(Extend(p, job)) {
      assert SchedClock(s.procs[p], s.now, s.steps);
      assert ExtensionClock(s.procs[p].extensions[e.e], s.now, s.steps);
    }
    if st.Some? { StatementLeasesTill(s.rows, s.now, st.value, p, job, till + LEASE_MS + delay); }
  }
}
