/**
 * The scheduler inside one worker process of the queue: its lanes, its wake counter and its
 * retry timer.
 *
 * Each function is what one stretch of the process's code does between two awaits, as a
 * step from one value of the process's state to the next. `PostgresJobQueue` performs the
 * same steps on its fields.
 */
module Scheduler {
  import opened Basics
  import opened JobTable

  const HOLD_INTERVAL_MS: Time := 120 * 1000
  const MAX_HOLD_MS: Time := 90 * 60 * 1000
  const DRAIN_RETRY_MS: Time := 30 * 1000

  type LaneId = nat

  /** A job as a lane took it; `uid` is the step it was claimed at. */
  datatype Run = Run(job: JobId, known: bool, claimedAt: Time, uid: nat)

  /**
   * The interval that extends a run's lease until `until`: its ticks so far, the last of them
   * whose extension has landed, and when the lease was last renewed.
   */
  datatype Hold = Hold(start: Time, until: Time, ticks: nat, landed: nat, renewed: Time, ticking: bool)

  /** An extension sent and not yet run by the database. */
  datatype Extension = Extension(lane: LaneId, run: Run, k: nat, sentAt: Time, until: Time)

  datatype Ending = ByComplete | ByFail | ByRelease

  datatype Outcome = Returned | Threw | Interrupted

  /** What a lane awaits. Steps recorded (`since`, `at`) only serve to say what came first. */
  datatype Pc =
    | Burying(done: bool)
    | Claiming(looked: nat, since: nat)
    | Claimed(looked: nat, since: nat, at: nat, took: Option<Run>)
    | Counting(run: Run)
    | Handling(run: Run, hold: Hold)
    | Finishing(run: Run, held: Option<Hold>, how: Ending, done: bool)
    | Closing(since: nat)
    | Closed(since: nat, at: nat, dueIn: Option<Time>)

  /** `asked` and `retrying` are history: the times asked for since the timer last started over. */
  datatype Sched = Sched(
    concurrency: nat,
    handled: set<JobType>,
    active: int,
    wakes: nat,
    stopped: bool,
    timerAt: Option<Time>,
    backoffUntil: Time,
    lanes: map<LaneId, Pc>,
    nextLane: LaneId,
    extensions: map<nat, Extension>,
    nextExtension: nat,
    asked: seq<Time>,
    retrying: bool)

  // ---- the timer ----

  function Clamped(s: Sched, now: Time, delay: Time): Time {
    Max(now + delay, s.backoffUntil)
  }

  function Arm(s: Sched, now: Time, delay: Time): Sched {
    if s.stopped then s
    else
      var at := Clamped(s, now, delay);
      var t := s.(asked := s.asked + [at]);
      if s.timerAt.Some? && s.timerAt.value <= at then t else t.(timerAt := Some(at))
  }

  function Disarm(s: Sched): Sched {
    s.(timerAt := None, asked := [], retrying := false)
  }

  function PassFailed(s: Sched, now: Time): Sched {
    Arm(Disarm(s.(backoffUntil := now + DRAIN_RETRY_MS)), now, DRAIN_RETRY_MS).(retrying := !s.stopped)
  }

  function Stop(s: Sched): Sched {
    Disarm(s.(stopped := true))
  }

  // ---- passes and lanes ----

  predicate IsActive(pc: Pc) { !pc.Closing? && !pc.Closed? }

  function ActiveLanes(lanes: map<LaneId, Pc>): set<LaneId> {
    set l | l in lanes && IsActive(lanes[l])
  }

  function StartLanes(s: Sched, bury: bool, step: nat): Sched
    decreases s.concurrency - s.active
  {
    if s.active >= s.concurrency then s
    else
      var pc := if bury then Burying(false) else Claiming(s.wakes, step);
      StartLanes(s.(active := s.active + 1, lanes := s.lanes[s.nextLane := pc], nextLane := s.nextLane + 1),
                 false, step)
  }

  function RequestPass(s: Sched, step: nat): Sched {
    if s.stopped then s
    else StartLanes(s.(wakes := s.wakes + 1), s.active == 0, step)
  }

  function Fire(s: Sched, step: nat): Sched {
    RequestPass(Disarm(s), step)
  }

  /** The top of a lane's loop: begin a look, or end because the queue stopped. */
  function Look(s: Sched, l: LaneId, step: nat): Sched {
    if s.stopped then EndLane(s, l, step) else s.(lanes := s.lanes[l := Claiming(s.wakes, step)])
  }

  function EndLane(s: Sched, l: LaneId, step: nat): Sched {
    s.(active := s.active - 1,
       lanes := if s.stopped then s.lanes - {l} else s.lanes[l := Closing(step)])
  }

  function FailLane(s: Sched, l: LaneId, now: Time): Sched {
    var t := PassFailed(s, now);
    t.(active := t.active - 1, lanes := t.lanes - {l})
  }

  function EndingOf(outcome: Outcome, stopped: bool): Ending {
    match outcome
    case Returned => ByComplete
    case Threw => ByFail
    case Interrupted => if stopped then ByRelease else ByFail
  }

  function Begun(run: Run, now: Time): Hold {
    Hold(now, now + MAX_HOLD_MS, 0, 0, run.claimedAt, true)
  }

  predicate CanResume(pc: Pc) {
    match pc
    case Burying(done) => done
    case Claiming(_, _) => false
    case Finishing(_, _, _, done) => done
    case Closing(_) => false
    case _ => true
  }

  /** What lane `l` awaited has settled; `outcome` is the handler's, where that is what it was. */
  function Resume(s: Sched, l: LaneId, now: Time, outcome: Outcome, step: nat): Sched
    requires l in s.lanes && CanResume(s.lanes[l])
  {
    match s.lanes[l]
    case Burying(_) => Look(s, l, step)
    case Claimed(looked, _, _, took) =>
      if took.Some? then s.(lanes := s.lanes[l := Counting(took.value)])
      else if s.wakes != looked then Look(s, l, step)
      else EndLane(s, l, step)
    case Counting(run) =>
      s.(lanes := s.lanes[l := if run.known then Handling(run, Begun(run, now))
                                else Finishing(run, None, ByComplete, false)])
    case Handling(run, hold) =>
      s.(lanes := s.lanes[l := Finishing(run, Some(hold), EndingOf(outcome, s.stopped), false)])
    case Finishing(_, _, _, _) => Look(s, l, step)
    case Closed(_, _, dueIn) =>
      var t := s.(lanes := s.lanes - {l});
      if dueIn.Some? then Arm(t, now, Max(dueIn.value, 0)) else t
  }

  predicate CanReject(pc: Pc) { !pc.Counting? && !pc.Handling? }

  /** What lane `l` awaited has been rejected: the database could not be reached, or its answer was lost. */
  function Reject(s: Sched, l: LaneId, now: Time): Sched
    requires l in s.lanes && CanReject(s.lanes[l])
  {
    var pc := s.lanes[l];
    if pc.Finishing? && pc.held.Some? && pc.how.ByComplete? then
      // The completion is inside the handler's `try`: its failure is handled as the handler's
      s.(lanes := s.lanes[l := Finishing(pc.run, pc.held, ByFail, false)])
    else if IsActive(pc) then FailLane(s, l, now)
    else PassFailed(s, now).(lanes := s.lanes - {l})
  }

  // ---- holding a lease ----

  predicate IsHolding(pc: Pc) {
    pc.Handling? || (pc.Finishing? && pc.held.Some?)
  }

  function HoldOf(pc: Pc): Hold
    requires IsHolding(pc)
  {
    if pc.Handling? then pc.hold else pc.held.value
  }

  function WithHold(pc: Pc, hold: Hold): Pc
    requires IsHolding(pc)
  {
    if pc.Handling? then pc.(hold := hold) else pc.(held := Some(hold))
  }

  predicate TickDue(hold: Hold, now: Time) {
    hold.ticking && now >= hold.start + (hold.ticks + 1) * HOLD_INTERVAL_MS
  }

  function Tick(s: Sched, l: LaneId, now: Time): Sched
    requires l in s.lanes && IsHolding(s.lanes[l])
  {
    var pc := s.lanes[l];
    var hold := HoldOf(pc);
    if now > hold.until then
      s.(lanes := s.lanes[l := WithHold(pc, hold.(ticking := false))])
    else
      s.(lanes := s.lanes[l := WithHold(pc, hold.(ticks := hold.ticks + 1))],
         extensions := s.extensions[s.nextExtension := Extension(l, pc.run, hold.ticks + 1, now, hold.until)],
         nextExtension := s.nextExtension + 1)
  }

  /** The database has run extension `e`, or it was lost on the way. */
  function Settle(s: Sched, e: nat, landed: bool, now: Time): Sched
    requires e in s.extensions
  {
    var ext := s.extensions[e];
    var t := s.(extensions := s.extensions - {e});
    if landed && ext.lane in s.lanes && IsHolding(s.lanes[ext.lane]) && s.lanes[ext.lane].run == ext.run then
      var pc := s.lanes[ext.lane];
      var hold := HoldOf(pc);
      t.(lanes := s.lanes[ext.lane := WithHold(pc, hold.(landed := Max(hold.landed, ext.k), renewed := now))])
    else t
  }

  // ---- invariants ----

  /** The earliest of the times asked for. */
  ghost predicate IsEarliest(at: Option<Time>, asked: seq<Time>) {
    match at
    case None => asked == []
    case Some(t) => t in asked && forall u :: u in asked ==> t <= u
  }

  /**
   * The timer is the earliest of the clamped times asked for since it last started over
   * (a failed pass, a firing, the stop), is never before the back-off, stays pending after a
   * failed pass, and is gone once the queue has stopped.
   */
  ghost predicate TimerInv(s: Sched) {
    && IsEarliest(s.timerAt, s.asked)
    && (s.timerAt.Some? ==> s.backoffUntil <= s.timerAt.value)
    && (s.retrying ==> s.timerAt.Some?)
    && (s.stopped ==> s.timerAt.None? && !s.retrying)
  }

  ghost predicate LanesInv(s: Sched) {
    && 1 <= s.concurrency && s.active <= s.concurrency
    && s.active == |ActiveLanes(s.lanes)|
    && (forall l :: l in s.lanes ==> l < s.nextLane)
  }

  ghost predicate SchedInv(s: Sched) { TimerInv(s) && LanesInv(s) }

  function Idle(concurrency: nat, handled: set<JobType>): Sched {
    Sched(concurrency, handled, 0, 0, false, None, 0, map[], 0, map[], 0, [], false)
  }

  lemma LaneAdded(lanes: map<LaneId, Pc>, l: LaneId, pc: Pc)
    requires l !in lanes && IsActive(pc)
    ensures |ActiveLanes(lanes[l := pc])| == |ActiveLanes(lanes)| + 1
  {
    assert ActiveLanes(lanes[l := pc]) == ActiveLanes(lanes) + {l};
  }

  /** Starting lanes leaves the ones there alone, and fills up to the process's concurrency. */
  lemma {:induction false} LanesStarted(s: Sched, bury: bool, step: nat)
    requires LanesInv(s)
    ensures var t := StartLanes(s, bury, step);
      && LanesInv(t) && t.active == s.concurrency
      && t == s.(active := t.active, lanes := t.lanes, nextLane := t.nextLane)
      && (forall l :: l in s.lanes ==> l in t.lanes && t.lanes[l] == s.lanes[l])
      && (forall l :: l in t.lanes && l !in s.lanes ==>
            t.lanes[l] == if bury && l == s.nextLane then Burying(false) else Claiming(s.wakes, step))
    decreases s.concurrency - s.active
  {
    if s.active < s.concurrency {
      var pc := if bury then Burying(false) else Claiming(s.wakes, step);
      var next := s.(active := s.active + 1, lanes := s.lanes[s.nextLane := pc], nextLane := s.nextLane + 1);
      LaneAdded(s.lanes, s.nextLane, pc);
      hide ActiveLanes;
      LanesStarted(next, false, step);
    }
  }

  lemma LaneMoved(lanes: map<LaneId, Pc>, l: LaneId, pc: Pc)
    requires l in lanes && IsActive(lanes[l]) == IsActive(pc)
    ensures ActiveLanes(lanes[l := pc]) == ActiveLanes(lanes)
  {
  }

  lemma LaneEnded(lanes: map<LaneId, Pc>, l: LaneId, pc: Pc)
    requires l in lanes && IsActive(lanes[l])
    ensures |ActiveLanes(lanes - {l})| == |ActiveLanes(lanes)| - 1
    ensures !IsActive(pc) ==> |ActiveLanes(lanes[l := pc])| == |ActiveLanes(lanes)| - 1
  {
    assert ActiveLanes(lanes - {l}) == ActiveLanes(lanes) - {l};
    assert !IsActive(pc) ==> ActiveLanes(lanes[l := pc]) == ActiveLanes(lanes) - {l};
  }

  lemma LaneGone(lanes: map<LaneId, Pc>, l: LaneId)
    requires l in lanes && !IsActive(lanes[l])
    ensures ActiveLanes(lanes - {l}) == ActiveLanes(lanes)
  {
  }

  lemma ArmKeepsInv(s: Sched, now: Time, delay: Time)
    requires TimerInv(s)
    ensures TimerInv(Arm(s, now, delay))
  {
  }

  lemma PassFailedKeepsInv(s: Sched, now: Time)
    requires TimerInv(s)
    ensures TimerInv(PassFailed(s, now))
  {
    ArmKeepsInv(Disarm(s.(backoffUntil := now + DRAIN_RETRY_MS)), now, DRAIN_RETRY_MS);
  }

  lemma RequestKeepsInv(s: Sched, step: nat)
    requires SchedInv(s)
    ensures SchedInv(RequestPass(s, step)) && SchedInv(Fire(s, step)) && SchedInv(Stop(s))
  {
    if !s.stopped {
      LanesStarted(s.(wakes := s.wakes + 1), s.active == 0, step);
      LanesStarted(Disarm(s).(wakes := s.wakes + 1), s.active == 0, step);
    }
  }

  lemma LookKeepsInv(s: Sched, l: LaneId, step: nat)
    requires SchedInv(s) && l in s.lanes && IsActive(s.lanes[l])
    ensures SchedInv(Look(s, l, step)) && SchedInv(EndLane(s, l, step))
  {
    LaneEnded(s.lanes, l, Closing(step));
    LaneMoved(s.lanes, l, Claiming(s.wakes, step));
  }

  lemma ResumeKeepsInv(s: Sched, l: LaneId, now: Time, outcome: Outcome, step: nat)
    requires SchedInv(s) && l in s.lanes && CanResume(s.lanes[l])
    ensures SchedInv(Resume(s, l, now, outcome, step))
  {
    var t := Resume(s, l, now, outcome, step);
    if IsActive(s.lanes[l]) {
      LookKeepsInv(s, l, step);
      if l in t.lanes && IsActive(t.lanes[l]) {
        LaneMoved(s.lanes, l, t.lanes[l]);
      }
    } else {
      LaneGone(s.lanes, l);
      var u := s.(lanes := s.lanes - {l});
      if s.lanes[l].dueIn.Some? {
        ArmKeepsInv(u, now, Max(s.lanes[l].dueIn.value, 0));
      }
    }
  }

  lemma RejectKeepsInv(s: Sched, l: LaneId, now: Time)
    requires SchedInv(s) && l in s.lanes && CanReject(s.lanes[l])
    ensures SchedInv(Reject(s, l, now))
  {
    PassFailedKeepsInv(s, now);
    if IsActive(s.lanes[l]) {
      LaneEnded(s.lanes, l, Closing(0));
      var t := Reject(s, l, now);
      if l in t.lanes { LaneMoved(s.lanes, l, t.lanes[l]); }
    } else {
      LaneGone(s.lanes, l);
    }
  }

  lemma HoldKeepsInv(s: Sched, l: LaneId, now: Time)
    requires SchedInv(s) && l in s.lanes && IsHolding(s.lanes[l])
    ensures SchedInv(Tick(s, l, now))
  {
    LaneMoved(s.lanes, l, Tick(s, l, now).lanes[l]);
  }

  lemma SettleKeepsInv(s: Sched, e: nat, landed: bool, now: Time)
    requires SchedInv(s) && e in s.extensions
    ensures SchedInv(Settle(s, e, landed, now))
  {
    var l := s.extensions[e].lane;
    if l in s.lanes && IsHolding(s.lanes[l]) {
      LaneMoved(s.lanes, l, Settle(s, e, landed, now).lanes[l]);
    }
  }

  // ---- what a step may do ----

  /** Wakes only grow, a stop is for good, and the concurrency is fixed. */
  predicate Onward(a: Sched, b: Sched) {
    a.wakes <= b.wakes && (a.stopped ==> b.stopped) && a.concurrency == b.concurrency
  }

  /** The lanes of `a` other than `l` are as they were in `b`, which has none besides. */
  predicate OnlyLane(a: Sched, b: Sched, l: LaneId) {
    && (forall m :: m in b.lanes && m != l ==> m in a.lanes && b.lanes[m] == a.lanes[m])
    && (forall m :: m in a.lanes && m != l ==> m in b.lanes)
  }

  /** A pass asked for of a queue that has not stopped: one more wake, and lanes up to the concurrency. */
  lemma RequestMovesOn(s: Sched, step: nat)
    requires LanesInv(s)
    ensures var t := RequestPass(s, step);
      && Onward(s, t) && t.extensions == s.extensions && t.nextExtension == s.nextExtension
      && (s.stopped ==> t == s)
      && (!s.stopped ==> t.wakes == s.wakes + 1 && t.active == s.concurrency && t.timerAt == s.timerAt && !t.stopped)
      && (forall l :: l in s.lanes ==> l in t.lanes && t.lanes[l] == s.lanes[l])
      && (forall l :: l in t.lanes && l !in s.lanes ==>
            !s.stopped && (t.lanes[l] == Claiming(t.wakes, step) || t.lanes[l] == Burying(false)))
  {
    if !s.stopped { LanesStarted(s.(wakes := s.wakes + 1), s.active == 0, step); }
  }

  /** Where a lane that awaited something may go when it settles. */
  lemma ResumeMovesOn(s: Sched, l: LaneId, now: Time, outcome: Outcome, step: nat)
    requires l in s.lanes && CanResume(s.lanes[l])
    ensures var t := Resume(s, l, now, outcome, step);
      && Onward(s, t) && t.wakes == s.wakes && t.stopped == s.stopped && OnlyLane(s, t, l)
      && t.extensions == s.extensions && t.nextExtension == s.nextExtension
      && (l in t.lanes ==>
            || t.lanes[l] == Claiming(s.wakes, step) || t.lanes[l] == Closing(step)
            || t.lanes[l].Counting? || t.lanes[l].Handling? || t.lanes[l].Finishing?)
  {
  }

  lemma RejectMovesOn(s: Sched, l: LaneId, now: Time)
    requires l in s.lanes && CanReject(s.lanes[l])
    ensures var t := Reject(s, l, now);
      && Onward(s, t) && t.wakes == s.wakes && t.stopped == s.stopped && OnlyLane(s, t, l)
      && t.extensions == s.extensions && t.nextExtension == s.nextExtension
      && (l in t.lanes ==> t.lanes[l].Finishing?)
  {
  }

  /** Ticks and settled extensions change nothing but holds. */
  lemma HoldsOnly(s: Sched, l: LaneId, now: Time, e: nat, landed: bool)
    ensures l in s.lanes && IsHolding(s.lanes[l]) ==>
      var t := Tick(s, l, now); OnlyLane(s, t, l) && l in t.lanes && IsHolding(t.lanes[l])
    ensures e in s.extensions ==>
      var t := Settle(s, e, landed, now); var m := s.extensions[e].lane;
      OnlyLane(s, t, m) && (m in t.lanes ==> m in s.lanes && (t.lanes[m] == s.lanes[m] || IsHolding(t.lanes[m])))
  {
  }
}
