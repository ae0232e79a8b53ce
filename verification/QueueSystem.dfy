/**
 * The whole queue: the shared `job` table, any number of worker processes, writers and
 * administrators, and one advancing clock. An event is one atomic step of any of them; a log
 * is any interleaving of events that could have happened.
 */
module QueueSystem {
  import opened Basics
  import opened JobTable
  import opened Scheduler

  /** `used` are the ids ever given out: an id is random, and never given out twice. */
  datatype System = System(rows: Rows, used: set<JobId>, now: Time, procs: map<Owner, Sched>, steps: nat)

  datatype Event =
    /** Time passes. */
    | Elapse(ms: nat)
    /** A writer or an administrator runs a statement of theirs. */
    | Outside(st: Statement)
    /** Process `p` asks itself for a pass: a job written, a signal received, the hour, the start. */
    | Request(p: Owner)
    /** Its timer fires. */
    | Fires(p: Owner)
    | Stops(p: Owner)
    /** The database runs the statement that lane `l` awaits. */
    | Execute(p: Owner, l: LaneId, skipped: set<JobId>, took: Option<JobId>, dueIn: Option<Time>)
    /** What lane `l` awaits settles, or is rejected. */
    | Resumes(p: Owner, l: LaneId, outcome: Outcome)
    | Rejects(p: Owner, l: LaneId)
    /** The interval holding lane `l`'s lease ticks. */
    | Ticks(p: Owner, l: LaneId)
    /** Extension `e` is run by the database, or lost. */
    | Lands(p: Owner, e: nat)
    | Loses(p: Owner, e: nat)

  predicate Awaits(pc: Pc) {
    match pc
    case Burying(done) => !done
    case Claiming(_, _) => true
    case Finishing(_, _, _, done) => !done
    case Closing(_) => true
    case _ => false
  }

  /** The ready rows a process watches for: those it does not hold itself. */
  predicate Watched(r: Row, owner: Owner) {
    r.state.Ready? && r.lockedBy != Some(owner)
  }

  /** `dueIn` is the time to the earliest watched row's being ready, negative if that has passed. */
  ghost predicate NextDue(rows: Rows, owner: Owner, now: Time, dueIn: Option<Time>) {
    && (dueIn.None? <==> forall id :: id in rows ==> !Watched(rows[id], owner))
    && (dueIn.Some? ==>
          && (forall id :: id in rows && Watched(rows[id], owner) ==> now + dueIn.value <= ReadyAt(rows[id]))
          && (exists id :: id in rows && Watched(rows[id], owner) && now + dueIn.value == ReadyAt(rows[id])))
  }

  predicate IsOutside(st: Statement) {
    st.Insert? || st.RaiseStandIn? || st.RetryDead? || st.ReviveDead? || st.DeleteDead? || st.PruneDead?
  }

  /** The statement an event has the database run, if it runs one. */
  function StatementOf(s: System, e: Event): Option<Statement> {
    match e
    case Outside(st) => Some(st)
    case Execute(p, l, skipped, took, _) =>
      if p !in s.procs || l !in s.procs[p].lanes then None
      else (
        match s.procs[p].lanes[l]
        case Burying(_) => Some(BuryExhausted)
        case Claiming(_, _) => Some(Claim(p, skipped, took))
        case Finishing(run, _, how, _) =>
          Some(match how
               case ByComplete => Complete(p, run.job)
               case ByFail => Fail(p, run.job)
               case ByRelease => Release(p, run.job))
        case _ => None)
    case Lands(p, k) =>
      if p !in s.procs || k !in s.procs[p].extensions then None
      else Some(Extend(p, s.procs[p].extensions[k].run.job))
    case _ => None
  }

  function RunOf(s: System, p: Owner, took: Option<JobId>): Option<Run>
    requires p in s.procs
  {
    if took.Some? && took.value in s.rows
    then Some(Run(took.value, s.rows[took.value].typ in s.procs[p].handled, s.now, s.steps))
    else None
  }

  function Answered(s: System, e: Event): Pc
    requires e.Execute? && e.p in s.procs && e.l in s.procs[e.p].lanes
  {
    match s.procs[e.p].lanes[e.l]
    case Burying(_) => Burying(true)
    case Claiming(looked, since) => Claimed(looked, since, s.steps, RunOf(s, e.p, e.took))
    case Finishing(run, held, how, _) => Finishing(run, held, how, true)
    case Closing(since) => Closed(since, s.steps, e.dueIn)
    case pc => pc
  }

  ghost predicate Enabled(s: System, e: Event) {
    && (StatementOf(s, e).Some? ==> Legal(s.rows, s.now, StatementOf(s, e).value))
    && match e
       case Elapse(_) => true
       case Outside(st) => IsOutside(st) && (st.Insert? ==> st.id !in s.used)
       case Request(p) => p in s.procs
       case Fires(p) => p in s.procs && s.procs[p].timerAt.Some? && s.procs[p].timerAt.value <= s.now
       case Stops(p) => p in s.procs
       case Execute(p, l, _, _, dueIn) =>
         && p in s.procs && l in s.procs[p].lanes && Awaits(s.procs[p].lanes[l])
         && (s.procs[p].lanes[l].Closing? ==> NextDue(s.rows, p, s.now, dueIn))
       case Resumes(p, l, _) => p in s.procs && l in s.procs[p].lanes && CanResume(s.procs[p].lanes[l])
       case Rejects(p, l) => p in s.procs && l in s.procs[p].lanes && CanReject(s.procs[p].lanes[l])
       case Ticks(p, l) =>
         && p in s.procs && l in s.procs[p].lanes && IsHolding(s.procs[p].lanes[l])
         && TickDue(HoldOf(s.procs[p].lanes[l]), s.now)
       case Lands(p, k) => p in s.procs && k in s.procs[p].extensions
       case Loses(p, k) => p in s.procs && k in s.procs[p].extensions
  }

  /** The process an event belongs to, and what the event makes of it. */
  function ProcessOf(e: Event): Option<Owner> {
    match e
    case Elapse(_) => None
    case Outside(_) => None
    case _ => Some(e.p)
  }

  function Stepped(s: System, e: Event): Sched
    requires Enabled(s, e) && ProcessOf(e).Some?
  {
    var proc := s.procs[e.p];
    match e
    case Request(_) => RequestPass(proc, s.steps)
    case Fires(_) => Fire(proc, s.steps)
    case Stops(_) => Stop(proc)
    case Execute(_, l, _, _, _) => proc.(lanes := proc.lanes[l := Answered(s, e)])
    case Resumes(_, l, outcome) => Resume(proc, l, s.now, outcome, s.steps)
    case Rejects(_, l) => Reject(proc, l, s.now)
    case Ticks(_, l) => Tick(proc, l, s.now)
    case Lands(_, k) => Settle(proc, k, true, s.now)
    case Loses(_, k) => Settle(proc, k, false, s.now)
  }

  function Next(s: System, e: Event): System
    requires Enabled(s, e)
  {
    System(
      if StatementOf(s, e).Some? then Apply(s.rows, s.now, StatementOf(s, e).value) else s.rows,
      if e.Outside? && e.st.Insert? then s.used + {e.st.id} else s.used,
      if e.Elapse? then s.now + e.ms else s.now,
      if ProcessOf(e).Some? then s.procs[e.p := Stepped(s, e)] else s.procs,
      s.steps + 1)
  }

  // ---- traces ----

  /** An empty table, and processes that have not begun. */
  predicate Initial(s: System) {
    && s.rows == map[] && s.used == {} && s.steps == 0
    && forall p :: p in s.procs ==>
         1 <= s.procs[p].concurrency && s.procs[p] == Idle(s.procs[p].concurrency, s.procs[p].handled)
  }

  /** One interleaving: `states[k]` is the system before `events[k]`. */
  datatype Trace = Trace(states: seq<System>, events: seq<Event>)

  ghost predicate StepsAt(t: Trace, k: nat)
    requires |t.states| == |t.events| + 1 && k < |t.events|
  {
    Enabled(t.states[k], t.events[k]) && t.states[k + 1] == Next(t.states[k], t.events[k])
  }

  ghost predicate IsTrace(t: Trace) {
    && |t.states| == |t.events| + 1
    && Initial(t.states[0])
    && forall k: nat :: k < |t.events| ==> StepsAt(t, k)
  }

  // ---- the system's invariant ----

  ghost predicate SystemInv(s: System) {
    TableInv(s.rows) && s.rows.Keys <= s.used && forall p :: p in s.procs ==> SchedInv(s.procs[p])
  }

  lemma StepKeepsSched(s: System, e: Event)
    requires SystemInv(s) && Enabled(s, e) && ProcessOf(e).Some?
    ensures SchedInv(Stepped(s, e))
  {
    var proc := s.procs[e.p];
    match e
    case Request(_) => RequestKeepsInv(proc, s.steps);
    case Fires(_) => RequestKeepsInv(proc, s.steps);
    case Stops(_) => RequestKeepsInv(proc, s.steps);
    case Execute(_, l, _, _, _) => LaneMoved(proc.lanes, l, Answered(s, e));
    case Resumes(_, l, outcome) => ResumeKeepsInv(proc, l, s.now, outcome, s.steps);
    case Rejects(_, l) => RejectKeepsInv(proc, l, s.now);
    case Ticks(_, l) => HoldKeepsInv(proc, l, s.now);
    case Lands(_, k) => SettleKeepsInv(proc, k, true, s.now);
    case Loses(_, k) => SettleKeepsInv(proc, k, false, s.now);
  }

  lemma StepKeepsInv(s: System, e: Event)
    requires SystemInv(s) && Enabled(s, e)
    ensures SystemInv(Next(s, e))
  {
    if StatementOf(s, e).Some? { StatementKeepsInv(s.rows, s.now, StatementOf(s, e).value); }
    if ProcessOf(e).Some? { StepKeepsSched(s, e); }
  }

  /**
   * In every reachable state the table's invariant holds, and in every process the lanes are
   * counted rightly, never more than its concurrency, and the timer obeys its discipline.
   */
  lemma {:induction false} ReachableInv(t: Trace, n: nat)
    requires IsTrace(t) && n <= |t.events|
    ensures SystemInv(t.states[n]) && t.states[n].steps == n
    ensures t.states[n].procs.Keys == t.states[0].procs.Keys
  {
    if n == 0 {
      var s := t.states[0];
      forall p | p in s.procs ensures SchedInv(s.procs[p]) {
        assert ActiveLanes(s.procs[p].lanes) == {};
      }
    } else {
      ReachableInv(t, n - 1);
      assert StepsAt(t, n - 1);
      StepKeepsInv(t.states[n - 1], t.events[n - 1]);
    }
  }

  lemma StepOnward(s: System, e: Event, p: Owner)
    requires SystemInv(s) && Enabled(s, e) && p in s.procs
    ensures Onward(s.procs[p], Next(s, e).procs[p])
  {
    if ProcessOf(e) == Some(p) {
      var proc := s.procs[p];
      assert SchedInv(proc);
      match e
      case Request(_) => RequestMovesOn(proc, s.steps);
      case Fires(_) => RequestMovesOn(Disarm(proc), s.steps);
      case Resumes(_, l, outcome) => ResumeMovesOn(proc, l, s.now, outcome, s.steps);
      case Rejects(_, l) => RejectMovesOn(proc, l, s.now);
      case _ =>
    }
  }

  /** What holds as a trace takes its step `k`. */
  lemma StepOf(t: Trace, k: nat)
    requires IsTrace(t) && k < |t.events|
    ensures SystemInv(t.states[k]) && t.states[k].steps == k && SystemInv(t.states[k + 1])
    ensures Enabled(t.states[k], t.events[k]) && t.states[k + 1] == Next(t.states[k], t.events[k])
    ensures t.states[k].procs.Keys == t.states[k + 1].procs.Keys
  {
    assert StepsAt(t, k);
    ReachableInv(t, k);
    ReachableInv(t, k + 1);
    hide IsTrace, SystemInv, Enabled;
    NextProcs(t.states[k], t.events[k], 0);
  }

  /** A step moves the process it belongs to, and no other. */
  lemma NextProcs(s: System, e: Event, p: Owner)
    requires Enabled(s, e)
    ensures Next(s, e).procs.Keys == s.procs.Keys
    ensures ProcessOf(e) == Some(p) ==> p in s.procs && Next(s, e).procs[p] == Stepped(s, e)
    ensures ProcessOf(e) != Some(p) && p in s.procs ==> Next(s, e).procs[p] == s.procs[p]
  {
    hide Stepped, StatementOf, Apply;
  }

  lemma {:induction false} TraceOnward(t: Trace, p: Owner, i: nat, j: nat)
    requires IsTrace(t) && i <= j <= |t.events| && p in t.states[j].procs
    ensures p in t.states[i].procs && Onward(t.states[i].procs[p], t.states[j].procs[p])
    decreases j
  {
    if i < j {
      StepOf(t, j - 1);
      TraceOnward(t, p, i, j - 1);
      StepOnward(t.states[j - 1], t.events[j - 1], p);
    }
  }

  /** Awaits that remember nothing of a look or of a closing question. */
  predicate IsWork(pc: Pc) {
    pc.Burying? || pc.Counting? || pc.Handling? || pc.Finishing?
  }

  /** Where a step may leave a lane of the process it belongs to. */
  lemma LaneMoves(s: System, e: Event, l: LaneId)
    requires SystemInv(s) && Enabled(s, e) && ProcessOf(e).Some? && l in Stepped(s, e).lanes
    ensures var proc, after := s.procs[e.p], Stepped(s, e); var pc := after.lanes[l];
      || (l in proc.lanes && pc == proc.lanes[l])
      || IsWork(pc)
      || pc == Claiming(after.wakes, s.steps)
      || pc == Closing(s.steps)
      || (e.Execute? && l == e.l && pc == Answered(s, e))
  {
    var proc := s.procs[e.p];
    assert SchedInv(proc);
    match e
    case Request(_) => RequestMovesOn(proc, s.steps);
    case Fires(_) => RequestMovesOn(Disarm(proc), s.steps);
    case Resumes(_, m, outcome) => ResumeMovesOn(proc, m, s.now, outcome, s.steps);
    case Rejects(_, m) => RejectMovesOn(proc, m, s.now);
    case Ticks(_, m) => HoldsOnly(proc, m, s.now, 0, true);
    case Lands(_, k) => HoldsOnly(proc, 0, s.now, k, true);
    case Loses(_, k) => HoldsOnly(proc, 0, s.now, k, false);
    case _ =>
  }

  /** With nothing rejected and no stop, a lane only ends because its look is the last word. */
  lemma EndsQuietly(s: System, e: Event)
    requires SystemInv(s) && Enabled(s, e) && ProcessOf(e).Some? && !e.Rejects?
    requires !Stepped(s, e).stopped && Stepped(s, e).active < s.procs[e.p].active
    ensures e.Resumes? && s.procs[e.p].lanes[e.l].Claimed?
    ensures s.procs[e.p].lanes[e.l].took.None? && s.procs[e.p].lanes[e.l].looked == s.procs[e.p].wakes
    ensures e.l in Stepped(s, e).lanes && Stepped(s, e).lanes[e.l] == Closing(s.steps)
  {
    var proc := s.procs[e.p];
    assert SchedInv(proc);
    match e
    case Request(_) => RequestMovesOn(proc, s.steps);
    case Fires(_) => RequestMovesOn(Disarm(proc), s.steps);
    case Resumes(_, m, outcome) => ResumeMovesOn(proc, m, s.now, outcome, s.steps);
    case _ =>
  }

  /** A closing lane stays until it has heard when the next job is due. */
  lemma ClosesInOrder(s: System, e: Event, l: LaneId)
    requires SystemInv(s) && Enabled(s, e) && ProcessOf(e).Some? && !e.Rejects?
    requires var proc := s.procs[e.p]; l in proc.lanes && !IsActive(proc.lanes[l])
    ensures var proc, after := s.procs[e.p], Stepped(s, e);
      || (l in after.lanes && after.lanes[l] == proc.lanes[l])
      || (l in after.lanes && proc.lanes[l].Closing? && after.lanes[l].Closed? && after.lanes[l].since == proc.lanes[l].since)
      || (e.Resumes? && l == e.l && proc.lanes[l].Closed?)
  {
    var proc := s.procs[e.p];
    assert SchedInv(proc);
    match e
    case Request(_) => RequestMovesOn(proc, s.steps);
    case Fires(_) => RequestMovesOn(Disarm(proc), s.steps);
    case Resumes(_, m, outcome) => ResumeMovesOn(proc, m, s.now, outcome, s.steps);
    case _ =>
  }

  predicate Sooner(a: Sched, b: Sched) {
    && a.backoffUntil == b.backoffUntil
    && (a.timerAt.Some? ==> b.timerAt.Some? && b.timerAt.value <= a.timerAt.value)
  }

  /** Between requests, failures and the stop, the timer only moves earlier. */
  lemma TimerOnlySooner(s: System, e: Event)
    requires Enabled(s, e) && ProcessOf(e).Some? && !e.Request? && !e.Fires? && !e.Rejects?
    requires !Stepped(s, e).stopped
    ensures Sooner(s.procs[e.p], Stepped(s, e))
  {
    var proc := s.procs[e.p];
    match e
    case Resumes(_, l, outcome) =>
      var t := Resume(proc, l, s.now, outcome, s.steps);
      if proc.lanes[l].Closed? {} else { assert t.timerAt == proc.timerAt; }
    case _ =>
  }
}
