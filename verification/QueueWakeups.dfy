/**
 * No lost wake-up: whatever the interleaving, a request for a pass is answered by a look that
 * began after it, and a process that goes to sleep has a timer set for what it left waiting.
 */
module QueueWakeups {
  import opened Basics
  import opened JobTable
  import opened Scheduler
  import opened QueueSystem

  /** At step `r`, process `p` is asked for a pass and has not stopped. */
  ghost predicate Asked(t: Trace, p: Owner, r: nat)
    requires IsTrace(t)
  {
    && r < |t.events| && (t.events[r] == Request(p) || t.events[r] == Fires(p))
    && p in t.states[r].procs && !t.states[r].procs[p].stopped
  }

  /**
   * At step `k` the database answers a look of `p` that was sent at step `since`, and the look
   * finds nothing: every row is either not takeable or locked by another statement just then,
   * which may be any statement of any process. A row passed over so is not lost: see
   * `PassedOverIsDue`.
   */
  ghost predicate LooksInVain(t: Trace, p: Owner, since: nat, k: nat)
    requires IsTrace(t)
  {
    && since < k < |t.events| && t.events[k].Execute? && t.events[k].p == p
    && p in t.states[k].procs && t.events[k].l in t.states[k].procs[p].lanes
    && t.states[k].procs[p].lanes[t.events[k].l].Claiming?
    && t.states[k].procs[p].lanes[t.events[k].l].since == since
    && forall id :: id in t.states[k].rows && id !in t.events[k].skipped ==>
         !Takeable(t.states[k].rows[id], t.states[k].now)
  }

  /** At step `k` the database tells a closing lane of `p`, which ended at step `since`, when the next job is due. */
  ghost predicate AsksWhatIsDue(t: Trace, p: Owner, since: nat, k: nat)
    requires IsTrace(t)
  {
    && since < k < |t.events| && t.events[k].Execute? && t.events[k].p == p
    && p in t.states[k].procs && t.events[k].l in t.states[k].procs[p].lanes
    && t.states[k].procs[p].lanes[t.events[k].l] == Closing(since)
    && NextDue(t.states[k].rows, p, t.states[k].now, t.events[k].dueIn)
  }

  /** What a lane remembers of its look, or of its closing question, is what happened. */
  ghost predicate Recalls(t: Trace, n: nat, p: Owner, pc: Pc)
    requires IsTrace(t) && n <= |t.events|
  {
    match pc
    case Claiming(looked, since) =>
      since < n && p in t.states[since + 1].procs && looked == t.states[since + 1].procs[p].wakes
    case Claimed(looked, since, at, took) =>
      && since < at < n && p in t.states[since + 1].procs && looked == t.states[since + 1].procs[p].wakes
      && (took.None? ==> LooksInVain(t, p, since, at))
    case Closing(since) => since < n
    case Closed(since, at, dueIn) =>
      at < n && AsksWhatIsDue(t, p, since, at) && t.events[at].dueIn == dueIn
    case _ => true
  }

  lemma RecallsLonger(t: Trace, n: nat, p: Owner, pc: Pc)
    requires IsTrace(t) && n < |t.events| && Recalls(t, n, p, pc)
    ensures Recalls(t, n + 1, p, pc)
  {
  }

  /** The lane whose statement the database has just answered. */
  lemma AnswerRecalled(t: Trace, n: nat)
    requires IsTrace(t) && n < |t.events| && t.events[n].Execute?
    requires var e := t.events[n];
      Enabled(t.states[n], e) && t.states[n].steps == n
      && Recalls(t, n, e.p, t.states[n].procs[e.p].lanes[e.l])
    ensures Recalls(t, n + 1, t.events[n].p, Answered(t.states[n], t.events[n]))
  {
    var s, e := t.states[n], t.events[n];
    var pc := s.procs[e.p].lanes[e.l];
    if pc.Claiming? && e.took.None? {
      forall id | id in s.rows && id !in e.skipped ensures !Takeable(s.rows[id], s.now) {
        assert id !in Candidates(s.rows, s.now, e.skipped);
      }
      assert LooksInVain(t, e.p, pc.since, n);
    }
  }

  /** A look or a closing question just begun, at the step that began it. */
  lemma FreshRecalled(t: Trace, n: nat, p: Owner, pc: Pc)
    requires IsTrace(t) && n < |t.events| && p in t.states[n + 1].procs
    requires IsWork(pc) || pc == Claiming(t.states[n + 1].procs[p].wakes, n) || pc == Closing(n)
    ensures Recalls(t, n + 1, p, pc)
  {
  }

  lemma LaneRecalls(t: Trace, n: nat, p: Owner, l: LaneId, proc: Sched, pc: Pc)
    requires IsTrace(t) && n < |t.events| && p in t.states[n].procs && p in t.states[n + 1].procs
    requires proc == t.states[n].procs[p] && l in t.states[n + 1].procs[p].lanes
    requires pc == t.states[n + 1].procs[p].lanes[l]
    requires l in proc.lanes ==> Recalls(t, n, p, proc.lanes[l])
    ensures Recalls(t, n + 1, p, pc)
  {
    StepOf(t, n);
    var s, e := t.states[n], t.events[n];
    if ProcessOf(e) == Some(p) {
      LaneMoves(s, e, l);
      if l in proc.lanes && pc == proc.lanes[l] {
        RecallsLonger(t, n, p, pc);
      } else if e.Execute? && l == e.l {
        AnswerRecalled(t, n);
      } else {
        FreshRecalled(t, n, p, pc);
      }
    } else {
      RecallsLonger(t, n, p, pc);
    }
  }

  lemma {:induction false} LanesRecall(t: Trace, n: nat, p: Owner)
    requires IsTrace(t) && n <= |t.events| && p in t.states[n].procs
    ensures forall l :: l in t.states[n].procs[p].lanes ==> Recalls(t, n, p, t.states[n].procs[p].lanes[l])
  {
    if n > 0 {
      StepOf(t, n - 1);
      LanesRecall(t, n - 1, p);
      forall l | l in t.states[n].procs[p].lanes
        ensures Recalls(t, n, p, t.states[n].procs[p].lanes[l])
      {
        LaneRecalls(t, n - 1, p, l, t.states[n - 1].procs[p], t.states[n].procs[p].lanes[l]);
      }
    }
  }

  /** From step `r` to step `n`, nothing that `p` awaits is rejected, and `p` does not stop. */
  ghost predicate Undisturbed(t: Trace, p: Owner, r: nat, n: nat)
    requires IsTrace(t) && r <= n <= |t.events|
  {
    && p in t.states[n].procs && !t.states[n].procs[p].stopped
    && forall i :: r <= i < n && t.events[i].Rejects? ==> t.events[i].p != p
  }

  ghost predicate LookedSince(t: Trace, p: Owner, r: nat, n: nat)
    requires IsTrace(t)
  {
    exists since: nat, k: nat :: r <= since && k < n && LooksInVain(t, p, since, k)
  }

  lemma WakesAtRequest(t: Trace, p: Owner, r: nat)
    requires IsTrace(t) && Asked(t, p, r)
    ensures p in t.states[r + 1].procs && t.states[r + 1].procs[p].wakes == t.states[r].procs[p].wakes + 1
    ensures t.states[r + 1].procs[p].active > 0
  {
    StepOf(t, r);
    var s := t.states[r];
    assert SchedInv(s.procs[p]);
    RequestMovesOn(s.procs[p], r);
    RequestMovesOn(Disarm(s.procs[p]), r);
  }

  /** A look whose count of wakes is still current at `n` began no earlier than a request before `n`. */
  lemma BeganAfter(t: Trace, p: Owner, r: nat, n: nat, since: nat)
    requires IsTrace(t) && Asked(t, p, r) && r < n <= |t.events| && since < n
    requires p in t.states[n].procs && p in t.states[since + 1].procs
    requires t.states[since + 1].procs[p].wakes == t.states[n].procs[p].wakes
    ensures r <= since
  {
    if since < r {
      WakesAtRequest(t, p, r);
      TraceOnward(t, p, since + 1, r);
      TraceOnward(t, p, r + 1, n);
    }
  }

  /** A lane that ends quietly had looked since, in vain. */
  lemma EndMeansLooked(t: Trace, p: Owner, r: nat, m: nat)
    requires IsTrace(t) && Asked(t, p, r) && r < m < |t.events| && Undisturbed(t, p, m, m + 1)
    requires ProcessOf(t.events[m]) == Some(p) && p in t.states[m].procs
    requires t.states[m + 1].procs[p].active < t.states[m].procs[p].active
    ensures LookedSince(t, p, r, m + 1)
  {
    var s, e := t.states[m], t.events[m];
    StepOf(t, m);
    NextProcs(s, e, p);
    hide IsTrace, SystemInv, Enabled, Next, Stepped;
    EndsQuietly(s, e);
    LanesRecall(t, m, p);
    var pc := s.procs[p].lanes[e.l];
    assert Recalls(t, m, p, pc);
    BeganAfter(t, p, r, m, pc.since);
    assert LooksInVain(t, p, pc.since, pc.at);
  }

  /**
   * No lost wake-up: after a request, and until something of the process is rejected or it
   * stops, either a lane is still taking jobs, or a look that began at or after the request
   * has found nothing left to take.
   */
  lemma {:induction false} RequestIsAnswered(t: Trace, p: Owner, r: nat, n: nat)
    requires IsTrace(t) && Asked(t, p, r) && r < n <= |t.events| && Undisturbed(t, p, r, n)
    ensures t.states[n].procs[p].active > 0 || LookedSince(t, p, r, n)
    decreases n
  {
    if n == r + 1 {
      WakesAtRequest(t, p, r);
    } else {
      var m := n - 1;
      StepOf(t, m);
      TraceOnward(t, p, m, n);
      NextProcs(t.states[m], t.events[m], p);
      hide IsTrace, SystemInv, Enabled, Next, Stepped, Asked, LooksInVain;
      RequestIsAnswered(t, p, r, m);
      if ProcessOf(t.events[m]) == Some(p) && t.states[n].procs[p].active < t.states[m].procs[p].active {
        EndMeansLooked(t, p, r, m);
      }
    }
  }

  lemma RejectStaysAwake(s: Sched, l: LaneId, now: Time)
    requires SchedInv(s) && !s.stopped && l in s.lanes && CanReject(s.lanes[l])
    ensures Reject(s, l, now).timerAt.Some? || Reject(s, l, now).active > 0
  {
    if IsActive(s.lanes[l]) { assert l in ActiveLanes(s.lanes); }
  }

  lemma ResumeStaysAwake(s: Sched, l: LaneId, now: Time, outcome: Outcome, step: nat)
    requires SchedInv(s) && !s.stopped && l in s.lanes && CanResume(s.lanes[l]) && s.timerAt.Some?
    ensures Resume(s, l, now, outcome, step).timerAt.Some?
  {
  }

  /** What becomes of the timer and the lanes in a step that does not stop the process. */
  lemma StepStaysAwake(s: System, e: Event, p: Owner)
    requires SystemInv(s) && Enabled(s, e) && ProcessOf(e) == Some(p) && !Stepped(s, e).stopped
    requires s.procs[p].timerAt.Some? || e.Rejects?
    ensures Stepped(s, e).timerAt.Some? || Stepped(s, e).active > 0
  {
    var proc := s.procs[p];
    assert SchedInv(proc);
    match e
    case Request(_) => RequestMovesOn(proc, s.steps);
    case Fires(_) => RequestMovesOn(Disarm(proc), s.steps);
    case Rejects(_, l) =>
      RejectMovesOn(proc, l, s.now);
      RejectStaysAwake(proc, l, s.now);
    case Resumes(_, l, outcome) => ResumeStaysAwake(proc, l, s.now, outcome, s.steps);
    case _ =>
  }

  /**
   * And through any failures, up to the stop: after a request a lane is still taking jobs, or
   * a look that began at or after it has found nothing left to take, or a timer is pending.
   */
  lemma {:induction false} RequestIsKept(t: Trace, p: Owner, r: nat, n: nat)
    requires IsTrace(t) && Asked(t, p, r) && r < n <= |t.events|
    requires p in t.states[n].procs && !t.states[n].procs[p].stopped
    ensures t.states[n].procs[p].active > 0 || LookedSince(t, p, r, n) || t.states[n].procs[p].timerAt.Some?
    decreases n
  {
    if n == r + 1 {
      WakesAtRequest(t, p, r);
    } else {
      var m := n - 1;
      TraceOnward(t, p, m, n);
      hide IsTrace, Asked, LookedSince;
      RequestIsKept(t, p, r, m);
      StaysKept(t, p, r, m);
    }
  }

  lemma StaysKept(t: Trace, p: Owner, r: nat, m: nat)
    requires IsTrace(t) && Asked(t, p, r) && r < m < |t.events|
    requires p in t.states[m].procs && !t.states[m].procs[p].stopped
    requires p in t.states[m + 1].procs && !t.states[m + 1].procs[p].stopped
    requires t.states[m].procs[p].active > 0 || LookedSince(t, p, r, m) || t.states[m].procs[p].timerAt.Some?
    ensures t.states[m + 1].procs[p].active > 0 || LookedSince(t, p, r, m + 1) || t.states[m + 1].procs[p].timerAt.Some?
  {
    var e := t.events[m];
    StepOf(t, m);
    NextProcs(t.states[m], e, p);
    hide IsTrace, SystemInv, Enabled, Next, Stepped, Asked, LooksInVain;
    if ProcessOf(e) == Some(p) {
      if t.states[m].procs[p].timerAt.Some? || e.Rejects? {
        StepStaysAwake(t.states[m], e, p);
      } else if t.states[m + 1].procs[p].active < t.states[m].procs[p].active {
        EndMeansLooked(t, p, r, m);
      }
    }
  }

  // ---- what a sleeping process will be woken for ----

  /**
   * What a closing lane was told at step `k`, and heard at step `h`, is in the timer at step `n`:
   * it fires no later than any job `p` does not hold becomes ready, counted from when the
   * answer was heard, or than the back-off allows.
   */
  ghost predicate TimerCovers(t: Trace, p: Owner, k: nat, h: nat, n: nat)
    requires IsTrace(t)
  {
    && k < h < n <= |t.events| && p in t.states[n].procs
    && forall id :: id in t.states[k].rows && t.states[k].rows[id].state.Ready? && t.states[k].rows[id].lockedBy != Some(p) ==>
         var proc := t.states[n].procs[p];
         && proc.timerAt.Some?
         && proc.timerAt.value <=
              Max(proc.backoffUntil, t.states[h].now + Max(ReadyAt(t.states[k].rows[id]) - t.states[k].now, 0))
  }

  /** A row that could be taken when the closing lane asked, and was left, makes the timer due as its answer is heard. */
  lemma PassedOverIsDue(t: Trace, p: Owner, k: nat, h: nat, n: nat, id: JobId)
    requires IsTrace(t) && TimerCovers(t, p, k, h, n)
    requires id in t.states[k].rows && t.states[k].rows[id].lockedBy != Some(p) && Takeable(t.states[k].rows[id], t.states[k].now)
    ensures var proc := t.states[n].procs[p];
      proc.timerAt.Some? && proc.timerAt.value <= Max(proc.backoffUntil, t.states[h].now)
  {
    hide IsTrace;
  }

  ghost predicate Covered(t: Trace, p: Owner, r: nat, n: nat)
    requires IsTrace(t)
  {
    exists since: nat, k: nat, h: nat :: r <= since && AsksWhatIsDue(t, p, since, k) && TimerCovers(t, p, k, h, n)
  }

  ghost predicate HasClosing(t: Trace, p: Owner, r: nat, n: nat)
    requires IsTrace(t) && n <= |t.events| && p in t.states[n].procs
  {
    exists l :: l in t.states[n].procs[p].lanes && !IsActive(t.states[n].procs[p].lanes[l])
             && t.states[n].procs[p].lanes[l].since >= r
  }

  /** From step `r` to step `n`, `p` is not asked for another pass. */
  ghost predicate Unasked(t: Trace, p: Owner, r: nat, n: nat)
    requires IsTrace(t) && r <= n <= |t.events|
  {
    forall i :: r <= i < n ==> t.events[i] != Request(p) && t.events[i] != Fires(p)
  }

  /** A closing lane that hears when something is due sets the timer for it, or leaves an earlier one. */
  lemma HearingArms(s: Sched, l: LaneId, now: Time, outcome: Outcome, step: nat)
    requires l in s.lanes && s.lanes[l].Closed? && !s.stopped
    ensures var after := Resume(s, l, now, outcome, step); var dueIn := s.lanes[l].dueIn;
      dueIn.Some? ==> after.timerAt.Some? && after.timerAt.value <= Max(after.backoffUntil, now + Max(dueIn.value, 0))
  {
  }

  lemma HearsWhatIsDue(t: Trace, p: Owner, r: nat, m: nat, l: LaneId)
    requires IsTrace(t) && m < |t.events| && p in t.states[m].procs
    requires t.events[m].Resumes? && t.events[m].p == p && t.events[m].l == l
    requires l in t.states[m].procs[p].lanes && t.states[m].procs[p].lanes[l].Closed?
    requires t.states[m].procs[p].lanes[l].since >= r && !t.states[m].procs[p].stopped
    ensures Covered(t, p, r, m + 1)
  {
    hide SystemInv, Next, SchedInv, Enabled, Resume, LooksInVain;
    StepOf(t, m);
    LanesRecall(t, m, p);
    NextProcs(t.states[m], t.events[m], p);
    hide IsTrace;
    var pc := t.states[m].procs[p].lanes[l];
    assert Recalls(t, m, p, pc);
    HearingArms(t.states[m].procs[p], l, t.states[m].now, t.events[m].outcome, t.states[m].steps);
    assert TimerCovers(t, p, pc.at, m, m + 1);
  }

  lemma StaysCovered(t: Trace, p: Owner, r: nat, m: nat)
    requires IsTrace(t) && m < |t.events| && Covered(t, p, r, m)
    requires Undisturbed(t, p, m, m + 1) && Unasked(t, p, m, m + 1)
    ensures Covered(t, p, r, m + 1)
  {
    StepOf(t, m);
    var e := t.events[m];
    NextProcs(t.states[m], e, p);
    hide IsTrace, SystemInv, Next, Stepped, Enabled;
    if ProcessOf(e) == Some(p) { TimerOnlySooner(t.states[m], e); }
    assert Sooner(t.states[m].procs[p], t.states[m + 1].procs[p]);
    var since: nat, k: nat, h: nat :| r <= since && AsksWhatIsDue(t, p, since, k) && TimerCovers(t, p, k, h, m);
    assert TimerCovers(t, p, k, h, m + 1);
  }

  lemma StaysClosing(t: Trace, p: Owner, r: nat, m: nat)
    requires IsTrace(t) && m < |t.events| && p in t.states[m].procs && HasClosing(t, p, r, m)
    requires Undisturbed(t, p, m, m + 1)
    ensures HasClosing(t, p, r, m + 1) || Covered(t, p, r, m + 1)
  {
    StepOf(t, m);
    TraceOnward(t, p, m, m + 1);
    var s, e := t.states[m], t.events[m];
    var l :| l in s.procs[p].lanes && !IsActive(s.procs[p].lanes[l]) && s.procs[p].lanes[l].since >= r;
    if ProcessOf(e) == Some(p) {
      ClosesInOrder(s, e, l);
      if e.Resumes? && l == e.l && s.procs[p].lanes[l].Closed? {
        HearsWhatIsDue(t, p, r, m, l);
      }
    }
  }

  lemma {:induction false} LastRequestSettles(t: Trace, p: Owner, r: nat, n: nat)
    requires IsTrace(t) && Asked(t, p, r) && r < n <= |t.events|
    requires Undisturbed(t, p, r, n) && Unasked(t, p, r + 1, n)
    ensures t.states[n].procs[p].active > 0 || HasClosing(t, p, r, n) || Covered(t, p, r, n)
    decreases n
  {
    if n == r + 1 {
      WakesAtRequest(t, p, r);
    } else {
      var m := n - 1;
      StepOf(t, m);
      TraceOnward(t, p, m, n);
      LastRequestSettles(t, p, r, m);
      var s, e := t.states[m], t.events[m];
      if Covered(t, p, r, m) {
        StaysCovered(t, p, r, m);
      } else if HasClosing(t, p, r, m) {
        StaysClosing(t, p, r, m);
      } else if ProcessOf(e) == Some(p) && t.states[n].procs[p].active < s.procs[p].active {
        EndsQuietly(s, e);
        assert t.states[n].procs[p].lanes[e.l] == Closing(m);
      }
    }
  }

  /**
   * A process that has gone to sleep since it was last asked for a pass (no lane is left, and
   * nothing was rejected) has answered every request, and its timer is set for every job it
   * does not hold itself.
   */
  lemma SleepsUntilDue(t: Trace, p: Owner, r: nat, n: nat)
    requires IsTrace(t) && Asked(t, p, r) && r < n <= |t.events|
    requires Undisturbed(t, p, r, n) && Unasked(t, p, r + 1, n)
    requires t.states[n].procs[p].lanes == map[]
    ensures forall q: nat :: q <= r && Asked(t, p, q) && Undisturbed(t, p, q, n) ==> LookedSince(t, p, q, n)
    ensures Covered(t, p, r, n)
  {
    ReachableInv(t, n);
    assert SchedInv(t.states[n].procs[p]);
    assert ActiveLanes(t.states[n].procs[p].lanes) == {};
    LastRequestSettles(t, p, r, n);
    forall q: nat | q <= r && Asked(t, p, q) && Undisturbed(t, p, q, n) ensures LookedSince(t, p, q, n) {
      RequestIsAnswered(t, p, q, n);
    }
  }
}
