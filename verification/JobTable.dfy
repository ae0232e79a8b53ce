/**
 * The `job` table of the queue (ADR-058), one statement at a time.
 *
 * A statement is what one SQL statement of the queue does to the rows, at the database's
 * own `now()`. Times are milliseconds on one clock.
 */
module JobTable {
  import opened Basics

  type JobId = nat
  type JobType = nat
  type Payload = nat
  type Owner = nat
  type Time = int

  const LEASE_MS: Time := 600 * 1000
  const MAX_ATTEMPTS: int := 3
  const RETRY_DELAY_MS: Time := 300 * 1000

  datatype Priority = High | Normal | Low

  datatype State = Ready | Dead

  datatype Row = Row(
    typ: JobType,
    payload: Payload,
    priority: Priority,
    runAt: Time,
    attempts: int,
    lockedUntil: Option<Time>,
    lockedBy: Option<Owner>,
    state: State,
    updated: Time)

  type Rows = map<JobId, Row>

  datatype Statement =
    | Insert(id: JobId, typ: JobType, payload: Payload, priority: Priority, delayMs: nat)
    | RaiseStandIn(id: JobId, typ: JobType, payload: Payload, priority: Priority, delayMs: nat)
    | Claim(owner: Owner, skipped: set<JobId>, took: Option<JobId>)
    | Extend(owner: Owner, id: JobId)
    | Complete(owner: Owner, id: JobId)
    | Fail(owner: Owner, id: JobId)
    | Release(owner: Owner, id: JobId)
    | BuryExhausted
    | RetryDead(id: JobId)
    | ReviveDead(typ: JobType, payloads: set<Payload>)
    | DeleteDead(id: JobId)
    | PruneDead(olderThanMs: nat)

  // ---- what the statements ask of a row ----

  function Rank(p: Priority): nat {
    match p
    case High => 0
    case Normal => 1
    case Low => 2
  }

  function Least(a: Priority, b: Priority): Priority {
    if Rank(a) <= Rank(b) then a else b
  }

  predicate Unleased(r: Row, now: Time) {
    r.lockedUntil.None? || r.lockedUntil.value < now
  }

  predicate Takeable(r: Row, now: Time) {
    r.state.Ready? && r.runAt <= now && r.attempts < MAX_ATTEMPTS && Unleased(r, now)
  }

  /** Its worker stopped answering on the last attempt. */
  predicate Exhausted(r: Row, now: Time) {
    r.state.Ready? && r.attempts >= MAX_ATTEMPTS && r.lockedUntil.Some? && r.lockedUntil.value < now
  }

  predicate StandsIn(r: Row, now: Time, typ: JobType, payload: Payload, delayMs: nat) {
    && r.typ == typ && r.payload == payload
    && r.state.Ready? && r.attempts == 0 && Unleased(r, now)
    && r.runAt <= now + delayMs
  }

  predicate Mine(rows: Rows, owner: Owner, id: JobId) {
    id in rows && rows[id].lockedBy == Some(owner)
  }

  predicate Revives(r: Row, typ: JobType, payloads: set<Payload>) {
    r.state.Dead? && r.typ == typ && r.payload in payloads
  }

  /** The claim's ORDER BY: priority, then due time, then id. */
  predicate Before(rows: Rows, a: JobId, b: JobId)
    requires a in rows && b in rows
  {
    var x, y := rows[a], rows[b];
    || Rank(x.priority) < Rank(y.priority)
    || (x.priority == y.priority && x.runAt < y.runAt)
    || (x.priority == y.priority && x.runAt == y.runAt && a <= b)
  }

  /** The rows a claim chooses among: those another statement has locked are skipped. */
  function Candidates(rows: Rows, now: Time, skipped: set<JobId>): set<JobId> {
    set id | id in rows && id !in skipped && Takeable(rows[id], now)
  }

  /** `took` is what the claim's sub-select answers. */
  ghost predicate Takes(rows: Rows, now: Time, skipped: set<JobId>, took: Option<JobId>) {
    var candidates := Candidates(rows, now, skipped);
    match took
    case None => candidates == {}
    case Some(id) => id in candidates && forall other :: other in candidates ==> Before(rows, id, other)
  }

  // ---- what the statements do ----

  function Taken(r: Row, now: Time, owner: Owner): Row {
    r.(lockedUntil := Some(now + LEASE_MS), lockedBy := Some(owner), attempts := r.attempts + 1, updated := now)
  }

  function Failed(r: Row, now: Time): Row {
    r.(state := if r.attempts >= MAX_ATTEMPTS then Dead else Ready, runAt := now + RETRY_DELAY_MS,
       lockedUntil := None, lockedBy := None, updated := now)
  }

  function HandedBack(r: Row, now: Time): Row {
    r.(attempts := r.attempts - 1, runAt := now, lockedUntil := None, lockedBy := None, updated := now)
  }

  function Buried(r: Row, now: Time): Row {
    r.(state := Dead, lockedUntil := None, lockedBy := None, updated := now)
  }

  function Revived(r: Row, now: Time): Row {
    r.(state := Ready, attempts := 0, runAt := now, updated := now)
  }

  /** A statement the database can run here: fresh ids, and a claim that took what it must. */
  ghost predicate Legal(rows: Rows, now: Time, st: Statement) {
    match st
    case Insert(id, _, _, _, _) => id !in rows
    case RaiseStandIn(id, typ, payload, _, delayMs) =>
      id in rows && StandsIn(rows[id], now, typ, payload, delayMs)
    case Claim(_, skipped, took) => Takes(rows, now, skipped, took)
    case _ => true
  }

  function Apply(rows: Rows, now: Time, st: Statement): Rows {
    match st
    case Insert(id, typ, payload, priority, delayMs) =>
      rows[id := Row(typ, payload, priority, now + delayMs, 0, None, None, Ready, now)]
    case RaiseStandIn(id, _, _, priority, _) =>
      if id in rows then rows[id := rows[id].(priority := Least(rows[id].priority, priority))] else rows
    case Claim(owner, _, took) =>
      if took.Some? && took.value in rows
      then rows[took.value := Taken(rows[took.value], now, owner)] else rows
    case Extend(owner, id) =>
      if Mine(rows, owner, id) then rows[id := rows[id].(lockedUntil := Some(now + LEASE_MS))] else rows
    case Complete(owner, id) =>
      if Mine(rows, owner, id) then rows - {id} else rows
    case Fail(owner, id) =>
      if Mine(rows, owner, id) then rows[id := Failed(rows[id], now)] else rows
    case Release(owner, id) =>
      if Mine(rows, owner, id) then rows[id := HandedBack(rows[id], now)] else rows
    case BuryExhausted =>
      map id | id in rows :: if Exhausted(rows[id], now) then Buried(rows[id], now) else rows[id]
    case RetryDead(id) =>
      if id in rows && rows[id].state.Dead? then rows[id := Revived(rows[id], now)] else rows
    case ReviveDead(typ, payloads) =>
      map id | id in rows :: if Revives(rows[id], typ, payloads) then Revived(rows[id], now) else rows[id]
    case DeleteDead(id) =>
      if id in rows && rows[id].state.Dead? then rows - {id} else rows
    case PruneDead(olderThanMs) =>
      map id | id in rows && !(rows[id].state.Dead? && rows[id].updated < now - olderThanMs) :: rows[id]
  }

  // ---- the table's invariant ----

  predicate RowInv(r: Row) {
    && (r.lockedUntil.Some? <==> r.lockedBy.Some?)
    && 0 <= r.attempts <= MAX_ATTEMPTS
    && (r.lockedUntil.Some? ==> r.state.Ready? && 1 <= r.attempts)
    && (r.state.Dead? ==> r.attempts == MAX_ATTEMPTS)
    && (r.state.Ready? && r.lockedUntil.None? ==> r.attempts < MAX_ATTEMPTS)
  }

  ghost predicate TableInv(rows: Rows) {
    forall id :: id in rows ==> RowInv(rows[id])
  }

  lemma StatementKeepsInv(rows: Rows, now: Time, st: Statement)
    requires TableInv(rows) && Legal(rows, now, st)
    ensures TableInv(Apply(rows, now, st))
  {
    var after := Apply(rows, now, st);
    forall id | id in after ensures RowInv(after[id]) {
      assert id in rows ==> RowInv(rows[id]);
    }
  }

  /** When a ready row stops waiting: its due time, or the end of its lease if later. */
  function ReadyAt(r: Row): Time {
    match r.lockedUntil
    case None => r.runAt
    case Some(until) => Max(r.runAt, until)
  }

  /** No ready job is ever stuck: once its time has passed it is claimable or buriable, never both, and before that it cannot be claimed. */
  lemma NoneStuck(rows: Rows, id: JobId, now: Time)
    requires TableInv(rows) && id in rows && rows[id].state.Ready?
    ensures now > ReadyAt(rows[id]) ==> (Takeable(rows[id], now) <==> !Exhausted(rows[id], now))
    ensures now < ReadyAt(rows[id]) ==> !Takeable(rows[id], now)
  {
    assert RowInv(rows[id]);
  }

  // ---- a claim has exactly one answer ----

  lemma {:induction false} FirstExists(rows: Rows, candidates: set<JobId>) returns (first: JobId)
    requires candidates != {} && forall id :: id in candidates ==> id in rows
    ensures first in candidates && forall other :: other in candidates ==> Before(rows, first, other)
    decreases |candidates|
  {
    var id :| id in candidates;
    var rest := candidates - {id};
    if rest == {} {
      assert candidates == {id};
      first := id;
    } else {
      var least := FirstExists(rows, rest);
      first := if Before(rows, id, least) then id else least;
      forall other | other in candidates ensures Before(rows, first, other) {
        if other != id { assert other in rest; }
      }
    }
  }

  /** For any rows and any rows locked elsewhere, a claim takes one definite row or none. */
  lemma ClaimIsDetermined(rows: Rows, now: Time, skipped: set<JobId>)
    ensures exists took :: Takes(rows, now, skipped, took)
    ensures forall a, b :: Takes(rows, now, skipped, a) && Takes(rows, now, skipped, b) ==> a == b
  {
    var candidates := Candidates(rows, now, skipped);
    if candidates == {} {
      assert Takes(rows, now, skipped, None);
    } else {
      var first := FirstExists(rows, candidates);
      assert Takes(rows, now, skipped, Some(first));
    }
    forall a, b | Takes(rows, now, skipped, a) && Takes(rows, now, skipped, b) ensures a == b {
      if a.Some? && b.Some? {
        assert Before(rows, a.value, b.value) && Before(rows, b.value, a.value);
      }
    }
  }

  // ---- whole histories of statements ----

  datatype Entry = Entry(now: Time, st: Statement)

  function Replay(start: Rows, log: seq<Entry>): Rows {
    if log == [] then start
    else Apply(Replay(start, log[..|log| - 1]), log[|log| - 1].now, log[|log| - 1].st)
  }

  ghost predicate LegalLog(start: Rows, log: seq<Entry>) {
    forall k :: 0 <= k < |log| ==> Legal(Replay(start, log[..k]), log[k].now, log[k].st)
  }

  lemma LegalPrefix(start: Rows, log: seq<Entry>)
    requires LegalLog(start, log) && log != []
    ensures LegalLog(start, log[..|log| - 1])
    ensures Legal(Replay(start, log[..|log| - 1]), log[|log| - 1].now, log[|log| - 1].st)
  {
    var front := log[..|log| - 1];
    forall k | 0 <= k < |front| ensures Legal(Replay(start, front[..k]), front[k].now, front[k].st) {
      assert front[..k] == log[..k];
    }
  }

  /** Every history of statements, by any number of owners, keeps the table's invariant. */
  lemma {:induction false} HistoryKeepsInv(start: Rows, log: seq<Entry>)
    requires TableInv(start) && LegalLog(start, log)
    ensures TableInv(Replay(start, log))
  {
    if log != [] {
      LegalPrefix(start, log);
      HistoryKeepsInv(start, log[..|log| - 1]);
      StatementKeepsInv(Replay(start, log[..|log| - 1]), log[|log| - 1].now, log[|log| - 1].st);
    }
  }

  /** How often a job was claimed and handed back since it was written or last revived. */
  datatype Tally = Tally(claims: nat, handBacks: nat)

  predicate Restarts(rows: Rows, st: Statement, id: JobId) {
    || (st.Insert? && st.id == id)
    || (st.RetryDead? && st.id == id && id in rows && rows[id].state.Dead?)
    || (st.ReviveDead? && id in rows && Revives(rows[id], st.typ, st.payloads))
  }

  function TallyOf(log: seq<Entry>, id: JobId): Tally {
    if log == [] then Tally(0, 0)
    else
      var front := log[..|log| - 1];
      var st := log[|log| - 1].st;
      var tally := TallyOf(front, id);
      var rows := Replay(map[], front);
      if Restarts(rows, st, id) then Tally(0, 0)
      else if st.Claim? && st.took == Some(id) then tally.(claims := tally.claims + 1)
      else if st.Release? && st.id == id && Mine(rows, st.owner, id)
      then tally.(handBacks := tally.handBacks + 1)
      else tally
  }

  /** What one statement does to the attempts of a row that was there before it. */
  lemma AttemptsMove(rows: Rows, now: Time, st: Statement, id: JobId)
    requires TableInv(rows) && Legal(rows, now, st)
    requires id in rows && id in Apply(rows, now, st)
    ensures Restarts(rows, st, id) ==> Apply(rows, now, st)[id].attempts == 0
    ensures !Restarts(rows, st, id) ==>
      Apply(rows, now, st)[id].attempts == rows[id].attempts
        + (if st.Claim? && st.took == Some(id) then 1 else 0)
        - (if st.Release? && st.id == id && Mine(rows, st.owner, id) then 1 else 0)
  {
  }

  /** Only a row just written was not there before. */
  lemma AppearsFresh(rows: Rows, now: Time, st: Statement, id: JobId)
    requires Legal(rows, now, st) && id !in rows && id in Apply(rows, now, st)
    ensures st.Insert? && st.id == id && Apply(rows, now, st)[id].attempts == 0
  {
  }

  /**
   * A row's attempts are its claims less its hand-backs, so it is claimed at most
   * MAX_ATTEMPTS times plus once for each hand-back.
   */
  lemma {:induction false} AttemptsAccounted(log: seq<Entry>, id: JobId)
    requires LegalLog(map[], log) && id in Replay(map[], log)
    ensures TallyOf(log, id).claims - TallyOf(log, id).handBacks == Replay(map[], log)[id].attempts <= MAX_ATTEMPTS
  {
    HistoryKeepsInv(map[], log);
    assert RowInv(Replay(map[], log)[id]);
    var front, last := log[..|log| - 1], log[|log| - 1];
    LegalPrefix(map[], log);
    HistoryKeepsInv(map[], front);
    var rows := Replay(map[], front);
    if id in rows {
      AttemptsAccounted(front, id);
      AttemptsMove(rows, last.now, last.st, id);
    } else {
      AppearsFresh(rows, last.now, last.st, id);
    }
  }

  /** Past a row's end too: an id not in the table is neither claimed nor handed back. */
  lemma {:induction false} ClaimsBounded(log: seq<Entry>, id: JobId)
    requires LegalLog(map[], log)
    ensures TallyOf(log, id).claims <= MAX_ATTEMPTS + TallyOf(log, id).handBacks
  {
    if log != [] {
      var front := log[..|log| - 1];
      LegalPrefix(map[], log);
      ClaimsBounded(front, id);
      if id in Replay(map[], log) {
        AttemptsAccounted(log, id);
      } else if id in Replay(map[], front) {
        AttemptsAccounted(front, id);
      }
    }
  }

  /** The statements a process sends about one job it once took. */
  predicate SentFor(st: Statement, owner: Owner, id: JobId) {
    match st
    case Extend(o, i) => o == owner && i == id
    case Complete(o, i) => o == owner && i == id
    case Fail(o, i) => o == owner && i == id
    case Release(o, i) => o == owner && i == id
    case _ => false
  }

  ghost predicate NeverClaims(log: seq<Entry>, owner: Owner, id: JobId) {
    forall k :: 0 <= k < |log| && log[k].st.Claim? && log[k].st.owner == owner ==> log[k].st.took != Some(id)
  }

  /**
   * A process whose job another has claimed (or that was closed under it) is fenced out:
   * through any history in which it does not claim the job again, nothing it sends about
   * the job changes a row.
   */
  lemma {:induction false} DisplacedIsFenced(start: Rows, log: seq<Entry>, owner: Owner, id: JobId)
    requires !Mine(start, owner, id) && NeverClaims(log, owner, id)
    ensures !Mine(Replay(start, log), owner, id)
    ensures forall k :: 0 <= k < |log| && SentFor(log[k].st, owner, id) ==>
      Replay(start, log[..k + 1]) == Replay(start, log[..k])
  {
    if log != [] {
      var n := |log| - 1;
      var front := log[..n];
      DisplacedIsFenced(start, front, owner, id);
      forall k | 0 <= k < |log| && SentFor(log[k].st, owner, id)
        ensures Replay(start, log[..k + 1]) == Replay(start, log[..k])
      {
        assert log[..k + 1][..k] == log[..k];
        if k < n {
          assert front[..k + 1] == log[..k + 1] && front[..k] == log[..k];
        } else {
          assert log[..k + 1] == log;
        }
      }
    }
  }

  /** A row leaves the table by its lease-holder's completion, or as a dead row deleted or pruned. */
  lemma LeavesOnly(rows: Rows, now: Time, st: Statement, id: JobId)
    requires id in rows && id !in Apply(rows, now, st)
    ensures (st.Complete? && st.id == id && rows[id].lockedBy == Some(st.owner))
         || (rows[id].state.Dead? && ((st.DeleteDead? && st.id == id) || st.PruneDead?))
  {
  }

  // ---- what the callers of single statements are promised ----

  /** No job that could be taken is more urgent than the one a claim takes, or as urgent and due sooner. */
  lemma ClaimTakesMostUrgent(rows: Rows, now: Time, skipped: set<JobId>, id: JobId, other: JobId)
    requires Takes(rows, now, skipped, Some(id))
    requires other in rows && other !in skipped && Takeable(rows[other], now)
    ensures rows[other].priority == High ==> rows[id].priority == High
    ensures rows[other].priority == Normal ==> rows[id].priority != Low
    ensures rows[other].priority == rows[id].priority ==> rows[id].runAt <= rows[other].runAt
  {
    assert other in Candidates(rows, now, skipped);
  }

  /** A job of this type and payload that is to run no later than this, and is no less urgent. */
  predicate Serves(r: Row, typ: JobType, payload: Payload, priority: Priority, latest: Time) {
    && r.typ == typ && r.payload == payload && r.state.Ready? && r.attempts == 0 && r.runAt <= latest
    && (priority == High ==> r.priority == High) && (priority == Normal ==> r.priority != Low)
  }

  /** A job stands in for another exactly if it waits, never taken yet, for the same to be done no later. */
  lemma StandsInExactly(rows: Rows, now: Time, id: JobId, typ: JobType, payload: Payload, delayMs: nat)
    requires TableInv(rows) && id in rows
    ensures StandsIn(rows[id], now, typ, payload, delayMs) <==> Serves(rows[id], typ, payload, Low, now + delayMs)
  {
    assert RowInv(rows[id]);
  }

  /** A row that stands in for a job asked for serves it as a row of its own would, and is not made less urgent by it. */
  lemma StandInServes(rows: Rows, now: Time, id: JobId, typ: JobType, payload: Payload, priority: Priority, delayMs: nat)
    requires Legal(rows, now, RaiseStandIn(id, typ, payload, priority, delayMs))
    ensures var after := Apply(rows, now, RaiseStandIn(id, typ, payload, priority, delayMs));
      && after.Keys == rows.Keys && (forall other :: other in rows && other != id ==> after[other] == rows[other])
      && Serves(after[id], typ, payload, priority, now + delayMs)
      && Serves(after[id], typ, payload, rows[id].priority, now + delayMs)
      && after[id] == rows[id].(priority := after[id].priority)
      && (after[id].priority == rows[id].priority || after[id].priority == priority)
  {
  }

  /** A new row serves the job asked for, and may be taken as soon as its delay is over. */
  lemma InsertServes(rows: Rows, now: Time, id: JobId, typ: JobType, payload: Payload, priority: Priority, delayMs: nat, later: Time)
    requires id !in rows
    ensures var after := Apply(rows, now, Insert(id, typ, payload, priority, delayMs));
      && after.Keys == rows.Keys + {id} && (forall other :: other in rows ==> after[other] == rows[other])
      && Serves(after[id], typ, payload, priority, now + delayMs)
      && (Takeable(after[id], later) <==> now + delayMs <= later)
  {
  }

  /** Retrying, or reviving, leaves every other row alone and makes the dead ones meant ready to be taken at once, with all their attempts. */
  lemma RevivedStartOver(rows: Rows, now: Time, st: Statement, id: JobId)
    requires TableInv(rows) && (st.RetryDead? || st.ReviveDead?)
    ensures Apply(rows, now, st).Keys == rows.Keys
    ensures id in rows ==>
      var meant := rows[id].state.Dead?
        && if st.RetryDead? then st.id == id else rows[id].typ == st.typ && rows[id].payload in st.payloads;
      if meant then Takeable(Apply(rows, now, st)[id], now) && Apply(rows, now, st)[id].attempts == 0
                    && Apply(rows, now, st)[id].priority == rows[id].priority
      else Apply(rows, now, st)[id] == rows[id]
  {
    assert id in rows ==> RowInv(rows[id]);
  }

  /** Deleting a job deletes it if it is dead, and nothing otherwise. */
  lemma DeletesDead(rows: Rows, now: Time, id: JobId)
    ensures Apply(rows, now, DeleteDead(id)) == if id in rows && rows[id].state == Dead then rows - {id} else rows
  {
  }

  /** By entry `k` of the history the row came to be dead, and it has been dead since. */
  ghost predicate DiedAt(log: seq<Entry>, k: nat, id: JobId) {
    && k < |log| && !DeadIn(Replay(map[], log[..k]), id)
    && forall j :: k < j <= |log| ==> DeadIn(Replay(map[], log[..j]), id)
  }

  predicate DeadIn(rows: Rows, id: JobId) { id in rows && rows[id].state.Dead? }

  /** What a statement makes of a dead row: one it makes dead is dated, one that was dead keeps its date. */
  lemma DeadDated(rows: Rows, now: Time, st: Statement, id: JobId)
    requires TableInv(rows) && Legal(rows, now, st) && DeadIn(Apply(rows, now, st), id)
    ensures id in rows
    ensures Apply(rows, now, st)[id].updated == if DeadIn(rows, id) then rows[id].updated else now
  {
    assert id in rows ==> RowInv(rows[id]);
  }

  /** A dead row's date is the time it died. */
  lemma {:induction false} DeadSince(log: seq<Entry>, id: JobId) returns (k: nat)
    requires LegalLog(map[], log) && DeadIn(Replay(map[], log), id)
    ensures DiedAt(log, k, id) && Replay(map[], log)[id].updated == log[k].now
  {
    var n := |log| - 1;
    var front := log[..n];
    LegalPrefix(map[], log);
    HistoryKeepsInv(map[], front);
    DeadDated(Replay(map[], front), log[n].now, log[n].st, id);
    assert Replay(map[], log) == Apply(Replay(map[], front), log[n].now, log[n].st);
    hide Apply, LegalLog, TableInv, Replay, DiedAt;
    if DeadIn(Replay(map[], front), id) {
      k := DeadSince(front, id);
      DeadLonger(log, k, id);
    } else {
      k := n;
      DeadFromLast(log, id);
    }
  }

  lemma DeadLonger(log: seq<Entry>, k: nat, id: JobId)
    requires log != [] && DiedAt(log[..|log| - 1], k, id) && DeadIn(Replay(map[], log), id)
    ensures DiedAt(log, k, id)
  {
    hide Replay, DeadIn;
    var front := log[..|log| - 1];
    assert front[..k] == log[..k] && log[..|log|] == log;
    forall j | k < j <= |log| ensures DeadIn(Replay(map[], log[..j]), id) {
      if j < |log| { assert front[..j] == log[..j]; }
    }
  }

  lemma DeadFromLast(log: seq<Entry>, id: JobId)
    requires log != [] && !DeadIn(Replay(map[], log[..|log| - 1]), id) && DeadIn(Replay(map[], log), id)
    ensures DiedAt(log, |log| - 1, id)
  {
    hide Replay, DeadIn;
    assert log[..|log|] == log;
  }

  /** Pruning deletes exactly the rows that died longer ago than it is told. */
  lemma PrunesLongDead(log: seq<Entry>, now: Time, olderThanMs: nat, id: JobId)
    requires LegalLog(map[], log) && id in Replay(map[], log)
    ensures id !in Apply(Replay(map[], log), now, PruneDead(olderThanMs))
      <==> exists k: nat :: DiedAt(log, k, id) && now - log[k].now > olderThanMs
  {
    if DeadIn(Replay(map[], log), id) {
      var k := DeadSince(log, id);
      forall j | DiedAt(log, j, id) ensures j == k {
        DiedOnce(log, j, k, id);
      }
    } else {
      assert log[..|log|] == log;
    }
  }

  lemma DiedOnce(log: seq<Entry>, j: nat, k: nat, id: JobId)
    requires DiedAt(log, j, id) && DiedAt(log, k, id)
    ensures j == k
  {
  }
}
