/** The versioned job rows and the store statements `DataJobV2Service` issues.
    `transition` and `complete` read a row, then write it under a guard; the two halves are
    separate here so that other statements can run between them. */
module DataJobs {
  import opened Contracts

  datatype JobState = PENDING | DISPATCHED | RUNNING | COMPLETED | FAILED | TIMED_OUT | CANCELLED

  predicate IsActive(s: JobState) { s in {PENDING, DISPATCHED, RUNNING} }

  predicate IsTerminal(s: JobState) { s in {COMPLETED, FAILED, TIMED_OUT, CANCELLED} }

  /** PENDING < DISPATCHED < RUNNING < every terminal state. */
  function Rank(s: JobState): nat {
    match s
    case PENDING => 0
    case DISPATCHED => 1
    case RUNNING => 2
    case _ => 3
  }

  /** The hash of a canonical request, or of a campaign and such a hash. SHA-256 is taken as
      injective, so a fingerprint is its own pre-image. */
  datatype Fingerprint = Semantic(text: string) | Campaign(id: string, of: string)

  /** A query result, by the replies it is made of: validation, normalization and the join are
      functions of the rows and of the comparison's rows. */
  datatype QueryResult = QueryResult(queryId: QueryId, rows: string, previous: Option<string>)

  datatype Permission = Permission(action: string, resource: string)

  const CERTIFICATION := Permission("execute", "data_certification")

  datatype Row = Row(
    org: Organization,
    fingerprint: Fingerprint,
    queryId: QueryId,
    requestId: string,
    permission: Permission,
    state: JobState,
    version: nat,
    agent: Option<AgentId>,
    errorCode: Option<ErrorCode>,
    createdAt: Instant,
    dispatchDeadline: Instant,
    dispatchedAt: Option<Instant>,
    startedAt: Option<Instant>,
    executionDeadline: Option<Instant>,
    finishedAt: Option<Instant>,
    result: Option<QueryResult>,
    resultExpires: Option<Instant>)

  type Rows = map<JobId, Row>

  const DISPATCH_MS := 15000
  const EXECUTION_MS := 30000
  const RETENTION_MS := 300000

  function NewRow(org: Organization, fingerprint: Fingerprint, queryId: QueryId, requestId: string,
                  permission: Permission, now: Instant): Row {
    Row(org, fingerprint, queryId, requestId, permission, PENDING, 0, None, None, now, now + DISPATCH_MS,
        None, None, None, None, None, None)
  }

  // ---------------------------------------------------------------- single statements

  /** The partial unique index on active rows of one organization and fingerprint. */
  predicate Collides(rows: Rows, org: Organization, fingerprint: Fingerprint) {
    exists id :: id in rows && Clashes(rows[id], org, fingerprint)
  }

  predicate Clashes(row: Row, org: Organization, fingerprint: Fingerprint) {
    IsActive(row.state) && row.org == org && row.fingerprint == fingerprint
  }

  predicate Reusable(row: Row, org: Organization, fingerprint: Fingerprint, now: Instant) {
    row.org == org && row.fingerprint == fingerprint && Retained(row, now)
  }

  predicate Retained(row: Row, now: Instant) {
    row.state == COMPLETED && row.resultExpires.Some? && row.resultExpires.value > now
  }

  /** A guarded write: the argument sets of `transition`, and `complete`. */
  datatype Write =
    | Transition(allowed: set<JobState>, next: JobState, agent: Option<AgentId>, code: Option<ErrorCode>)
    | Complete(result: QueryResult, agent: Option<AgentId>)

  /** The argument sets that occur in the engine. */
  function Dispatch(agent: Option<AgentId>): Write { Transition({PENDING}, DISPATCHED, agent, None) }
  function Start(): Write { Transition({DISPATCHED}, RUNNING, None, None) }
  function Acknowledge(agent: AgentId): Write { Transition({DISPATCHED}, RUNNING, Some(agent), None) }
  function Cancel(): Write { Transition({PENDING, DISPATCHED, RUNNING}, CANCELLED, None, None) }
  function Abort(code: ErrorCode): Write {
    Transition({PENDING, DISPATCHED, RUNNING}, if code == QUERY_TIMEOUT then TIMED_OUT else FAILED, None, Some(code))
  }

  predicate Issued(w: Write) {
    || w.Complete?
    || w == Start() || w == Cancel()
    || w == Dispatch(w.agent)
    || (w.agent.Some? && w == Acknowledge(w.agent.value))
    || (w.code.Some? && w == Abort(w.code.value))
  }

  function Allowed(w: Write): set<JobState> {
    if w.Transition? then w.allowed else {DISPATCHED, RUNNING}
  }

  function Target(w: Write): JobState {
    if w.Transition? then w.next else COMPLETED
  }

  /** The agent a write insists on: DISPATCHED assigns the agent instead of checking it. */
  function RequiredAgent(w: Write): Option<AgentId> {
    if w.Complete? then w.agent else if w.next == DISPATCHED then None else w.agent
  }

  /** The tests `transition` and `complete` make on the row they read. */
  predicate Admits(row: Row, w: Write) {
    row.state in Allowed(w) && (RequiredAgent(w).Some? ==> row.agent == RequiredAgent(w))
  }

  function Written(row: Row, w: Write, now: Instant): Row {
    var base := row.(state := Target(w), version := row.version + 1);
    match w
    case Complete(result, _) =>
      base.(finishedAt := Some(now), result := Some(result), resultExpires := Some(now + RETENTION_MS))
    case Transition(_, next, agent, code) =>
      var coded := if code.Some? then base.(errorCode := code) else base;
      if next == DISPATCHED then
        coded.(agent := if agent.Some? then agent else row.agent, dispatchedAt := Some(now))
      else if next == RUNNING then
        coded.(startedAt := Some(now), executionDeadline := Some(now + EXECUTION_MS))
      else if IsTerminal(next) then coded.(finishedAt := Some(now))
      else coded
  }

  /** What the read half answers. */
  datatype Ticket = Missing | Refused(row: Row) | Proceed(row: Row)

  function ReadHalf(rows: Rows, id: JobId, org: Organization, w: Write): Ticket {
    if id !in rows || rows[id].org != org then Missing
    else if Admits(rows[id], w) then Proceed(rows[id])
    else Refused(rows[id])
  }

  /** The `where` clause of the write half, with the version read before. */
  predicate Guard(rows: Rows, id: JobId, org: Organization, version: nat, w: Write) {
    id in rows && rows[id].org == org && rows[id].version == version && Admits(rows[id], w)
  }

  function WriteHalf(rows: Rows, id: JobId, org: Organization, version: nat, w: Write, now: Instant): Rows {
    if Guard(rows, id, org, version, w) then rows[id := Written(rows[id], w, now)] else rows
  }

  predicate DispatchOverdue(row: Row, now: Instant) {
    row.state in {PENDING, DISPATCHED} && row.dispatchDeadline < now
  }

  predicate ExecutionOverdue(row: Row, now: Instant) {
    row.state == RUNNING && row.executionDeadline.Some? && row.executionDeadline.value < now
  }

  predicate ResultOverdue(row: Row, now: Instant) {
    row.resultExpires.Some? && row.resultExpires.value < now && row.result.Some?
  }

  function TimedOut(row: Row, now: Instant): Row {
    row.(state := TIMED_OUT, errorCode := Some(QUERY_TIMEOUT), finishedAt := Some(now), version := row.version + 1)
  }

  function ExpireDispatch(rows: Rows, now: Instant): Rows {
    map id | id in rows :: if DispatchOverdue(rows[id], now) then TimedOut(rows[id], now) else rows[id]
  }

  function ExpireExecution(rows: Rows, now: Instant): Rows {
    map id | id in rows :: if ExecutionOverdue(rows[id], now) then TimedOut(rows[id], now) else rows[id]
  }

  function ScrubResults(rows: Rows, now: Instant): Rows {
    map id | id in rows :: if ResultOverdue(rows[id], now) then rows[id].(result := None) else rows[id]
  }

  // ---------------------------------------------------------------- how a row may change

  /** What no statement ever breaks on one row. */
  predicate RowSound(row: Row) {
    && row.version <= Rank(row.state)
    && row.dispatchDeadline == row.createdAt + 15000
    && (row.state == PENDING ==> row.agent.None? && row.version == 0)
    && (row.result.Some? ==> row.state == COMPLETED)
    && (row.resultExpires.Some? <==> row.state == COMPLETED)
    && (row.finishedAt.Some? <==> IsTerminal(row.state))
    && (row.state == COMPLETED ==> row.resultExpires == Some(row.finishedAt.value + 300000))
    && (row.state == RUNNING ==> row.startedAt.Some? && row.executionDeadline == Some(row.startedAt.value + 30000))
    && (row.state == DISPATCHED ==> row.dispatchedAt.Some? && row.version == 1)
  }

  /** `next` is a later reading of `row`: identity fixed, the state only climbs and is frozen once
      terminal, an assigned agent stays, each change of state raises the version, and a stored
      result is only ever removed. */
  predicate Later(row: Row, next: Row) {
    && next.org == row.org && next.fingerprint == row.fingerprint && next.queryId == row.queryId
    && next.requestId == row.requestId && next.permission == row.permission && next.createdAt == row.createdAt
    && next.dispatchDeadline == row.dispatchDeadline
    && Rank(row.state) <= Rank(next.state) && row.version <= next.version
    && (next.version == row.version ==> next == row || (row.state == COMPLETED && next == row.(result := None)))
    && (next.version > row.version ==> Rank(row.state) < Rank(next.state))
    && (row.agent.Some? ==> next.agent == row.agent)
    && (IsTerminal(row.state) ==> next == row || next == row.(result := None))
  }

  predicate AllSound(rows: Rows) { forall id :: id in rows ==> RowSound(rows[id]) }

  predicate LaterRows(rows: Rows, next: Rows) {
    forall id :: id in rows ==> id in next && Later(rows[id], next[id])
  }

  predicate OneActive(rows: Rows) {
    forall i, j :: i in rows && j in rows && i != j && IsActive(rows[i].state) && IsActive(rows[j].state) ==>
      rows[i].org != rows[j].org || rows[i].fingerprint != rows[j].fingerprint
  }

  lemma LaterIsTransitive(a: Row, b: Row, c: Row)
    requires Later(a, b) && Later(b, c)
    ensures Later(a, c)
  {
  }

  /** A guarded write that the engine issues climbs by at least one rank. */
  lemma WriteClimbs(row: Row, w: Write, now: Instant)
    requires RowSound(row) && Issued(w) && Admits(row, w)
    ensures RowSound(Written(row, w, now)) && Later(row, Written(row, w, now))
    ensures Rank(row.state) < Rank(Written(row, w, now).state)
    ensures Written(row, w, now).version == row.version + 1
  {
    if w.Complete? {
    } else if w == Start() {
    } else if w == Cancel() {
    } else if w == Dispatch(w.agent) {
    } else if w.agent.Some? {
    } else {
      assert w == Abort(w.code.value);
    }
  }

  /** Versions stop at 3, one for each climb. */
  lemma VersionsAreBounded(row: Row)
    requires RowSound(row)
    ensures row.version <= 3
    ensures IsActive(row.state) ==> row.version < 3
  {
  }

  /** Rows that only move forward cannot become active again, so uniqueness of the active row survives. */
  lemma LaterKeepsOneActive(rows: Rows, next: Rows)
    requires OneActive(rows) && LaterRows(rows, next) && next.Keys == rows.Keys
    ensures OneActive(next)
  {
    forall i, j | i in next && j in next && i != j && IsActive(next[i].state) && IsActive(next[j].state)
      ensures next[i].org != next[j].org || next[i].fingerprint != next[j].fingerprint
    {
      assert Later(rows[i], next[i]) && Later(rows[j], next[j]);
    }
  }

  /** What each write of the engine asks of a row and makes of it, field by field. */
  lemma WritesByField(row: Row, agent: AgentId, claimant: Option<AgentId>, code: ErrorCode, result: QueryResult,
                      now: Instant)
    ensures Admits(row, Dispatch(claimant)) <==> row.state == PENDING
    ensures Admits(row, Start()) <==> row.state == DISPATCHED
    ensures Admits(row, Acknowledge(agent)) <==> row.state == DISPATCHED && row.agent == Some(agent)
    ensures Admits(row, Cancel()) <==> row.state in {PENDING, DISPATCHED, RUNNING}
    ensures Admits(row, Abort(code)) <==> row.state in {PENDING, DISPATCHED, RUNNING}
    ensures Admits(row, Complete(result, None)) <==> row.state in {DISPATCHED, RUNNING}
    ensures var next := row.(version := row.version + 1);
      && Written(row, Dispatch(claimant), now) ==
         next.(state := DISPATCHED, agent := if claimant.Some? then claimant else row.agent, dispatchedAt := Some(now))
      && Written(row, Start(), now) == Written(row, Acknowledge(agent), now) ==
         next.(state := RUNNING, startedAt := Some(now), executionDeadline := Some(now + 30000))
      && Written(row, Cancel(), now) == next.(state := CANCELLED, finishedAt := Some(now))
      && Written(row, Abort(code), now) ==
         next.(state := if code == QUERY_TIMEOUT then TIMED_OUT else FAILED, errorCode := Some(code),
               finishedAt := Some(now))
      && Written(row, Complete(result, None), now) ==
         next.(state := COMPLETED, finishedAt := Some(now), result := Some(result), resultExpires := Some(now + 300000))
  {
  }

  lemma WriteHalfKeepsRows(rows: Rows, id: JobId, org: Organization, version: nat, w: Write, now: Instant)
    requires AllSound(rows) && OneActive(rows) && Issued(w)
    ensures var r := WriteHalf(rows, id, org, version, w, now);
      AllSound(r) && LaterRows(rows, r) && OneActive(r) && r.Keys == rows.Keys
  {
    hide Issued;
    hide OneActive;
    hide Admits;
    hide Written;
    if Guard(rows, id, org, version, w) {
      WriteClimbs(rows[id], w, now);
      OneRowMoves(rows, id, Written(rows[id], w, now));
      LaterKeepsOneActive(rows, WriteHalf(rows, id, org, version, w, now));
    } else {
      NoRowMoves(rows);
    }
  }

  lemma OneRowMoves(rows: Rows, id: JobId, row: Row)
    requires AllSound(rows) && id in rows && RowSound(row) && Later(rows[id], row)
    ensures AllSound(rows[id := row]) && LaterRows(rows, rows[id := row])
  {
    hide RowSound;
    NoRowMoves(rows);
    hide Later;
  }

  lemma NoRowMoves(rows: Rows)
    ensures LaterRows(rows, rows)
  {
  }

  lemma TimingOutClimbs(row: Row, now: Instant)
    requires RowSound(row) && IsActive(row.state)
    ensures RowSound(TimedOut(row, now)) && Later(row, TimedOut(row, now))
  {
  }

  lemma ExpireDispatchKeepsRows(rows: Rows, now: Instant)
    requires AllSound(rows) && OneActive(rows)
    ensures var r := ExpireDispatch(rows, now); AllSound(r) && LaterRows(rows, r) && OneActive(r)
  {
    var r := ExpireDispatch(rows, now);
    forall id | id in rows ensures RowSound(r[id]) && Later(rows[id], r[id]) {
      if DispatchOverdue(rows[id], now) { TimingOutClimbs(rows[id], now); }
    }
    LaterKeepsOneActive(rows, r);
  }

  lemma ExpireExecutionKeepsRows(rows: Rows, now: Instant)
    requires AllSound(rows) && OneActive(rows)
    ensures var r := ExpireExecution(rows, now); AllSound(r) && LaterRows(rows, r) && OneActive(r)
  {
    var r := ExpireExecution(rows, now);
    forall id | id in rows ensures RowSound(r[id]) && Later(rows[id], r[id]) {
      if ExecutionOverdue(rows[id], now) { TimingOutClimbs(rows[id], now); }
    }
    LaterKeepsOneActive(rows, r);
  }

  lemma ScrubKeepsRows(rows: Rows, now: Instant)
    requires AllSound(rows) && OneActive(rows)
    ensures var r := ScrubResults(rows, now); AllSound(r) && LaterRows(rows, r) && OneActive(r)
  {
    var r := ScrubResults(rows, now);
    forall id | id in rows ensures RowSound(r[id]) && Later(rows[id], r[id]) {
    }
    LaterKeepsOneActive(rows, r);
  }

  lemma LaterRowsIsTransitive(a: Rows, b: Rows, c: Rows)
    requires LaterRows(a, b) && LaterRows(b, c)
    ensures LaterRows(a, c)
  {
    forall id | id in a ensures id in c && Later(a[id], c[id]) {
      LaterIsTransitive(a[id], b[id], c[id]);
    }
  }

  /** The version check makes the pair of halves one atomic step: given any later reading of the
      row, the write goes through exactly when nothing has changed it since it was read, and it
      then does what an uninterrupted read and write would do at that moment. */
  lemma HalvesAreAtomic(before: Rows, rows: Rows, id: JobId, org: Organization, w: Write, now: Instant)
    requires ReadHalf(before, id, org, w).Proceed? && Issued(w)
    requires AllSound(before) && LaterRows(before, rows)
    ensures var seen := ReadHalf(before, id, org, w).row;
      && (Guard(rows, id, org, seen.version, w) <==> rows[id] == seen)
      && (rows[id] == seen ==>
            ReadHalf(rows, id, org, w) == Proceed(seen) &&
            WriteHalf(rows, id, org, seen.version, w, now) == rows[id := Written(seen, w, now)])
      && (rows[id] != seen ==>
            seen.version < rows[id].version && WriteHalf(rows, id, org, seen.version, w, now) == rows)
  {
    assert Later(before[id], rows[id]);
  }

  /** The three statements of `expireDueJobs`. */
  function Swept(rows: Rows, now: Instant): Rows {
    ScrubResults(ExpireExecution(ExpireDispatch(rows, now), now), now)
  }

  lemma SweptKeepsRows(rows: Rows, now: Instant)
    requires AllSound(rows) && OneActive(rows)
    ensures var r := Swept(rows, now); AllSound(r) && LaterRows(rows, r) && OneActive(r) && r.Keys == rows.Keys
  {
    var a := ExpireDispatch(rows, now);
    var b := ExpireExecution(a, now);
    ExpireDispatchKeepsRows(rows, now);
    ExpireExecutionKeepsRows(a, now);
    ScrubKeepsRows(b, now);
    LaterRowsIsTransitive(rows, a, b);
    LaterRowsIsTransitive(rows, b, ScrubResults(b, now));
  }

  /** A completed job keeps its result for five minutes. */
  lemma RetainedForFiveMinutes(row: Row, org: Organization, fingerprint: Fingerprint, now: Instant)
    requires RowSound(row)
    ensures Reusable(row, org, fingerprint, now) <==>
      && row.org == org && row.fingerprint == fingerprint
      && row.state == COMPLETED && now < row.finishedAt.value + 300000
  {
  }

  /** The row is past the deadline of the state it is in. */
  predicate PastDeadline(row: Row, now: Instant) {
    || ((row.state == PENDING || row.state == DISPATCHED) && row.dispatchDeadline < now)
    || (row.state == RUNNING && row.executionDeadline.Some? && row.executionDeadline.value < now)
  }

  /** A job is timed out exactly when it is past the deadline of its state, and then with QUERY_TIMEOUT at
      that moment; a stored result is gone exactly when its retention is over; nothing else changes. */
  lemma SweptByField(rows: Rows, now: Instant, id: JobId)
    requires id in rows
    ensures Swept(rows, now).Keys == rows.Keys
    ensures var row, next := rows[id], Swept(rows, now)[id];
      && (PastDeadline(row, now) ==>
            && next.state == TIMED_OUT && next.errorCode == Some(QUERY_TIMEOUT) && next.finishedAt == Some(now)
            && next.version == row.version + 1)
      && (!PastDeadline(row, now) ==>
            && next.state == row.state && next.errorCode == row.errorCode && next.finishedAt == row.finishedAt
            && next.version == row.version)
      && next.result == (if row.resultExpires.Some? && row.resultExpires.value < now then None else row.result)
      && next == row.(state := next.state, errorCode := next.errorCode, finishedAt := next.finishedAt,
                      version := next.version, result := next.result)
  {
  }

  /** After the sweeps no job is active beyond 15 seconds from its creation before it runs, nor beyond 30
      seconds from its start, and no result is kept beyond five minutes. */
  lemma NothingOutlivesItsDeadline(rows: Rows, now: Instant, id: JobId)
    requires AllSound(rows) && id in rows
    ensures var row := Swept(rows, now)[id];
      && (row.state == PENDING || row.state == DISPATCHED ==> now <= row.createdAt + 15000)
      && (row.state == RUNNING ==> row.startedAt.Some? && now <= row.startedAt.value + 30000)
      && (row.result.Some? ==> row.state == COMPLETED && row.finishedAt.Some? && now <= row.finishedAt.value + 300000)
  {
    hide Swept;
    assert RowSound(rows[id]);
    SweptByField(rows, now, id);
  }

  function DispatchDue(rows: Rows, now: Instant): set<JobId> {
    set id | id in rows && DispatchOverdue(rows[id], now)
  }

  function ExecutionDue(rows: Rows, now: Instant): set<JobId> {
    set id | id in rows && ExecutionOverdue(rows[id], now)
  }

  /** The first sweep touches no row the second one looks for. */
  lemma SweepsAreIndependent(rows: Rows, now: Instant)
    ensures ExecutionDue(ExpireDispatch(rows, now), now) == ExecutionDue(rows, now)
  {
  }

  /** The rows the first two sweeps count: those past the deadline of their state. */
  lemma DueByField(rows: Rows, now: Instant, id: JobId)
    ensures id in DispatchDue(rows, now) + ExecutionDue(rows, now) <==> id in rows && PastDeadline(rows[id], now)
    ensures id in DispatchDue(rows, now) ==> rows[id].state == PENDING || rows[id].state == DISPATCHED
    ensures id in ExecutionDue(rows, now) ==> rows[id].state == RUNNING
  {
  }

  // ---------------------------------------------------------------- the service

  /** What `get` tells of a job. */
  datatype JobView = JobView(
    id: JobId,
    queryId: QueryId,
    state: JobState,
    result: Option<QueryResult>,
    error: Option<ErrorCode>)

  function ViewOf(id: JobId, row: Row, readable: bool): JobView {
    JobView(id, row.queryId, row.state, if readable then row.result else None, row.errorCode)
  }

  class DataJobV2Service {
    var rows: Rows
    var nextId: JobId

    ghost predicate Valid()
      reads this
    {
      AllSound(rows) && OneActive(rows) && forall id :: id in rows ==> id < nextId
    }

    constructor ()
      ensures Valid() && rows == map[]
    {
      rows := map[];
      nextId := 0;
    }

    /** The `create` statement: it inserts a row unless the unique index refuses it (P2002). */
    method Create(org: Organization, fingerprint: Fingerprint, queryId: QueryId, requestId: string,
                  permission: Permission, now: Instant)
      returns (id: Option<JobId>)
      requires Valid()
      modifies this
      ensures Valid()
      ensures Collides(old(rows), org, fingerprint) ==> id == None && rows == old(rows)
      ensures !Collides(old(rows), org, fingerprint) ==>
        && id == Some(old(nextId)) && old(nextId) !in old(rows)
        && rows == old(rows)[old(nextId) := NewRow(org, fingerprint, queryId, requestId, permission, now)]
    {
      if Collides(rows, org, fingerprint) { return None; }
      rows := rows[nextId := NewRow(org, fingerprint, queryId, requestId, permission, now)];
      id := Some(nextId);
      nextId := nextId + 1;
    }

    /** `findFirst` of an active row of the pair, newest first. */
    method FindActive(org: Organization, fingerprint: Fingerprint) returns (id: Option<JobId>)
      requires Valid()
      ensures id.Some? <==> Collides(rows, org, fingerprint)
      ensures id.Some? ==> id.value in rows && Clashes(rows[id.value], org, fingerprint)
      ensures id.Some? ==> forall j :: j in rows && Clashes(rows[j], org, fingerprint) ==> j == id.value
    {
      if i :| i in rows && Clashes(rows[i], org, fingerprint) { return Some(i); }
      id := None;
    }

    /** `findFirst` of a completed row of the pair that still holds its result, newest first. */
    method FindCompleted(org: Organization, fingerprint: Fingerprint, now: Instant) returns (id: Option<JobId>)
      ensures id.None? ==> forall j :: j in rows ==> !Reusable(rows[j], org, fingerprint, now)
      ensures id.Some? ==> id.value in rows && Reusable(rows[id.value], org, fingerprint, now)
      ensures id.Some? ==> forall j :: j in rows && Reusable(rows[j], org, fingerprint, now) ==>
        rows[j].createdAt <= rows[id.value].createdAt
    {
      var todo := set j | j in rows && Reusable(rows[j], org, fingerprint, now);
      id := None;
      while todo != {}
        invariant forall j :: j in todo ==> j in rows && Reusable(rows[j], org, fingerprint, now)
        invariant id.Some? ==> id.value in rows && Reusable(rows[id.value], org, fingerprint, now)
        invariant forall j :: j in rows && Reusable(rows[j], org, fingerprint, now) && j !in todo ==>
          id.Some? && rows[j].createdAt <= rows[id.value].createdAt
        decreases todo
      {
        var j :| j in todo;
        todo := todo - {j};
        if id.None? || rows[id.value].createdAt < rows[j].createdAt { id := Some(j); }
      }
    }

    /** The read half of `transition` and `complete`. */
    method Read(id: JobId, org: Organization, w: Write) returns (t: Ticket)
      ensures t == ReadHalf(rows, id, org, w)
    {
      if id !in rows || rows[id].org != org { return Missing; }
      var row := rows[id];
      if row.state !in Allowed(w) { return Refused(row); }
      var required := RequiredAgent(w);
      if required.Some? && row.agent != required { return Refused(row); }
      t := Proceed(row);
    }

    /** The guarded `updateMany`. */
    method WriteGuarded(id: JobId, org: Organization, version: nat, w: Write, now: Instant) returns (changed: bool)
      requires Valid() && Issued(w)
      modifies this`rows
      ensures Valid() && LaterRows(old(rows), rows)
      ensures changed == Guard(old(rows), id, org, version, w)
      ensures rows == WriteHalf(old(rows), id, org, version, w, now)
    {
      WriteHalfKeepsRows(rows, id, org, version, w, now);
      if id in rows && rows[id].org == org && rows[id].state in Allowed(w) && rows[id].version == version &&
         (RequiredAgent(w).None? || rows[id].agent == RequiredAgent(w)) {
        rows := rows[id := Written(rows[id], w, now)];
        changed := true;
      } else {
        changed := false;
      }
    }

    /** `transition` and `complete` when nothing runs between their halves. */
    method Perform(id: JobId, org: Organization, w: Write, now: Instant) returns (row: Option<Row>, changed: bool)
      requires Valid() && Issued(w)
      modifies this`rows
      ensures Valid() && LaterRows(old(rows), rows)
      ensures changed <==> id in old(rows) && old(rows)[id].org == org && Admits(old(rows)[id], w)
      ensures changed ==> rows == old(rows)[id := Written(old(rows)[id], w, now)]
      ensures !changed ==> rows == old(rows)
      ensures row == if id in rows && rows[id].org == org then Some(rows[id]) else None
    {
      var ticket := Read(id, org, w);
      match ticket
      case Missing => return None, false;
      case Refused(seen) => return Some(seen), false;
      case Proceed(seen) =>
        changed := WriteGuarded(id, org, seen.version, w, now);
        row := Some(rows[id]);
    }

    /** `get`: the result is there exactly while it is retained. */
    method Get(id: JobId, org: Organization, now: Instant) returns (r: Option<JobView>)
      ensures r.None? <==> id !in rows || rows[id].org != org
      ensures r.Some? ==> (r.value.result.Some? <==> Retained(rows[id], now) && rows[id].result.Some?)
      ensures r.Some? ==> r.value == ViewOf(id, rows[id], r.value.result.Some?)
    {
      if id !in rows || rows[id].org != org { return None; }
      var row := rows[id];
      var result := if row.state == COMPLETED && row.result.Some? && row.resultExpires.Some? &&
                       row.resultExpires.value > now then row.result else None;
      r := Some(JobView(id, row.queryId, row.state, result, row.errorCode));
    }

    /** `expireDueJobs`: three sweeps; the counts are those of the first two. */
    method ExpireDueJobs(enabled: bool, now: Instant) returns (dispatch: nat, execution: nat)
      requires Valid()
      modifies this`rows
      ensures Valid() && LaterRows(old(rows), rows)
      ensures rows == if enabled then Swept(old(rows), now) else old(rows)
      ensures dispatch == if enabled then |DispatchDue(old(rows), now)| else 0
      ensures execution == if enabled then |ExecutionDue(old(rows), now)| else 0
    {
      if !enabled { return 0, 0; }
      SweptKeepsRows(rows, now);
      SweepsAreIndependent(rows, now);
      dispatch := |DispatchDue(rows, now)|;
      rows := ExpireDispatch(rows, now);
      execution := |ExecutionDue(rows, now)|;
      rows := ExpireExecution(rows, now);
      rows := ScrubResults(rows, now);
    }
  }
}
