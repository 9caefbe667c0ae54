/** `DataService.runQuery` over the job store, the dispatcher and the cache, as a state machine.
    One step is one stretch of code between two awaits, so callers, agents, timers,
    cancellations and the expiry sweeps interleave freely. */
module DataService {
  import opened Contracts
  import opened DataJobs
  import QueryCache
  import D = Dispatcher

  /** What `runQuery` knows once the planner is done. */
  datatype Plan = Plan(
    org: Organization,
    fingerprint: Fingerprint,
    queryId: QueryId,
    requestId: string,
    permission: Permission,
    compares: bool,
    ttlSeconds: int)

  /** A certification run carries the fingerprint of its campaign and bypasses the cache. */
  predicate Certifies(p: Plan) { p.fingerprint.Campaign? }

  datatype Reply =
    | Fresh(job: JobId, result: QueryResult)   // computed by this caller
    | Cached(result: QueryResult)              // answered from the cache
    | Reused(job: JobId, result: QueryResult)  // answered from a completed duplicate
    | Pending(job: JobId)
    | Failure(code: ErrorCode)

  /** Rows an execution was answered with: the dispatcher settled it with them, or the simulator gave them. */
  datatype Source = Agent(execution: D.Execution, rows: string) | Simulated(rows: string)

  /** Where a caller stands in `runQuery`; `heard` are the answers so far, in their sequence. */
  datatype Phase =
    | LookingUp
    | Creating
    | FindingActive
    | FindingCompleted
    | ReadingResult(job: JobId)
    | Claiming(job: JobId)
    | Dispatching(job: JobId, seen: Row, agent: Option<AgentId>)
    | Executing(job: JobId, sequence: nat, heard: seq<Source>)
    | Waiting(job: JobId, sequence: nat, heard: seq<Source>, execution: D.Execution)
    | Answered(job: JobId, sequence: nat, heard: seq<Source>)
    | Starting(job: JobId, heard: seq<Source>)
    | StartWriting(job: JobId, heard: seq<Source>, seen: Row)
    | Completing(job: JobId, heard: seq<Source>)
    | CompleteWriting(job: JobId, seen: Row, result: QueryResult)
    | Storing(job: JobId, result: QueryResult)
    | Aborting(job: JobId, code: ErrorCode)
    | AbortWriting(job: JobId, seen: Row, code: ErrorCode)
    | Replied(reply: Reply)

  datatype Caller = Caller(plan: Plan, phase: Phase)

  /** An acknowledgement or a cancellation between its two halves. */
  datatype Inflight = Inflight(job: JobId, org: Organization, write: Write, seen: Row)

  datatype Win = Win(job: JobId, caller: nat)

  /** `wins`, `completed` and `launched` record history: who won PENDING to DISPATCHED for which job, the
      result each job was completed with, and what each execution was started for. */
  datatype System = System(
    now: Instant,
    simulator: bool,
    registry: string,
    rows: Rows,
    nextJob: JobId,
    cache: QueryCache.Cache,
    dispatcher: D.State,
    callers: seq<Caller>,
    inflight: seq<Inflight>,
    wins: seq<Win>,
    completed: map<JobId, QueryResult>,
    launched: map<D.Execution, D.Reference>)

  function Initial(simulator: bool, registry: string): System {
    System(0, simulator, registry, map[], 0, map[], D.Fresh, [], [], [], map[], map[])
  }

  /** What the surroundings decide during a step. */
  datatype Choice = Choice(
    agent: Option<AgentId>,  // the capable agent connected at this moment
    sending: D.Sending,      // what becomes of the payload
    pick: JobId,             // the completed row the store returns
    valid: bool,             // the rows pass the result policy
    tooLarge: bool,
    rows: string,            // what the simulator answers
    stored: bool)            // the cache write succeeds

  datatype Event =
    | Tick(ms: nat)
    | Arrive(plan: Plan)
    | Advance(caller: nat, choice: Choice)
    | Throw(caller: nat, code: ErrorCode, caught: bool)
    | Network(event: D.Event)
    | BeginAcknowledge(ref: D.Reference)
    | BeginCancel(job: JobId, org: Organization)
    | Commit(index: nat)
    | SweepDispatch
    | SweepExecution
    | SweepResults
    | PurgeCache

  // ---------------------------------------------------------------- steps

  function To(s: System, c: nat, phase: Phase): System
    requires c < |s.callers|
  {
    s.(callers := s.callers[c := s.callers[c].(phase := phase)])
  }

  function CacheKey(s: System, p: Plan): QueryCache.Key { QueryCache.Key(p.org, p.fingerprint, s.registry) }

  /** The active row of a pair; the unique index leaves at most one. */
  ghost function ActiveJob(rows: Rows, org: Organization, fingerprint: Fingerprint): (id: JobId)
    requires Collides(rows, org, fingerprint)
    ensures id in rows && Clashes(rows[id], org, fingerprint)
  {
    var id :| id in rows && Clashes(rows[id], org, fingerprint); id
  }

  predicate NewestReusable(rows: Rows, id: JobId, org: Organization, fingerprint: Fingerprint, now: Instant) {
    && id in rows && Reusable(rows[id], org, fingerprint, now)
    && forall j :: j in rows && Reusable(rows[j], org, fingerprint, now) ==> rows[j].createdAt <= rows[id].createdAt
  }

  /** `createOrGet`. */
  ghost function CreateStep(s: System, c: nat, choice: Choice): System
    requires c < |s.callers|
  {
    var p := s.callers[c].plan;
    match s.callers[c].phase
    case Creating =>
      if Collides(s.rows, p.org, p.fingerprint) then To(s, c, FindingActive)
      else
        var permission := if Certifies(p) then CERTIFICATION else p.permission;
        var row := NewRow(p.org, p.fingerprint, p.queryId, p.requestId, permission, s.now);
        To(s.(rows := s.rows[s.nextJob := row], nextJob := s.nextJob + 1), c, Claiming(s.nextJob))
    case FindingActive =>
      if !Collides(s.rows, p.org, p.fingerprint) then To(s, c, FindingCompleted)
      else
        var id := ActiveJob(s.rows, p.org, p.fingerprint);
        if s.rows[id].state == PENDING then
          var shared := p.(queryId := s.rows[id].queryId, requestId := s.rows[id].requestId);
          s.(callers := s.callers[c := Caller(shared, Claiming(id))])
        else To(s, c, Replied(Pending(id)))
    case FindingCompleted =>
      if NewestReusable(s.rows, choice.pick, p.org, p.fingerprint, s.now) then To(s, c, ReadingResult(choice.pick))
      else if forall j :: j in s.rows ==> !Reusable(s.rows[j], p.org, p.fingerprint, s.now) then
        To(s, c, Replied(Failure(INTERNAL_ERROR)))
      else s
    case ReadingResult(job) =>
      if job in s.rows && Retained(s.rows[job], s.now) && s.rows[job].result.Some? then
        To(s, c, Replied(Reused(job, s.rows[job].result.value.(queryId := p.queryId))))
      else To(s, c, Replied(Pending(job)))
    case _ => s
  }

  function Registered(s: System, ref: D.Reference, sent: bool): System {
    s.(dispatcher := D.Handed(s.dispatcher, ref, sent), launched := s.launched[s.dispatcher.next := ref])
  }

  /** Claiming the job and executing it on an agent. */
  function ExecuteStep(s: System, c: nat, choice: Choice): System
    requires c < |s.callers|
  {
    var p := s.callers[c].plan;
    match s.callers[c].phase
    case Claiming(job) =>
      var agent := if s.simulator then None else choice.agent;
      if !s.simulator && agent.None? then To(s, c, Aborting(job, AGENT_OFFLINE))
      else (
        match ReadHalf(s.rows, job, p.org, Dispatch(agent))
        case Missing => To(s, c, Aborting(job, INTERNAL_ERROR))
        case Refused(_) => To(s, c, Replied(Pending(job)))
        case Proceed(row) => To(s, c, Dispatching(job, row, agent)))
    case Dispatching(job, seen, agent) =>
      if Guard(s.rows, job, p.org, seen.version, Dispatch(agent)) then
        To(s.(rows := WriteHalf(s.rows, job, p.org, seen.version, Dispatch(agent), s.now),
              wins := s.wins + [Win(job, c)]), c, Executing(job, 1, []))
      else To(s, c, Replied(Pending(job)))
    case Executing(job, sequence, heard) =>
      if s.simulator then To(s, c, Answered(job, sequence, heard + [Simulated(choice.rows)]))
      else if choice.agent.None? then To(s, c, Aborting(job, AGENT_OFFLINE))
      else if job in s.dispatcher.pending then To(s, c, Aborting(job, INTERNAL_ERROR))
      else
        var ref := D.Reference(job, p.org, choice.agent.value, p.queryId, sequence);
        To(Registered(s, ref, choice.sending.Sent?), c, Waiting(job, sequence, heard, s.dispatcher.next))
    case _ => s
  }

  ghost function AnswerOf(d: D.State, x: D.Execution): D.Answer
    requires D.Settled(d, x)
  {
    var i :| 0 <= i < |d.settled| && d.settled[i].execution == x;
    d.settled[i].answer
  }

  /** The awaited promise, the second execution and the result policy. */
  ghost function AnswerStep(s: System, c: nat, choice: Choice): System
    requires c < |s.callers|
  {
    match s.callers[c].phase
    case Waiting(job, sequence, heard, execution) =>
      if !D.Settled(s.dispatcher, execution) then s
      else (
        match AnswerOf(s.dispatcher, execution)
        case Rows(rows) => To(s, c, Answered(job, sequence, heard + [Agent(execution, rows)]))
        case Failure(code) => To(s, c, Aborting(job, code)))
    case Answered(job, sequence, heard) =>
      if sequence == 1 && s.callers[c].plan.compares then To(s, c, Executing(job, 2, heard))
      else if choice.valid then To(s, c, Starting(job, heard))
      else To(s, c, Aborting(job, SOURCE_SCHEMA_MISMATCH))
    case _ => s
  }

  /** The result made of some answers: the rows, and the comparison's rows when they were asked for. */
  function Computed(queryId: QueryId, heard: seq<Source>): QueryResult {
    QueryResult(queryId, if heard == [] then "" else heard[0].rows, if |heard| > 1 then Some(heard[1].rows) else None)
  }

  /** DISPATCHED to RUNNING, then completion and the cache. */
  function CompleteStep(s: System, c: nat, choice: Choice): System
    requires c < |s.callers|
  {
    var p := s.callers[c].plan;
    match s.callers[c].phase
    case Starting(job, heard) => (
      match ReadHalf(s.rows, job, p.org, Start())
      case Proceed(row) => To(s, c, StartWriting(job, heard, row))
      case _ => To(s, c, Completing(job, heard)))
    case StartWriting(job, heard, seen) =>
      To(s.(rows := WriteHalf(s.rows, job, p.org, seen.version, Start(), s.now)), c, Completing(job, heard))
    case Completing(job, heard) =>
      var result := Computed(p.queryId, heard);
      if choice.tooLarge then To(s, c, Aborting(job, RESULT_TOO_LARGE))
      else (
        match ReadHalf(s.rows, job, p.org, Complete(result, None))
        case Proceed(row) => To(s, c, CompleteWriting(job, row, result))
        case _ => To(s, c, Replied(Pending(job))))
    case CompleteWriting(job, seen, result) =>
      if Guard(s.rows, job, p.org, seen.version, Complete(result, None)) then
        To(s.(rows := WriteHalf(s.rows, job, p.org, seen.version, Complete(result, None), s.now),
              completed := s.completed[job := result]), c, Storing(job, result))
      else To(s, c, Replied(Pending(job)))
    case Storing(job, result) =>
      var cache := if Certifies(p) || !choice.stored then s.cache
                   else QueryCache.Store(s.cache, CacheKey(s, p), result, p.ttlSeconds, s.now);
      To(s.(cache := cache), c, Replied(Fresh(job, result)))
    case _ => s
  }

  /** The catch block. */
  function AbortStep(s: System, c: nat): System
    requires c < |s.callers|
  {
    var p := s.callers[c].plan;
    match s.callers[c].phase
    case Aborting(job, code) => (
      match ReadHalf(s.rows, job, p.org, Abort(code))
      case Proceed(row) => To(s, c, AbortWriting(job, row, code))
      case _ => To(s, c, Replied(Failure(code))))
    case AbortWriting(job, seen, code) =>
      To(s.(rows := WriteHalf(s.rows, job, p.org, seen.version, Abort(code), s.now)), c, Replied(Failure(code)))
    case _ => s
  }

  ghost function AdvanceStep(s: System, c: nat, choice: Choice): System
    requires c < |s.callers|
  {
    match s.callers[c].phase
    case LookingUp =>
      var p := s.callers[c].plan;
      if Certifies(p) then To(s, c, Creating)
      else (
        match QueryCache.Lookup(s.cache, CacheKey(s, p), s.now)
        case Some(r) => To(s, c, Replied(Cached(r.(queryId := p.queryId))))
        case None => To(s, c, Creating))
    case Creating | FindingActive | FindingCompleted | ReadingResult(_) => CreateStep(s, c, choice)
    case Claiming(_) | Dispatching(_, _, _) | Executing(_, _, _) => ExecuteStep(s, c, choice)
    case Waiting(_, _, _, _) | Answered(_, _, _) => AnswerStep(s, c, choice)
    case Starting(_, _) | StartWriting(_, _, _) | Completing(_, _) => CompleteStep(s, c, choice)
    case CompleteWriting(_, _, _) | Storing(_, _) => CompleteStep(s, c, choice)
    case Aborting(_, _) | AbortWriting(_, _, _) => AbortStep(s, c)
    case Replied(_) => s
  }

  /** Phases inside the try block in which a call can throw. */
  predicate Guarded(phase: Phase) {
    phase.Claiming? || phase.Dispatching? || phase.Executing? || phase.Answered? || phase.Starting? ||
    phase.StartWriting? || phase.Completing? || phase.CompleteWriting? || phase.Storing?
  }

  /** A call throws, either into the catch block or out of `runQuery`. */
  function ThrowStep(s: System, c: nat, code: ErrorCode, caught: bool): System
    requires c < |s.callers|
  {
    var phase := s.callers[c].phase;
    if phase.Waiting? || phase.Replied? then s
    else if caught && Guarded(phase) then To(s, c, Aborting(phase.job, code))
    else To(s, c, Replied(Failure(code)))
  }

  function BeginStep(s: System, job: JobId, org: Organization, w: Write): System {
    match ReadHalf(s.rows, job, org, w)
    case Proceed(row) => s.(inflight := s.inflight + [Inflight(job, org, w, row)])
    case _ => s
  }

  ghost function Step(s: System, e: Event): System {
    match e
    case Tick(ms) => s.(now := s.now + ms)
    case Arrive(plan) => s.(callers := s.callers + [Caller(plan, LookingUp)])
    case Advance(c, choice) => if c < |s.callers| then AdvanceStep(s, c, choice) else s
    case Throw(c, code, caught) => if c < |s.callers| then ThrowStep(s, c, code, caught) else s
    case Network(event) => if event.Start? then s else s.(dispatcher := D.Apply(s.dispatcher, event))
    case BeginAcknowledge(ref) =>
      if D.Matches(s.dispatcher, ref) then BeginStep(s, ref.job, ref.org, Acknowledge(ref.agent)) else s
    case BeginCancel(job, org) => BeginStep(s, job, org, Cancel())
    case Commit(i) =>
      if i < |s.inflight| then
        var f := s.inflight[i];
        s.(rows := WriteHalf(s.rows, f.job, f.org, f.seen.version, f.write, s.now))
      else s
    case SweepDispatch => s.(rows := ExpireDispatch(s.rows, s.now))
    case SweepExecution => s.(rows := ExpireExecution(s.rows, s.now))
    case SweepResults => s.(rows := ScrubResults(s.rows, s.now))
    case PurgeCache => s.(cache := QueryCache.Purged(s.cache, s.now))
  }

  ghost function Run(s: System, es: seq<Event>): System {
    if es == [] then s else Step(Run(s, es[..|es| - 1]), es[|es| - 1])
  }

  // ---------------------------------------------------------------- invariant

  ghost predicate Won(s: System, job: JobId, c: nat) { Win(job, c) in s.wins }

  ghost predicate IsJobOf(s: System, p: Plan, job: JobId) {
    job in s.rows && s.rows[job].org == p.org && s.rows[job].fingerprint == p.fingerprint
  }

  /** The read half of `w` on `job` answered `seen` at some earlier moment. */
  ghost predicate Holds(s: System, job: JobId, org: Organization, w: Write, seen: Row) {
    && job in s.rows && seen.org == org && RowSound(seen) && Admits(seen, w) && Later(seen, s.rows[job])
  }

  /** `result` is what some completed, non-certification job of the pair was completed with. */
  ghost predicate FromCompletedJob(s: System, org: Organization, fingerprint: Fingerprint, result: QueryResult) {
    fingerprint.Semantic? && exists j :: CompletedAs(s, j, org, fingerprint, result)
  }

  ghost predicate CompletedAs(s: System, j: JobId, org: Organization, fingerprint: Fingerprint, result: QueryResult) {
    && j in s.rows && s.rows[j].org == org && s.rows[j].fingerprint == fingerprint && s.rows[j].state == COMPLETED
    && j in s.completed && s.completed[j] == result
  }

  /** Phases only the winner of PENDING to DISPATCHED reaches. */
  predicate Engaged(phase: Phase) {
    phase.Executing? || phase.Waiting? || phase.Answered? || phase.Starting? || phase.StartWriting? ||
    phase.Completing? || phase.CompleteWriting? || phase.Storing?
  }

  predicate EngagedOn(s: System, c: nat, job: JobId) {
    c < |s.callers| && Engaged(s.callers[c].phase) && s.callers[c].phase.job == job
  }

  predicate HasJob(phase: Phase) {
    !(phase.LookingUp? || phase.Creating? || phase.FindingActive? || phase.FindingCompleted? || phase.Replied?)
  }

  predicate HasTicket(phase: Phase) {
    phase.Dispatching? || phase.StartWriting? || phase.CompleteWriting? || phase.AbortWriting?
  }

  /** The write whose read half a caller has behind it. */
  function TicketWrite(phase: Phase): Write
    requires HasTicket(phase)
  {
    match phase
    case Dispatching(_, _, agent) => Dispatch(agent)
    case StartWriting(_, _, _) => Start()
    case CompleteWriting(_, _, result) => Complete(result, None)
    case AbortWriting(_, _, code) => Abort(code)
  }

  /** Execution `x` was started for the job, under the plan's query id, as its number `sequence`. */
  ghost predicate Launched(s: System, p: Plan, job: JobId, sequence: nat, x: D.Execution) {
    && x in s.launched
    && var ref := s.launched[x];
       ref.job == job && ref.org == p.org && ref.queryId == p.queryId && ref.sequence == sequence
  }

  /** The source answers execution number `sequence` of the job. */
  ghost predicate Answers(s: System, p: Plan, job: JobId, sequence: nat, source: Source) {
    match source
    case Agent(x, rows) => Launched(s, p, job, sequence, x) && D.Settlement(x, D.Rows(rows)) in s.dispatcher.settled
    case Simulated(_) => s.simulator
  }

  ghost predicate AllHeard(s: System, p: Plan, job: JobId, heard: seq<Source>) {
    forall k :: 0 <= k < |heard| ==> Answers(s, p, job, k + 1, heard[k])
  }

  function Needed(p: Plan): nat { if p.compares then 2 else 1 }

  /** The result is made of the answers to the job's executions, number 1 and, for a comparison, number 2. */
  ghost predicate DerivedFrom(s: System, p: Plan, job: JobId, result: QueryResult) {
    exists heard :: AllHeard(s, p, job, heard) && |heard| == Needed(p) && result == Computed(p.queryId, heard)
  }

  predicate Listening(phase: Phase) {
    phase.Executing? || phase.Waiting? || phase.Answered? || phase.Starting? || phase.StartWriting? || phase.Completing?
  }

  /** How many answers a caller has heard. */
  function Due(p: Plan, phase: Phase): int
    requires Listening(phase)
  {
    if phase.Executing? || phase.Waiting? then phase.sequence - 1
    else if phase.Answered? then phase.sequence
    else Needed(p)
  }

  /** What a caller has been told so far. */
  ghost predicate Told(s: System, p: Plan, phase: Phase) {
    && (Listening(phase) ==> AllHeard(s, p, phase.job, phase.heard) && |phase.heard| == Due(p, phase))
    && (phase.Executing? || phase.Waiting? || phase.Answered? ==> 1 <= phase.sequence <= Needed(p))
    && (phase.Waiting? ==> Launched(s, p, phase.job, phase.sequence, phase.execution))
    && (phase.CompleteWriting? || phase.Storing? ==> DerivedFrom(s, p, phase.job, phase.result))
  }

  ghost predicate ReplySound(s: System, c: nat, p: Plan, reply: Reply) {
    match reply
    case Fresh(job, result) =>
      && IsJobOf(s, p, job) && Won(s, job, c)
      && job in s.completed && s.completed[job] == result && DerivedFrom(s, p, job, result)
    case Cached(result) =>
      result.queryId == p.queryId && exists q :: FromCompletedJob(s, p.org, p.fingerprint, result.(queryId := q))
    case Reused(job, result) =>
      result.queryId == p.queryId && exists q :: CompletedAs(s, job, p.org, p.fingerprint, result.(queryId := q))
    case Pending(job) => IsJobOf(s, p, job)
    case Failure(_) => true
  }

  ghost predicate CallerSound(s: System, c: nat, caller: Caller) {
    var p, phase := caller.plan, caller.phase;
    && (HasJob(phase) ==> IsJobOf(s, p, phase.job))
    && (Engaged(phase) ==> Won(s, phase.job, c))
    && (HasTicket(phase) ==> Holds(s, phase.job, p.org, TicketWrite(phase), phase.seen))
    && (phase.Storing? ==> phase.job in s.completed && s.completed[phase.job] == phase.result)
    && (phase.Waiting? ==> phase.execution < s.dispatcher.next)
    && Told(s, p, phase)
    && (phase.Replied? ==> ReplySound(s, c, p, phase.reply))
  }

  ghost predicate CallersSound(s: System) {
    forall c :: 0 <= c < |s.callers| ==> CallerSound(s, c, s.callers[c])
  }

  ghost predicate InflightSound(s: System) {
    forall i :: 0 <= i < |s.inflight| ==>
      var f := s.inflight[i];
      Issued(f.write) && f.write.Transition? && f.write.next != DISPATCHED && Holds(s, f.job, f.org, f.write, f.seen)
  }

  ghost predicate RowsSound(s: System) {
    AllSound(s.rows) && OneActive(s.rows) && forall j :: j in s.rows ==> j < s.nextJob
  }

  /** `completed` names exactly the COMPLETED rows; such a row holds its result until its
      retention is over. */
  ghost predicate CompletedSound(s: System) {
    && (forall j :: j in s.completed <==> j in s.rows && s.rows[j].state == COMPLETED)
    && (forall j :: j in s.completed ==> StoredOrExpired(s, j))
  }

  ghost predicate StoredOrExpired(s: System, j: JobId)
    requires j in s.rows && j in s.completed
  {
    s.rows[j].result == Some(s.completed[j]) ||
    (s.rows[j].result.None? && s.rows[j].resultExpires.Some? && s.rows[j].resultExpires.value < s.now)
  }

  ghost predicate WinsSound(s: System) {
    && (forall i :: 0 <= i < |s.wins| ==> s.wins[i].job in s.rows && s.rows[s.wins[i].job].state != PENDING)
    && (forall i, j :: 0 <= i < j < |s.wins| ==> s.wins[i].job != s.wins[j].job)
  }

  /** Every pending execution is awaited by a caller. */
  ghost predicate DispatcherSound(s: System) {
    && D.Consistent(s.dispatcher)
    && forall j :: j in s.dispatcher.pending ==> Awaited(s, j, s.dispatcher.pending[j])
  }

  ghost predicate Awaited(s: System, j: JobId, e: D.Entry) {
    exists c :: 0 <= c < |s.callers| && Awaits(s.callers[c].phase, j, e)
  }

  predicate Awaits(phase: Phase, j: JobId, e: D.Entry) {
    phase.Waiting? && phase.job == j && phase.sequence == e.sequence && phase.execution == e.execution
  }

  /** Launched executions carry numbers the dispatcher has given out. */
  ghost predicate LaunchesSound(s: System) {
    forall x :: x in s.launched ==> x < s.dispatcher.next
  }

  ghost predicate CacheSound(s: System) {
    forall k :: k in s.cache ==> FromCompletedJob(s, k.org, k.fingerprint, s.cache[k].result)
  }

  ghost predicate Sound(s: System) {
    && RowsSound(s) && CompletedSound(s) && WinsSound(s) && LaunchesSound(s)
    && DispatcherSound(s) && CacheSound(s) && CallersSound(s) && InflightSound(s)
  }

  // ---------------------------------------------------------------- steps keep the invariant

  /** `s'` is a later moment of `s`. */
  ghost predicate Grows(s: System, s': System) {
    && s.now <= s'.now && s.dispatcher.next <= s'.dispatcher.next
    && LaterRows(s.rows, s'.rows)
    && |s.wins| <= |s'.wins| && s'.wins[..|s.wins|] == s.wins
    && s'.simulator == s.simulator && (forall z :: z in s.dispatcher.settled ==> z in s'.dispatcher.settled)
    && (forall x :: x in s.launched ==> x in s'.launched && s'.launched[x] == s.launched[x])
    && (forall j :: j in s.completed ==> j in s'.completed && s'.completed[j] == s.completed[j])
  }

  lemma WonStays(s: System, s': System, job: JobId, c: nat)
    requires Grows(s, s') && Won(s, job, c)
    ensures Won(s', job, c)
  {
    var i :| 0 <= i < |s.wins| && s.wins[i] == Win(job, c);
    assert s'.wins[i] == s'.wins[..|s.wins|][i];
  }

  lemma CompletedStays(s: System, s': System, j: JobId, org: Organization, fingerprint: Fingerprint,
                       result: QueryResult)
    requires Grows(s, s') && CompletedAs(s, j, org, fingerprint, result)
    ensures CompletedAs(s', j, org, fingerprint, result)
  {
    assert Later(s.rows[j], s'.rows[j]);
  }

  lemma SourceStays(s: System, s': System, org: Organization, fingerprint: Fingerprint, result: QueryResult)
    requires Grows(s, s') && FromCompletedJob(s, org, fingerprint, result)
    ensures FromCompletedJob(s', org, fingerprint, result)
  {
    var j :| CompletedAs(s, j, org, fingerprint, result);
    CompletedStays(s, s', j, org, fingerprint, result);
  }

  lemma HoldsStays(s: System, s': System, job: JobId, org: Organization, w: Write, seen: Row)
    requires Grows(s, s') && Holds(s, job, org, w, seen)
    ensures Holds(s', job, org, w, seen)
  {
    LaterIsTransitive(seen, s.rows[job], s'.rows[job]);
  }

  lemma HeardStays(s: System, s': System, p: Plan, job: JobId, heard: seq<Source>)
    requires Grows(s, s') && AllHeard(s, p, job, heard)
    ensures AllHeard(s', p, job, heard)
  {
    forall k | 0 <= k < |heard| ensures Answers(s', p, job, k + 1, heard[k]) {
      assert Answers(s, p, job, k + 1, heard[k]);
    }
  }

  lemma DerivationStays(s: System, s': System, p: Plan, job: JobId, result: QueryResult)
    requires Grows(s, s') && DerivedFrom(s, p, job, result)
    ensures DerivedFrom(s', p, job, result)
  {
    hide Grows;
    hide AllHeard;
    hide Computed;
    var heard :| AllHeard(s, p, job, heard) && |heard| == Needed(p) && result == Computed(p.queryId, heard);
    HeardStays(s, s', p, job, heard);
  }

  lemma LaunchStays(s: System, s': System, p: Plan, job: JobId, sequence: nat, x: D.Execution)
    requires Grows(s, s') && Launched(s, p, job, sequence, x)
    ensures Launched(s', p, job, sequence, x)
  {
  }

  lemma ToldStays(s: System, s': System, p: Plan, phase: Phase)
    requires Grows(s, s') && Told(s, p, phase)
    ensures Told(s', p, phase)
  {
    hide Grows;
    hide AllHeard;
    hide DerivedFrom;
    hide Launched;
    if Listening(phase) { HeardStays(s, s', p, phase.job, phase.heard); }
    if phase.Waiting? { LaunchStays(s, s', p, phase.job, phase.sequence, phase.execution); }
    if phase.CompleteWriting? || phase.Storing? { DerivationStays(s, s', p, phase.job, phase.result); }
  }

  lemma HearMore(s: System, p: Plan, job: JobId, heard: seq<Source>, source: Source)
    requires AllHeard(s, p, job, heard) && Answers(s, p, job, |heard| + 1, source)
    ensures AllHeard(s, p, job, heard + [source])
  {
    hide Answers;
  }

  lemma AnswerIsSettled(d: D.State, x: D.Execution)
    requires D.Settled(d, x)
    ensures D.Settlement(x, AnswerOf(d, x)) in d.settled
  {
    var i :| 0 <= i < |d.settled| && d.settled[i].execution == x && d.settled[i].answer == AnswerOf(d, x);
    assert d.settled[i] == D.Settlement(x, AnswerOf(d, x));
  }

  lemma ReplyStays(s: System, s': System, c: nat, p: Plan, reply: Reply)
    requires Grows(s, s') && ReplySound(s, c, p, reply)
    ensures ReplySound(s', c, p, reply)
  {
    match reply
    case Fresh(job, result) =>
      WonStays(s, s', job, c);
      DerivationStays(s, s', p, job, result);
    case Cached(result) =>
      var q :| FromCompletedJob(s, p.org, p.fingerprint, result.(queryId := q));
      SourceStays(s, s', p.org, p.fingerprint, result.(queryId := q));
    case Reused(job, result) =>
      var q :| CompletedAs(s, job, p.org, p.fingerprint, result.(queryId := q));
      CompletedStays(s, s', job, p.org, p.fingerprint, result.(queryId := q));
    case _ =>
  }

  lemma CallerStays(s: System, s': System, c: nat, caller: Caller)
    requires Grows(s, s') && CallerSound(s, c, caller)
    ensures CallerSound(s', c, caller)
  {
    hide Told;
    hide ReplySound;
    hide Won;
    hide Holds;
    var p, phase := caller.plan, caller.phase;
    ToldStays(s, s', p, phase);
    if Engaged(phase) { WonStays(s, s', phase.job, c); }
    if HasTicket(phase) { HoldsStays(s, s', phase.job, p.org, TicketWrite(phase), phase.seen); }
    if phase.Replied? { ReplyStays(s, s', c, p, phase.reply); }
  }

  lemma InflightStays(s: System, s': System)
    requires Grows(s, s') && InflightSound(s) && s'.inflight == s.inflight
    ensures InflightSound(s')
  {
    forall i | 0 <= i < |s'.inflight|
      ensures Holds(s', s'.inflight[i].job, s'.inflight[i].org, s'.inflight[i].write, s'.inflight[i].seen)
    {
      var f := s.inflight[i];
      HoldsStays(s, s', f.job, f.org, f.write, f.seen);
    }
  }

  lemma CallersStay(s: System, s': System)
    requires CallersSound(s) && Grows(s, s') && s'.callers == s.callers
    ensures CallersSound(s')
  {
    hide Grows;
    hide CallerSound;
    forall c | 0 <= c < |s'.callers| ensures CallerSound(s', c, s'.callers[c]) {
      assert CallerSound(s, c, s.callers[c]);
      CallerStays(s, s', c, s.callers[c]);
    }
  }

  lemma AwaitersStay(s: System, s': System)
    requires DispatcherSound(s) && s'.dispatcher == s.dispatcher && s'.callers == s.callers
    ensures DispatcherSound(s')
  {
    hide D.Consistent;
    forall j | j in s'.dispatcher.pending ensures Awaited(s', j, s'.dispatcher.pending[j]) {
      assert Awaited(s, j, s.dispatcher.pending[j]);
    }
  }

  lemma CacheStays(s: System, s': System)
    requires CacheSound(s) && Grows(s, s') && s'.cache == s.cache
    ensures CacheSound(s')
  {
    hide Grows;
    hide FromCompletedJob;
    forall k | k in s'.cache ensures FromCompletedJob(s', k.org, k.fingerprint, s'.cache[k].result) {
      SourceStays(s, s', k.org, k.fingerprint, s.cache[k].result);
    }
  }

  lemma NoLaunch(s: System, s': System)
    requires LaunchesSound(s) && s'.launched == s.launched && s.dispatcher.next <= s'.dispatcher.next
    ensures LaunchesSound(s')
  {
  }

  /** A change of the store, the clock or the logs that leaves every caller where it stands. */
  lemma StoreMove(s: System, s': System)
    requires Sound(s) && Grows(s, s')
    requires s'.callers == s.callers && s'.dispatcher == s.dispatcher && s'.launched == s.launched
    requires s'.inflight == s.inflight || InflightSound(s')
    requires RowsSound(s') && CompletedSound(s') && WinsSound(s')
    requires s'.cache == s.cache || CacheSound(s')
    ensures Sound(s')
  {
    hide Grows;
    hide RowsSound;
    hide CompletedSound;
    hide WinsSound;
    hide CacheSound;
    hide CallersSound;
    hide InflightSound;
    hide LaunchesSound;
    hide DispatcherSound;
    CallersStay(s, s');
    AwaitersStay(s, s');
    NoLaunch(s, s');
    if s'.inflight == s.inflight { InflightStays(s, s'); }
    if s'.cache == s.cache { CacheStays(s, s'); }
  }

  lemma MoveGrows(s: System, c: nat, caller: Caller)
    requires c < |s.callers|
    ensures Grows(s, s.(callers := s.callers[c := caller]))
  {
    Unmoved(s);
  }

  lemma CallersMove(s: System, s': System, c: nat)
    requires CallersSound(s) && Grows(s, s') && c < |s.callers|
    requires |s'.callers| == |s.callers| && CallerSound(s, c, s'.callers[c])
    requires forall i :: 0 <= i < |s.callers| && i != c ==> s'.callers[i] == s.callers[i]
    ensures CallersSound(s')
  {
    hide Grows;
    hide CallerSound;
    forall i | 0 <= i < |s'.callers| ensures CallerSound(s', i, s'.callers[i]) {
      if i != c { assert CallerSound(s, i, s.callers[i]); }
      CallerStays(s, s', i, s'.callers[i]);
    }
  }

  /** A caller whose execution is settled is awaited by no pending entry. */
  lemma AwaitersMove(s: System, s': System, c: nat)
    requires DispatcherSound(s) && c < |s.callers| && s'.dispatcher == s.dispatcher
    requires s.callers[c].phase.Waiting? ==> D.Settled(s.dispatcher, s.callers[c].phase.execution)
    requires |s'.callers| == |s.callers|
    requires forall i :: 0 <= i < |s.callers| && i != c ==> s'.callers[i] == s.callers[i]
    ensures DispatcherSound(s')
  {
    hide D.Settled;
    forall j | j in s'.dispatcher.pending ensures Awaited(s', j, s'.dispatcher.pending[j]) {
      var e := s.dispatcher.pending[j];
      assert Awaited(s, j, e);
      var i :| 0 <= i < |s.callers| && Awaits(s.callers[i].phase, j, e);
      assert e.execution in s.dispatcher.timers;
      assert Awaits(s'.callers[i].phase, j, e);
    }
  }

  /** One caller moves on and nothing else changes. */
  lemma CallerMove(s: System, c: nat, caller: Caller)
    requires Sound(s) && c < |s.callers|
    requires s.callers[c].phase.Waiting? ==> D.Settled(s.dispatcher, s.callers[c].phase.execution)
    requires CallerSound(s, c, caller)
    ensures Sound(s.(callers := s.callers[c := caller])) && Grows(s, s.(callers := s.callers[c := caller]))
  {
    hide CallersSound;
    hide CallerSound;
    hide DispatcherSound;
    hide Grows;
    hide RowsSound;
    hide CompletedSound;
    hide WinsSound;
    hide CacheSound;
    hide InflightSound;
    var s' := s.(callers := s.callers[c := caller]);
    MoveGrows(s, c, caller);
    CallersMove(s, s', c);
    AwaitersMove(s, s', c);
    StoreFacts(s, s');
  }

  /** No row becomes COMPLETED, and COMPLETED rows only lose overdue results. */
  ghost predicate CompletionUnchanged(rows: Rows, rows': Rows, now: Instant) {
    && rows'.Keys == rows.Keys
    && forall j :: j in rows ==> RowCompletionUnchanged(rows[j], rows'[j], now)
  }

  ghost predicate RowCompletionUnchanged(row: Row, row': Row, now: Instant) {
    if row.state == COMPLETED then row' == row || (ResultOverdue(row, now) && row' == row.(result := None))
    else row'.state != COMPLETED
  }

  lemma CompletedFollows(s: System, rows: Rows)
    requires CompletedSound(s) && CompletionUnchanged(s.rows, rows, s.now)
    ensures CompletedSound(s.(rows := rows))
  {
    var s' := s.(rows := rows);
    forall j ensures j in s'.completed <==> j in s'.rows && s'.rows[j].state == COMPLETED {
      if j in s.rows { assert RowCompletionUnchanged(s.rows[j], rows[j], s.now); }
    }
    forall j | j in s'.completed ensures StoredOrExpired(s', j) {
      assert RowCompletionUnchanged(s.rows[j], rows[j], s.now) && StoredOrExpired(s, j);
    }
  }

  lemma WinsFollow(s: System, s': System)
    requires WinsSound(s) && LaterRows(s.rows, s'.rows) && s'.wins == s.wins
    ensures WinsSound(s')
  {
    forall i | 0 <= i < |s'.wins| ensures s'.wins[i].job in s'.rows && s'.rows[s'.wins[i].job].state != PENDING {
      assert Later(s.rows[s.wins[i].job], s'.rows[s.wins[i].job]);
    }
  }

  lemma RowsGrow(s: System, rows: Rows)
    requires LaterRows(s.rows, rows)
    ensures Grows(s, s.(rows := rows))
  {
    hide LaterRows;
  }

  lemma RowFacts(s: System)
    requires Sound(s)
    ensures AllSound(s.rows) && OneActive(s.rows)
  {
    assert RowsSound(s);
  }

  /** A statement on the rows that completes nothing. */
  lemma QuietMove(s: System, rows: Rows)
    requires Sound(s) && AllSound(rows) && OneActive(rows) && LaterRows(s.rows, rows)
    requires CompletionUnchanged(s.rows, rows, s.now)
    ensures Sound(s.(rows := rows)) && Grows(s, s.(rows := rows))
  {
    hide AllSound;
    hide OneActive;
    hide Grows;
    hide CompletedSound;
    hide WinsSound;
    hide LaunchesSound;
    hide DispatcherSound;
    hide CacheSound;
    hide CallersSound;
    hide InflightSound;
    var s' := s.(rows := rows);
    RowsGrow(s, rows);
    CompletedFollows(s, rows);
    WinsFollow(s, s');
    assert RowsSound(s');
    StoreMove(s, s');
  }

  /** A guarded write other than completion, committed by whoever holds its ticket. */
  lemma TransitionMove(s: System, job: JobId, org: Organization, w: Write, version: nat)
    requires Sound(s) && Issued(w) && w.Transition?
    ensures Sound(s.(rows := WriteHalf(s.rows, job, org, version, w, s.now)))
    ensures Grows(s, s.(rows := WriteHalf(s.rows, job, org, version, w, s.now)))
  {
    hide Sound;
    hide Grows;
    hide Issued;
    RowFacts(s);
    WriteHalfKeepsRows(s.rows, job, org, version, w, s.now);
    TransitionsAreQuiet(s.rows, job, org, w, version, s.now);
    QuietMove(s, WriteHalf(s.rows, job, org, version, w, s.now));
  }

  lemma TransitionIsQuiet(row: Row, w: Write, now: Instant)
    requires Issued(w) && w.Transition? && Admits(row, w)
    ensures RowCompletionUnchanged(row, Written(row, w, now), now)
  {
  }

  lemma TransitionsAreQuiet(rows: Rows, job: JobId, org: Organization, w: Write, version: nat, now: Instant)
    requires Issued(w) && w.Transition?
    ensures CompletionUnchanged(rows, WriteHalf(rows, job, org, version, w, now), now)
  {
    hide Issued;
    hide Written;
    if Guard(rows, job, org, version, w) { TransitionIsQuiet(rows[job], w, now); }
  }

  lemma LoggedWinSound(s: System, c: nat, job: JobId)
    requires WinsSound(s) && job in s.rows && s.rows[job].state != PENDING
    requires forall i :: 0 <= i < |s.wins| ==> s.wins[i].job != job
    ensures WinsSound(s.(wins := s.wins + [Win(job, c)]))
  {
  }

  lemma WinGrows(s: System, c: nat, job: JobId)
    ensures Grows(s, s.(wins := s.wins + [Win(job, c)]))
  {
    Unmoved(s);
  }

  lemma LogWin(s: System, c: nat, job: JobId)
    requires Sound(s) && job in s.rows && s.rows[job].state != PENDING
    requires forall i :: 0 <= i < |s.wins| ==> s.wins[i].job != job
    ensures var s' := s.(wins := s.wins + [Win(job, c)]); Sound(s') && Grows(s, s') && Won(s', job, c)
  {
    hide DispatcherSound;
    hide CallersSound;
    hide InflightSound;
    hide LaunchesSound;
    hide CacheSound;
    hide CompletedSound;
    hide WinsSound;
    var s' := s.(wins := s.wins + [Win(job, c)]);
    assert s'.wins[|s.wins|] == Win(job, c);
    WinGrows(s, c, job);
    hide Grows;
    LoggedWinSound(s, c, job);
    CompletedSame(s, s');
    StoreMove(s, s');
  }

  lemma PendingIsNotWon(s: System, job: JobId)
    requires Sound(s) && job in s.rows && s.rows[job].state == PENDING
    ensures forall i :: 0 <= i < |s.wins| ==> s.wins[i].job != job
  {
    assert WinsSound(s);
  }

  /** The claim: the winner is logged, and nobody had won the job before. */
  lemma DispatchMove(s: System, c: nat, job: JobId, org: Organization, agent: Option<AgentId>, version: nat)
    requires Sound(s) && Guard(s.rows, job, org, version, Dispatch(agent))
    ensures var s' := s.(rows := WriteHalf(s.rows, job, org, version, Dispatch(agent), s.now),
                         wins := s.wins + [Win(job, c)]);
      Sound(s') && Grows(s, s') && Won(s', job, c)
  {
    hide Sound;
    hide Grows;
    hide Won;
    var s1 := s.(rows := WriteHalf(s.rows, job, org, version, Dispatch(agent), s.now));
    TransitionMove(s, job, org, Dispatch(agent), version);
    assert s.rows[job].state == PENDING && s1.rows[job].state == DISPATCHED;
    PendingIsNotWon(s, job);
    LogWin(s1, c, job);
    GrowsIsTransitive(s, s1, s1.(wins := s.wins + [Win(job, c)]));
  }

  lemma GrowsIsTransitive(a: System, b: System, c: System)
    requires Grows(a, b) && Grows(b, c)
    ensures Grows(a, c)
  {
    LaterRowsIsTransitive(a.rows, b.rows, c.rows);
    assert c.wins[..|a.wins|] == c.wins[..|b.wins|][..|a.wins|];
  }

  lemma CompletionIsLogged(s: System, job: JobId, result: QueryResult)
    requires CompletedSound(s) && job in s.rows
    ensures CompletedSound(s.(rows := s.rows[job := Written(s.rows[job], Complete(result, None), s.now)],
                              completed := s.completed[job := result]))
  {
    var s' := s.(rows := s.rows[job := Written(s.rows[job], Complete(result, None), s.now)],
                 completed := s.completed[job := result]);
    forall j | j in s'.completed ensures StoredOrExpired(s', j) {
      if j != job { assert StoredOrExpired(s, j); }
    }
  }

  lemma ActiveIsNotCompleted(s: System, job: JobId)
    requires Sound(s) && job in s.rows && IsActive(s.rows[job].state)
    ensures CompletedSound(s) && job !in s.completed
  {
  }

  lemma CompleteMove(s: System, job: JobId, org: Organization, result: QueryResult, version: nat)
    requires Sound(s) && Guard(s.rows, job, org, version, Complete(result, None))
    ensures var s' := s.(rows := WriteHalf(s.rows, job, org, version, Complete(result, None), s.now),
                         completed := s.completed[job := result]);
      Sound(s') && Grows(s, s')
  {
    hide Sound;
    hide Grows;
    RowFacts(s);
    WriteHalfKeepsRows(s.rows, job, org, version, Complete(result, None), s.now);
    ActiveIsNotCompleted(s, job);
    hide Admits;
    CompletionIsLogged(s, job, result);
    CompletionMove(s, job, result, WriteHalf(s.rows, job, org, version, Complete(result, None), s.now));
  }

  lemma CompletionMove(s: System, job: JobId, result: QueryResult, rows: Rows)
    requires Sound(s) && job !in s.completed
    requires AllSound(rows) && LaterRows(s.rows, rows) && OneActive(rows) && rows.Keys == s.rows.Keys
    requires CompletedSound(s.(rows := rows, completed := s.completed[job := result]))
    ensures var s' := s.(rows := rows, completed := s.completed[job := result]); Sound(s') && Grows(s, s')
  {
    hide Grows;
    hide LaunchesSound;
    hide CacheSound;
    hide AllSound;
    hide OneActive;
    hide CompletedSound;
    hide CallersSound;
    hide InflightSound;
    hide DispatcherSound;
    var s' := s.(rows := rows, completed := s.completed[job := result]);
    CompletionGrows(s, job, result, rows);
    WinsFollow(s, s');
    assert RowsSound(s');
    StoreMove(s, s');
  }

  lemma CompletionGrows(s: System, job: JobId, result: QueryResult, rows: Rows)
    requires LaterRows(s.rows, rows) && job !in s.completed
    ensures Grows(s, s.(rows := rows, completed := s.completed[job := result]))
  {
    hide LaterRows;
  }

  lemma CreateKeepsRows(s: System, row: Row)
    requires RowsSound(s) && RowSound(row) && row.state == PENDING
    requires !Collides(s.rows, row.org, row.fingerprint)
    ensures RowsSound(s.(rows := s.rows[s.nextJob := row], nextJob := s.nextJob + 1))
    ensures s.nextJob !in s.rows && LaterRows(s.rows, s.rows[s.nextJob := row])
  {
    forall i | i in s.rows && IsActive(s.rows[i].state)
      ensures s.rows[i].org != row.org || s.rows[i].fingerprint != row.fingerprint
    {
      assert !Clashes(s.rows[i], row.org, row.fingerprint);
    }
  }

  lemma CreateCompletesNothing(s: System, row: Row)
    requires CompletedSound(s) && s.nextJob !in s.rows && row.state == PENDING
    ensures CompletedSound(s.(rows := s.rows[s.nextJob := row], nextJob := s.nextJob + 1))
  {
    var s' := s.(rows := s.rows[s.nextJob := row], nextJob := s.nextJob + 1);
    forall j | j in s'.completed ensures StoredOrExpired(s', j) { assert StoredOrExpired(s, j); }
  }

  lemma CreateMove(s: System, p: Plan, permission: Permission)
    requires Sound(s) && !Collides(s.rows, p.org, p.fingerprint)
    ensures var row := NewRow(p.org, p.fingerprint, p.queryId, p.requestId, permission, s.now);
      var s' := s.(rows := s.rows[s.nextJob := row], nextJob := s.nextJob + 1);
      Sound(s') && Grows(s, s') && IsJobOf(s', p, s.nextJob)
  {
    hide RowsSound;
    hide CompletedSound;
    hide WinsSound;
    hide LaunchesSound;
    hide DispatcherSound;
    hide CacheSound;
    hide CallersSound;
    hide InflightSound;
    hide Collides;
    var row := NewRow(p.org, p.fingerprint, p.queryId, p.requestId, permission, s.now);
    var s' := s.(rows := s.rows[s.nextJob := row], nextJob := s.nextJob + 1);
    CreateKeepsRows(s, row);
    CreationGrows(s, s.rows[s.nextJob := row]);
    hide Grows;
    CreateCompletesNothing(s, row);
    WinsFollow(s, s');
    StoreMove(s, s');
  }

  lemma CreationGrows(s: System, rows: Rows)
    requires LaterRows(s.rows, rows)
    ensures Grows(s, s.(rows := rows, nextJob := s.nextJob + 1))
  {
    hide LaterRows;
  }

  lemma ExpireDispatchIsQuiet(rows: Rows, now: Instant)
    ensures CompletionUnchanged(rows, ExpireDispatch(rows, now), now)
  {
  }

  lemma SweepDispatchMove(s: System)
    requires Sound(s)
    ensures Sound(s.(rows := ExpireDispatch(s.rows, s.now))) && Grows(s, s.(rows := ExpireDispatch(s.rows, s.now)))
  {
    hide Sound;
    hide Grows;
    RowFacts(s);
    ExpireDispatchKeepsRows(s.rows, s.now);
    ExpireDispatchIsQuiet(s.rows, s.now);
    QuietMove(s, ExpireDispatch(s.rows, s.now));
  }

  lemma ExpireExecutionIsQuiet(rows: Rows, now: Instant)
    ensures CompletionUnchanged(rows, ExpireExecution(rows, now), now)
  {
  }

  lemma SweepExecutionMove(s: System)
    requires Sound(s)
    ensures Sound(s.(rows := ExpireExecution(s.rows, s.now))) && Grows(s, s.(rows := ExpireExecution(s.rows, s.now)))
  {
    hide Sound;
    hide Grows;
    RowFacts(s);
    ExpireExecutionKeepsRows(s.rows, s.now);
    ExpireExecutionIsQuiet(s.rows, s.now);
    QuietMove(s, ExpireExecution(s.rows, s.now));
  }

  lemma ScrubResultsIsQuiet(rows: Rows, now: Instant)
    requires AllSound(rows)
    ensures CompletionUnchanged(rows, ScrubResults(rows, now), now)
  {
  }

  lemma SweepResultsMove(s: System)
    requires Sound(s)
    ensures Sound(s.(rows := ScrubResults(s.rows, s.now))) && Grows(s, s.(rows := ScrubResults(s.rows, s.now)))
  {
    hide Sound;
    hide Grows;
    RowFacts(s);
    ScrubKeepsRows(s.rows, s.now);
    ScrubResultsIsQuiet(s.rows, s.now);
    QuietMove(s, ScrubResults(s.rows, s.now));
  }

  lemma TicketIsHeld(s: System, job: JobId, org: Organization, w: Write)
    requires Sound(s) && ReadHalf(s.rows, job, org, w).Proceed?
    ensures Holds(s, job, org, w, ReadHalf(s.rows, job, org, w).row)
  {
    hide DispatcherSound;
    hide CallersSound;
    hide InflightSound;
    hide LaunchesSound;
    hide CacheSound;
    hide CompletedSound;
    hide WinsSound;
  }

  /** A caller may leave its phase: it is not waiting for an execution still pending. */
  ghost predicate Free(s: System, c: nat) {
    && Sound(s) && c < |s.callers|
    && (s.callers[c].phase.Waiting? ==> D.Settled(s.dispatcher, s.callers[c].phase.execution))
  }

  lemma ToReply(s: System, c: nat, reply: Reply)
    requires Free(s, c) && ReplySound(s, c, s.callers[c].plan, reply)
    ensures Sound(To(s, c, Replied(reply))) && Grows(s, To(s, c, Replied(reply)))
  {
    hide Sound;
    hide Grows;
    hide ReplySound;
    hide Holds;
    hide Won;
    hide IsJobOf;
    CallerMove(s, c, Caller(s.callers[c].plan, Replied(reply)));
  }

  lemma ToFirst(s: System, c: nat, phase: Phase)
    requires Free(s, c) && !HasJob(phase) && !phase.Replied?
    ensures Sound(To(s, c, phase)) && Grows(s, To(s, c, phase))
  {
    hide Sound;
    hide Grows;
    CallerMove(s, c, Caller(s.callers[c].plan, phase));
  }

  lemma ToJob(s: System, c: nat, phase: Phase)
    requires Free(s, c) && HasJob(phase) && !HasTicket(phase) && !phase.Waiting? && !phase.Storing?
    requires IsJobOf(s, s.callers[c].plan, phase.job) && (Engaged(phase) ==> Won(s, phase.job, c))
    requires Told(s, s.callers[c].plan, phase)
    ensures Sound(To(s, c, phase)) && Grows(s, To(s, c, phase))
  {
    hide Sound;
    hide Grows;
    hide IsJobOf;
    hide Won;
    hide Told;
    hide Holds;
    CallerMove(s, c, Caller(s.callers[c].plan, phase));
  }

  lemma ToAborting(s: System, c: nat, job: JobId, code: ErrorCode)
    requires Free(s, c) && IsJobOf(s, s.callers[c].plan, job)
    ensures Sound(To(s, c, Aborting(job, code))) && Grows(s, To(s, c, Aborting(job, code)))
  {
    hide Sound;
    hide Grows;
    hide IsJobOf;
    ToJob(s, c, Aborting(job, code));
  }

  lemma ToTicket(s: System, c: nat, phase: Phase)
    requires Free(s, c) && HasTicket(phase)
    requires IsJobOf(s, s.callers[c].plan, phase.job) && (Engaged(phase) ==> Won(s, phase.job, c))
    requires ReadHalf(s.rows, phase.job, s.callers[c].plan.org, TicketWrite(phase)) == Proceed(phase.seen)
    requires Told(s, s.callers[c].plan, phase)
    ensures Sound(To(s, c, phase)) && Grows(s, To(s, c, phase))
  {
    hide Sound;
    hide Grows;
    hide IsJobOf;
    hide Won;
    hide Told;
    hide Holds;
    TicketIsHeld(s, phase.job, s.callers[c].plan.org, TicketWrite(phase));
    CallerMove(s, c, Caller(s.callers[c].plan, phase));
  }

  lemma ToStoring(s: System, c: nat, job: JobId, result: QueryResult)
    requires Free(s, c) && IsJobOf(s, s.callers[c].plan, job) && Won(s, job, c)
    requires job in s.completed && s.completed[job] == result && DerivedFrom(s, s.callers[c].plan, job, result)
    ensures Sound(To(s, c, Storing(job, result))) && Grows(s, To(s, c, Storing(job, result)))
  {
    hide Sound;
    hide Grows;
    hide IsJobOf;
    hide Won;
    hide DerivedFrom;
    hide Holds;
    CallerMove(s, c, Caller(s.callers[c].plan, Storing(job, result)));
  }

  /** What the invariant says of one caller's job. */
  lemma JobFacts(s: System, c: nat)
    requires Sound(s) && c < |s.callers| && HasJob(s.callers[c].phase)
    ensures var phase := s.callers[c].phase;
      && IsJobOf(s, s.callers[c].plan, phase.job) && (Engaged(phase) ==> Won(s, phase.job, c))
      && Told(s, s.callers[c].plan, phase)
  {
    assert CallerSound(s, c, s.callers[c]);
  }

  /** What the invariant says of the row a caller has read. */
  lemma TicketFacts(s: System, c: nat)
    requires Sound(s) && c < |s.callers| && HasTicket(s.callers[c].phase)
    ensures var phase := s.callers[c].phase;
      Holds(s, phase.job, s.callers[c].plan.org, TicketWrite(phase), phase.seen)
  {
    assert CallerSound(s, c, s.callers[c]);
  }

  lemma JobStays(s: System, s': System, p: Plan, job: JobId)
    requires Grows(s, s') && IsJobOf(s, p, job)
    ensures IsJobOf(s', p, job)
  {
    assert Later(s.rows[job], s'.rows[job]);
  }

  // ---------------------------------------------------------------- one lemma per stretch of code

  lemma CreatingIsSound(s: System, c: nat, choice: Choice)
    requires Free(s, c) && s.callers[c].phase.Creating?
    ensures Sound(CreateStep(s, c, choice)) && Grows(s, CreateStep(s, c, choice))
  {
    hide Sound;
    hide Grows;
    var p := s.callers[c].plan;
    if Collides(s.rows, p.org, p.fingerprint) {
      ToFirst(s, c, FindingActive);
    } else {
      var permission := if Certifies(p) then CERTIFICATION else p.permission;
      CreateMove(s, p, permission);
      var row := NewRow(p.org, p.fingerprint, p.queryId, p.requestId, permission, s.now);
      var s1 := s.(rows := s.rows[s.nextJob := row], nextJob := s.nextJob + 1);
      ToJob(s1, c, Claiming(s.nextJob));
      GrowsIsTransitive(s, s1, To(s1, c, Claiming(s.nextJob)));
    }
  }

  lemma FindingActiveIsSound(s: System, c: nat, choice: Choice)
    requires Free(s, c) && s.callers[c].phase.FindingActive?
    ensures Sound(CreateStep(s, c, choice)) && Grows(s, CreateStep(s, c, choice))
  {
    hide Sound;
    hide Grows;
    var p := s.callers[c].plan;
    if !Collides(s.rows, p.org, p.fingerprint) {
      ToFirst(s, c, FindingCompleted);
    } else {
      var id := ActiveJob(s.rows, p.org, p.fingerprint);
      if s.rows[id].state == PENDING {
        CallerMove(s, c, Caller(p.(queryId := s.rows[id].queryId, requestId := s.rows[id].requestId), Claiming(id)));
      } else {
        ToReply(s, c, Pending(id));
      }
    }
  }

  lemma FindingCompletedIsSound(s: System, c: nat, choice: Choice)
    requires Free(s, c) && s.callers[c].phase.FindingCompleted?
    ensures Sound(CreateStep(s, c, choice)) && Grows(s, CreateStep(s, c, choice))
  {
    hide Sound;
    hide Grows;
    var p := s.callers[c].plan;
    if NewestReusable(s.rows, choice.pick, p.org, p.fingerprint, s.now) {
      ToJob(s, c, ReadingResult(choice.pick));
    } else if forall j :: j in s.rows ==> !Reusable(s.rows[j], p.org, p.fingerprint, s.now) {
      ToReply(s, c, Failure(INTERNAL_ERROR));
    } else {
      Unmoved(s);
    }
  }

  lemma Unmoved(s: System)
    ensures Grows(s, s)
  {
  }

  lemma StoredResult(s: System, job: JobId)
    requires Sound(s) && job in s.rows && s.rows[job].state == COMPLETED && s.rows[job].result.Some?
    ensures job in s.completed && s.completed[job] == s.rows[job].result.value
  {
    assert job in s.completed && StoredOrExpired(s, job);
  }

  lemma ReadingResultIsSound(s: System, c: nat, choice: Choice)
    requires Free(s, c) && s.callers[c].phase.ReadingResult?
    ensures Sound(CreateStep(s, c, choice)) && Grows(s, CreateStep(s, c, choice))
  {
    hide Sound;
    hide Grows;
    var p, job := s.callers[c].plan, s.callers[c].phase.job;
    JobFacts(s, c);
    if Retained(s.rows[job], s.now) && s.rows[job].result.Some? {
      var result := s.rows[job].result.value;
      StoredResult(s, job);
      var relabelled := result.(queryId := p.queryId);
      assert CompletedAs(s, job, p.org, p.fingerprint, relabelled.(queryId := result.queryId));
      ToReply(s, c, Reused(job, relabelled));
    } else {
      ToReply(s, c, Pending(job));
    }
  }

  /** A caller about to execute a job it won finds no entry of that job in the dispatcher. */
  lemma WinnerFindsNoEntry(s: System, c: nat)
    requires Sound(s) && c < |s.callers| && s.callers[c].phase.Executing?
    ensures s.callers[c].phase.job !in s.dispatcher.pending
  {
    var job := s.callers[c].phase.job;
    if job in s.dispatcher.pending {
      var e := s.dispatcher.pending[job];
      assert Awaited(s, job, e);
      var i :| 0 <= i < |s.callers| && Awaits(s.callers[i].phase, job, e);
      JobFacts(s, i);
      JobFacts(s, c);
      OneWinner(s, job, i, c);
      assert false;
    }
  }

  lemma OneWinner(s: System, job: JobId, c: nat, d: nat)
    requires WinsSound(s) && Won(s, job, c) && Won(s, job, d)
    ensures c == d
  {
    var i :| 0 <= i < |s.wins| && s.wins[i] == Win(job, c);
    var j :| 0 <= j < |s.wins| && s.wins[j] == Win(job, d);
    assert i == j;
  }

  lemma ClaimingIsSound(s: System, c: nat, choice: Choice)
    requires Free(s, c) && s.callers[c].phase.Claiming?
    ensures Sound(ExecuteStep(s, c, choice)) && Grows(s, ExecuteStep(s, c, choice))
  {
    hide Sound;
    hide Grows;
    var p, job := s.callers[c].plan, s.callers[c].phase.job;
    var agent := if s.simulator then None else choice.agent;
    JobFacts(s, c);
    if !s.simulator && agent.None? {
      ToAborting(s, c, job, AGENT_OFFLINE);
    } else {
      match ReadHalf(s.rows, job, p.org, Dispatch(agent))
      case Missing => ToAborting(s, c, job, INTERNAL_ERROR);
      case Refused(_) => ToReply(s, c, Pending(job));
      case Proceed(row) => ToTicket(s, c, Dispatching(job, row, agent));
    }
  }

  lemma DispatchingIsSound(s: System, c: nat, choice: Choice)
    requires Free(s, c) && s.callers[c].phase.Dispatching?
    ensures Sound(ExecuteStep(s, c, choice)) && Grows(s, ExecuteStep(s, c, choice))
  {
    hide Won;
    hide IsJobOf;
    hide Guard;
    hide WriteHalf;
    hide Sound;
    hide Grows;
    var p, phase := s.callers[c].plan, s.callers[c].phase;
    var job, w, version := phase.job, Dispatch(phase.agent), phase.seen.version;
    JobFacts(s, c);
    if Guard(s.rows, job, p.org, version, w) {
      DispatchMove(s, c, job, p.org, phase.agent, version);
      var s1 := s.(rows := WriteHalf(s.rows, job, p.org, version, w, s.now), wins := s.wins + [Win(job, c)]);
      JobStays(s, s1, p, job);
      ToJob(s1, c, Executing(job, 1, []));
      GrowsIsTransitive(s, s1, To(s1, c, Executing(job, 1, [])));
    } else {
      ToReply(s, c, Pending(job));
    }
  }

  lemma ExecutingIsSound(s: System, c: nat, choice: Choice)
    requires Free(s, c) && s.callers[c].phase.Executing?
    ensures Sound(ExecuteStep(s, c, choice)) && Grows(s, ExecuteStep(s, c, choice))
  {
    hide Sound;
    hide Grows;
    var p, job, sequence := s.callers[c].plan, s.callers[c].phase.job, s.callers[c].phase.sequence;
    var heard := s.callers[c].phase.heard;
    JobFacts(s, c);
    WinnerFindsNoEntry(s, c);
    if s.simulator {
      HearMore(s, p, job, heard, Simulated(choice.rows));
      ToJob(s, c, Answered(job, sequence, heard + [Simulated(choice.rows)]));
    } else if choice.agent.None? {
      ToAborting(s, c, job, AGENT_OFFLINE);
    } else {
      RegisterMove(s, c, D.Reference(job, p.org, choice.agent.value, p.queryId, sequence), heard, choice.sending.Sent?);
    }
  }

  /** The dispatcher registers an execution for a caller that now waits for it. */
  lemma RegisterMove(s: System, c: nat, ref: D.Reference, heard: seq<Source>, sent: bool)
    requires Sound(s) && c < |s.callers| && s.callers[c].phase == Executing(ref.job, ref.sequence, heard)
    requires ref.job !in s.dispatcher.pending
    requires ref.org == s.callers[c].plan.org && ref.queryId == s.callers[c].plan.queryId
    ensures var s' := To(Registered(s, ref, sent), c, Waiting(ref.job, ref.sequence, heard, s.dispatcher.next));
      Sound(s') && Grows(s, s')
  {
    hide LaunchesSound;
    hide D.Consistent;
    hide Told;
    hide Won;
    hide IsJobOf;
    hide CallersSound;
    hide RowsSound;
    hide CompletedSound;
    hide WinsSound;
    hide CacheSound;
    hide InflightSound;
    var s' := To(Registered(s, ref, sent), c, Waiting(ref.job, ref.sequence, heard, s.dispatcher.next));
    RegistrationGrows(s, c, ref, heard, sent);
    SendingKeepsConsistent(s.dispatcher, ref, sent);
    hide D.Handed;
    JobFacts(s, c);
    WaitingIsTold(s, s', c, ref, heard);
    CallersFollow(s, s', c);
    PendingFollows(s, s', c, ref, heard);
    StoreFacts(s, s');
  }

  /** Every execution launched so far has a number the dispatcher has given out. */
  lemma RegistrationGrows(s: System, c: nat, ref: D.Reference, heard: seq<Source>, sent: bool)
    requires LaunchesSound(s) && c < |s.callers| && ref.job !in s.dispatcher.pending
    ensures var s' := To(Registered(s, ref, sent), c, Waiting(ref.job, ref.sequence, heard, s.dispatcher.next));
      Grows(s, s') && LaunchesSound(s')
  {
    Unmoved(s);
    assert D.Handed(s.dispatcher, ref, sent).next == s.dispatcher.next + 1;
  }

  lemma WaitingIsTold(s: System, s': System, c: nat, ref: D.Reference, heard: seq<Source>)
    requires Grows(s, s') && c < |s.callers|
    requires Told(s, s.callers[c].plan, Executing(ref.job, ref.sequence, heard))
    requires s.dispatcher.next in s'.launched && s'.launched[s.dispatcher.next] == ref
    requires ref.org == s.callers[c].plan.org && ref.queryId == s.callers[c].plan.queryId
    ensures Told(s', s.callers[c].plan, Waiting(ref.job, ref.sequence, heard, s.dispatcher.next))
  {
    hide Grows;
    hide AllHeard;
    HeardStays(s, s', s.callers[c].plan, ref.job, heard);
  }

  lemma CallersFollow(s: System, s': System, c: nat)
    requires CallersSound(s) && Grows(s, s') && c < |s.callers|
    requires |s'.callers| == |s.callers| && s'.callers == s.callers[c := s'.callers[c]]
    requires s'.callers[c].plan == s.callers[c].plan && s'.callers[c].phase.Waiting?
    requires s'.callers[c].phase.execution < s'.dispatcher.next
    requires IsJobOf(s, s.callers[c].plan, s'.callers[c].phase.job) && Won(s, s'.callers[c].phase.job, c)
    requires Told(s', s'.callers[c].plan, s'.callers[c].phase)
    ensures CallersSound(s')
  {
    hide Grows;
    hide Told;
    forall i | 0 <= i < |s'.callers| ensures CallerSound(s', i, s'.callers[i]) {
      if i == c {
        JobStays(s, s', s.callers[c].plan, s'.callers[c].phase.job);
        WonStays(s, s', s'.callers[c].phase.job, c);
      } else {
        CallerStays(s, s', i, s.callers[i]);
      }
    }
  }

  lemma PendingFollows(s: System, s': System, c: nat, ref: D.Reference, heard: seq<Source>)
    requires DispatcherSound(s) && c < |s.callers| && !s.callers[c].phase.Waiting?
    requires D.Consistent(s'.dispatcher)
    requires var waiting := Waiting(ref.job, ref.sequence, heard, s.dispatcher.next);
      s'.callers == s.callers[c := s.callers[c].(phase := waiting)]
    requires forall j :: j in s'.dispatcher.pending ==>
      var e := s'.dispatcher.pending[j];
      if j == ref.job then e.sequence == ref.sequence && e.execution == s.dispatcher.next
      else j in s.dispatcher.pending && e == s.dispatcher.pending[j]
    ensures DispatcherSound(s')
  {
    forall j | j in s'.dispatcher.pending ensures Awaited(s', j, s'.dispatcher.pending[j]) {
      if j == ref.job {
        assert Awaits(s'.callers[c].phase, j, s'.dispatcher.pending[j]);
      } else {
        AwaitedByAnother(s, s', c, j, s.dispatcher.pending[j]);
      }
    }
  }

  lemma SendingKeepsConsistent(d: D.State, ref: D.Reference, sent: bool)
    requires D.Consistent(d) && ref.job !in d.pending
    ensures var d' := D.Handed(d, ref, sent);
      && D.Consistent(d') && d'.next == d.next + 1
      && (forall j :: j in d'.pending ==>
            if j == ref.job then d'.pending[j].sequence == ref.sequence && d'.pending[j].execution == d.next
            else j in d.pending && d'.pending[j] == d.pending[j])
  {
    D.ApplyKeepsConsistent(d, D.Start(ref));
    D.ApplyKeepsConsistent(D.Apply(d, D.Start(ref)), D.Fail(ref, AGENT_OFFLINE));
  }

  lemma AwaitedByAnother(s: System, s': System, c: nat, j: JobId, e: D.Entry)
    requires c < |s.callers| && !s.callers[c].phase.Waiting? && Awaited(s, j, e)
    requires |s'.callers| == |s.callers| && forall i :: 0 <= i < |s.callers| && i != c ==> s'.callers[i] == s.callers[i]
    ensures Awaited(s', j, e)
  {
    var i :| 0 <= i < |s.callers| && Awaits(s.callers[i].phase, j, e);
    assert Awaits(s'.callers[i].phase, j, e);
  }

  /** The parts of the invariant that only the store, the cache and the tickets decide. */
  lemma StoreFacts(s: System, s': System)
    requires Sound(s) && Grows(s, s')
    requires s'.rows == s.rows && s'.nextJob == s.nextJob && s'.now == s.now && s'.completed == s.completed
    requires s'.wins == s.wins && s'.cache == s.cache && s'.inflight == s.inflight
    ensures RowsSound(s') && CompletedSound(s') && WinsSound(s') && CacheSound(s') && InflightSound(s')
  {
    CompletedSame(s, s');
    InflightStays(s, s');
    forall k | k in s'.cache ensures FromCompletedJob(s', k.org, k.fingerprint, s'.cache[k].result) {
      SourceStays(s, s', k.org, k.fingerprint, s.cache[k].result);
    }
  }

  lemma WaitingIsSound(s: System, c: nat, choice: Choice)
    requires Sound(s) && c < |s.callers| && s.callers[c].phase.Waiting?
    ensures Sound(AnswerStep(s, c, choice)) && Grows(s, AnswerStep(s, c, choice))
  {
    hide Sound;
    hide Grows;
    var phase := s.callers[c].phase;
    JobFacts(s, c);
    if D.Settled(s.dispatcher, phase.execution) {
      AnswerIsSettled(s.dispatcher, phase.execution);
      match AnswerOf(s.dispatcher, phase.execution)
      case Rows(rows) =>
        HearMore(s, s.callers[c].plan, phase.job, phase.heard, Agent(phase.execution, rows));
        ToJob(s, c, Answered(phase.job, phase.sequence, phase.heard + [Agent(phase.execution, rows)]));
      case Failure(code) => ToAborting(s, c, phase.job, code);
    } else {
      Unmoved(s);
    }
  }

  lemma AnsweredIsSound(s: System, c: nat, choice: Choice)
    requires Free(s, c) && s.callers[c].phase.Answered?
    ensures Sound(AnswerStep(s, c, choice)) && Grows(s, AnswerStep(s, c, choice))
  {
    hide Sound;
    hide Grows;
    var phase := s.callers[c].phase;
    JobFacts(s, c);
    if phase.sequence == 1 && s.callers[c].plan.compares {
      ToJob(s, c, Executing(phase.job, 2, phase.heard));
    } else if choice.valid {
      ToJob(s, c, Starting(phase.job, phase.heard));
    } else {
      ToAborting(s, c, phase.job, SOURCE_SCHEMA_MISMATCH);
    }
  }

  lemma StartingIsSound(s: System, c: nat, choice: Choice)
    requires Free(s, c) && s.callers[c].phase.Starting?
    ensures Sound(CompleteStep(s, c, choice)) && Grows(s, CompleteStep(s, c, choice))
  {
    hide Sound;
    hide Grows;
    var p, job, heard := s.callers[c].plan, s.callers[c].phase.job, s.callers[c].phase.heard;
    JobFacts(s, c);
    match ReadHalf(s.rows, job, p.org, Start())
    case Proceed(row) => ToTicket(s, c, StartWriting(job, heard, row));
    case _ => ToJob(s, c, Completing(job, heard));
  }

  lemma StartWritingIsSound(s: System, c: nat, choice: Choice)
    requires Free(s, c) && s.callers[c].phase.StartWriting?
    ensures Sound(CompleteStep(s, c, choice)) && Grows(s, CompleteStep(s, c, choice))
  {
    hide Sound;
    hide Grows;
    var p, job, version := s.callers[c].plan, s.callers[c].phase.job, s.callers[c].phase.seen.version;
    var heard := s.callers[c].phase.heard;
    JobFacts(s, c);
    TransitionMove(s, job, p.org, Start(), version);
    var s1 := s.(rows := WriteHalf(s.rows, job, p.org, version, Start(), s.now));
    JobStays(s, s1, p, job);
    WonStays(s, s1, job, c);
    HeardStays(s, s1, p, job, heard);
    ToJob(s1, c, Completing(job, heard));
    GrowsIsTransitive(s, s1, To(s1, c, Completing(job, heard)));
  }

  lemma CompletingIsSound(s: System, c: nat, choice: Choice)
    requires Free(s, c) && s.callers[c].phase.Completing?
    ensures Sound(CompleteStep(s, c, choice)) && Grows(s, CompleteStep(s, c, choice))
  {
    hide Sound;
    hide Grows;
    var p, job, heard := s.callers[c].plan, s.callers[c].phase.job, s.callers[c].phase.heard;
    var result := Computed(p.queryId, heard);
    JobFacts(s, c);
    if choice.tooLarge {
      ToAborting(s, c, job, RESULT_TOO_LARGE);
    } else {
      match ReadHalf(s.rows, job, p.org, Complete(result, None))
      case Proceed(row) => ToTicket(s, c, CompleteWriting(job, row, result));
      case _ => ToReply(s, c, Pending(job));
    }
  }

  lemma CompletionGoesThrough(s: System, c: nat, job: JobId, result: QueryResult, version: nat)
    requires Free(s, c) && s.callers[c].phase.CompleteWriting?
    requires s.callers[c].phase.job == job && s.callers[c].phase.result == result
    requires Guard(s.rows, job, s.callers[c].plan.org, version, Complete(result, None))
    ensures var rows := WriteHalf(s.rows, job, s.callers[c].plan.org, version, Complete(result, None), s.now);
      var s' := To(s.(rows := rows, completed := s.completed[job := result]), c, Storing(job, result));
      Sound(s') && Grows(s, s')
  {
    hide Sound;
    hide Grows;
    hide Won;
    hide IsJobOf;
    hide DerivedFrom;
    hide Guard;
    hide WriteHalf;
    var p := s.callers[c].plan;
    JobFacts(s, c);
    CompleteMove(s, job, p.org, result, version);
    var s1 := s.(rows := WriteHalf(s.rows, job, p.org, version, Complete(result, None), s.now),
                 completed := s.completed[job := result]);
    JobStays(s, s1, p, job);
    WonStays(s, s1, job, c);
    DerivationStays(s, s1, p, job, result);
    ToStoring(s1, c, job, result);
    GrowsIsTransitive(s, s1, To(s1, c, Storing(job, result)));
  }

  lemma CompleteWritingIsSound(s: System, c: nat, choice: Choice)
    requires Free(s, c) && s.callers[c].phase.CompleteWriting?
    ensures Sound(CompleteStep(s, c, choice)) && Grows(s, CompleteStep(s, c, choice))
  {
    hide Sound;
    hide Grows;
    hide Told;
    hide Won;
    hide IsJobOf;
    var p, phase := s.callers[c].plan, s.callers[c].phase;
    var job, result, version := phase.job, phase.result, phase.seen.version;
    JobFacts(s, c);
    if Guard(s.rows, job, p.org, version, Complete(result, None)) {
      CompletionGoesThrough(s, c, job, result, version);
    } else {
      ToReply(s, c, Pending(job));
    }
  }

  lemma StoringIsSound(s: System, c: nat, choice: Choice)
    requires Free(s, c) && s.callers[c].phase.Storing?
    ensures Sound(CompleteStep(s, c, choice)) && Grows(s, CompleteStep(s, c, choice))
  {
    hide Sound;
    hide Grows;
    hide Told;
    hide Won;
    hide IsJobOf;
    hide DerivedFrom;
    hide CompletedAs;
    var p, job, result := s.callers[c].plan, s.callers[c].phase.job, s.callers[c].phase.result;
    StoringFacts(s, c);
    if !Certifies(p) && choice.stored {
      var cache := QueryCache.Store(s.cache, CacheKey(s, p), result, p.ttlSeconds, s.now);
      var s1 := s.(cache := cache);
      FeedsCache(s, p, job, result);
      ReplyStays(s, s1, c, p, Fresh(job, result));
      ToReply(s1, c, Fresh(job, result));
      GrowsIsTransitive(s, s1, To(s1, c, Replied(Fresh(job, result))));
    } else {
      ToReply(s, c, Fresh(job, result));
    }
  }

  lemma StoringFacts(s: System, c: nat)
    requires Sound(s) && c < |s.callers| && s.callers[c].phase.Storing?
    ensures var p, phase := s.callers[c].plan, s.callers[c].phase;
      && ReplySound(s, c, p, Fresh(phase.job, phase.result))
      && CompletedAs(s, phase.job, p.org, p.fingerprint, phase.result)
  {
    hide DerivedFrom;
    hide LaunchesSound;
    hide DispatcherSound;
    hide CacheSound;
    hide InflightSound;
    hide WinsSound;
    hide RowsSound;
    hide Holds;
    hide Won;
    assert CallerSound(s, c, s.callers[c]);
  }

  lemma FedFromCompletedJob(s: System, p: Plan, job: JobId, result: QueryResult)
    requires !Certifies(p) && CompletedAs(s, job, p.org, p.fingerprint, result)
    ensures FromCompletedJob(s, p.org, p.fingerprint, result)
  {
  }

  lemma FeedsCache(s: System, p: Plan, job: JobId, result: QueryResult)
    requires Sound(s) && !Certifies(p) && CompletedAs(s, job, p.org, p.fingerprint, result)
    ensures var s' := s.(cache := QueryCache.Store(s.cache, CacheKey(s, p), result, p.ttlSeconds, s.now));
      Sound(s') && Grows(s, s')
  {
    hide FromCompletedJob;
    hide RowsSound;
    hide CompletedSound;
    hide WinsSound;
    hide LaunchesSound;
    hide DispatcherSound;
    hide CallersSound;
    hide InflightSound;
    hide Grows;
    FedFromCompletedJob(s, p, job, result);
    CacheMove(s, QueryCache.Store(s.cache, CacheKey(s, p), result, p.ttlSeconds, s.now));
  }

  lemma CacheGrows(s: System, cache: QueryCache.Cache)
    ensures Grows(s, s.(cache := cache))
  {
    Unmoved(s);
  }

  lemma CacheMove(s: System, cache: QueryCache.Cache)
    requires Sound(s)
    requires forall k :: k in cache ==> FromCompletedJob(s, k.org, k.fingerprint, cache[k].result)
    ensures Sound(s.(cache := cache)) && Grows(s, s.(cache := cache))
  {
    hide FromCompletedJob;
    hide DispatcherSound;
    hide CallersSound;
    hide InflightSound;
    hide LaunchesSound;
    var s' := s.(cache := cache);
    CacheGrows(s, cache);
    hide Grows;
    forall k | k in cache ensures FromCompletedJob(s', k.org, k.fingerprint, cache[k].result) {
      SourceStays(s, s', k.org, k.fingerprint, cache[k].result);
    }
    CompletedSame(s, s');
    StoreMove(s, s');
  }

  lemma AbortingIsSound(s: System, c: nat)
    requires Free(s, c) && s.callers[c].phase.Aborting?
    ensures Sound(AbortStep(s, c)) && Grows(s, AbortStep(s, c))
  {
    hide Sound;
    hide Grows;
    var p, job, code := s.callers[c].plan, s.callers[c].phase.job, s.callers[c].phase.code;
    JobFacts(s, c);
    match ReadHalf(s.rows, job, p.org, Abort(code))
    case Proceed(row) => ToTicket(s, c, AbortWriting(job, row, code));
    case _ => ToReply(s, c, Failure(code));
  }

  lemma AbortWritingIsSound(s: System, c: nat)
    requires Free(s, c) && s.callers[c].phase.AbortWriting?
    ensures Sound(AbortStep(s, c)) && Grows(s, AbortStep(s, c))
  {
    hide Sound;
    hide Grows;
    var p, phase := s.callers[c].plan, s.callers[c].phase;
    TransitionMove(s, phase.job, p.org, Abort(phase.code), phase.seen.version);
    var s1 := s.(rows := WriteHalf(s.rows, phase.job, p.org, phase.seen.version, Abort(phase.code), s.now));
    ToReply(s1, c, Failure(phase.code));
    GrowsIsTransitive(s, s1, To(s1, c, Replied(Failure(phase.code))));
  }

  lemma CachedResult(s: System, key: QueryCache.Key)
    requires Sound(s) && key in s.cache
    ensures FromCompletedJob(s, key.org, key.fingerprint, s.cache[key].result)
  {
    assert CacheSound(s);
  }

  lemma LookingUpIsSound(s: System, c: nat, choice: Choice)
    requires Free(s, c) && s.callers[c].phase.LookingUp?
    ensures Sound(AdvanceStep(s, c, choice)) && Grows(s, AdvanceStep(s, c, choice))
  {
    hide Sound;
    hide Grows;
    var p := s.callers[c].plan;
    if Certifies(p) {
      ToFirst(s, c, Creating);
    } else {
      match QueryCache.Lookup(s.cache, CacheKey(s, p), s.now)
      case Some(r) =>
        var relabelled := r.(queryId := p.queryId);
        assert relabelled.(queryId := r.queryId) == r;
        CachedResult(s, CacheKey(s, p));
        ToReply(s, c, Cached(relabelled));
      case None => ToFirst(s, c, Creating);
    }
  }

  lemma AdvanceIsSound(s: System, c: nat, choice: Choice)
    requires Sound(s) && c < |s.callers|
    ensures Sound(AdvanceStep(s, c, choice)) && Grows(s, AdvanceStep(s, c, choice))
  {
    hide Sound;
    hide Grows;
    match s.callers[c].phase
    case LookingUp => LookingUpIsSound(s, c, choice);
    case Creating => CreatingIsSound(s, c, choice);
    case FindingActive => FindingActiveIsSound(s, c, choice);
    case FindingCompleted => FindingCompletedIsSound(s, c, choice);
    case ReadingResult(_) => ReadingResultIsSound(s, c, choice);
    case Claiming(_) => ClaimingIsSound(s, c, choice);
    case Dispatching(_, _, _) => DispatchingIsSound(s, c, choice);
    case Executing(_, _, _) => ExecutingIsSound(s, c, choice);
    case Waiting(_, _, _, _) => WaitingIsSound(s, c, choice);
    case Answered(_, _, _) => AnsweredIsSound(s, c, choice);
    case Starting(_, _) => StartingIsSound(s, c, choice);
    case StartWriting(_, _, _) => StartWritingIsSound(s, c, choice);
    case Completing(_, _) => CompletingIsSound(s, c, choice);
    case CompleteWriting(_, _, _) => CompleteWritingIsSound(s, c, choice);
    case Storing(_, _) => StoringIsSound(s, c, choice);
    case Aborting(_, _) => AbortingIsSound(s, c);
    case AbortWriting(_, _, _) => AbortWritingIsSound(s, c);
    case Replied(_) => Unmoved(s);
  }

  lemma ThrowIsSound(s: System, c: nat, code: ErrorCode, caught: bool)
    requires Sound(s) && c < |s.callers|
    ensures Sound(ThrowStep(s, c, code, caught)) && Grows(s, ThrowStep(s, c, code, caught))
  {
    hide Sound;
    hide Grows;
    hide Told;
    hide Won;
    hide IsJobOf;
    var phase := s.callers[c].phase;
    if phase.Waiting? || phase.Replied? {
      Unmoved(s);
    } else if caught && Guarded(phase) {
      JobFacts(s, c);
      ToAborting(s, c, phase.job, code);
    } else {
      ToReply(s, c, Failure(code));
    }
  }

  lemma BeginIsSound(s: System, job: JobId, org: Organization, w: Write)
    requires Sound(s) && Issued(w) && w.Transition? && w.next != DISPATCHED
    ensures Sound(BeginStep(s, job, org, w)) && Grows(s, BeginStep(s, job, org, w))
  {
    var s' := BeginStep(s, job, org, w);
    Unmoved(s);
    if ReadHalf(s.rows, job, org, w).Proceed? {
      TicketIsHeld(s, job, org, w);
      TicketAdded(s, Inflight(job, org, w, ReadHalf(s.rows, job, org, w).row));
    }
  }

  lemma InflightGrows(s: System, f: Inflight)
    ensures Grows(s, s.(inflight := s.inflight + [f]))
  {
    Unmoved(s);
  }

  lemma TicketAdded(s: System, f: Inflight)
    requires Sound(s) && Issued(f.write) && f.write.Transition? && f.write.next != DISPATCHED
    requires Holds(s, f.job, f.org, f.write, f.seen)
    ensures Sound(s.(inflight := s.inflight + [f])) && Grows(s, s.(inflight := s.inflight + [f]))
  {
    hide Issued;
    hide Holds;
    hide DispatcherSound;
    hide CallersSound;
    hide InflightSound;
    hide LaunchesSound;
    hide CacheSound;
    hide CompletedSound;
    hide StoredOrExpired;
    var s' := s.(inflight := s.inflight + [f]);
    InflightGrows(s, f);
    hide Grows;
    LongerInflightSound(s, f);
    CompletedSame(s, s');
    StoreMove(s, s');
  }

  lemma CompletedSame(s: System, s': System)
    requires CompletedSound(s) && s.now <= s'.now && s'.rows == s.rows && s'.completed == s.completed
    ensures CompletedSound(s')
  {
    forall j | j in s'.completed ensures StoredOrExpired(s', j) { assert StoredOrExpired(s, j); }
  }

  lemma LongerInflightSound(s: System, f: Inflight)
    requires InflightSound(s) && Issued(f.write) && f.write.Transition? && f.write.next != DISPATCHED
    requires Holds(s, f.job, f.org, f.write, f.seen)
    ensures InflightSound(s.(inflight := s.inflight + [f]))
  {
    var s' := s.(inflight := s.inflight + [f]);
    forall i | 0 <= i < |s'.inflight|
      ensures Holds(s', s'.inflight[i].job, s'.inflight[i].org, s'.inflight[i].write, s'.inflight[i].seen)
    {
      if i < |s.inflight| {
        assert Holds(s, s.inflight[i].job, s.inflight[i].org, s.inflight[i].write, s.inflight[i].seen);
      }
    }
  }

  lemma NetworkGrows(s: System, event: D.Event)
    requires !event.Start?
    ensures var s' := s.(dispatcher := D.Apply(s.dispatcher, event));
      && Grows(s, s') && s.dispatcher.next <= s'.dispatcher.next
      && (forall j :: j in s'.dispatcher.pending ==>
            j in s.dispatcher.pending && s'.dispatcher.pending[j] == s.dispatcher.pending[j])
  {
    Unmoved(s);
  }

  lemma NetworkIsSound(s: System, event: D.Event)
    requires Sound(s) && !event.Start?
    ensures var s' := s.(dispatcher := D.Apply(s.dispatcher, event)); Sound(s') && Grows(s, s')
  {
    hide RowsSound;
    hide CompletedSound;
    hide WinsSound;
    hide CacheSound;
    hide CallersSound;
    hide InflightSound;
    hide LaunchesSound;
    hide D.Consistent;
    var s' := s.(dispatcher := D.Apply(s.dispatcher, event));
    D.ApplyKeepsConsistent(s.dispatcher, event);
    NetworkGrows(s, event);
    hide Grows;
    hide D.Apply;
    CallersStay(s, s');
    NoLaunch(s, s');
    StoreFacts(s, s');
    forall j | j in s'.dispatcher.pending ensures Awaited(s', j, s'.dispatcher.pending[j]) {
      assert Awaited(s, j, s.dispatcher.pending[j]);
    }
  }

  lemma ArriveIsSound(s: System, plan: Plan)
    requires Sound(s)
    ensures var s' := s.(callers := s.callers + [Caller(plan, LookingUp)]); Sound(s') && Grows(s, s')
  {
    hide RowsSound;
    hide CompletedSound;
    hide WinsSound;
    hide LaunchesSound;
    hide CacheSound;
    hide InflightSound;
    var s' := s.(callers := s.callers + [Caller(plan, LookingUp)]);
    Unmoved(s);
    assert Grows(s, s');
    NoLaunch(s, s');
    assert CallersSound(s') by {
      forall c | 0 <= c < |s'.callers| ensures CallerSound(s', c, s'.callers[c]) {
        if c < |s.callers| { CallerStays(s, s', c, s.callers[c]); }
      }
    }
    assert DispatcherSound(s') by {
      forall j | j in s'.dispatcher.pending ensures Awaited(s', j, s'.dispatcher.pending[j]) {
        AwaitedStill(s, s', j, s.dispatcher.pending[j]);
      }
    }
    StoreFacts(s, s');
  }

  lemma AwaitedStill(s: System, s': System, j: JobId, e: D.Entry)
    requires Awaited(s, j, e) && |s.callers| <= |s'.callers| && s'.callers[..|s.callers|] == s.callers
    ensures Awaited(s', j, e)
  {
    var i :| 0 <= i < |s.callers| && Awaits(s.callers[i].phase, j, e);
    assert s'.callers[i] == s'.callers[..|s.callers|][i];
  }

  lemma TickIsSound(s: System, ms: nat)
    requires Sound(s)
    ensures Sound(s.(now := s.now + ms)) && Grows(s, s.(now := s.now + ms))
  {
    hide StoredOrExpired;
    hide LaunchesSound;
    hide DispatcherSound;
    hide CacheSound;
    hide CallersSound;
    hide InflightSound;
    var s' := s.(now := s.now + ms);
    assert Grows(s, s');
    CompletedSame(s, s');
    StoreMove(s, s');
  }

  lemma CommitIsSound(s: System, i: nat)
    requires Sound(s) && i < |s.inflight|
    ensures var f := s.inflight[i];
      var s' := s.(rows := WriteHalf(s.rows, f.job, f.org, f.seen.version, f.write, s.now)); Sound(s') && Grows(s, s')
  {
    var f := s.inflight[i];
    assert Issued(f.write) && f.write.Transition?;
    TransitionMove(s, f.job, f.org, f.write, f.seen.version);
  }

  lemma PurgeIsSound(s: System)
    requires Sound(s)
    ensures var s' := s.(cache := QueryCache.Purged(s.cache, s.now)); Sound(s') && Grows(s, s')
  {
    assert CacheSound(s);
    CacheMove(s, QueryCache.Purged(s.cache, s.now));
  }

  lemma StepIsSound(s: System, e: Event)
    requires Sound(s)
    ensures Sound(Step(s, e)) && Grows(s, Step(s, e))
  {
    hide AdvanceStep;
    hide ThrowStep;
    hide BeginStep;
    hide D.Apply;
    hide QueryCache.Purged;
    hide ExpireDispatch;
    hide ExpireExecution;
    hide ScrubResults;
    hide WriteHalf;
    hide Sound;
    hide Grows;
    Unmoved(s);
    match e
    case Tick(ms) => TickIsSound(s, ms);
    case Arrive(plan) => ArriveIsSound(s, plan);
    case Advance(c, choice) => if c < |s.callers| { AdvanceIsSound(s, c, choice); }
    case Throw(c, code, caught) => if c < |s.callers| { ThrowIsSound(s, c, code, caught); }
    case Network(event) => if !event.Start? { NetworkIsSound(s, event); }
    case BeginAcknowledge(ref) => BeginIsSound(s, ref.job, ref.org, Acknowledge(ref.agent));
    case BeginCancel(job, org) => BeginIsSound(s, job, org, Cancel());
    case Commit(i) =>
      if i < |s.inflight| { CommitIsSound(s, i); }
    case SweepDispatch => SweepDispatchMove(s);
    case SweepExecution => SweepExecutionMove(s);
    case SweepResults => SweepResultsMove(s);
    case PurgeCache => PurgeIsSound(s);
  }

  // ---------------------------------------------------------------- every run

  lemma {:induction false} RunIsSound(s: System, es: seq<Event>)
    requires Sound(s)
    ensures Sound(Run(s, es)) && Grows(s, Run(s, es))
  {
    hide Sound;
    hide Grows;
    if es == [] {
      Unmoved(s);
    } else {
      var before := Run(s, es[..|es| - 1]);
      RunIsSound(s, es[..|es| - 1]);
      StepIsSound(before, es[|es| - 1]);
      GrowsIsTransitive(s, before, Run(s, es));
    }
  }

  lemma InitialIsSound(simulator: bool, registry: string)
    ensures Sound(Initial(simulator, registry))
  {
    assert forall x :: !D.Settled(D.Fresh, x);
  }

  /** A state some run leads to, from an empty store. */
  ghost predicate Reached(s: System) {
    exists simulator, registry, es :: s == Run(Initial(simulator, registry), es)
  }

  lemma ReachedIsSound(s: System)
    requires Reached(s)
    ensures Sound(s)
  {
    var simulator, registry, es :| s == Run(Initial(simulator, registry), es);
    InitialIsSound(simulator, registry);
    RunIsSound(Initial(simulator, registry), es);
  }

  /** Whatever interleaves, a job's row only climbs: terminal states are absorbing, the version
      stays within 3, an assigned agent never changes, and only COMPLETED rows hold a result. */
  lemma JobsOnlyClimb(s: System, es: seq<Event>, j: JobId)
    requires Reached(s) && j in s.rows
    ensures j in Run(s, es).rows
    ensures var row, row' := s.rows[j], Run(s, es).rows[j];
      && Later(row, row') && row'.version <= 3
      && (IsTerminal(row.state) ==> row'.state == row.state)
      && (row.agent.Some? ==> row'.agent == row.agent)
      && (row'.result.Some? ==> row'.state == COMPLETED)
  {
    hide Reached;
    hide Run;
    hide DispatcherSound;
    hide CallersSound;
    hide InflightSound;
    hide LaunchesSound;
    hide CacheSound;
    hide CompletedSound;
    hide WinsSound;
    ReachedIsSound(s);
    RunIsSound(s, es);
    var s' := Run(s, es);
    assert LaterRows(s.rows, s'.rows) && AllSound(s'.rows);
    VersionsAreBounded(s'.rows[j]);
  }

  /** One active job per pair; one winner per job; and every caller beyond the claim is that winner. */
  lemma OneActiveJobAndOneWinner(s: System)
    requires Reached(s)
    ensures OneActive(s.rows)
    ensures forall i, j :: 0 <= i < j < |s.wins| ==> s.wins[i].job != s.wins[j].job
    ensures forall c, d, job :: EngagedOn(s, c, job) && EngagedOn(s, d, job) ==> c == d
  {
    hide Reached;
    hide DispatcherSound;
    hide CallersSound;
    hide InflightSound;
    hide LaunchesSound;
    hide CacheSound;
    hide CompletedSound;
    hide Told;
    hide Won;
    hide IsJobOf;
    hide AllSound;
    hide OneActive;
    ReachedIsSound(s);
    forall c, d, job | EngagedOn(s, c, job) && EngagedOn(s, d, job) ensures c == d {
      JobFacts(s, c);
      JobFacts(s, d);
      OneWinner(s, job, c, d);
    }
  }

  /** `execute` is never entered for a job that is already pending, so the branch that rejects a
      second execution is never taken. */
  lemma ExecuteNeverCollides(s: System, c: nat, choice: Choice)
    requires Reached(s) && c < |s.callers| && s.callers[c].phase.Executing?
    ensures s.callers[c].phase.job !in s.dispatcher.pending
    ensures AdvanceStep(s, c, choice).callers[c].phase != Aborting(s.callers[c].phase.job, INTERNAL_ERROR)
  {
    hide Reached;
    hide Sound;
    ReachedIsSound(s);
    WinnerFindsNoEntry(s, c);
    hide D.Handed;
  }

  /** `createOrGet` only ever hands a caller a job of its own organization and fingerprint. */
  lemma CallersHoldTheirOwnJobs(s: System, c: nat)
    requires Reached(s) && c < |s.callers|
    ensures var p, phase := s.callers[c].plan, s.callers[c].phase;
      && (HasJob(phase) ==> IsJobOf(s, p, phase.job))
      && (phase.Replied? && phase.reply.Pending? ==> IsJobOf(s, p, phase.reply.job))
  {
    ReachedIsSound(s);
    assert CallerSound(s, c, s.callers[c]);
  }

  /** A freshly computed reply is made of the rows the dispatcher settled for the job, under the plan's
      query id, as its execution 1 and, when it compares, 2; it names a job of the caller that is
      COMPLETED from then on and holds that very result until its retention is over. */
  lemma FreshReplyIsStored(s: System, c: nat, es: seq<Event>)
    requires Reached(s) && c < |s.callers|
    requires s.callers[c].phase.Replied? && s.callers[c].phase.reply.Fresh?
    ensures var s', reply := Run(s, es), s.callers[c].phase.reply;
      && IsJobOf(s', s.callers[c].plan, reply.job) && DerivedFrom(s', s.callers[c].plan, reply.job, reply.result)
      && s'.rows[reply.job].state == COMPLETED
      && (s'.rows[reply.job].result == Some(reply.result) ||
          (s'.rows[reply.job].result.None? && s'.rows[reply.job].resultExpires.Some? &&
           s'.rows[reply.job].resultExpires.value < s'.now))
  {
    ReachedIsSound(s);
    RunIsSound(s, es);
    assert CallerSound(s, c, s.callers[c]);
    var job := s.callers[c].phase.reply.job;
    JobStays(s, Run(s, es), s.callers[c].plan, job);
    DerivationStays(s, Run(s, es), s.callers[c].plan, job, s.callers[c].phase.reply.result);
    CompletedIsStored(Run(s, es), job);
  }

  lemma CompletedIsStored(s: System, job: JobId)
    requires Sound(s) && job in s.completed
    ensures job in s.rows && s.rows[job].state == COMPLETED && StoredOrExpired(s, job)
  {
    assert CompletedSound(s);
  }

  /** A reply from the cache or from a duplicate repeats, under the caller's own query id, what a
      COMPLETED job of the same organization and fingerprint was completed with. */
  lemma SharedRepliesComeFromCompletedJobs(s: System, c: nat)
    requires Reached(s) && c < |s.callers| && s.callers[c].phase.Replied?
    requires s.callers[c].phase.reply.Cached? || s.callers[c].phase.reply.Reused?
    ensures var p, result := s.callers[c].plan, s.callers[c].phase.reply.result;
      && result.queryId == p.queryId
      && exists j, q :: CompletedAs(s, j, p.org, p.fingerprint, result.(queryId := q))
  {
    ReachedIsSound(s);
    assert CallerSound(s, c, s.callers[c]);
    var p, reply := s.callers[c].plan, s.callers[c].phase.reply;
    if reply.Cached? {
      var q :| FromCompletedJob(s, p.org, p.fingerprint, reply.result.(queryId := q));
      var j :| CompletedAs(s, j, p.org, p.fingerprint, reply.result.(queryId := q));
    } else {
      var q :| CompletedAs(s, reply.job, p.org, p.fingerprint, reply.result.(queryId := q));
    }
  }

  lemma StateStays(s: System, s': System, j: JobId)
    requires Grows(s, s') && j in s.rows && IsTerminal(s.rows[j].state)
    ensures j in s'.rows && s'.rows[j].state == s.rows[j].state
  {
    assert Later(s.rows[j], s'.rows[j]);
  }

  /** The cache holds only results of completed, non-certification jobs of its own key; a job
      that was cancelled, failed or timed out is never the source, then or later. */
  lemma UncompletedJobsNeverFeedTheCache(s: System, es: seq<Event>, j: JobId, key: QueryCache.Key)
    requires Reached(s) && j in s.rows && IsTerminal(s.rows[j].state) && s.rows[j].state != COMPLETED
    requires key in Run(s, es).cache
    ensures var s' := Run(s, es);
      key.fingerprint.Semantic? &&
      exists i :: i != j && CompletedAs(s', i, key.org, key.fingerprint, s'.cache[key].result)
  {
    hide Reached;
    hide Sound;
    hide Run;
    ReachedIsSound(s);
    RunIsSound(s, es);
    var s' := Run(s, es);
    CachedResult(s', key);
    var i :| CompletedAs(s', i, key.org, key.fingerprint, s'.cache[key].result);
    StateStays(s, s', j);
    assert i != j;
  }

  lemma TicketsAreIssued(phase: Phase)
    requires HasTicket(phase)
    ensures Issued(TicketWrite(phase))
  {
  }

  /** A guarded write goes through exactly when the row is still the one read, and would then be let
      through by an uninterrupted read as well. */
  lemma HeldTicketsAreAtomic(s: System, job: JobId, org: Organization, w: Write, seen: Row)
    requires Issued(w) && Holds(s, job, org, w, seen)
    ensures Guard(s.rows, job, org, seen.version, w) <==> s.rows[job] == seen
    ensures s.rows[job] == seen ==> ReadHalf(s.rows, job, org, w) == Proceed(seen)
    ensures s.rows[job] != seen ==> seen.version < s.rows[job].version
  {
    if Guard(s.rows, job, org, seen.version, w) { assert IsActive(seen.state); }
  }

  lemma InflightFacts(s: System, i: nat)
    requires Sound(s) && i < |s.inflight|
    ensures var f := s.inflight[i]; Issued(f.write) && Holds(s, f.job, f.org, f.write, f.seen)
  {
    assert InflightSound(s);
  }

  /** The write of an acknowledgement or a cancellation goes through exactly when the row is still what
      its read half saw, and then does what an uninterrupted transition would have done. */
  lemma CommitsAreAtomic(s: System, i: nat)
    requires Reached(s) && i < |s.inflight|
    ensures var f := s.inflight[i];
      f.job in s.rows && (Guard(s.rows, f.job, f.org, f.seen.version, f.write) <==> s.rows[f.job] == f.seen)
    ensures var f := s.inflight[i];
      if s.rows[f.job] == f.seen then
        && ReadHalf(s.rows, f.job, f.org, f.write) == Proceed(f.seen)
        && Step(s, Commit(i)).rows == s.rows[f.job := Written(f.seen, f.write, s.now)]
      else f.seen.version < s.rows[f.job].version && Step(s, Commit(i)) == s
  {
    hide AdvanceStep;
    hide ThrowStep;
    hide BeginStep;
    hide Holds;
    hide Reached;
    hide Sound;
    hide Issued;
    hide Written;
    ReachedIsSound(s);
    InflightFacts(s, i);
    var f := s.inflight[i];
    HeldTicketsAreAtomic(s, f.job, f.org, f.write, f.seen);
  }

  /** A caller waiting for an execution is never forgotten: either that execution is settled, or
      its timer is armed and, when it fires, settles it. */
  lemma WaitingCallersCanAlwaysGoOn(s: System, c: nat)
    requires Reached(s) && c < |s.callers| && s.callers[c].phase.Waiting?
    ensures var x := s.callers[c].phase.execution;
      D.Settled(s.dispatcher, x) || D.Settled(Step(s, Network(D.Fire(x))).dispatcher, x)
  {
    hide Sound;
    ReachedIsSound(s);
    WaitingFacts(s, c);
    TimerSettles(s.dispatcher, s.callers[c].phase.execution);
  }

  lemma WaitingFacts(s: System, c: nat)
    requires Sound(s) && c < |s.callers| && s.callers[c].phase.Waiting?
    ensures D.Consistent(s.dispatcher) && s.callers[c].phase.execution < s.dispatcher.next
  {
    assert CallerSound(s, c, s.callers[c]);
  }

  lemma TimerSettles(d: D.State, x: D.Execution)
    requires D.Consistent(d) && x < d.next
    ensures D.Settled(d, x) || D.Settled(D.Apply(d, D.Fire(x)), x)
  {
    if x in d.timers {
      D.SettleLogs(d, D.Expire(d, x), D.Settlement(x, D.Failure(QUERY_TIMEOUT)));
    }
  }

  /** A caller's guarded write goes through exactly when its row is still what it read, and then
      does what an uninterrupted read and write would have done at that moment. */
  lemma CallerWritesAreAtomic(s: System, c: nat)
    requires Reached(s) && c < |s.callers| && HasTicket(s.callers[c].phase)
    ensures var p, phase := s.callers[c].plan, s.callers[c].phase;
      var w := TicketWrite(phase);
      && phase.job in s.rows
      && (Guard(s.rows, phase.job, p.org, phase.seen.version, w) <==> s.rows[phase.job] == phase.seen)
      && (s.rows[phase.job] == phase.seen ==> ReadHalf(s.rows, phase.job, p.org, w) == Proceed(phase.seen))
      && (s.rows[phase.job] != phase.seen ==> phase.seen.version < s.rows[phase.job].version)
  {
    hide Reached;
    hide Sound;
    hide TicketWrite;
    ReachedIsSound(s);
    TicketFacts(s, c);
    var p, phase := s.callers[c].plan, s.callers[c].phase;
    TicketsAreIssued(phase);
    HeldTicketsAreAtomic(s, phase.job, p.org, TicketWrite(phase), phase.seen);
  }
}
