/** What one pass of `runQuery` comes to when nothing interferes: a cached answer, a duplicate's job or result,
    or a result computed from the agent's rows, stored with its job and put into the cache. */
module QueryPasses {
  import opened Contracts
  import opened DataJobs
  import opened DataService
  import opened QueryRuns
  import QueryCache
  import D = Dispatcher

  // ---------------------------------------------------------------- answered without a job

  lemma SetTwice<T>(s: seq<T>, c: nat, x: T, y: T)
    requires c < |s|
    ensures s[c := x][c := y] == s[c := y]
  {
  }

  /** A live result of the caller's organization, fingerprint and registry is answered at once, under the
      caller's own query id, unless the query is a certification. */
  lemma CachedQueryIsAnswered(s: System, c: nat, choice: Choice)
    requires c < |s.callers| && s.callers[c].phase.LookingUp?
    ensures var p := s.callers[c].plan;
      var key := QueryCache.Key(p.org, p.fingerprint, s.registry);
      Step(s, Advance(c, choice)) ==
        if p.fingerprint.Semantic? && key in s.cache && s.now < s.cache[key].expiresAt
        then To(s, c, Replied(Cached(s.cache[key].result.(queryId := p.queryId))))
        else To(s, c, Creating)
  {
  }

  lemma TheActiveJob(s: System, org: Organization, fingerprint: Fingerprint, job: JobId)
    requires Sound(s) && job in s.rows && Clashes(s.rows[job], org, fingerprint)
    ensures Collides(s.rows, org, fingerprint) && ActiveJob(s.rows, org, fingerprint) == job
  {
    RowFacts(s);
    hide Sound;
    assert Collides(s.rows, org, fingerprint);
    var id := ActiveJob(s.rows, org, fingerprint);
    assert Clashes(s.rows[id], org, fingerprint);
  }

  /** A query that finds a job of its pair active creates none: it goes on with that job, under the job's own
      query and request ids, while the job is PENDING, and is told that it is pending otherwise. */
  lemma ActiveDuplicateIsShared(s: System, c: nat, job: JobId, a: Choice, b: Choice)
    requires Reached(s) && c < |s.callers| && s.callers[c].phase.Creating?
    requires job in s.rows && s.rows[job].state in {PENDING, DISPATCHED, RUNNING}
    requires s.rows[job].org == s.callers[c].plan.org && s.rows[job].fingerprint == s.callers[c].plan.fingerprint
    ensures var p, row := s.callers[c].plan, s.rows[job];
      var moved := if row.state == PENDING
                   then Caller(p.(queryId := row.queryId, requestId := row.requestId), Claiming(job))
                   else Caller(p, Replied(Pending(job)));
      Run(s, [Advance(c, a), Advance(c, b)]) == s.(callers := s.callers[c := moved])
  {
    hide Reached;
    hide Sound;
    hide Run;
    ReachedIsSound(s);
    var p := s.callers[c].plan;
    TheActiveJob(s, p.org, p.fingerprint, job);
    hide Collides;
    hide ActiveJob;
    RunOfTwo(s, Advance(c, a), Advance(c, b));
    var t := To(s, c, FindingActive);
    assert Step(s, Advance(c, a)) == t;
    SetTwice(s.callers, c, t.callers[c], Step(t, Advance(c, b)).callers[c]);
  }

  /** A query whose job ended between the refusal and the look-up is answered from a newest completed job of
      its pair that still keeps its result. */
  lemma CompletedDuplicateIsReused(s: System, c: nat, a: Choice, b: Choice)
    requires c < |s.callers| && s.callers[c].phase.FindingCompleted?
    requires a.pick in s.rows && s.rows[a.pick].state == COMPLETED && s.rows[a.pick].result.Some?
    requires s.rows[a.pick].org == s.callers[c].plan.org
    requires s.rows[a.pick].fingerprint == s.callers[c].plan.fingerprint
    requires s.rows[a.pick].resultExpires.Some? && s.now < s.rows[a.pick].resultExpires.value
    requires var p := s.callers[c].plan;
      forall j :: j in s.rows && Reusable(s.rows[j], p.org, p.fingerprint, s.now) ==>
        s.rows[j].createdAt <= s.rows[a.pick].createdAt
    ensures var result := s.rows[a.pick].result.value.(queryId := s.callers[c].plan.queryId);
      Run(s, [Advance(c, a), Advance(c, b)]) == To(s, c, Replied(Reused(a.pick, result)))
  {
    hide Run;
    RunOfTwo(s, Advance(c, a), Advance(c, b));
    var t := To(s, c, ReadingResult(a.pick));
    assert Step(s, Advance(c, a)) == t;
    var result := s.rows[a.pick].result.value.(queryId := s.callers[c].plan.queryId);
    SameCallers(s, c, ReadingResult(a.pick), Replied(Reused(a.pick, result)));
  }

  /** When the only duplicates were completed five minutes ago or more, there is nothing to answer from. */
  lemma ExpiredDuplicatesAreNotReused(s: System, c: nat, choice: Choice)
    requires Reached(s) && c < |s.callers| && s.callers[c].phase.FindingCompleted?
    requires var p := s.callers[c].plan;
      forall j :: j in s.rows && s.rows[j].org == p.org && s.rows[j].fingerprint == p.fingerprint
                  && s.rows[j].state == COMPLETED && s.rows[j].finishedAt.Some?
                  ==> s.rows[j].finishedAt.value + 300000 <= s.now
    ensures Run(s, [Advance(c, choice)]) == To(s, c, Replied(Failure(INTERNAL_ERROR)))
  {
    hide Run;
    hide Reached;
    RunOfOne(s, Advance(c, choice));
    ReachedIsSound(s);
    RowsAreSound(s);
    hide Sound;
    var p := s.callers[c].plan;
    forall j | j in s.rows ensures !Reusable(s.rows[j], p.org, p.fingerprint, s.now) {
      assert RowSound(s.rows[j]);
      RetainedForFiveMinutes(s.rows[j], p.org, p.fingerprint, s.now);
    }
    hide Reusable;
    hide RowSound;
  }

  lemma RowsAreSound(s: System)
    requires Sound(s)
    ensures AllSound(s.rows)
  {
  }

  // ---------------------------------------------------------------- a new job

  /** The row of a job claimed in the moment it was created. */
  function ClaimedRow(p: Plan, agent: Option<AgentId>, now: Instant): Row {
    Row(p.org, p.fingerprint, p.queryId, p.requestId,
        if p.fingerprint.Campaign? then Permission("execute", "data_certification") else p.permission,
        DISPATCHED, 1, agent, None, now, now + 15000, Some(now), None, None, None, None, None)
  }

  /** Caller `c` has created the next job and claimed it for the agent. */
  function Claimed(s: System, c: nat, agent: Option<AgentId>): System
    requires c < |s.callers|
  {
    var p, job := s.callers[c].plan, s.nextJob;
    s.(rows := s.rows[job := ClaimedRow(p, agent, s.now)], nextJob := job + 1, wins := s.wins + [Win(job, c)],
       callers := s.callers[c := Caller(p, Executing(job, 1, []))])
  }

  /** No active job of the caller's organization and fingerprint. */
  ghost predicate NoActiveJob(s: System, p: Plan) {
    forall j :: j in s.rows && s.rows[j].org == p.org && s.rows[j].fingerprint == p.fingerprint ==>
      s.rows[j].state !in {PENDING, DISPATCHED, RUNNING}
  }

  ghost predicate MayCreate(s: System, c: nat) {
    c < |s.callers| && s.callers[c].phase.Creating? && NoActiveJob(s, s.callers[c].plan) && s.nextJob !in s.rows
  }

  lemma JobIsCreated(s: System, c: nat, choice: Choice)
    requires MayCreate(s, c)
    ensures var p := s.callers[c].plan;
      var row := ClaimedRow(p, None, s.now).(state := PENDING, version := 0, dispatchedAt := None);
      Step(s, Advance(c, choice)) ==
      s.(rows := s.rows[s.nextJob := row], nextJob := s.nextJob + 1,
         callers := s.callers[c := Caller(p, Claiming(s.nextJob))])
  {
    assert !Collides(s.rows, s.callers[c].plan.org, s.callers[c].plan.fingerprint);
    hide Collides;
    hide NoActiveJob;
  }

  lemma JobIsRead(s: System, c: nat, job: JobId, choice: Choice)
    requires c < |s.callers| && s.callers[c].phase == Claiming(job)
    requires job in s.rows && s.rows[job].state == PENDING && s.rows[job].org == s.callers[c].plan.org
    requires s.simulator || choice.agent.Some?
    ensures Step(s, Advance(c, choice)) ==
      To(s, c, Dispatching(job, s.rows[job], if s.simulator then None else choice.agent))
  {
  }

  function DispatchedRow(row: Row, agent: Option<AgentId>, now: Instant): Row {
    row.(state := DISPATCHED, version := row.version + 1, agent := if agent.Some? then agent else row.agent,
         dispatchedAt := Some(now))
  }

  lemma DispatchGoesThrough(rows: Rows, job: JobId, org: Organization, agent: Option<AgentId>, now: Instant)
    requires job in rows && rows[job].state == PENDING && rows[job].org == org
    ensures Guard(rows, job, org, rows[job].version, Dispatch(agent))
    ensures WriteHalf(rows, job, org, rows[job].version, Dispatch(agent), now) ==
      rows[job := DispatchedRow(rows[job], agent, now)]
  {
  }

  lemma JobIsClaimed(s: System, c: nat, job: JobId, agent: Option<AgentId>, choice: Choice)
    requires c < |s.callers| && job in s.rows && s.callers[c].phase == Dispatching(job, s.rows[job], agent)
    requires s.rows[job].state == PENDING && s.rows[job].org == s.callers[c].plan.org
    ensures Step(s, Advance(c, choice)) ==
      To(s.(rows := s.rows[job := DispatchedRow(s.rows[job], agent, s.now)],
            wins := s.wins + [Win(job, c)]), c, Executing(job, 1, []))
  {
    DispatchGoesThrough(s.rows, job, s.callers[c].plan.org, agent, s.now);
    hide Guard;
    hide WriteHalf;
    hide Dispatch;
    hide DispatchedRow;
  }

  /** The two steps of a claim. */
  lemma ClaimTakesTwoSteps(s: System, c: nat, job: JobId, choice: Choice)
    requires c < |s.callers| && s.callers[c].phase == Claiming(job)
    requires job in s.rows && s.rows[job].state == PENDING && s.rows[job].org == s.callers[c].plan.org
    requires s.simulator || choice.agent.Some?
    ensures var agent := if s.simulator then None else choice.agent;
      Step(Step(s, Advance(c, choice)), Advance(c, choice)) ==
      s.(rows := s.rows[job := DispatchedRow(s.rows[job], agent, s.now)], wins := s.wins + [Win(job, c)],
         callers := s.callers[c := Caller(s.callers[c].plan, Executing(job, 1, []))])
  {
    hide Step;
    hide DispatchedRow;
    var agent := if s.simulator then None else choice.agent;
    JobIsRead(s, c, job, choice);
    var t := To(s, c, Dispatching(job, s.rows[job], agent));
    JobIsClaimed(t, c, job, agent, choice);
    SetTwice(s.callers, c, t.callers[c], Caller(s.callers[c].plan, Executing(job, 1, [])));
  }

  /** A query without an active duplicate creates a job and claims it in three steps. */
  lemma NewQueryIsClaimed(s: System, c: nat, choice: Choice)
    requires MayCreate(s, c) && (s.simulator || choice.agent.Some?)
    ensures Run(s, [Advance(c, choice), Advance(c, choice), Advance(c, choice)]) ==
      Claimed(s, c, if s.simulator then None else choice.agent)
  {
    hide Run;
    hide Step;
    RunOfThree(s, Advance(c, choice), Advance(c, choice), Advance(c, choice));
    JobIsCreated(s, c, choice);
    hide MayCreate;
    var p, job, agent := s.callers[c].plan, s.nextJob, if s.simulator then None else choice.agent;
    var t := Step(s, Advance(c, choice));
    ClaimTakesTwoSteps(t, c, job, choice);
    SetTwice(s.callers, c, t.callers[c], Caller(p, Executing(job, 1, [])));
    assert t.rows[job := ClaimedRow(p, agent, s.now)] == s.rows[job := ClaimedRow(p, agent, s.now)];
  }

  // ---------------------------------------------------------------- an execution

  /** Caller `c` has heard the rows as the answer to its execution; the dispatcher is left without an entry
      or a timer of it. */
  function Heard(s: System, c: nat, ref: D.Reference, rows: string): System
    requires c < |s.callers| && s.callers[c].phase.Executing?
  {
    var phase, x, d := s.callers[c].phase, s.dispatcher.next, s.dispatcher;
    s.(callers := s.callers[c := s.callers[c].(phase :=
         Answered(phase.job, phase.sequence, phase.heard + [Agent(x, rows)]))],
       dispatcher := D.State(d.pending, d.timers, d.settled + [D.Settlement(x, D.Rows(rows))], x + 1),
       launched := s.launched[x := ref])
  }

  lemma ExecutionIsSent(s: System, c: nat, choice: Choice)
    requires c < |s.callers| && s.callers[c].phase.Executing?
    requires !s.simulator && choice.agent.Some? && choice.sending.Sent?
    requires s.callers[c].phase.job !in s.dispatcher.pending
    ensures var p, phase, x, d := s.callers[c].plan, s.callers[c].phase, s.dispatcher.next, s.dispatcher;
      var ref := D.Reference(phase.job, p.org, choice.agent.value, p.queryId, phase.sequence);
      var e := D.Entry(p.org, choice.agent.value, p.queryId, phase.sequence, x);
      Step(s, Advance(c, choice)) ==
      To(s.(dispatcher := D.State(d.pending[phase.job := e], d.timers[x := phase.job], d.settled, x + 1),
            launched := s.launched[x := ref]), c, Waiting(phase.job, phase.sequence, phase.heard, x))
  {
  }

  lemma RowsArrive(s: System, ref: D.Reference, rows: string)
    requires D.Matches(s.dispatcher, ref)
    ensures var d, x := s.dispatcher, s.dispatcher.pending[ref.job].execution;
      Step(s, Network(D.Receive(ref, rows))) ==
      s.(dispatcher := D.State(d.pending - {ref.job}, d.timers - {x}, d.settled + [D.Settlement(x, D.Rows(rows))],
                               d.next))
  {
  }

  lemma RowsAreHeard(s: System, c: nat, rows: string, choice: Choice)
    requires Sound(s) && c < |s.callers| && s.callers[c].phase.Waiting?
    requires D.Settlement(s.callers[c].phase.execution, D.Rows(rows)) in s.dispatcher.settled
    ensures var phase := s.callers[c].phase;
      Step(s, Advance(c, choice)) ==
      To(s, c, Answered(phase.job, phase.sequence, phase.heard + [Agent(phase.execution, rows)]))
  {
    hide Sound;
    DispatcherFacts(s);
    SettledOnce(s.dispatcher, s.callers[c].phase.execution, D.Rows(rows));
    hide D.Settled;
    hide AnswerOf;
    hide D.Consistent;
  }

  lemma NumbersAreFresh(s: System)
    requires Sound(s)
    ensures s.dispatcher.next !in s.dispatcher.timers
  {
    DispatcherFacts(s);
    hide Sound;
  }

  lemma {:induction false} RunIsSoundToo(s: System, es: seq<Event>)
    requires Sound(s)
    ensures Sound(Run(s, es))
  {
    hide Sound;
    hide Run;
    RunIsSound(s, es);
    hide Grows;
  }

  /** An execution handed to a capable agent, whose rows come back under its job, organization, agent, query id
      and number, is heard by the caller that started it, with those rows. */
  lemma ExecutionIsAnswered(s: System, c: nat, choice: Choice, rows: string)
    requires Sound(s) && c < |s.callers| && s.callers[c].phase.Executing?
    requires !s.simulator && choice.agent.Some? && choice.sending.Sent?
    ensures var p, phase := s.callers[c].plan, s.callers[c].phase;
      var ref := D.Reference(phase.job, p.org, choice.agent.value, p.queryId, phase.sequence);
      Run(s, [Advance(c, choice), Network(D.Receive(ref, rows)), Advance(c, choice)]) == Heard(s, c, ref, rows)
  {
    hide Sound;
    hide Run;
    hide Step;
    var p, phase, x, d := s.callers[c].plan, s.callers[c].phase, s.dispatcher.next, s.dispatcher;
    var ref := D.Reference(phase.job, p.org, choice.agent.value, p.queryId, phase.sequence);
    RunOfThree(s, Advance(c, choice), Network(D.Receive(ref, rows)), Advance(c, choice));
    WinnerFindsNoEntry(s, c);
    NumbersAreFresh(s);
    ExecutionIsSent(s, c, choice);
    var t := Step(s, Advance(c, choice));
    StepIsSound(s, Advance(c, choice));
    RowsArrive(t, ref, rows);
    var u := Step(t, Network(D.Receive(ref, rows)));
    StepIsSound(t, Network(D.Receive(ref, rows)));
    hide Grows;
    assert u.dispatcher.settled[|d.settled|] == D.Settlement(x, D.Rows(rows));
    RowsAreHeard(u, c, rows, choice);
    assert u.dispatcher.pending == d.pending && u.dispatcher.timers == d.timers;
    SetTwice(s.callers, c, t.callers[c], Heard(s, c, ref, rows).callers[c]);
  }

  /** With a simulator the answer is the simulator's, and the dispatcher takes no part. */
  lemma SimulatorAnswers(s: System, c: nat, choice: Choice)
    requires c < |s.callers| && s.callers[c].phase.Executing? && s.simulator
    ensures var phase := s.callers[c].phase;
      Step(s, Advance(c, choice)) ==
      To(s, c, Answered(phase.job, phase.sequence, phase.heard + [Simulated(choice.rows)]))
  {
  }

  /** A comparison is executed after the period's own rows were heard. */
  lemma ComparisonIsExecuted(s: System, c: nat, choice: Choice)
    requires c < |s.callers| && s.callers[c].phase.Answered?
    requires s.callers[c].plan.compares && s.callers[c].phase.sequence == 1
    ensures Step(s, Advance(c, choice)) == To(s, c, Executing(s.callers[c].phase.job, 2, s.callers[c].phase.heard))
  {
  }

  // ---------------------------------------------------------------- completion

  /** The job's row once it has run, in this moment, when it was not running before. */
  function StartedRow(row: Row, now: Instant): Row {
    if row.state == RUNNING then row
    else row.(state := RUNNING, version := row.version + 1, startedAt := Some(now),
              executionDeadline := Some(now + 30000))
  }

  function CompletedRow(row: Row, result: QueryResult, now: Instant): Row {
    row.(state := COMPLETED, version := row.version + 1, finishedAt := Some(now), result := Some(result),
         resultExpires := Some(now + 300000))
  }

  lemma StartGoesThrough(rows: Rows, job: JobId, org: Organization, now: Instant)
    requires job in rows && rows[job].org == org
    ensures rows[job].state == DISPATCHED ==>
      && ReadHalf(rows, job, org, Start()) == Proceed(rows[job])
      && WriteHalf(rows, job, org, rows[job].version, Start(), now) == rows[job := StartedRow(rows[job], now)]
    ensures rows[job].state == RUNNING ==> ReadHalf(rows, job, org, Start()) == Refused(rows[job])
  {
  }

  lemma CompletionGoesThrough(rows: Rows, job: JobId, org: Organization, result: QueryResult, now: Instant)
    requires job in rows && rows[job].org == org && rows[job].state in {DISPATCHED, RUNNING}
    ensures ReadHalf(rows, job, org, Complete(result, None)) == Proceed(rows[job])
    ensures Guard(rows, job, org, rows[job].version, Complete(result, None))
    ensures WriteHalf(rows, job, org, rows[job].version, Complete(result, None), now) ==
      rows[job := CompletedRow(rows[job], result, now)]
  {
  }

  /** The caller's rows are in, the job is its own and still runs, and the outcome may be kept. */
  ghost predicate MayComplete(s: System, c: nat, choice: Choice) {
    && c < |s.callers| && choice.valid && !choice.tooLarge
    && (match s.callers[c].phase
        case Answered(job, sequence, _) =>
          && (s.callers[c].plan.compares ==> sequence == 2)
          && job in s.rows && s.rows[job].org == s.callers[c].plan.org && s.rows[job].state in {DISPATCHED, RUNNING}
        case _ => false)
  }

  /** Rows that pass are written once the job is RUNNING: the caller starts a job that nobody acknowledged. */
  lemma DispatchedJobIsStarted(s: System, c: nat, choice: Choice)
    requires MayComplete(s, c, choice) && s.rows[s.callers[c].phase.job].state == DISPATCHED
    ensures var job, heard := s.callers[c].phase.job, s.callers[c].phase.heard;
      Run(s, [Advance(c, choice), Advance(c, choice), Advance(c, choice)]) ==
      To(s.(rows := s.rows[job := StartedRow(s.rows[job], s.now)]), c, Completing(job, heard))
  {
    hide Run;
    RunOfThree(s, Advance(c, choice), Advance(c, choice), Advance(c, choice));
    RowsPass(s, c, choice);
    hide MayComplete;
    hide Step;
    var p, job, heard := s.callers[c].plan, s.callers[c].phase.job, s.callers[c].phase.heard;
    var t := Step(s, Advance(c, choice));
    StartIsRead(t, c, job, heard, choice);
    StartGoesThrough(s.rows, job, p.org, s.now);
    hide ReadHalf;
    hide WriteHalf;
    hide StartedRow;
    var u := Step(t, Advance(c, choice));
    StartIsWritten(u, c, job, heard, choice);
    SetTwice(s.callers, c, t.callers[c], u.callers[c]);
    SetTwice(s.callers, c, u.callers[c], Caller(p, Completing(job, heard)));
  }

  lemma RunningJobIsStarted(s: System, c: nat, choice: Choice)
    requires MayComplete(s, c, choice) && s.rows[s.callers[c].phase.job].state == RUNNING
    ensures var job, heard := s.callers[c].phase.job, s.callers[c].phase.heard;
      Run(s, [Advance(c, choice), Advance(c, choice)]) == To(s, c, Completing(job, heard))
  {
    hide Run;
    RunOfTwo(s, Advance(c, choice), Advance(c, choice));
    RowsPass(s, c, choice);
    hide MayComplete;
    hide Step;
    var p, job, heard := s.callers[c].plan, s.callers[c].phase.job, s.callers[c].phase.heard;
    var t := Step(s, Advance(c, choice));
    StartIsRead(t, c, job, heard, choice);
    StartGoesThrough(s.rows, job, p.org, s.now);
    hide ReadHalf;
    hide WriteHalf;
    SetTwice(s.callers, c, t.callers[c], Caller(p, Completing(job, heard)));
  }

  lemma RowsPass(s: System, c: nat, choice: Choice)
    requires MayComplete(s, c, choice)
    ensures var job, heard := s.callers[c].phase.job, s.callers[c].phase.heard;
      && job in s.rows && s.rows[job].org == s.callers[c].plan.org && s.rows[job].state in {DISPATCHED, RUNNING}
      && Step(s, Advance(c, choice)) == To(s, c, Starting(job, heard))
  {
  }

  lemma StartIsRead(s: System, c: nat, job: JobId, heard: seq<Source>, choice: Choice)
    requires c < |s.callers| && s.callers[c].phase == Starting(job, heard)
    ensures var t := ReadHalf(s.rows, job, s.callers[c].plan.org, Start());
      Step(s, Advance(c, choice)) ==
      To(s, c, if t.Proceed? then StartWriting(job, heard, t.row) else Completing(job, heard))
  {
    hide ReadHalf;
    hide Start;
  }

  lemma StartIsWritten(s: System, c: nat, job: JobId, heard: seq<Source>, choice: Choice)
    requires c < |s.callers| && job in s.rows && s.callers[c].phase == StartWriting(job, heard, s.rows[job])
    ensures Step(s, Advance(c, choice)) ==
      To(s.(rows := WriteHalf(s.rows, job, s.callers[c].plan.org, s.rows[job].version, Start(), s.now)), c,
         Completing(job, heard))
  {
    hide WriteHalf;
    hide Start;
  }

  /** Caller `c` has replied with the result; the job's row has it, and so has the cache, unless the query is a
      certification or the cache refuses it. */
  function Stored(s: System, c: nat, job: JobId, result: QueryResult, kept: bool): System
    requires c < |s.callers| && job in s.rows
  {
    var p := s.callers[c].plan;
    var key := QueryCache.Key(p.org, p.fingerprint, s.registry);
    s.(rows := s.rows[job := CompletedRow(s.rows[job], result, s.now)], completed := s.completed[job := result],
       cache := if p.fingerprint.Campaign? || !kept then s.cache
                else s.cache[key := QueryCache.Entry(result, s.now, s.now + QueryCache.Lifetime(p.ttlSeconds))],
       callers := s.callers[c := Caller(p, Replied(Fresh(job, result)))])
  }

  lemma CompletionIsRead(s: System, c: nat, job: JobId, heard: seq<Source>, result: QueryResult, choice: Choice)
    requires c < |s.callers| && s.callers[c].phase == Completing(job, heard) && !choice.tooLarge
    requires job in s.rows && s.rows[job].org == s.callers[c].plan.org && s.rows[job].state in {DISPATCHED, RUNNING}
    requires result == Computed(s.callers[c].plan.queryId, heard)
    ensures Step(s, Advance(c, choice)) == To(s, c, CompleteWriting(job, s.rows[job], result))
  {
    CompletionGoesThrough(s.rows, job, s.callers[c].plan.org, result, s.now);
    hide Computed;
    hide ReadHalf;
  }

  lemma CompletionIsWritten(s: System, c: nat, job: JobId, result: QueryResult, choice: Choice)
    requires c < |s.callers| && job in s.rows && s.callers[c].phase == CompleteWriting(job, s.rows[job], result)
    requires s.rows[job].org == s.callers[c].plan.org && s.rows[job].state in {DISPATCHED, RUNNING}
    ensures Step(s, Advance(c, choice)) ==
      To(s.(rows := s.rows[job := CompletedRow(s.rows[job], result, s.now)], completed := s.completed[job := result]),
         c, Storing(job, result))
  {
    CompletionGoesThrough(s.rows, job, s.callers[c].plan.org, result, s.now);
    hide Guard;
    hide WriteHalf;
    hide CompletedRow;
  }

  lemma ResultIsCached(s: System, c: nat, job: JobId, result: QueryResult, choice: Choice)
    requires c < |s.callers| && s.callers[c].phase == Storing(job, result)
    ensures var p := s.callers[c].plan;
      var key := QueryCache.Key(p.org, p.fingerprint, s.registry);
      Step(s, Advance(c, choice)) ==
      To(s.(cache := if p.fingerprint.Campaign? || !choice.stored then s.cache
                     else s.cache[key := QueryCache.Entry(result, s.now, s.now + QueryCache.Lifetime(p.ttlSeconds))]),
         c, Replied(Fresh(job, result)))
  {
  }

  lemma WrittenIsStored(s: System, c: nat, job: JobId, result: QueryResult, choice: Choice)
    requires c < |s.callers| && job in s.rows && s.callers[c].phase == CompleteWriting(job, s.rows[job], result)
    requires s.rows[job].org == s.callers[c].plan.org && s.rows[job].state in {DISPATCHED, RUNNING}
    ensures Step(Step(s, Advance(c, choice)), Advance(c, choice)) == Stored(s, c, job, result, choice.stored)
  {
    hide Step;
    hide CompletedRow;
    CompletionIsWritten(s, c, job, result, choice);
    var t := Step(s, Advance(c, choice));
    ResultIsCached(t, c, job, result, choice);
    SetTwice(s.callers, c, t.callers[c], Caller(s.callers[c].plan, Replied(Fresh(job, result))));
  }

  lemma ResultIsStored(s: System, c: nat, job: JobId, heard: seq<Source>, result: QueryResult, choice: Choice)
    requires c < |s.callers| && s.callers[c].phase == Completing(job, heard) && !choice.tooLarge
    requires job in s.rows && s.rows[job].org == s.callers[c].plan.org && s.rows[job].state in {DISPATCHED, RUNNING}
    requires result == Computed(s.callers[c].plan.queryId, heard)
    ensures Run(s, [Advance(c, choice), Advance(c, choice), Advance(c, choice)]) ==
      Stored(s, c, job, result, choice.stored)
  {
    hide Run;
    hide Computed;
    hide Step;
    hide CompletedRow;
    hide QueryCache.Lifetime;
    RunOfThree(s, Advance(c, choice), Advance(c, choice), Advance(c, choice));
    CompletionIsRead(s, c, job, heard, result, choice);
    var t := Step(s, Advance(c, choice));
    WrittenIsStored(t, c, job, result, choice);
    SetTwice(s.callers, c, t.callers[c], Caller(s.callers[c].plan, Replied(Fresh(job, result))));
  }

  /** The result a caller makes of the rows it heard. */
  function ResultOf(p: Plan, heard: seq<Source>): QueryResult
    requires heard != []
  {
    QueryResult(p.queryId, heard[0].rows, if |heard| > 1 then Some(heard[1].rows) else None)
  }

  /** The steps of a caller from its last rows to its reply. */
  function Closing(s: System, c: nat, choice: Choice): seq<Event>
    requires MayComplete(s, c, choice)
  {
    var move := Advance(c, choice);
    (if s.rows[s.callers[c].phase.job].state == DISPATCHED then [move, move, move] else [move, move])
    + [move, move, move]
  }

  /** A caller whose rows pass, and whose job is still to be completed, completes it: the reply is the result made
      of the rows it heard, under its query id, and the job and the cache keep that result. */
  lemma PassingRowsAreStored(s: System, c: nat, choice: Choice)
    requires MayComplete(s, c, choice) && s.callers[c].phase.heard != []
    ensures var job := s.callers[c].phase.job;
      var started := s.(rows := s.rows[job := StartedRow(s.rows[job], s.now)]);
      Run(s, Closing(s, c, choice)) ==
      Stored(started, c, job, ResultOf(s.callers[c].plan, s.callers[c].phase.heard), choice.stored)
  {
    hide Run;
    RowsPass(s, c, choice);
    var p, job, heard := s.callers[c].plan, s.callers[c].phase.job, s.callers[c].phase.heard;
    var move, result := Advance(c, choice), ResultOf(p, heard);
    var started := s.(rows := s.rows[job := StartedRow(s.rows[job], s.now)]);
    if s.rows[job].state == DISPATCHED {
      DispatchedJobIsStarted(s, c, choice);
      RunOfTwoParts(s, [move, move, move], [move, move, move]);
    } else {
      RunningJobIsStarted(s, c, choice);
      RunOfTwoParts(s, [move, move], [move, move, move]);
      assert s.rows[job := s.rows[job]] == s.rows;
    }
    hide MayComplete;
    hide Step;
    var t := To(started, c, Completing(job, heard));
    assert Run(s, Closing(s, c, choice)) == Run(t, [move, move, move]);
    assert result == Computed(p.queryId, heard);
    hide Computed;
    hide ResultOf;
    StoredFromThere(started, c, job, heard, result, choice);
  }

  lemma StoredFromThere(s: System, c: nat, job: JobId, heard: seq<Source>, result: QueryResult, choice: Choice)
    requires c < |s.callers| && !choice.tooLarge && result == Computed(s.callers[c].plan.queryId, heard)
    requires job in s.rows && s.rows[job].org == s.callers[c].plan.org && s.rows[job].state in {DISPATCHED, RUNNING}
    ensures Run(To(s, c, Completing(job, heard)), [Advance(c, choice), Advance(c, choice), Advance(c, choice)]) ==
      Stored(s, c, job, result, choice.stored)
  {
    hide Run;
    hide Computed;
    hide CompletedRow;
    hide QueryCache.Lifetime;
    var t := To(s, c, Completing(job, heard));
    ResultIsStored(t, c, job, heard, result, choice);
    SetTwice(s.callers, c, t.callers[c], Caller(s.callers[c].plan, Replied(Fresh(job, result))));
  }

  // ---------------------------------------------------------------- the whole pass

  /** One execution of caller `c`: it is sent, its rows come back, and the caller hears them. */
  function Asking(c: nat, p: Plan, job: JobId, sequence: nat, choice: Choice, rows: string): seq<Event>
    requires choice.agent.Some?
  {
    var ref := D.Reference(job, p.org, choice.agent.value, p.queryId, sequence);
    [Advance(c, choice), Network(D.Receive(ref, rows)), Advance(c, choice)]
  }

  /** The whole pass of a new query, with the rows of its period and, for a comparison, of the other one. */
  function Passing(c: nat, p: Plan, job: JobId, choice: Choice, rows: string, previous: string): seq<Event>
    requires choice.agent.Some?
  {
    var move := Advance(c, choice);
    [move, move, move] + Asking(c, p, job, 1, choice, rows)
    + (if p.compares then [move] + Asking(c, p, job, 2, choice, previous) else [])
    + ([move, move, move] + [move, move, move])
  }

  /** The query has its job claimed and has heard `heard`; the job is DISPATCHED still. */
  ghost predicate HasHeard(s: System, c: nat, job: JobId, choice: Choice, sequence: nat, heard: seq<string>,
                           t: System) {
    && c < |s.callers| && |t.callers| == |s.callers|
    && t.rows == s.rows[job := ClaimedRow(s.callers[c].plan, choice.agent, s.now)]
    && t.now == s.now && t.simulator == s.simulator && t.registry == s.registry && t.cache == s.cache
    && t.callers[c].plan == s.callers[c].plan && t.callers[c].phase.Answered? && t.callers[c].phase.job == job
    && t.callers[c].phase.sequence == sequence && |t.callers[c].phase.heard| == |heard|
    && forall i :: 0 <= i < |heard| ==> t.callers[c].phase.heard[i].rows == heard[i]
  }

  /** What the surroundings must provide for a pass that succeeds. */
  predicate Helps(choice: Choice) {
    choice.agent.Some? && choice.sending.Sent? && choice.valid && !choice.tooLarge && choice.stored
  }

  ghost predicate MayPass(s: System, c: nat, choice: Choice) {
    && Sound(s) && c < |s.callers| && s.callers[c].phase.Creating? && NoActiveJob(s, s.callers[c].plan)
    && !s.simulator && Helps(choice)
  }

  lemma NextJobIsNew(s: System)
    requires Sound(s)
    ensures s.nextJob !in s.rows
  {
    assert RowsSound(s);
  }

  lemma FirstRowsAreHeard(s: System, c: nat, choice: Choice, rows: string)
    requires MayPass(s, c, choice)
    ensures var move := Advance(c, choice);
      HasHeard(s, c, s.nextJob, choice, 1, [rows],
               Run(s, [move, move, move] + Asking(c, s.callers[c].plan, s.nextJob, 1, choice, rows)))
  {
    hide Run;
    hide Sound;
    hide NoActiveJob;
    hide ClaimedRow;
    var move, p, job := Advance(c, choice), s.callers[c].plan, s.nextJob;
    NextJobIsNew(s);
    NewQueryIsClaimed(s, c, choice);
    RunIsSoundToo(s, [move, move, move]);
    var t := Claimed(s, c, choice.agent);
    ExecutionIsAnswered(t, c, choice, rows);
    RunOfTwoParts(s, [move, move, move], Asking(c, p, job, 1, choice, rows));
    hide Step;
  }

  lemma SecondRowsAreHeard(s: System, c: nat, job: JobId, choice: Choice, rows: string, previous: string, t: System)
    requires c < |s.callers| && s.callers[c].plan.compares && HasHeard(s, c, job, choice, 1, [rows], t)
    requires Sound(t) && !s.simulator && Helps(choice)
    ensures HasHeard(s, c, job, choice, 2, [rows, previous],
                     Run(t, [Advance(c, choice)] + Asking(c, s.callers[c].plan, job, 2, choice, previous)))
  {
    hide Run;
    hide Sound;
    hide ClaimedRow;
    var move, p := Advance(c, choice), s.callers[c].plan;
    ComparisonIsExecuted(t, c, choice);
    StepIsSound(t, move);
    hide Grows;
    var u := Step(t, move);
    hide Step;
    ExecutionIsAnswered(u, c, choice, previous);
    RunOneMore(t, move, Asking(c, p, job, 2, choice, previous));
  }

  /** Everything a pass leaves behind: the reply, the completed job, and the cached result. */
  ghost predicate HasPassed(s: System, c: nat, choice: Choice, result: QueryResult, t: System) {
    && c < |s.callers| && |t.callers| == |s.callers| && t.now == s.now && t.registry == s.registry
    && var p, job := s.callers[c].plan, s.nextJob;
    && t.callers[c] == Caller(p, Replied(Fresh(job, result)))
    && t.rows == s.rows[job := CompletedRow(StartedRow(ClaimedRow(p, choice.agent, s.now), s.now), result, s.now)]
    && t.cache == (if p.fingerprint.Campaign? then s.cache
                   else s.cache[QueryCache.Key(p.org, p.fingerprint, s.registry) :=
                                QueryCache.Entry(result, s.now, s.now + QueryCache.Lifetime(p.ttlSeconds))])
  }

  lemma HeardRowsAreStored(s: System, c: nat, choice: Choice, heard: seq<string>, t: System)
    requires c < |s.callers| && heard != [] && Helps(choice)
    requires HasHeard(s, c, s.nextJob, choice, if s.callers[c].plan.compares then 2 else 1, heard, t)
    ensures var move := Advance(c, choice);
      var result := QueryResult(s.callers[c].plan.queryId, heard[0], if |heard| > 1 then Some(heard[1]) else None);
      HasPassed(s, c, choice, result, Run(t, [move, move, move] + [move, move, move]))
  {
    hide Run;
    hide StartedRow;
    hide CompletedRow;
    hide QueryCache.Lifetime;
    var p, job := s.callers[c].plan, s.nextJob;
    var row := ClaimedRow(p, choice.agent, s.now);
    assert t.rows[job] == row;
    PassingRowsAreStored(t, c, choice);
    assert ResultOf(p, t.callers[c].phase.heard).rows == heard[0];
    hide ClaimedRow;
    assert s.rows[job := row][job := StartedRow(row, s.now)] == s.rows[job := StartedRow(row, s.now)];
  }

  /** A query without an active duplicate, whose job a capable agent takes and whose rows come back and pass, ends
      with a fresh reply made of exactly those rows under its own query id; its job is COMPLETED with that result,
      which the cache keeps too, unless the query is a certification. */
  lemma NewQueryCompletes(s: System, c: nat, choice: Choice, rows: string, previous: string)
    requires Reached(s) && MayPass(s, c, choice)
    ensures var p := s.callers[c].plan;
      HasPassed(s, c, choice, QueryResult(p.queryId, rows, if p.compares then Some(previous) else None),
                Run(s, Passing(c, p, s.nextJob, choice, rows, previous)))
  {
    hide Reached;
    hide Run;
    hide Sound;
    hide NoActiveJob;
    hide HasHeard;
    hide HasPassed;
    hide Asking;
    var move, p, job := Advance(c, choice), s.callers[c].plan, s.nextJob;
    var first := [move, move, move] + Asking(c, p, job, 1, choice, rows);
    var last := [move, move, move] + [move, move, move];
    var t := Run(s, first);
    FirstRowsAreHeard(s, c, choice, rows);
    RunIsSoundToo(s, first);
    if p.compares {
      var second := [move] + Asking(c, p, job, 2, choice, previous);
      SecondRowsAreHeard(s, c, job, choice, rows, previous, t);
      HeardRowsAreStored(s, c, choice, [rows, previous], Run(t, second));
      RunOfTwoParts(s, first, second);
      RunOfTwoParts(s, first + second, last);
      assert Passing(c, p, job, choice, rows, previous) == first + second + last;
    } else {
      HeardRowsAreStored(s, c, choice, [rows], t);
      RunOfTwoParts(s, first, last);
      assert Passing(c, p, job, choice, rows, previous) == first + last;
    }
  }

  // ---------------------------------------------------------------- from the start

  /** A query arrives and looks into the cache. */
  function Arriving(c: nat, p: Plan, choice: Choice): seq<Event> { [Arrive(p), Advance(c, choice)] }

  /** An arrival adds a caller, whose first step answers from a live entry of its pair or goes on to create. */
  lemma ArrivalLooksUp(s: System, p: Plan, choice: Choice)
    ensures var key := QueryCache.Key(p.org, p.fingerprint, s.registry);
      var phase := if p.fingerprint.Semantic? && key in s.cache && s.now < s.cache[key].expiresAt
                   then Replied(Cached(s.cache[key].result.(queryId := p.queryId))) else Creating;
      Run(s, Arriving(|s.callers|, p, choice)) == s.(callers := s.callers + [Caller(p, phase)])
  {
    var c := |s.callers|;
    var t := s.(callers := s.callers + [Caller(p, LookingUp)]);
    assert Step(s, Arrive(p)) == t;
    hide Run;
    hide Step;
    RunOfTwo(s, Arrive(p), Advance(c, choice));
    CachedQueryIsAnswered(t, c, choice);
    assert forall x :: t.callers[c := x] == s.callers + [x];
  }

  lemma StartsReached(registry: string, es: seq<Event>)
    ensures Reached(Run(Initial(false, registry), es))
  {
  }

  /** The first pass of a server that has just started. */
  function FirstPass(p: Plan, choice: Choice, rows: string, previous: string): seq<Event>
    requires choice.agent.Some?
  {
    Arriving(0, p, choice) + Passing(0, p, 0, choice, rows, previous)
  }

  lemma {:induction false} FirstQueryCompletes(registry: string, p: Plan, choice: Choice, rows: string,
                                               previous: string)
    requires Helps(choice)
    ensures var s := Initial(false, registry).(callers := [Caller(p, Creating)]);
      var t := Run(Initial(false, registry), FirstPass(p, choice, rows, previous));
      && Reached(t)
      && HasPassed(s, 0, choice, QueryResult(p.queryId, rows, if p.compares then Some(previous) else None), t)
  {
    hide Run;
    hide Reached;
    hide Sound;
    hide HasPassed;
    hide Passing;
    var start := Initial(false, registry);
    var s := start.(callers := [Caller(p, Creating)]);
    ArrivalLooksUp(start, p, choice);
    assert start.callers + [Caller(p, Creating)] == [Caller(p, Creating)];
    StartsReached(registry, Arriving(0, p, choice));
    ReachedIsSound(s);
    NewQueryCompletes(s, 0, choice, rows, previous);
    RunOfTwoParts(start, Arriving(0, p, choice), Passing(0, p, 0, choice, rows, previous));
    StartsReached(registry, FirstPass(p, choice, rows, previous));
  }

  /** From the start: a query is computed once, and an identical one that arrives within the lifetime of the
      result is answered with the same rows, under its own query id, without a job of its own. */
  lemma {:induction false} SecondQueryIsServedFromTheCache(registry: string, p: Plan, q: Plan, choice: Choice,
                                                           rows: string, previous: string, ms: nat)
    requires Helps(choice) && p.fingerprint.Semantic?
    requires q.org == p.org && q.fingerprint == p.fingerprint && ms < QueryCache.Lifetime(p.ttlSeconds)
    ensures var previously := if p.compares then Some(previous) else None;
      var es := FirstPass(p, choice, rows, previous) + ([Tick(ms)] + Arriving(1, q, choice));
      var t := Run(Initial(false, registry), es);
      && |t.callers| == 2
      && t.callers[0] == Caller(p, Replied(Fresh(0, QueryResult(p.queryId, rows, previously))))
      && t.callers[1] == Caller(q, Replied(Cached(QueryResult(q.queryId, rows, previously))))
      && t.rows.Keys == {0} && t.rows[0].state == COMPLETED
      && t.rows[0].result == Some(QueryResult(p.queryId, rows, previously))
  {
    hide Run;
    hide Reached;
    hide Passing;
    var start := Initial(false, registry);
    var first, second := FirstPass(p, choice, rows, previous), [Tick(ms)] + Arriving(1, q, choice);
    FirstQueryCompletes(registry, p, choice, rows, previous);
    var t := Run(start, first);
    RunOfTwoParts(start, first, second);
    RunOneMore(t, Tick(ms), Arriving(1, q, choice));
    var later := t.(now := t.now + ms);
    assert Step(t, Tick(ms)) == later;
    hide Step;
    hide FirstPass;
    ArrivalLooksUp(later, q, choice);
  }

  /** Purging the cache never changes what it answers, now or later. */
  lemma PurgeStepIsInvisible(s: System, key: QueryCache.Key, later: Instant)
    requires s.now <= later
    ensures var t := Run(s, [PurgeCache]);
      && t == s.(cache := t.cache)
      && QueryCache.Lookup(t.cache, key, later) == QueryCache.Lookup(s.cache, key, later)
  {
    RunOfOne(s, PurgeCache);
    hide Run;
    QueryCache.PurgeIsInvisible(s.cache, key, s.now, later);
  }

  // ---------------------------------------------------------------- a job that another caller has

  /** The caller's job is no longer what its next claim or completion needs. */
  ghost predicate TooLate(s: System, c: nat, choice: Choice) {
    && c < |s.callers|
    && (match s.callers[c].phase
        case Claiming(job) =>
          (s.simulator || choice.agent.Some?) && job in s.rows && s.rows[job].state != PENDING
        case Dispatching(job, seen, _) => job in s.rows && s.rows[job].version != seen.version
        case Completing(job, _) =>
          !choice.tooLarge && job in s.rows && s.rows[job].state !in {DISPATCHED, RUNNING}
        case CompleteWriting(job, seen, _) => job in s.rows && s.rows[job].version != seen.version
        case _ => false)
  }

  /** A caller that comes too late, to claim its job or to complete it, is told that the job is pending, and
      changes nothing. */
  lemma LateCallersArePending(s: System, c: nat, choice: Choice)
    requires Reached(s) && TooLate(s, c, choice)
    ensures Step(s, Advance(c, choice)) == To(s, c, Replied(Pending(s.callers[c].phase.job)))
  {
    hide Reached;
    hide Sound;
    ReachedIsSound(s);
    JobFacts(s, c);
    hide Told;
    hide Won;
    hide Written;
    hide Computed;
  }
}
