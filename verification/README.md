# Data Engine V2, verified

A Dafny model of the Data Engine V2: a semantic query planner and compiler in front of a concurrent
job protocol. `dafny verify dfyconfig.toml` checks the whole project.

## What is modelled

**The job protocol.** Job rows live in one store. `transition` and `complete` read a row and later
write it under a guard on its version; the two halves are separate steps, so callers of `runQuery`,
acknowledgements, cancellations, the expiry sweeps, timers and replies interleave freely.
`DataJobs` has the rows, the statements and the service class; `DataService` is the state machine
of `runQuery`, in which one step is the code between two awaits and callers carry the rows their
executions were answered with; `Dispatcher` has the pending
executions and their timers; `QueryCache` the cache. `QueryPasses` follows one caller through whole
passes of `runQuery`, `QueryRuns` what a failure leaves behind, whatever else runs. The partial unique index on active
(organization, fingerprint) pairs is the store's rule for inserting a job
(`test/data-engine.postgres.e2e-spec.ts:84-108`).

**Sockets.** `Gateway` has the gateway and the presence set as classes, each method tied to a step
of a state machine that runs the gateway together with the dispatcher.

**Time.** `Calendar` is the Gregorian day count of `Date.UTC` (section 21.4.1 of ECMA-262) and its
inverse. `PeriodResolver` has the three-round search for a local midnight, named periods and their
comparisons; `NamedPeriods` ties what `resolve` answers, and what a finished plan is about and compared
with, to the days of the calendar. A time zone is any function from instants to offsets in whole seconds.

**Compilation.** `SqlCompiler` produces a statement as a syntax tree with a map of named
parameters; two loops fill both. `SqlMeaning` evaluates statements over tables in SQL's
three-valued logic, with the collation, the text of a cell and the aggregates of a group left
uninterpreted, and proves that a compiled statement answers the question its request asks.
`StatementNames` reads the table and the columns of a statement back as the configured texts. `Like`
is the pattern matcher, `Compilability` the exact conditions under which a request compiles, and the
code it fails with; `Plannability` the same for the whole planner.

**Fingerprints.** `Json` is the `canonical` printer (strings escaped as in section 7 of RFC 8259),
`Fingerprint` the object that is fingerprinted, `CacheAgreement` the reason a cached answer may
stand for another request's. `RowOrder` is when ORDER BY leaves no choice among rows, `CutAnswers`
exactly when two requests of one fingerprint return the same rows, `Truncation` two that do not.

**Contracts at the edges.** `QueryValidator` and `DataBinding` are what the engine and the widget
store accept; `ResultPolicy`, `ComparisonJoin` and `MonthAlignment` what becomes of an agent's rows.

## Where an obvious promise does not hold

These are proved as counterexamples, each next to the exact condition under which the promise holds.

- A midnight inside a daylight-saving gap is not reached by the three rounds
  (`PeriodResolver.GapIsMissed`); that is the only case (`PeriodResolver.MidnightIsMissedOnlyInGaps`).
- The comparison of the single day from 28 to 29 February with the year before is empty. Any other
  starts before it ends if and only if the clock is set back between its two midnights by less than
  the days between them (`PeriodResolver.PreviousYearIsEmptyOnlyBeforeLeapDay`).
- `contains` escapes neither the backslash nor the opening bracket, so it finds substrings exactly
  for values that have neither (`SqlMeaning.ContainsClauseIsExactWhenSafe`).
- The names listed for filter 1 include those of filter 10 and beyond
  (`QueryPlanner.ParameterNamesAreOwnUnlessShadowed`).
- Dimensions are sorted in the fingerprint but order the rows in the request's order. Requests with
  one fingerprint return the same rows of every table if and only if their dimensions are in one
  order or, with a sort, the sort names every dimension
  (`CutAnswers.AnswersAgreeExactlyWhenOrderedAlike`); `Truncation.CutAnswersDiffer` is a pair that
  does not.
- A stale socket that leaves hides its organization, and only a stale one does
  (`Gateway.PresenceIsExactUnlessStale`).
- A departure also ends the executions that another socket of the same agent could serve, exactly
  when there is such a socket (`Gateway.DepartureEndsServedExecutions`).
- A socket can leave while its token is looked up and be admitted all the same. An admission keeps
  every active entry on a connected socket if and only if its own socket is still connected
  (`Gateway.AdmissionIsSoundExactlyWhenConnected`); `Gateway.LateAdmissionHappens` is a run in
  which it is not.
- The month pattern admits a thirteenth month, which the shift confuses with the January after it
  (`ComparisonJoin.ThirteenthMonthCollides`); on calendar months it confuses nothing.
- Resources are found under `connector:key`, so a colon in a connector can make the validator refuse
  a binding the store accepted (`DataBinding.ColonMisleads`). An accepted binding is served if and
  only if the user and the period are valid, the metric has a date dimension and a resource, and
  that resource is the one the metric names or the binding has no dimensions
  (`DataBinding.AcceptedBindingsAreServedExactlyWhen`).

## Model

| member | source | states |
|---|---|---|
| `DataService.JobsOnlyClimb` | src/data-engine/jobs/data-job-v2.service.ts:42-109 | over every interleaving of read halves, guarded writes, cancellations, acknowledgements and sweeps, a row only climbs PENDING < DISPATCHED < RUNNING < terminal, a terminal state is final, the version never exceeds 3, an assigned agent never changes, and only a COMPLETED row holds a result |
| `DataService.CallerWritesAreAtomic` | src/data-engine/jobs/data-job-v2.service.ts:42-77 | a caller's guarded write succeeds exactly when the row is still the one it read; otherwise the version has moved on and nothing is written |
| `DataService.CommitsAreAtomic` | src/data-engine/jobs/data-job-v2.service.ts:42-63 | the write of an acknowledgement or a cancellation succeeds exactly when the row is still the one its read half saw, and is then the uninterrupted transition; otherwise the version has moved on and nothing changes |
| `DataService.OneActiveJobAndOneWinner` | src/data-engine/data.service.ts:65-94 | in every reachable state there is at most one active job for an organization and fingerprint, at most one caller has won PENDING to DISPATCHED for a job, and at most one caller is past that claim |
| `DataService.ExecuteNeverCollides` | src/data-engine/data.service.ts:86-94 | a caller about to execute, for the period or for its comparison, never finds its job already pending in the dispatcher |
| `DataService.CallersHoldTheirOwnJobs` | src/data-engine/data.service.ts:65-77 | `createOrGet` hands a caller only jobs of its own organization and fingerprint |
| `DataService.FreshReplyIsStored` | src/data-engine/data.service.ts:86-139 | a freshly computed reply is made of the rows the dispatcher settled for this job, this query id and execution number 1, and 2 when it compares; it names a job of that request which is COMPLETED from then on and stores that very result until its retention ends |
| `DataService.SharedRepliesComeFromCompletedJobs` | src/data-engine/data.service.ts:61-71 | a reply from the cache or from a duplicate repeats, under the caller's own query id, what a COMPLETED job of the same organization and fingerprint was completed with |
| `DataService.UncompletedJobsNeverFeedTheCache` | src/data-engine/data.service.ts:130-146 | every cache entry comes from a completed job of its own organization and fingerprint that is not a certification; a job that was cancelled, failed or timed out is never that job, then or later |
| `DataService.WaitingCallersCanAlwaysGoOn` | src/data-engine/data.service.ts:87-94 | whoever awaits an execution either has its answer or has a timer armed whose firing answers it |
| `DataService.RunIsSound` | src/data-engine/data.service.ts:40-147 | the invariant behind these results is kept by every run from every state that satisfies it, and no run undoes what was recorded |
| `DataService.StepIsSound` | src/data-engine/data.service.ts:40-147 | each single step keeps that invariant |
| `QueryRuns.TroubleEndsTheJob` | src/data-engine/data.service.ts:140-146 | from any reached state, whatever makes a query that has a job fail (no agent, an execution settled with a failure, rows the policy refuses, a result too large, a call that throws), its next two steps, when nothing runs in between, leave the row FAILED, or TIMED_OUT for QUERY_TIMEOUT, with that code, finished now and one version on, reply with the code, and change nothing else; a job that is over already stays as it is |
| `QueryRuns.FailedJobsAreEnded` | src/data-engine/data.service.ts:140-146 | over every run, a caller whose awaited execution is settled with a failure, or which is on its way through the catch block, replies with that very code, and its row has then ended with it, unless another write was first: the job was over when its row was read, or moved on after that |
| `QueryRuns.UncaughtErrorsAreReplied` | src/data-engine/data.service.ts:40-147 | a call that throws outside the try block ends the query with its code and leaves every row as it is |
| `QueryRuns.CancellationEndsTheJob` | src/data-engine/jobs/data-job-v2.service.ts:87-89 | a cancellation makes exactly an active job of the organization CANCELLED and finished now; every other row stays |
| `QueryRuns.AcknowledgementStartsTheJob` | src/agents/agents.gateway.ts:169-182 | an acknowledgement makes a job RUNNING, with a deadline 30 seconds on, exactly when it quotes a pending execution and the row is DISPATCHED to that agent of that organization |
| `QueryRuns.SweepsRunInSequence` | src/data-engine/jobs/data-job-v2.service.ts:90-109 | the sweeps that run some time later leave the rows described under `DataJobs.SweptByField` |
| `QueryPasses.NewQueryCompletes` | src/data-engine/data.service.ts:61-139 | a query with nothing cached, no active job and a capable agent, when nothing interferes, ends with its job COMPLETED, storing the rows the agent answered, with those of the comparison when it compares, the same result in the cache unless it certifies, and that result as the reply |
| `QueryPasses.SecondQueryIsServedFromTheCache` | src/data-engine/data.service.ts:40-147 | from a server that has just started: a query is computed once and its job COMPLETED with the rows the agent answered; an identical query that arrives within the lifetime of the result is answered with the same rows under its own query id, and no second job exists |
| `QueryPasses.FirstQueryCompletes` | src/data-engine/data.service.ts:40-147 | and for any plan, certifications included, the first pass ends in a reached state with everything `QueryPasses.NewQueryCompletes` names |
| `QueryPasses.PassingRowsAreStored` | src/data-engine/data.service.ts:120-139 | rows that pass the policy and the size check, of a job still DISPATCHED or RUNNING, are stored in the job, cached, and replied |
| `QueryPasses.CachedQueryIsAnswered` | src/data-engine/data.service.ts:61-64 | a live cache entry answers a query at once, under its own query id, and changes nothing else; without one, and for a certification, the query goes on to create its job |
| `QueryPasses.PurgeStepIsInvisible` | src/data-engine/cache/query-cache.service.ts:69-76 | purging the cache never changes what a look-up answers, now or later |
| `QueryPasses.ActiveDuplicateIsShared` | src/data-engine/data.service.ts:65-77 | a query that finds an active job of its pair takes over its query and request ids to claim it while it is PENDING, and is told to wait for it otherwise |
| `QueryPasses.CompletedDuplicateIsReused` | src/data-engine/data.service.ts:68-71 | when the job ended between the refused insertion and the look-up, the newest retained completed job of the pair answers, under the query's own id |
| `QueryPasses.ExpiredDuplicatesAreNotReused` | src/data-engine/jobs/data-job-v2.service.ts:33-40 | and when every completed one is five minutes old, the query fails |
| `QueryPasses.NewQueryIsClaimed` | src/data-engine/data.service.ts:65-86 | a query without a duplicate inserts a job with its own pair, ids and permission, a certification with that of certifications, and claims it for the agent |
| `QueryPasses.LateCallersArePending` | src/data-engine/data.service.ts:82-85 | a caller whose row has moved on, before its claim or before its completion, is told to wait and changes nothing |
| `DataJobs.HalvesAreAtomic` | src/data-engine/jobs/data-job-v2.service.ts:42-77 | given any later reading of the rows, the guarded write goes through exactly when the row is unchanged since its read half, and then equals an uninterrupted read and write |
| `DataJobs.WriteClimbs` | src/data-engine/jobs/data-job-v2.service.ts:48-58 | each argument set the engine uses raises the rank and adds one to the version |
| `DataJobs.WriteHalfKeepsRows` | src/data-engine/jobs/data-job-v2.service.ts:49-72 | a guarded write keeps every row sound, moves rows only forward and keeps active jobs unique |
| `DataJobs.LaterKeepsOneActive` | prisma/migrations/20260928134500_data_engine_v2/migration.sql:71-74 | rows that only move forward can never break the uniqueness of the active job |
| `DataJobs.VersionsAreBounded` | src/data-engine/jobs/data-job-v2.service.ts:51-52 | a sound row has been written at most three times, and fewer while it is active |
| `DataJobs.SweptKeepsRows` | src/data-engine/jobs/data-job-v2.service.ts:91-109 | the three sweeps together keep rows sound, forward-moving and unique |
| `DataJobs.SweepsAreIndependent` | src/data-engine/jobs/data-job-v2.service.ts:95-103 | the dispatch sweep changes nothing the execution sweep counts |
| `DataJobs.SweptByField` | src/data-engine/jobs/data-job-v2.service.ts:95-107 | after the sweeps at some moment a row is TIMED_OUT with QUERY_TIMEOUT, finished at that moment and one version on, exactly when it was PENDING or DISPATCHED past its dispatch deadline or RUNNING past its execution deadline; its result is gone exactly when its retention had ended; nothing else of any row changes |
| `DataJobs.NothingOutlivesItsDeadline` | src/data-engine/jobs/data-job-v2.service.ts:95-107 | what is left active after the sweeps has not passed its deadline: created at most 15 seconds before while PENDING or DISPATCHED, started at most 30 seconds before while RUNNING; and a stored result is at most five minutes old |
| `DataJobs.DueByField` | src/data-engine/jobs/data-job-v2.service.ts:96-103 | the rows the first two sweeps count are those past their deadlines |
| `DataJobs.WritesByField` | src/data-engine/jobs/data-job-v2.service.ts:42-77 | which rows each write of the engine admits, and what it makes of every field |
| `DataJobs.RetainedForFiveMinutes` | src/data-engine/jobs/data-job-v2.service.ts:33-38 | a job can be reused exactly while it is COMPLETED, of the pair, and finished less than five minutes ago |
| `DataJobs.DataJobV2Service.Create` | src/data-engine/jobs/data-job-v2.service.ts:15-23 | inserts a PENDING row with a fresh id unless an active row of the pair exists, and then changes nothing |
| `DataJobs.DataJobV2Service.FindActive` | src/data-engine/jobs/data-job-v2.service.ts:26-31 | finds the one active row of the pair if there is one |
| `DataJobs.DataJobV2Service.FindCompleted` | src/data-engine/jobs/data-job-v2.service.ts:33-38 | finds a newest retained completed row of the pair if there is one |
| `DataJobs.DataJobV2Service.Read` | src/data-engine/jobs/data-job-v2.service.ts:44-47 | the read half and its three refusals |
| `DataJobs.DataJobV2Service.WriteGuarded` | src/data-engine/jobs/data-job-v2.service.ts:49-60 | the guarded update: whether it applied and the rows it leaves, which only moved forward |
| `DataJobs.DataJobV2Service.Perform` | src/data-engine/jobs/data-job-v2.service.ts:42-77 | `transition` and `complete` run through: changed exactly when the row admits the write, and nothing else moves |
| `DataJobs.DataJobV2Service.Get` | src/data-engine/jobs/data-job-v2.service.ts:78-86 | id, query id, state and error code of the row, and the result exactly of a COMPLETED row within its retention that still stores one; none for a job of another organization |
| `DataJobs.DataJobV2Service.ExpireDueJobs` | src/data-engine/jobs/data-job-v2.service.ts:90-109 | the sweeps in their order, with the numbers of rows each of the first two times out, when they are enabled; `DataJobs.SweptByField` and `DataJobs.DueByField` say which |
| `Dispatcher.EveryRunIsConsistent` | src/data-engine/jobs/data-job-v2.dispatcher.ts:37-106 | over every sequence of executions, replies, failures and timers: armed timers are in bijection with pending entries, every execution is waiting or settled, and none is settled twice |
| `Dispatcher.RunKeepsConsistent` | src/data-engine/jobs/data-job-v2.dispatcher.ts:37-106 | the same from any consistent memory |
| `Dispatcher.AnswersAreFinal` | src/data-engine/jobs/data-job-v2.dispatcher.ts:83-100 | an execution keeps the first answer it was settled with |
| `Dispatcher.TimersDoNotCross` | src/data-engine/jobs/data-job-v2.dispatcher.ts:46-49 | the timer of one execution of a job can never touch a later execution of the same job |
| `Dispatcher.ReplySettlesItsEntryOnly` | src/data-engine/jobs/data-job-v2.dispatcher.ts:77-100 | a reply that differs in any of the five fields changes nothing; a matching one settles that entry and leaves every other entry and timer |
| `Dispatcher.ExpireIsSettle` | src/data-engine/jobs/data-job-v2.dispatcher.ts:46-49 | a timer that fires settles exactly the entry its job has |
| `Dispatcher.HandedByField` | src/data-engine/jobs/data-job-v2.dispatcher.ts:50-76 | a payload handed over leaves one more entry with its timer; one that is not leaves neither, and its promise is rejected with AGENT_OFFLINE |
| `Dispatcher.DisconnectsOneAgent` | src/data-engine/jobs/data-job-v2.dispatcher.ts:101-106 | entry by entry: those of the agent in its organization are gone and rejected with AGENT_OFFLINE, all others as they were |
| `Dispatcher.DataJobV2Dispatcher.Execute` | src/data-engine/jobs/data-job-v2.dispatcher.ts:37-76 | with a simulator it is the one that answers and nothing changes; otherwise refuses without an agent or on a pending job, else registers one entry with one timer, undone at once when the payload is not sent |
| `Dispatcher.DataJobV2Dispatcher.IsPending` | src/data-engine/jobs/data-job-v2.dispatcher.ts:77-82 | true exactly on a five-field match |
| `Dispatcher.DataJobV2Dispatcher.ReceiveRows` | src/data-engine/jobs/data-job-v2.dispatcher.ts:83-91 | accepts exactly matching rows, and the new memory |
| `Dispatcher.DataJobV2Dispatcher.FailEntry` | src/data-engine/jobs/data-job-v2.dispatcher.ts:92-100 | accepts exactly matching failures, and the new memory |
| `Dispatcher.DataJobV2Dispatcher.TimerFires` | src/data-engine/jobs/data-job-v2.dispatcher.ts:46-49 | the timer callback |
| `Dispatcher.DataJobV2Dispatcher.Disconnected` | src/data-engine/jobs/data-job-v2.dispatcher.ts:101-106 | removes exactly the entries of that agent of that organization, each settled once with AGENT_OFFLINE |
| `Gateway.EveryRunKeepsInv` | src/agents/agents.gateway.ts:38-102 | over every run of connections, departures at any moment, late admissions, greetings, queries, replies and timers: a connected socket with an active entry is of its organization, presence never goes beyond the active organizations, and no execution waits for an agent without a capable socket |
| `Gateway.AdmissionIsSoundExactlyWhenConnected` | src/agents/agents.gateway.ts:57-75 | an admission keeps every active entry on a connected socket of its organization if and only if its socket is still connected |
| `Gateway.EntriesNameConnectedSockets` | src/agents/agents.gateway.ts:57-102 | over every run whose admissions find their socket connected, each active entry names a connected socket of its organization |
| `Gateway.QueriesReachTheirAgent` | src/agents/agents.gateway.ts:38-55 | a query is emitted only to a connected capable socket of the intended agent of that organization, and whenever `agentFor` names the agent it is emitted |
| `Gateway.AdmissionByField` | src/agents/agents.gateway.ts:57-75 | an admission makes its socket the active one of its organization and marks it present; it is not capable before it has greeted |
| `Gateway.GreetingMakesCapable` | src/agents/agents.gateway.ts:144-167 | a greeting makes a socket capable exactly when it is admitted and announces protocol 2 and both capabilities |
| `Gateway.OnlyTheAgentAnswers` | src/agents/agents.gateway.ts:184-210 | a reply that changes anything came from a capable socket of the agent and organization the execution was sent to, and settles only that job |
| `Gateway.RepliesSettleWithWhatTheyMean` | src/agents/agents.gateway.ts:184-210 | a reply is heeded exactly when it quotes the query and the sequence of an execution pending on the agent whose capable socket sends it; it settles that execution with the rows when they fit, RESULT_TOO_LARGE when they do not, and for an error its code when it is one of three and SOURCE_UNAVAILABLE otherwise |
| `Gateway.PresenceIsExactUnlessStale` | src/agents/agents.gateway.ts:93-102 | after a departure presence still equals the active organizations if and only if the socket that left was not a stale one |
| `Gateway.StaleSocketHidesItsOrganization` | src/agents/agents.gateway.ts:93-98 | a stale socket that leaves takes its organization off the presence set although a newer socket is active |
| `Gateway.DepartureEndsServedExecutions` | src/agents/agents.gateway.ts:93-97 | a departure ends an execution although a capable socket of its agent stays connected if and only if the execution is of the agent that left and another capable socket speaks for that agent |
| `Gateway.LateAdmissionNamesNobody` | src/agents/agents.gateway.ts:57-75 | in any run the first admission that misses its socket leaves an active entry naming no connected socket |
| `Gateway.LateAdmissionHappens` | src/agents/agents.gateway.ts:57-75 | such a run, for any socket, organization and agent |
| `Gateway.AgentsGateway.OpenSocket` | src/agents/agents.gateway.ts:57-67 | a new socket is connected and speaks for nobody yet |
| `Gateway.AgentsGateway.HandleConnection` | src/agents/agents.gateway.ts:57-91 | an identified socket becomes its organization's active one and marks it present, even when it has left during the lookup; an unidentified one is dropped |
| `Gateway.AgentsGateway.HandleDisconnect` | src/agents/agents.gateway.ts:93-102 | an identified socket's departure removes the active entry only if it is this socket's, clears presence, and ends the agent's executions; that of a socket still being looked up changes nothing else |
| `Gateway.AgentsGateway.HandleAgentHello` | src/agents/agents.gateway.ts:144-167 | accepted exactly for an identified socket offering protocol 2 and both capabilities |
| `Gateway.AgentsGateway.FindAgent` | src/agents/agents.gateway.ts:40-45 | `agentFor` |
| `Gateway.AgentsGateway.Send` | src/agents/agents.gateway.ts:46-53 | `send` and the socket it reaches |
| `Gateway.AgentsGateway.Execute` | src/data-engine/jobs/data-job-v2.dispatcher.ts:37-76 | without a simulator an execution over this transport is started exactly when a capable agent is active and the job is free |
| `Gateway.AgentsGateway.HandleQueryAcknowledged` | src/agents/agents.gateway.ts:169-182 | an acknowledgement is heeded exactly when it matches a pending execution of the sender |
| `Gateway.AgentsGateway.HandleQueryResult` | src/agents/agents.gateway.ts:184-210 | a reply is taken exactly when it matches a pending execution of the sender, as rows, as its error, or as RESULT_TOO_LARGE |
| `Gateway.AgentsService.SetAgentConnected` | src/agents/agents.service.ts:975-977 | adds to the presence set |
| `Gateway.AgentsService.SetAgentDisconnected` | src/agents/agents.service.ts:979-981 | removes from the presence set |
| `Gateway.AgentsService.IsAgentConnected` | src/agents/agents.service.ts:983-985 | membership in the presence set |
| `Calendar.DayOfCivil` | src/data-engine/planner/period-resolver.service.ts:8-15 | numbering the civil date of a day gives the day back |
| `Calendar.CivilOfDay` | src/data-engine/planner/period-resolver.service.ts:8-15 | and the civil date of a date's number is that date |
| `Calendar.DaysFollowDates` | src/data-engine/planner/period-resolver.service.ts:17-22 | day numbers order dates as year, month and day do |
| `PeriodResolver.MidnightIsReached` | src/data-engine/planner/period-resolver.service.ts:16-25 | the three rounds end at the local midnight of every day that has one, for every zone that switches at most once over the instants the loop reads |
| `PeriodResolver.MidnightIsMissedOnlyInGaps` | src/data-engine/planner/period-resolver.service.ts:16-25 | for such a zone the loop fails to end at a midnight exactly when the day has none |
| `PeriodResolver.FixedOffsetsHaveMidnights` | src/data-engine/planner/period-resolver.service.ts:16-25 | where the clock never switches every day has such a midnight |
| `PeriodResolver.GapIsMissed` | src/data-engine/planner/period-resolver.service.ts:16-25 | a zone that springs forward over a midnight: the loop ends elsewhere |
| `PeriodResolver.FindZonedMidnight` | src/data-engine/planner/period-resolver.service.ts:16-25 | the loop computes the three rounds |
| `PeriodResolver.ResolvePeriod` | src/data-engine/planner/period-resolver.service.ts:59-91 | `resolve`, step by step, with its switch and its two searches for a midnight, answers what `NamedPeriods` describes |
| `NamedPeriods.NamedPeriodsSpanTheirDays` | src/data-engine/planner/period-resolver.service.ts:72-90 | for a known zone whose boundary midnights exist, `resolve` answers a named period with the local midnights of the days the name stands for: today and the next day, the Monday on or before today and the one after, the firsts of the month, quarter or year and of the next, or of the one before and this one |
| `NamedPeriods.ChosenDaysStandFor` | src/data-engine/planner/period-resolver.service.ts:73-85 | the days chosen are the days the name stands for, and no others are |
| `NamedPeriods.ResolvesExactlyWhen` | src/data-engine/planner/period-resolver.service.ts:60-71 | no period resolves to none; any other resolves exactly in a known zone, when it is a name or two stated instants in order, which are then its bounds; the code is NOT_CONFIGURED for an unknown zone and QUERY_INVALID otherwise |
| `NamedPeriods.PlansSpanTheirDays` | src/data-engine/planner/query-planner.service.ts:40-41 | a finished plan for a named period starts and ends at the local midnights of the days the name stands for, in the time zone asked for, on the metric's date dimension |
| `NamedPeriods.PlansKeepStatedInstants` | src/data-engine/planner/query-planner.service.ts:40-41 | a finished plan for an absolute period is about the stated instants, in order; one for no period has none |
| `NamedPeriods.PlansSelectTheirDays` | src/data-engine/planner/query-planner.service.ts:40-47 | on a source of civil days, the rows the period of such a plan lets through are exactly those of these days |
| `NamedPeriods.PlansCompareWhenAsked` | src/data-engine/planner/query-planner.service.ts:42-49 | a finished plan has a comparison exactly when the previous period or the previous year is asked for, none for a budget or a target; the previous period ends where the plan's starts |
| `NamedPeriods.PlansComparePreviousMonths` | src/data-engine/planner/query-planner.service.ts:44-46 | asked for the previous period, a plan for a named month, quarter or year is compared from the first of the one before |
| `NamedPeriods.PlansCompareAsManyDays` | src/data-engine/planner/query-planner.service.ts:44-46 | and every other plan with as many local days |
| `NamedPeriods.PlansCompareSameDays` | src/data-engine/planner/query-planner.service.ts:44-46 | asked for the previous year, a plan is compared with the same days a year before, the last of the month for 29 February |
| `MonthAlignment.NamedPeriodsAreWholeDays` | src/data-engine/planner/period-resolver.service.ts:73-85 | every named period is a number of whole days, starts before it ends, holds today when it is a current one and is over by today when it is a previous one, and a previous month, quarter or year ends where the current one starts |
| `PeriodResolver.Compare` | src/data-engine/planner/period-resolver.service.ts:26-58 | `previous_period` ends where the period starts; zone and date dimension are kept |
| `PeriodResolver.CurrentAgainstPrevious` | src/data-engine/planner/period-resolver.service.ts:33-44 | comparing the current month, quarter or year with the previous period is resolving the previous month, quarter or year, across year ends |
| `PeriodResolver.SameNumberOfDays` | src/data-engine/planner/period-resolver.service.ts:45-51 | every other period is compared with as many local days as it has |
| `PeriodResolver.WeeksStartOnMonday` | src/data-engine/planner/period-resolver.service.ts:77 | a current week starts on a Monday and has seven days |
| `PeriodResolver.WeekAgainstWeekBefore` | src/data-engine/planner/period-resolver.service.ts:45-51 | a current week is compared with the week from the Monday before |
| `PeriodResolver.ResolvesToCivilDays` | src/data-engine/planner/period-resolver.service.ts:72-90 | a named period's bounds are the local midnights of the days the calendar chose, when those midnights exist |
| `PeriodResolver.ClockReadsMidnight` | src/data-engine/planner/sql-compiler.service.ts:47-56 | the compiler's test for a local midnight passes exactly during the first second of a day of the zone |
| `PeriodResolver.YearBeforeIsMonotone` | src/data-engine/planner/period-resolver.service.ts:52-56 | going back a year keeps the order of dates and merges only 28 and 29 February |
| `PeriodResolver.PreviousYearIsEmptyOnlyBeforeLeapDay` | src/data-engine/planner/period-resolver.service.ts:52-57 | the comparison with the year before is empty for the period from 28 to 29 February; for any other it starts before it ends if and only if the clock is set back between its midnights by less than the days between them, so under less than a whole day it is never empty; both bounds are the midnights of the dates a year before |
| `PeriodResolver.CurrentYearAgainstYearBefore` | src/data-engine/planner/period-resolver.service.ts:52-57 | on the current year it is the previous year |
| `SqlMeaning.CompilationPreservesMeaning` | src/data-engine/planner/sql-compiler.service.ts:18-99 | whenever a request compiles, every parameter its statement names is bound and the statement groups exactly the rows of its table that pass the fixed filters, the period and the filters, by exactly the requested dimensions, with NULL never matching a comparison; read as LIKE patterns for all values, and as substrings and prefixes for values the patterns read literally; `StatementNames.StatementNamesWhatIsConfigured` says which table and columns those are |
| `StatementNames.StatementNamesWhatIsConfigured` | src/data-engine/planner/sql-compiler.service.ts:18-99 | the table, the measure, every group, every clause of the fixed filters, the period and the filters, and every sort of a compiled statement name what is configured for them: dropping the brackets gives the configured text back; groups have the dimension's key, sorts their direction, and the limit is the one asked for or 1000 |
| `StatementNames.PathReadsBack` | src/data-engine/planner/sql-compiler.service.ts:9-17 | a compiled path is the configured text with each of its names in brackets, and dropping the brackets gives that text back |
| `StatementNames.PathsIdentifyTexts` | src/data-engine/planner/sql-compiler.service.ts:13-17 | compiled paths are equal exactly when the configured texts are |
| `StatementNames.CompilesReviewedPaths` | src/data-engine/planner/sql-compiler.service.ts:9-17 | exactly the names joined by dots compile |
| `StatementNames.StatementsIgnoreValues` | src/data-engine/planner/sql-compiler.service.ts:38-89 | the statement does not depend on what a filter is compared with nor on the bounds of the period, which are only ever parameters: requests that differ in nothing else have one statement, or fail alike |
| `SqlMeaning.WhereMeansRequest` | src/data-engine/planner/sql-compiler.service.ts:31-89 | the WHERE clause is true of a row exactly when the row passes every test of the request |
| `SqlMeaning.ContainsClauseIsExactWhenSafe` | src/data-engine/planner/sql-compiler.service.ts:86-88 | a compiled `contains` filter means "has the value as a substring" for every text of the column if and only if the value has no backslash and no opening bracket |
| `SqlMeaning.FilterLookup` | src/data-engine/planner/sql-compiler.service.ts:63-89 | each filter's clause and bindings survive all later filters |
| `SqlMeaning.FixedLookup` | src/data-engine/planner/sql-compiler.service.ts:32-37 | each fixed filter keeps a binding of its own |
| `SqlMeaning.FiltersKeepOtherNames` | src/data-engine/planner/sql-compiler.service.ts:63-89 | filters overwrite no binding of the fixed filters or of the period |
| `SqlMeaning.UncutReturnsEverything` | src/data-engine/planner/sql-compiler.service.ts:91-98 | a statement that TOP does not cut returns every group |
| `SqlCompiler.SpellingInjective` | src/data-engine/planner/sql-compiler.service.ts:33-88 | generated parameter names are pairwise distinct |
| `SqlCompiler.CompileStatement` | src/data-engine/planner/sql-compiler.service.ts:18-99 | the compiler, filling clauses and parameters as it goes, computes the compiled statement `SqlMeaning` and `StatementNames` describe, or the same failure |
| `SqlCompiler.BuildWhere` | src/data-engine/planner/sql-compiler.service.ts:31-89 | the loops over fixed filters and filters |
| `SqlCompiler.ScalarTextReads` | src/data-engine/planner/sql-compiler.service.ts:86 | the text a `contains` pattern is made of reads back as the value |
| `Compilability.CompilesExactlyWhen` | src/data-engine/planner/sql-compiler.service.ts:18-98 | a validated request compiles if and only if every expression it reaches is a reviewed path, every alias an identifier, NULL is asked for only with eq or neq, a source of civil days gets bounds at local midnights, and sorting is by its dimensions |
| `Compilability.FailsWithItsFault` | src/data-engine/planner/sql-compiler.service.ts:9-98 | a request that does not compile fails with NOT_CONFIGURED for a name that is not configured, QUERY_INVALID for bounds that are not midnights on a source of civil days or for NULL under another operator, whichever comes first |
| `Compilability.NamedPeriodBindsItsDays` | src/data-engine/planner/sql-compiler.service.ts:38-62 | a named period whose boundary midnights exist never raises the midnight failure, and the period parameters are the civil days the resolver chose |
| `Compilability.NamedPeriodSelectsItsDays` | src/data-engine/planner/sql-compiler.service.ts:38-62 | and a stored day passes exactly when it is one of the period's days |
| `Compilability.PeriodSelectsItsInstants` | src/data-engine/planner/sql-compiler.service.ts:58-61 | on a source of instants the bounds are bound as they are, and a row passes the period exactly when its instant lies from the first to before the second |
| `Like.ContainsMeansSubstring` | src/data-engine/planner/sql-compiler.service.ts:86-88 | the escaped pattern under ESCAPE matches exactly the texts that contain the value, for values without backslash and bracket |
| `Like.ContainsIsExactWhenSafe` | src/data-engine/planner/sql-compiler.service.ts:86 | and for all texts only for those values |
| `Like.UnsafeWitness` | src/data-engine/planner/sql-compiler.service.ts:86 | a text on which the pattern of any other value is wrong |
| `Like.StartsWithMeansPrefix` | src/data-engine/planner/sql-compiler.service.ts:35-36 | the pattern of a fixed prefix without pattern characters matches exactly the texts that start with it |
| `Json.CanonicalIdentifiesMeaning` | src/data-engine/planner/query-planner.service.ts:12-19 | two values print alike exactly when they are equal up to key order and undefined fields, at every depth |
| `Json.ValueUnambiguous` | src/data-engine/planner/query-planner.service.ts:12-19 | a printed value can be read back from in front of any text that cannot continue it |
| `Json.SameMeaningSameText` | src/data-engine/planner/query-planner.service.ts:12-19 | values of one meaning print alike |
| `Json.EscapedUnambiguous` | src/data-engine/planner/query-planner.service.ts:16-18 | escaped characters can be told apart wherever they stand |
| `Fingerprint.FingerprintsIdentify` | src/data-engine/planner/query-planner.service.ts:50-60 | two requests have one fingerprint pre-image if and only if they agree on everything fingerprinted, up to the order of dimensions and of filters |
| `Fingerprint.TextOrdersFilters` | src/data-engine/planner/query-planner.service.ts:54-55 | sorting by canonical text orders filters totally |
| `Sorting.SortsAlike` | src/data-engine/planner/query-planner.service.ts:53-55 | two lists sort alike exactly when they have the same elements as often |
| `CacheAgreement.CacheAgrees` | src/data-engine/planner/query-planner.service.ts:47-60 | two requests planned with one fingerprint belong to one organization, and their statements, the comparison's included, give the same groups whatever the order of dimensions and filters; the same rows are returned unless TOP cuts them |
| `CacheAgreement.PlansShareExactlyWhen` | src/data-engine/planner/query-planner.service.ts:50-60 | two finished plans share a fingerprint if and only if their requests name the same metric for the same organization, the same dimensions and filters in any order, the same period and comparison, the same currency or the metric's, the same sort and the same limit or 1000 |
| `CacheAgreement.OrderedAlikeAgreesEvenCut` | src/data-engine/planner/sql-compiler.service.ts:91-98 | two requests planned with one fingerprint whose dimensions are in one order, or whose sort names every dimension, return the same rows in the same order, for the period and for its comparison, whether TOP cuts them or not |
| `CutAnswers.AnswersAgreeExactlyWhenOrderedAlike` | src/data-engine/planner/sql-compiler.service.ts:91-98 | and only those return the same rows of every table: for any other pair of plans with one fingerprint some table makes the returned rows differ |
| `CutAnswers.DimensionOrdersDisagree` | src/data-engine/planner/sql-compiler.service.ts:94-95 | two default orders that first differ at some dimension: a table with one row more than TOP lets through, which counts up in the one and down in the other, is cut differently |
| `CutAnswers.TiesDisagree` | src/data-engine/planner/sql-compiler.service.ts:92-93 | a sort that leaves a dimension out: a table whose rows differ in that dimension alone leaves TOP a choice |
| `RowOrder.CoveringOrderFixesTheAnswer` | src/data-engine/planner/sql-compiler.service.ts:91-98 | two statements with the same groups and limit that sort by the same names, every group among them, have one answer, row for row, even when TOP cuts it |
| `CacheAgreement.ReorderedRequestsShareAFingerprint` | src/data-engine/planner/query-planner.service.ts:50-60 | reordering dimensions or filters does not change the fingerprint |
| `CacheAgreement.SameGroups` | src/data-engine/planner/query-planner.service.ts:53 | the order of dimensions does not change what is grouped |
| `CacheAgreement.SameTests` | src/data-engine/planner/query-planner.service.ts:54-55 | the order of filters does not change what is asked |
| `CacheAgreement.PlansArePlanned` | src/data-engine/planner/query-planner.service.ts:33-78 | what every finished plan consists of |
| `Plannability.PlansExactlyWhen` | src/data-engine/planner/query-planner.service.ts:33-60 | the planner finishes exactly the acceptable requests whose period can be read, if they compare have one, and whose names, for the period and for the comparison, are all configured |
| `Plannability.PlanFailsWithItsFault` | src/data-engine/planner/query-planner.service.ts:33-60 | and fails with the code of the first thing that is wrong |
| `Plannability.PlansListOwnNames` | src/data-engine/planner/query-planner.service.ts:66-70 | a finished plan lists for each filter exactly the names it binds if and only if no other filter whose number starts with its digits binds anything |
| `Truncation.CutAnswersDiffer` | src/data-engine/planner/sql-compiler.service.ts:91-95 | two requests of one registry with one fingerprint that return different rows of some table, because the default order follows the request and TOP cuts |
| `QueryPlanner.ParameterNamesAreOwnUnlessShadowed` | src/data-engine/planner/query-planner.service.ts:69 | the names listed for filter i are exactly its own if and only if no other filter whose number starts with the digits of i binds anything |
| `QueryPlanner.UpToTenFiltersNamesAreExact` | src/data-engine/planner/query-planner.service.ts:69 | with at most ten filters they always are |
| `QueryPlanner.FilterOneCatchesTen` | src/data-engine/planner/query-planner.service.ts:69 | with eleven, filter 1 also lists what filter 10 binds |
| `QueryPlanner.BoundNames` | src/data-engine/planner/sql-compiler.service.ts:31-88 | a statement binds the fixed filters' names, the period's and the filters' own, and no other |
| `QueryValidator.AcceptsExactly` | src/data-engine/planner/query-validator.service.ts:18-90 | the ordered checks accept exactly the requests of a declarative description that shares no predicate with them, and hand on the metric and the resource named |
| `QueryValidator.RefusesWithItsCode` | src/data-engine/planner/query-validator.service.ts:18-90 | every other request is refused with the code of the first thing wrong with it |
| `Registry.ResourceIsTheOneNamed` | src/data-engine/semantic/semantic-registry.service.ts:47-51 | a resource found under a connector without a colon is that connector's resource of that key |
| `Registry.ColonsMisdirect` | src/data-engine/semantic/semantic-registry.service.ts:36 | with a colon, two different resources share one id |
| `DataBinding.AcceptedBindingsAreServedExactlyWhen` | src/widgets/data-binding.service.ts:21-95 | a binding the store accepts becomes a request the validator accepts if and only if the user is known and permitted, the period valid, the metric has a date dimension and a resource, and that resource is the one the metric names or the binding has no dimensions |
| `DataBinding.AcceptedBindingsAreServed` | src/widgets/data-binding.service.ts:21-95 | in particular always, given those, when no connector contains a colon |
| `DataBinding.ColonMisleads` | src/widgets/data-binding.service.ts:82-83 | with a colon in a connector an accepted binding can be refused |
| `DataBinding.ValidationIsIdempotent` | src/widgets/data-binding.service.ts:90-101 | what validation returns is accepted again unchanged, and is its own public value |
| `DataBinding.ReadsWhatIsStored` | src/widgets/data-binding.service.ts:90-94 | the object returned reads back as the same binding |
| `DataBinding.ValidateBinding` | src/widgets/data-binding.service.ts:21-95 | the verdict, settled step by step |
| `DataBinding.StoreAcceptsExactly` | src/widgets/data-binding.service.ts:21-95 | the store accepts nothing as nothing, and a value as a binding exactly when it says that binding and the binding fits its metric: certified, with a supported comparison, shape and visualization, and no dimension, or one monthly one of the metric's own source for a series |
| `DataBinding.ReadsExactlyWhatIsSaid` | src/widgets/data-binding.service.ts:22-66 | a stored value is read as a binding exactly when its fields say that binding and there are no others |
| `DataBinding.FindFault` | src/widgets/data-binding.service.ts:78-87 | the loop over dimensions reports the first fault |
| `ResultPolicy.ValidateMetricRows` | src/data-engine/results/metric-result-policy.ts:5-56 | accepts exactly the rows that are acceptable one by one and pairwise differ in some dimension; every refusal is SOURCE_SCHEMA_MISMATCH |
| `ResultPolicy.AcceptedUnlessFaulty` | src/data-engine/results/metric-result-policy.ts:18-49 | a row is accepted exactly when it has none of seven faults: an unknown column, a bad count, a value although nothing was counted, a badly encoded, too precise or non-zero one, a dimension missing, of another type or outside its pattern |
| `ResultPolicy.DecimalsExactly` | src/data-engine/results/metric-result-policy.ts:8-10 | the texts taken for decimals are exactly a sign or none, digits, and a fraction of the scale's length, or of any length without a scale |
| `ResultPolicy.TupleTextsDiffer` | src/data-engine/results/metric-result-policy.ts:50-53 | two acceptable rows have different tuple texts exactly when they differ in some dimension |
| `ComparisonJoin.EmptyExactlyWhenNothingWasCounted` | src/data-engine/data.service.ts:95-117 | under the counting, preserving policy the result is empty exactly when the source counts sum to 0 |
| `ComparisonJoin.KeptRowsAreCounted` | src/data-engine/data.service.ts:97-101 | the rows kept are exactly those with a positive count |
| `ComparisonJoin.NothingIsDropped` | src/data-engine/data.service.ts:97-101 | rows without a count, and all rows under a policy that fills empty results with zero, are kept in order |
| `ComparisonJoin.UncountedRowsAreDropped` | src/data-engine/data.service.ts:97-101 | a row with a count that is not positive is dropped otherwise, wherever it stands |
| `ComparisonJoin.SourceCountAddsUp` | src/data-engine/data.service.ts:108-111 | the source count adds up row by row, and is unavailable while no row says one |
| `ComparisonJoin.KeptRowsAreDecimals` | src/data-engine/results/metric-result-policy.ts:26-36 | each kept row carries a decimal text of the declared scale |
| `ComparisonJoin.ComparisonIsALeftJoin` | src/data-engine/data.service.ts:103-107 | kept rows stay once and in order; in each, previous_value is the value of the one comparison row aligned with it, null when that row has none or there is no such row, and every other column is as it was |
| `ComparisonJoin.AlignedRowsAreOfOneGroup` | src/data-engine/data.service.ts:104-105 | a comparison row is aligned with a row exactly when it has the same value in every dimension, but for the month texts of aligned dimensions, which lie as many months earlier as the comparison |
| `ComparisonJoin.JoinIgnoresComparisonOrder` | src/data-engine/data.service.ts:103-107 | the order of the comparison rows does not matter |
| `ComparisonJoin.NoComparisonRowIsUsedTwice` | src/data-engine/data.service.ts:103-107 | two different groups are never paired with the same comparison row, when aligned dimensions hold calendar months |
| `ComparisonJoin.ShiftIsInjectiveOnMonths` | src/data-engine/results/metric-result-policy.ts:58-72 | the shift keeps two month texts apart exactly when they name different months, and calendar months name different months exactly when they differ |
| `ComparisonJoin.MonthTextsDiffer` | src/data-engine/results/metric-result-policy.ts:71 | no two months are printed alike, negative ones included |
| `ComparisonJoin.ThirteenthMonthCollides` | src/data-engine/results/metric-result-policy.ts:62 | the pattern admits 2024-13, which shifts like 2025-01 |
| `MonthAlignment.MonthsMapOntoComparison` | src/data-engine/results/metric-result-policy.ts:63-71 | the shift maps the months of a named month, quarter or year one-to-one onto the months of its comparison with the previous period or year |
| `MonthAlignment.ComparisonMonths` | src/data-engine/planner/period-resolver.service.ts:33-57 | both periods start and end on first days of months, the comparison as long and shifted by whole months |
| `MonthAlignment.MonthTextReadsBack` | src/data-engine/results/metric-result-policy.ts:70-71 | the text of a month of a four-digit year is a month text that reads back as that month |
| `QueryCache.LookupAnswersLastPut` | src/data-engine/cache/query-cache.service.ts:37-76 | whatever purges and other puts intervene, a lookup answers the last result put under its key, exactly while its clamped lifetime lasts, and the row keeps the moment of that put |
| `QueryCache.PurgeIsInvisible` | src/data-engine/cache/query-cache.service.ts:69-76 | purging never changes what a lookup answers |
| `QueryCache.Lifetime` | src/data-engine/cache/query-cache.service.ts:52 | a lifetime of one to 300 seconds is kept as asked, a shorter one is a second and a longer one five minutes |
| `QueryCache.QueryCacheService.Get` | src/data-engine/cache/query-cache.service.ts:37-48 | the stored result of a live row, with the moment it was put as cachedAt and the present moment as generatedAt |
| `QueryCache.QueryCacheService.Put` | src/data-engine/cache/query-cache.service.ts:49-68 | stores under the key with the clamped lifetime |
| `QueryCache.QueryCacheService.PurgeExpired` | src/data-engine/cache/query-cache.service.ts:69-76 | removes exactly the dead rows and counts them |

## Left out

Not modelled:

- Prisma, PostgreSQL, Redis, socket.io, HTTP controllers, NestJS wiring and logging: only the store's
  atomic guarded update and its unique index are kept.
- AES-GCM, SHA-256, bcrypt, JWT and random ids: decryption undoes encryption, a hash stands for its
  pre-image, job ids are fresh, query and request ids are inputs.
- `SqlSecurityService`, the V1 jobs, onboarding, billing, AI classification, notifications, storage,
  dashboards and roles: thin wrappers, constants or single checks.
- Environment switches and the certification campaign tables: certification is a kind of fingerprint
  that skips the cache, and the sweeps have an `enabled` input.
- `getJob`, `cancelJob` and their authorization: cancelling enters the protocol as a step anyone may take.
- The store's clock: one clock gives `createdAt`, which the database sets, and the deadlines, which the service sets.
- The text of a statement: the syntax tree stands for it. Reviewed identifiers and paths are modelled,
  so nothing of a request other than parameters reaches it.
- `registryVersion`: a field of the registry, since all requests compared are planned under one registry.
- `failActiveJobsForOrg`: it concerns V1 jobs.

Stated with a limit:

- SqlMeaning.CompilationPreservesMeaning: groups are told apart by equality of cells, not by a
  case-insensitive collation; LIKE compares characters exactly. Comparisons and equality in WHERE are
  any relations of the source.
- SqlMeaning.ContainsClauseIsExactWhenSafe: LIKE is modelled as SQL Server reads patterns, with
  percent sign, underscore, bracketed sets and ranges, and one escape character.
- SqlMeaning.UncutReturnsEverything: rows are those of the model's ORDER BY and TOP, with NULL first.
- Json.CanonicalIdentifiesMeaning: numbers are integers; the printing of fractions is not modelled. The
  locale order of keys is any total order.
- Fingerprint.FingerprintsIdentify: the bounds of a period are fingerprinted as numbers of
  milliseconds rather than as ISO texts, which is as injective.
- QueryPlanner.ParameterNamesAreOwnUnlessShadowed: the list of names is a set; its order is not modelled.
- QueryValidator.AcceptsExactly: fields have their declared types, filter values excepted; an unknown
  operator is refused by the request's own declaration. A missing organization is reported as
  PERMISSION_DENIED, where the code throws a forbidden-request exception.
- DataBinding.ValidateBinding: every refusal is one fault, except that of an unknown dimension; messages
  are not modelled.
- PeriodResolver.MidnightIsReached: years from 100 on, since `Date.UTC` reads smaller ones as 19xx; a
  zone's offset is a whole number of seconds below a day and switches at most once over the
  instants read.
- MonthAlignment.MonthsMapOntoComparison: four-digit years, as the pattern requires; the boundary
  midnights of both periods exist.
- ComparisonJoin.EmptyExactlyWhenNothingWasCounted: `Number()` is any function that keeps integers and
  sends null to 0; counts that are not integers are refused by validation and not modelled.
- ResultPolicy.ValidateMetricRows: rows are objects; `Date.parse` and the reviewed patterns are inputs; a decimal text counts
  as zero when all its digits are zero, where `Number()` also underflows to zero.
- ComparisonJoin.NoComparisonRowIsUsedTwice: needs aligned dimensions that hold calendar months, which
  the reviewed pattern alone does not guarantee.
- DataService.FreshReplyIsStored: a result is its query id and the rows it was computed from; schema,
  normalization and join are functions of those (`ComparisonJoin` has them), and its `meta` is not
  modelled here. The outcome of the result policy and of the size check are inputs of a step.
- DataService.JobsOnlyClimb: `acknowledgedAt` and the stored ciphertext fields are not modelled; among
  completed rows of one creation time any may be returned as the newest.
- Gateway.EveryRunKeepsInv: the dispatcher is always present, and the events are those of a gateway
  without simulator; with one nothing is dispatched (`Gateway.AgentsGateway.Execute`).
- CutAnswers.AnswersAgreeExactlyWhenOrderedAlike: that some table tells two requests apart is stated
  for statements whose dimensions are different columns and whose WHERE clause some row passes
  whatever stands in those columns, as without a filter on them; the other half,
  `CacheAgreement.OrderedAlikeAgreesEvenCut`, has no such limit. The source's order is any in which
  different cells are never equal and, for the tables that differ, numbers go by size.
- Gateway.AgentsGateway.HandleQueryResult: whether the rows are an array of at most 1000 within a
  mebibyte is an input.
