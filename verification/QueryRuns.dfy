/** Whole passes of one caller through `runQuery`, from any state the system can reach: what a query ends
    with when nothing interferes, and what a failed one leaves behind when anything may. */
module QueryRuns {
  import opened Contracts
  import opened DataJobs
  import opened DataService
  import QueryCache
  import D = Dispatcher

  // ---------------------------------------------------------------- runs

  lemma RunOfOne(s: System, e: Event)
    ensures Run(s, [e]) == Step(s, e)
  {
    hide Step;
    assert [e][..0] == [];
    assert Run(s, [e][..0]) == s;
  }

  lemma {:induction false} RunOfTwoParts(s: System, es: seq<Event>, fs: seq<Event>)
    ensures Run(s, es + fs) == Run(Run(s, es), fs)
  {
    hide Step;
    if fs == [] {
      assert es + fs == es;
    } else {
      var all := es + fs;
      assert all[..|all| - 1] == es + fs[..|fs| - 1] && all[|all| - 1] == fs[|fs| - 1];
      RunOfTwoParts(s, es, fs[..|fs| - 1]);
    }
  }

  lemma {:induction false} RunOneMore(s: System, e: Event, es: seq<Event>)
    ensures Run(s, [e] + es) == Run(Step(s, e), es)
  {
    hide Step;
    hide Run;
    RunOfTwoParts(s, [e], es);
    RunOfOne(s, e);
  }

  lemma {:induction false} RunOfThree(s: System, a: Event, b: Event, c: Event)
    ensures Run(s, [a, b, c]) == Step(Step(Step(s, a), b), c)
  {
    hide Step;
    hide Run;
    assert [a, b, c] == [a] + ([b] + [c]);
    RunOneMore(s, a, [b] + [c]);
    RunOneMore(Step(s, a), b, [c]);
    RunOfOne(Step(Step(s, a), b), c);
  }

  lemma {:induction false} RunOfTwo(s: System, a: Event, b: Event)
    ensures Run(s, [a, b]) == Step(Step(s, a), b)
  {
    hide Step;
    hide Run;
    assert [a, b] == [a] + [b];
    RunOneMore(s, a, [b]);
    RunOfOne(Step(s, a), b);
  }

  lemma {:induction false} ReachedOn(s: System, es: seq<Event>)
    requires Reached(s)
    ensures Reached(Run(s, es))
  {
    hide Run;
    hide Initial;
    var simulator, registry, before :| s == Run(Initial(simulator, registry), before);
    RunOfTwoParts(Initial(simulator, registry), before, es);
  }

  // ---------------------------------------------------------------- a query that fails

  /** The event makes the try block of caller `c` fail with this code. */
  ghost predicate Trouble(s: System, e: Event, c: nat, code: ErrorCode)
    requires c < |s.callers|
  {
    var p, phase := s.callers[c].plan, s.callers[c].phase;
    match e
    case Advance(d, choice) =>
      && d == c
      && (match phase
          case Claiming(_) => !s.simulator && choice.agent.None? && code == AGENT_OFFLINE
          case Executing(_, _, _) => !s.simulator && choice.agent.None? && code == AGENT_OFFLINE
          case Waiting(_, _, _, x) => D.Settlement(x, D.Failure(code)) in s.dispatcher.settled
          case Answered(_, sequence, _) =>
            (sequence == 2 || !p.compares) && !choice.valid && code == SOURCE_SCHEMA_MISMATCH
          case Completing(_, _) => choice.tooLarge && code == RESULT_TOO_LARGE
          case _ => false)
    case Throw(d, thrown, caught) => d == c && caught && thrown == code && Guarded(phase)
    case _ => false
  }

  /** The job's row as a failure leaves it. */
  predicate Ended(row: Row, code: ErrorCode) {
    && row.state == (if code == QUERY_TIMEOUT then TIMED_OUT else FAILED)
    && row.errorCode == Some(code) && row.finishedAt.Some?
  }

  lemma SettledOnce(d: D.State, x: D.Execution, answer: D.Answer)
    requires D.Consistent(d) && D.Settlement(x, answer) in d.settled
    ensures D.Settled(d, x) && AnswerOf(d, x) == answer
  {
    var i :| 0 <= i < |d.settled| && d.settled[i] == D.Settlement(x, answer);
    assert d.settled[i].execution == x;
    AnswerIsSettled(d, x);
    var j :| 0 <= j < |d.settled| && d.settled[j] == D.Settlement(x, AnswerOf(d, x));
    assert i == j;
  }

  lemma DispatcherFacts(s: System)
    requires Sound(s)
    ensures D.Consistent(s.dispatcher)
  {
    assert DispatcherSound(s);
  }

  /** Trouble leads into the catch block, with its code. */
  lemma TroubleIsCaught(s: System, e: Event, c: nat, code: ErrorCode)
    requires Sound(s) && c < |s.callers| && Trouble(s, e, c, code)
    ensures HasJob(s.callers[c].phase)
    ensures Step(s, e) == To(s, c, Aborting(s.callers[c].phase.job, code))
  {
    hide Sound;
    JobOfTrouble(s, e, c, code);
    if e.Advance? && s.callers[c].phase.Waiting? {
      DispatcherFacts(s);
      SettledOnce(s.dispatcher, s.callers[c].phase.execution, D.Failure(code));
      hide D.Settled;
      hide AnswerOf;
      hide D.Consistent;
    } else if e.Advance? && s.callers[c].phase.Answered? {
      JobFacts(s, c);
      hide AllHeard;
    }
  }

  lemma JobOfTrouble(s: System, e: Event, c: nat, code: ErrorCode)
    requires Sound(s) && c < |s.callers| && Trouble(s, e, c, code)
    ensures HasJob(s.callers[c].phase) && IsJobOf(s, s.callers[c].plan, s.callers[c].phase.job)
  {
    hide Sound;
    JobFacts(s, c);
  }

  /** The row of a job that failed now: FAILED, or TIMED_OUT for QUERY_TIMEOUT, with the failure's code. */
  function FailedRow(row: Row, code: ErrorCode, now: Instant): Row {
    row.(state := if code == QUERY_TIMEOUT then TIMED_OUT else FAILED, errorCode := Some(code),
         finishedAt := Some(now), version := row.version + 1)
  }

  /** Caller `c` has replied with the code; its job has failed with it unless it was over before; nothing
      else has changed. */
  ghost predicate HasFailed(s: System, c: nat, job: JobId, code: ErrorCode, t: System) {
    && c < |s.callers| && job in s.rows
    && t == s.(rows := t.rows, callers := s.callers[c := s.callers[c].(phase := Replied(Failure(code)))])
    && t.rows == (if s.rows[job].state in {PENDING, DISPATCHED, RUNNING}
                  then s.rows[job := FailedRow(s.rows[job], code, s.now)] else s.rows)
  }

  lemma AbortedRow(row: Row, code: ErrorCode, now: Instant)
    requires row.state in {PENDING, DISPATCHED, RUNNING}
    ensures Admits(row, Abort(code)) && Written(row, Abort(code), now) == FailedRow(row, code, now)
  {
  }

  lemma NotAborted(row: Row, code: ErrorCode)
    requires row.state !in {PENDING, DISPATCHED, RUNNING}
    ensures !Admits(row, Abort(code))
  {
  }

  lemma ReadsForAbort(s: System, c: nat, job: JobId, code: ErrorCode, a: Choice)
    requires c < |s.callers| && s.callers[c].phase == Aborting(job, code) && IsJobOf(s, s.callers[c].plan, job)
    ensures Step(s, Advance(c, a)) ==
      To(s, c, if Admits(s.rows[job], Abort(code)) then AbortWriting(job, s.rows[job], code)
               else Replied(Failure(code)))
  {
    hide Admits;
    hide Abort;
  }

  lemma WritesAbort(s: System, c: nat, job: JobId, code: ErrorCode, a: Choice)
    requires c < |s.callers| && IsJobOf(s, s.callers[c].plan, job)
    requires s.callers[c].phase == AbortWriting(job, s.rows[job], code) && Admits(s.rows[job], Abort(code))
    ensures Step(s, Advance(c, a)) ==
      To(s.(rows := s.rows[job := Written(s.rows[job], Abort(code), s.now)]), c, Replied(Failure(code)))
  {
    hide Admits;
    hide Abort;
    hide Written;
  }

  /** The catch block, when nothing runs between its two halves. */
  lemma CaughtEndsTheJob(s: System, c: nat, job: JobId, code: ErrorCode, a: Choice, b: Choice)
    requires c < |s.callers| && s.callers[c].phase == Aborting(job, code)
    requires IsJobOf(s, s.callers[c].plan, job)
    ensures HasFailed(s, c, job, code, Step(Step(s, Advance(c, a)), Advance(c, b)))
  {
    hide Admits;
    hide Abort;
    hide Written;
    hide FailedRow;
    ReadsForAbort(s, c, job, code, a);
    var row, t := s.rows[job], Step(s, Advance(c, a));
    if row.state in {PENDING, DISPATCHED, RUNNING} {
      AbortedRow(row, code, s.now);
      WritesAbort(t, c, job, code, b);
      SameCallers(s, c, AbortWriting(job, row, code), Replied(Failure(code)));
    } else {
      NotAborted(row, code);
    }
    hide Step;
  }

  lemma SameCallers(s: System, c: nat, phase: Phase, next: Phase)
    requires c < |s.callers|
    ensures To(To(s, c, phase), c, next) == To(s, c, next)
  {
    var was := s.callers;
    assert was[c := was[c].(phase := phase)][c := was[c].(phase := next)] == was[c := was[c].(phase := next)];
  }

  /** Whatever makes a query fail once it has a job, its next two steps, when nothing runs in between, end the
      job with the failure's code, TIMED_OUT for QUERY_TIMEOUT and FAILED otherwise, reply with that code and
      change nothing else; a job that is over already is left as it is. */
  lemma TroubleEndsTheJob(s: System, e: Event, c: nat, code: ErrorCode, a: Choice, b: Choice)
    requires Reached(s) && c < |s.callers| && Trouble(s, e, c, code)
    ensures HasJob(s.callers[c].phase)
    ensures HasFailed(s, c, s.callers[c].phase.job, code, Run(s, [e, Advance(c, a), Advance(c, b)]))
  {
    hide Reached;
    hide Sound;
    hide Step;
    hide Trouble;
    hide Run;
    ReachedIsSound(s);
    TroubleIsCaught(s, e, c, code);
    JobOfTrouble(s, e, c, code);
    var job := s.callers[c].phase.job;
    CaughtEndsTheJob(Step(s, e), c, job, code, a, b);
    RunOfThree(s, e, Advance(c, a), Advance(c, b));
    hide FailedRow;
    SameCallers(s, c, Aborting(job, code), Replied(Failure(code)));
  }

  // ---------------------------------------------------------------- the same over every run

  /** Nothing is thrown at caller `c`. */
  ghost predicate Undisturbed(es: seq<Event>, c: nat) {
    forall e :: e in es ==> !(e.Throw? && e.caller == c)
  }

  lemma ToKeepsOthers(s: System, d: nat, c: nat)
    requires c < |s.callers| && d < |s.callers| && c != d
    ensures forall t: System, phase ::
      t.callers == s.callers ==> c < |To(t, d, phase).callers| && To(t, d, phase).callers[c] == s.callers[c]
  {
  }

  lemma CreatingKeepsOthers(s: System, d: nat, choice: Choice, c: nat)
    requires c < |s.callers| && d < |s.callers| && c != d && (s.callers[d].phase.Creating?)
    ensures c < |CreateStep(s, d, choice).callers| && CreateStep(s, d, choice).callers[c] == s.callers[c]
  {
    ToKeepsOthers(s, d, c);
    hide To;
    hide Collides;
    hide NewestReusable;
    hide Reusable;
    hide Retained;
  }

  lemma FindingActiveKeepsOthers(s: System, d: nat, choice: Choice, c: nat)
    requires c < |s.callers| && d < |s.callers| && c != d && (s.callers[d].phase.FindingActive?)
    ensures c < |CreateStep(s, d, choice).callers| && CreateStep(s, d, choice).callers[c] == s.callers[c]
  {
    ToKeepsOthers(s, d, c);
    hide To;
    hide Collides;
    hide NewestReusable;
    hide Reusable;
    hide Retained;
  }

  lemma FindingCompletedKeepsOthers(s: System, d: nat, choice: Choice, c: nat)
    requires c < |s.callers| && d < |s.callers| && c != d && (s.callers[d].phase.FindingCompleted?)
    ensures c < |CreateStep(s, d, choice).callers| && CreateStep(s, d, choice).callers[c] == s.callers[c]
  {
    ToKeepsOthers(s, d, c);
    hide To;
    hide Collides;
    hide NewestReusable;
    hide Reusable;
    hide Retained;
  }

  lemma ReadingResultKeepsOthers(s: System, d: nat, choice: Choice, c: nat)
    requires c < |s.callers| && d < |s.callers| && c != d && (s.callers[d].phase.ReadingResult?)
    ensures c < |CreateStep(s, d, choice).callers| && CreateStep(s, d, choice).callers[c] == s.callers[c]
  {
    ToKeepsOthers(s, d, c);
    hide To;
    hide Collides;
    hide NewestReusable;
    hide Reusable;
    hide Retained;
  }

  lemma CreateKeepsOthers(s: System, d: nat, choice: Choice, c: nat)
    requires c < |s.callers| && d < |s.callers| && c != d
    ensures c < |CreateStep(s, d, choice).callers| && CreateStep(s, d, choice).callers[c] == s.callers[c]
  {
    var phase := s.callers[d].phase;
    if phase.Creating? {
      CreatingKeepsOthers(s, d, choice, c);
      hide CreateStep;
    } else if phase.FindingActive? {
      FindingActiveKeepsOthers(s, d, choice, c);
      hide CreateStep;
    } else if phase.FindingCompleted? {
      FindingCompletedKeepsOthers(s, d, choice, c);
      hide CreateStep;
    } else if phase.ReadingResult? {
      ReadingResultKeepsOthers(s, d, choice, c);
      hide CreateStep;
    }
  }

  lemma ClaimingKeepsOthers(s: System, d: nat, choice: Choice, c: nat)
    requires c < |s.callers| && d < |s.callers| && c != d && (s.callers[d].phase.Claiming?)
    ensures c < |ExecuteStep(s, d, choice).callers| && ExecuteStep(s, d, choice).callers[c] == s.callers[c]
  {
    ToKeepsOthers(s, d, c);
    hide To;
    hide ReadHalf;
    hide Guard;
    hide WriteHalf;
    hide D.Handed;
  }

  lemma DispatchingKeepsOthers(s: System, d: nat, choice: Choice, c: nat)
    requires c < |s.callers| && d < |s.callers| && c != d && (s.callers[d].phase.Dispatching?)
    ensures c < |ExecuteStep(s, d, choice).callers| && ExecuteStep(s, d, choice).callers[c] == s.callers[c]
  {
    ToKeepsOthers(s, d, c);
    hide To;
    hide ReadHalf;
    hide Guard;
    hide WriteHalf;
    hide D.Handed;
  }

  lemma ExecutingKeepsOthers(s: System, d: nat, choice: Choice, c: nat)
    requires c < |s.callers| && d < |s.callers| && c != d && (s.callers[d].phase.Executing?)
    ensures c < |ExecuteStep(s, d, choice).callers| && ExecuteStep(s, d, choice).callers[c] == s.callers[c]
  {
    ToKeepsOthers(s, d, c);
    hide To;
    hide ReadHalf;
    hide Guard;
    hide WriteHalf;
    hide D.Handed;
  }

  lemma ExecuteKeepsOthers(s: System, d: nat, choice: Choice, c: nat)
    requires c < |s.callers| && d < |s.callers| && c != d
    ensures c < |ExecuteStep(s, d, choice).callers| && ExecuteStep(s, d, choice).callers[c] == s.callers[c]
  {
    var phase := s.callers[d].phase;
    if phase.Claiming? {
      ClaimingKeepsOthers(s, d, choice, c);
      hide ExecuteStep;
    } else if phase.Dispatching? {
      DispatchingKeepsOthers(s, d, choice, c);
      hide ExecuteStep;
    } else if phase.Executing? {
      ExecutingKeepsOthers(s, d, choice, c);
      hide ExecuteStep;
    }
  }

  lemma WaitingKeepsOthers(s: System, d: nat, choice: Choice, c: nat)
    requires c < |s.callers| && d < |s.callers| && c != d && (s.callers[d].phase.Waiting?)
    ensures c < |AnswerStep(s, d, choice).callers| && AnswerStep(s, d, choice).callers[c] == s.callers[c]
  {
    ToKeepsOthers(s, d, c);
    hide To;
  }

  lemma AnsweredKeepsOthers(s: System, d: nat, choice: Choice, c: nat)
    requires c < |s.callers| && d < |s.callers| && c != d && (s.callers[d].phase.Answered?)
    ensures c < |AnswerStep(s, d, choice).callers| && AnswerStep(s, d, choice).callers[c] == s.callers[c]
  {
    ToKeepsOthers(s, d, c);
    hide To;
  }

  lemma AnswerKeepsOthers(s: System, d: nat, choice: Choice, c: nat)
    requires c < |s.callers| && d < |s.callers| && c != d
    ensures c < |AnswerStep(s, d, choice).callers| && AnswerStep(s, d, choice).callers[c] == s.callers[c]
  {
    var phase := s.callers[d].phase;
    if phase.Waiting? {
      WaitingKeepsOthers(s, d, choice, c);
      hide AnswerStep;
    } else if phase.Answered? {
      AnsweredKeepsOthers(s, d, choice, c);
      hide AnswerStep;
    }
  }

  lemma StartingKeepsOthers(s: System, d: nat, choice: Choice, c: nat)
    requires c < |s.callers| && d < |s.callers| && c != d && (s.callers[d].phase.Starting?)
    ensures c < |CompleteStep(s, d, choice).callers| && CompleteStep(s, d, choice).callers[c] == s.callers[c]
  {
    ToKeepsOthers(s, d, c);
    hide To;
    hide ReadHalf;
    hide Guard;
    hide WriteHalf;
    hide Computed;
    hide QueryCache.Store;
  }

  lemma StartWritingKeepsOthers(s: System, d: nat, choice: Choice, c: nat)
    requires c < |s.callers| && d < |s.callers| && c != d && (s.callers[d].phase.StartWriting?)
    ensures c < |CompleteStep(s, d, choice).callers| && CompleteStep(s, d, choice).callers[c] == s.callers[c]
  {
    ToKeepsOthers(s, d, c);
    hide To;
    hide ReadHalf;
    hide Guard;
    hide WriteHalf;
    hide Computed;
    hide QueryCache.Store;
  }

  lemma CompletingKeepsOthers(s: System, d: nat, choice: Choice, c: nat)
    requires c < |s.callers| && d < |s.callers| && c != d && s.callers[d].phase.Completing?
    ensures c < |CompleteStep(s, d, choice).callers| && CompleteStep(s, d, choice).callers[c] == s.callers[c]
  {
    hide ReadHalf;
    hide Computed;
    var job := s.callers[d].phase.job;
    var result := Computed(s.callers[d].plan.queryId, s.callers[d].phase.heard);
    if choice.tooLarge {
      assert CompleteStep(s, d, choice) == To(s, d, Aborting(job, RESULT_TOO_LARGE));
    } else {
      match ReadHalf(s.rows, job, s.callers[d].plan.org, Complete(result, None)) {
        case Proceed(row) => assert CompleteStep(s, d, choice) == To(s, d, CompleteWriting(job, row, result));
        case _ => assert CompleteStep(s, d, choice) == To(s, d, Replied(Pending(job)));
      }
    }
    hide CompleteStep;
  }

  lemma CompleteWritingKeepsOthers(s: System, d: nat, choice: Choice, c: nat)
    requires c < |s.callers| && d < |s.callers| && c != d && (s.callers[d].phase.CompleteWriting?)
    ensures c < |CompleteStep(s, d, choice).callers| && CompleteStep(s, d, choice).callers[c] == s.callers[c]
  {
    ToKeepsOthers(s, d, c);
    hide To;
    hide ReadHalf;
    hide Guard;
    hide WriteHalf;
    hide Computed;
    hide QueryCache.Store;
  }

  lemma StoringKeepsOthers(s: System, d: nat, choice: Choice, c: nat)
    requires c < |s.callers| && d < |s.callers| && c != d && (s.callers[d].phase.Storing?)
    ensures c < |CompleteStep(s, d, choice).callers| && CompleteStep(s, d, choice).callers[c] == s.callers[c]
  {
    ToKeepsOthers(s, d, c);
    hide To;
    hide ReadHalf;
    hide Guard;
    hide WriteHalf;
    hide Computed;
    hide QueryCache.Store;
  }

  lemma CompleteKeepsOthers(s: System, d: nat, choice: Choice, c: nat)
    requires c < |s.callers| && d < |s.callers| && c != d
    ensures c < |CompleteStep(s, d, choice).callers| && CompleteStep(s, d, choice).callers[c] == s.callers[c]
  {
    var phase := s.callers[d].phase;
    if phase.Starting? {
      StartingKeepsOthers(s, d, choice, c);
      hide CompleteStep;
    } else if phase.StartWriting? {
      StartWritingKeepsOthers(s, d, choice, c);
      hide CompleteStep;
    } else if phase.Completing? {
      CompletingKeepsOthers(s, d, choice, c);
      hide CompleteStep;
    } else if phase.CompleteWriting? {
      CompleteWritingKeepsOthers(s, d, choice, c);
      hide CompleteStep;
    } else if phase.Storing? {
      StoringKeepsOthers(s, d, choice, c);
      hide CompleteStep;
    }
  }

  lemma AbortingKeepsOthers(s: System, d: nat, c: nat)
    requires c < |s.callers| && d < |s.callers| && c != d && s.callers[d].phase.Aborting?
    ensures c < |AbortStep(s, d).callers| && AbortStep(s, d).callers[c] == s.callers[c]
  {
    hide ReadHalf;
    hide Abort;
    var phase := s.callers[d].phase;
    match ReadHalf(s.rows, phase.job, s.callers[d].plan.org, Abort(phase.code)) {
      case Proceed(row) => assert AbortStep(s, d) == To(s, d, AbortWriting(phase.job, row, phase.code));
      case _ => assert AbortStep(s, d) == To(s, d, Replied(Failure(phase.code)));
    }
    hide AbortStep;
  }

  lemma AbortWritingKeepsOthers(s: System, d: nat, c: nat)
    requires c < |s.callers| && d < |s.callers| && c != d && s.callers[d].phase.AbortWriting?
    ensures c < |AbortStep(s, d).callers| && AbortStep(s, d).callers[c] == s.callers[c]
  {
    hide ReadHalf;
    hide WriteHalf;
    hide Abort;
  }

  lemma AbortKeepsOthers(s: System, d: nat, c: nat)
    requires c < |s.callers| && d < |s.callers| && c != d
    ensures c < |AbortStep(s, d).callers| && AbortStep(s, d).callers[c] == s.callers[c]
  {
    var phase := s.callers[d].phase;
    if phase.Aborting? {
      AbortingKeepsOthers(s, d, c);
      hide AbortStep;
    } else if phase.AbortWriting? {
      AbortWritingKeepsOthers(s, d, c);
      hide AbortStep;
    }
  }

  lemma AdvanceKeepsOthers(s: System, d: nat, choice: Choice, c: nat)
    requires c < |s.callers| && d < |s.callers| && c != d
    ensures c < |AdvanceStep(s, d, choice).callers| && AdvanceStep(s, d, choice).callers[c] == s.callers[c]
  {
    hide CreateStep;
    hide ExecuteStep;
    hide AnswerStep;
    hide CompleteStep;
    hide AbortStep;
    hide QueryCache.Lookup;
    CreateKeepsOthers(s, d, choice, c);
    ExecuteKeepsOthers(s, d, choice, c);
    AnswerKeepsOthers(s, d, choice, c);
    CompleteKeepsOthers(s, d, choice, c);
    AbortKeepsOthers(s, d, c);
  }

  /** A caller moves only by its own events. */
  lemma OthersStayPut(s: System, e: Event, c: nat)
    requires c < |s.callers| && !(e.Advance? && e.caller == c) && !(e.Throw? && e.caller == c)
    ensures c < |Step(s, e).callers| && Step(s, e).callers[c] == s.callers[c]
  {
    hide AdvanceStep;
    hide ReadHalf;
    hide WriteHalf;
    hide D.Apply;
    if e.Advance? && e.caller < |s.callers| { AdvanceKeepsOthers(s, e.caller, e.choice, c); }
  }

  /** Caller `c` is about to fail its job with this code. */
  ghost predicate Failing(s: System, c: nat, job: JobId, code: ErrorCode) {
    && c < |s.callers|
    && (match s.callers[c].phase
        case Waiting(j, _, _, x) => j == job && D.Settlement(x, D.Failure(code)) in s.dispatcher.settled
        case Aborting(j, k) => j == job && k == code
        case AbortWriting(j, _, k) => j == job && k == code
        case _ => false)
  }

  /** Another write was first: the job is over before the caller reads its row, or the row has moved on
      since the caller read it. */
  ghost predicate Overtaken(s: System, c: nat, job: JobId) {
    && c < |s.callers| && job in s.rows
    && (match s.callers[c].phase
        case Aborting(j, _) => j == job && IsTerminal(s.rows[job].state)
        case AbortWriting(j, seen, _) => j == job && seen.version < s.rows[job].version
        case _ => false)
  }

  /** Where such a caller stands later on. */
  ghost predicate FailsOn(s: System, es: seq<Event>, c: nat, job: JobId, code: ErrorCode) {
    var t := Run(s, es);
    || Failing(t, c, job, code)
    || (&& c < |t.callers| && job in t.rows && t.callers[c].phase == Replied(Failure(code))
        && (Ended(t.rows[job], code) || exists i :: 0 <= i <= |es| && Overtaken(Run(s, es[..i]), c, job)))
  }

  lemma EndedStays(row: Row, later: Row, code: ErrorCode)
    requires Ended(row, code) && Later(row, later)
    ensures Ended(later, code)
  {
  }

  lemma JobOfFailing(s: System, c: nat, job: JobId, code: ErrorCode)
    requires Sound(s) && Failing(s, c, job, code)
    ensures IsJobOf(s, s.callers[c].plan, job)
    ensures s.callers[c].phase.AbortWriting? ==>
      var seen := s.callers[c].phase.seen;
      && (s.rows[job] == seen ==> Admits(seen, Abort(code)))
      && (s.rows[job] != seen ==>
            seen.version < s.rows[job].version && !Guard(s.rows, job, s.callers[c].plan.org, seen.version, Abort(code)))
  {
    hide Sound;
    JobFacts(s, c);
    if s.callers[c].phase.AbortWriting? {
      TicketFacts(s, c);
      TicketsAreIssued(s.callers[c].phase);
      HeldTicketsAreAtomic(s, job, s.callers[c].plan.org, Abort(code), s.callers[c].phase.seen);
    }
    hide Abort;
    hide Later;
  }

  /** The next step of such a caller keeps it on its way, or is its reply. */
  ghost predicate GoesOn(s: System, t: System, c: nat, job: JobId, code: ErrorCode) {
    || Failing(t, c, job, code)
    || (&& c < |t.callers| && job in t.rows && t.callers[c].phase == Replied(Failure(code))
        && (Ended(t.rows[job], code) || Overtaken(s, c, job)))
  }

  lemma AwaitedFailureGoesOn(s: System, c: nat, job: JobId, code: ErrorCode, choice: Choice)
    requires Sound(s) && Failing(s, c, job, code) && s.callers[c].phase.Waiting?
    ensures GoesOn(s, Step(s, Advance(c, choice)), c, job, code)
  {
    hide Sound;
    TroubleIsCaught(s, Advance(c, choice), c, code);
    hide Step;
    hide Ended;
    hide Overtaken;
  }

  lemma ActiveOrTerminal(state: JobState)
    ensures state in {PENDING, DISPATCHED, RUNNING} || IsTerminal(state)
  {
    match state
    case PENDING | DISPATCHED | RUNNING =>
    case COMPLETED | FAILED | TIMED_OUT | CANCELLED =>
  }

  lemma ReadGoesOn(s: System, c: nat, job: JobId, code: ErrorCode, choice: Choice)
    requires Sound(s) && Failing(s, c, job, code) && s.callers[c].phase.Aborting?
    ensures GoesOn(s, Step(s, Advance(c, choice)), c, job, code)
  {
    hide Sound;
    hide Abort;
    hide Admits;
    hide Written;
    hide Ended;
    JobOfFailing(s, c, job, code);
    ReadsForAbort(s, c, job, code, choice);
    hide Step;
    ActiveOrTerminal(s.rows[job].state);
    if s.rows[job].state in {PENDING, DISPATCHED, RUNNING} { AbortedRow(s.rows[job], code, s.now); }
  }

  lemma WriteGoesOn(s: System, c: nat, job: JobId, code: ErrorCode, choice: Choice)
    requires Sound(s) && Failing(s, c, job, code) && s.callers[c].phase.AbortWriting?
    ensures GoesOn(s, Step(s, Advance(c, choice)), c, job, code)
  {
    hide Sound;
    hide Step;
    hide Abort;
    hide Written;
    hide Admits;
    hide Guard;
    FailingIsACaller(s, c, job, code);
    FailingWrites(s, c, job, code);
    JobOfFailing(s, c, job, code);
    hide Failing;
    if s.rows[job] == s.callers[c].phase.seen {
      WritesAbort(s, c, job, code, choice);
      FailedIsEnded(s.rows[job], code, s.now);
      hide Ended;
    } else {
      hide Ended;
      SkipsAbort(s, c, job, code, choice);
    }
  }

  lemma FailingWrites(s: System, c: nat, job: JobId, code: ErrorCode)
    requires Failing(s, c, job, code) && s.callers[c].phase.AbortWriting?
    ensures s.callers[c].phase.job == job && s.callers[c].phase.code == code
  {
  }

  lemma FailingGoesOn(s: System, c: nat, job: JobId, code: ErrorCode, choice: Choice)
    requires Sound(s) && Failing(s, c, job, code)
    ensures GoesOn(s, Step(s, Advance(c, choice)), c, job, code)
  {
    hide Sound;
    hide Step;
    hide GoesOn;
    if s.callers[c].phase.Waiting? {
      AwaitedFailureGoesOn(s, c, job, code, choice);
    } else if s.callers[c].phase.Aborting? {
      ReadGoesOn(s, c, job, code, choice);
    } else {
      WriteGoesOn(s, c, job, code, choice);
    }
  }

  lemma FailedIsEnded(row: Row, code: ErrorCode, now: Instant)
    requires Admits(row, Abort(code))
    ensures Ended(Written(row, Abort(code), now), code)
  {
  }

  lemma SkipsAbort(s: System, c: nat, job: JobId, code: ErrorCode, choice: Choice)
    requires c < |s.callers| && s.callers[c].phase.AbortWriting?
    requires s.callers[c].phase.job == job && s.callers[c].phase.code == code
    requires !Guard(s.rows, job, s.callers[c].plan.org, s.callers[c].phase.seen.version, Abort(code))
    ensures Step(s, Advance(c, choice)) == To(s, c, Replied(Failure(code)))
  {
    hide Guard;
    hide Abort;
  }

  lemma SettledStays(s: System, t: System, c: nat, job: JobId, code: ErrorCode)
    requires Grows(s, t) && Failing(s, c, job, code) && c < |t.callers| && t.callers[c] == s.callers[c]
    ensures Failing(t, c, job, code)
  {
  }

  lemma EndedStaysOn(s: System, t: System, job: JobId, code: ErrorCode)
    requires Grows(s, t) && job in s.rows && Ended(s.rows[job], code)
    ensures job in t.rows && Ended(t.rows[job], code)
  {
    EndedStays(s.rows[job], t.rows[job], code);
  }

  lemma RowStays(s: System, t: System, job: JobId)
    requires Grows(s, t) && job in s.rows
    ensures job in t.rows
  {
  }

  lemma OvertakenBefore(s: System, es: seq<Event>, c: nat, job: JobId)
    requires es != []
    requires var before := es[..|es| - 1]; exists i :: 0 <= i <= |before| && Overtaken(Run(s, before[..i]), c, job)
    ensures exists i :: 0 <= i <= |es| && Overtaken(Run(s, es[..i]), c, job)
  {
    hide Run;
    hide Overtaken;
    var before := es[..|es| - 1];
    var i :| 0 <= i <= |before| && Overtaken(Run(s, before[..i]), c, job);
    assert before[..i] == es[..i];
  }

  /** One more event. */
  lemma FailsOneOn(s: System, es: seq<Event>, c: nat, job: JobId, code: ErrorCode)
    requires Sound(s) && es != [] && FailsOn(s, es[..|es| - 1], c, job, code)
    requires !(es[|es| - 1].Throw? && es[|es| - 1].caller == c)
    ensures FailsOn(s, es, c, job, code)
  {
    hide Sound;
    hide Grows;
    hide Step;
    hide Ended;
    hide Failing;
    hide Overtaken;
    var e, m, t := es[|es| - 1], Run(s, es[..|es| - 1]), Run(s, es);
    assert t == Step(m, e);
    RunIsSound(s, es[..|es| - 1]);
    StepIsSound(m, e);
    hide Run;
    if Failing(m, c, job, code) {
      if e.Advance? && e.caller == c {
        FailingGoesOn(m, c, job, code, e.choice);
        assert es[..|es| - 1] == es[..(|es| - 1)];
      } else {
        FailingIsACaller(m, c, job, code);
        OthersStayPut(m, e, c);
        SettledStays(m, t, c, job, code);
      }
    } else {
      RepliedStays(m, e, c);
      RowStays(m, t, job);
      if Ended(m.rows[job], code) {
        EndedStaysOn(m, t, job, code);
      } else {
        OvertakenBefore(s, es, c, job);
      }
    }
  }

  lemma FailingIsACaller(s: System, c: nat, job: JobId, code: ErrorCode)
    requires Failing(s, c, job, code)
    ensures c < |s.callers|
  {
  }

  lemma RepliedStays(s: System, e: Event, c: nat)
    requires c < |s.callers| && s.callers[c].phase.Replied?
    ensures c < |Step(s, e).callers| && Step(s, e).callers[c] == s.callers[c]
  {
    if !(e.Advance? && e.caller == c) && !(e.Throw? && e.caller == c) {
      OthersStayPut(s, e, c);
      hide Step;
    }
  }

  lemma {:induction false} FailingRuns(s: System, es: seq<Event>, c: nat, job: JobId, code: ErrorCode)
    requires Sound(s) && Failing(s, c, job, code) && Undisturbed(es, c)
    ensures FailsOn(s, es, c, job, code)
  {
    hide Sound;
    hide Failing;
    hide Ended;
    hide Overtaken;
    if es == [] {
      assert Run(s, es) == s;
    } else {
      assert forall e :: e in es[..|es| - 1] ==> e in es;
      FailingRuns(s, es[..|es| - 1], c, job, code);
      assert es[|es| - 1] in es;
      hide FailsOn;
      FailsOneOn(s, es, c, job, code);
    }
  }

  /** Whatever else runs, a caller whose execution has failed, or which is failing its job for another reason,
      replies with that code alone, and then its job has ended with that code, unless another write was first:
      the job was over when the caller read its row, or the row moved on after that. */
  lemma FailedJobsAreEnded(s: System, es: seq<Event>, c: nat, job: JobId, code: ErrorCode)
    requires Reached(s) && Failing(s, c, job, code) && Undisturbed(es, c)
    ensures var t := Run(s, es);
      && c < |t.callers| && job in t.rows
      && (t.callers[c].phase.Replied? ==>
            && t.callers[c].phase.reply == Failure(code)
            && (Ended(t.rows[job], code) || exists i :: 0 <= i <= |es| && Overtaken(Run(s, es[..i]), c, job)))
  {
    hide Reached;
    hide Sound;
    hide Ended;
    hide Overtaken;
    ReachedIsSound(s);
    FailingRuns(s, es, c, job, code);
    RunIsSound(s, es);
    var t := Run(s, es);
    hide Run;
    if Failing(t, c, job, code) { JobOfFailing(t, c, job, code); }
    hide Grows;
  }

  /** A call that throws where nothing catches it ends the query with its code, and leaves every row as it is. */
  lemma UncaughtErrorsAreReplied(s: System, c: nat, code: ErrorCode, caught: bool)
    requires c < |s.callers| && !s.callers[c].phase.Waiting? && !s.callers[c].phase.Replied?
    requires caught ==> !Guarded(s.callers[c].phase)
    ensures Run(s, [Throw(c, code, caught)]) ==
      s.(callers := s.callers[c := s.callers[c].(phase := Replied(Failure(code)))])
  {
    RunOfOne(s, Throw(c, code, caught));
    hide Run;
  }

  // ---------------------------------------------------------------- what other requests do to a job

  /** The row of a job cancelled, or started, at a moment. */
  function CancelledRow(row: Row, now: Instant): Row {
    row.(state := CANCELLED, finishedAt := Some(now), version := row.version + 1)
  }

  function RunningRow(row: Row, now: Instant): Row {
    row.(state := RUNNING, startedAt := Some(now), executionDeadline := Some(now + 30000), version := row.version + 1)
  }

  lemma HalvesInSequence(s: System, job: JobId, org: Organization, w: Write)
    requires job in s.rows && s.rows[job].org == org
    ensures Step(BeginStep(s, job, org, w), Commit(|s.inflight|)).rows ==
      if Admits(s.rows[job], w) then s.rows[job := Written(s.rows[job], w, s.now)] else s.rows
  {
    hide Admits;
    hide Written;
  }

  /** A cancellation of one's own organization ends an active job, and changes no other and no ended one. */
  lemma CancellationEndsTheJob(s: System, job: JobId, org: Organization)
    ensures Run(s, [BeginCancel(job, org), Commit(|s.inflight|)]).rows ==
      if job in s.rows && s.rows[job].org == org && s.rows[job].state in {PENDING, DISPATCHED, RUNNING}
      then s.rows[job := CancelledRow(s.rows[job], s.now)] else s.rows
  {
    hide Run;
    hide Written;
    RunOfTwo(s, BeginCancel(job, org), Commit(|s.inflight|));
    if job in s.rows && s.rows[job].org == org {
      HalvesInSequence(s, job, org, Cancel());
      CancelledByField(s.rows[job], s.now);
    }
    hide Admits;
    hide Cancel;
  }

  lemma CancelledByField(row: Row, now: Instant)
    ensures Admits(row, Cancel()) <==> row.state in {PENDING, DISPATCHED, RUNNING}
    ensures Written(row, Cancel(), now) == CancelledRow(row, now)
  {
  }

  /** An acknowledgement moves a job to RUNNING exactly when it quotes an execution pending in the dispatcher,
      of the organization and the agent its row was dispatched to, while the row is DISPATCHED. */
  lemma AcknowledgementStartsTheJob(s: System, ref: D.Reference)
    ensures Run(s, [BeginAcknowledge(ref), Commit(|s.inflight|)]).rows ==
      if D.Matches(s.dispatcher, ref) && ref.job in s.rows && s.rows[ref.job].org == ref.org
         && s.rows[ref.job].state == DISPATCHED && s.rows[ref.job].agent == Some(ref.agent)
      then s.rows[ref.job := RunningRow(s.rows[ref.job], s.now)] else s.rows
  {
    hide Run;
    hide Written;
    hide D.Matches;
    RunOfTwo(s, BeginAcknowledge(ref), Commit(|s.inflight|));
    if ref.job in s.rows && s.rows[ref.job].org == ref.org {
      HalvesInSequence(s, ref.job, ref.org, Acknowledge(ref.agent));
      AcknowledgedByField(s.rows[ref.job], ref.agent, s.now);
    }
    hide Admits;
    hide Acknowledge;
  }

  lemma AcknowledgedByField(row: Row, agent: AgentId, now: Instant)
    ensures Admits(row, Acknowledge(agent)) <==> row.state == DISPATCHED && row.agent == Some(agent)
    ensures Written(row, Acknowledge(agent), now) == RunningRow(row, now)
  {
  }

  /** The three sweeps, run in a row after some time, leave the rows `SweptByField` describes. */
  lemma {:induction false} SweepsRunInSequence(s: System, ms: nat)
    ensures Run(s, [Tick(ms)] + [SweepDispatch, SweepExecution, SweepResults])
         == s.(now := s.now + ms, rows := Swept(s.rows, s.now + ms))
  {
    RunOneMore(s, Tick(ms), [SweepDispatch, SweepExecution, SweepResults]);
    RunOfThree(Step(s, Tick(ms)), SweepDispatch, SweepExecution, SweepResults);
    hide Run;
    hide ExpireDispatch;
    hide ExpireExecution;
    hide ScrubResults;
  }
}
