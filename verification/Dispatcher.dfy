/** The pending executions of `DataJobV2Dispatcher`: one promise and one timer each. */
module Dispatcher {
  import opened Contracts

  /** What a promise is settled with. Rows stand for the agent's reply. */
  datatype Answer = Rows(rows: string) | Failure(code: ErrorCode)

  /** Names one call of `execute`: its promise and the timer armed for it. */
  type Execution = nat

  datatype Entry = Entry(org: Organization, agent: AgentId, queryId: QueryId, sequence: nat, execution: Execution)

  /** What an agent quotes to identify the execution it answers. */
  datatype Reference = Reference(job: JobId, org: Organization, agent: AgentId, queryId: QueryId, sequence: nat)

  datatype Settlement = Settlement(execution: Execution, answer: Answer)

  /** The dispatcher's memory: pending executions by job, armed timers with the job their
      callback captured, and the log of every promise settled so far. */
  datatype State = State(
    pending: map<JobId, Entry>,
    timers: map<Execution, JobId>,
    settled: seq<Settlement>,
    next: Execution)

  const Fresh := State(map[], map[], [], 0)

  predicate Matches(d: State, ref: Reference) {
    && ref.job in d.pending
    && var e := d.pending[ref.job];
       e.org == ref.org && e.agent == ref.agent && e.queryId == ref.queryId && e.sequence == ref.sequence
  }

  ghost predicate Settled(d: State, x: Execution) {
    exists i :: 0 <= i < |d.settled| && d.settled[i].execution == x
  }

  /** Timers and pending entries are in bijection, and every execution so far is either
      waiting with its timer armed or settled, and never settled twice. */
  ghost predicate Consistent(d: State) {
    && (forall j :: j in d.pending ==> d.pending[j].execution in d.timers && d.timers[d.pending[j].execution] == j)
    && (forall x :: x in d.timers ==> d.timers[x] in d.pending && d.pending[d.timers[x]].execution == x)
    && (forall i, j :: 0 <= i < j < |d.settled| ==> d.settled[i].execution != d.settled[j].execution)
    && (forall x: Execution :: x < d.next <==> x in d.timers || Settled(d, x))
    && (forall x :: x in d.timers ==> !Settled(d, x))
  }

  // ---------------------------------------------------------------- events

  datatype Event =
    | Start(ref: Reference)
    | Receive(ref: Reference, rows: string)
    | Fail(ref: Reference, code: ErrorCode)
    | Fire(execution: Execution)

  function Register(d: State, ref: Reference): State {
    State(d.pending[ref.job := Entry(ref.org, ref.agent, ref.queryId, ref.sequence, d.next)],
          d.timers[d.next := ref.job], d.settled, d.next + 1)
  }

  /** `clearTimeout`, removal of the entry, then settlement of its promise. */
  function Settle(d: State, job: JobId, answer: Answer): State
    requires job in d.pending
  {
    var x := d.pending[job].execution;
    State(d.pending - {job}, d.timers - {x}, d.settled + [Settlement(x, answer)], d.next)
  }

  /** The timer callback: it removes whatever entry its job has and rejects its own promise. */
  function Expire(d: State, x: Execution): State
    requires x in d.timers
  {
    State(d.pending - {d.timers[x]}, d.timers - {x}, d.settled + [Settlement(x, Failure(QUERY_TIMEOUT))], d.next)
  }

  function Apply(d: State, e: Event): State {
    match e
    case Start(ref) => if ref.job in d.pending then d else Register(d, ref)
    case Receive(ref, rows) => if Matches(d, ref) then Settle(d, ref.job, Rows(rows)) else d
    case Fail(ref, code) => if Matches(d, ref) then Settle(d, ref.job, Failure(code)) else d
    case Fire(x) => if x in d.timers then Expire(d, x) else d
  }

  function Run(d: State, es: seq<Event>): State {
    if es == [] then d else Apply(Run(d, es[..|es| - 1]), es[|es| - 1])
  }

  // ---------------------------------------------------------------- what every event keeps

  lemma RegisterKeepsConsistent(d: State, ref: Reference)
    requires Consistent(d) && ref.job !in d.pending
    ensures Consistent(Register(d, ref))
  {
    var d' := Register(d, ref);
    assert forall x :: Settled(d', x) <==> Settled(d, x);
    assert d.next !in d.timers && !Settled(d, d.next);
  }

  lemma SettleLogs(d: State, d': State, s: Settlement)
    requires d'.settled == d.settled + [s]
    ensures forall x :: Settled(d', x) <==> Settled(d, x) || x == s.execution
  {
    forall x ensures Settled(d', x) <==> Settled(d, x) || x == s.execution {
      if Settled(d, x) {
        var i :| 0 <= i < |d.settled| && d.settled[i].execution == x;
        assert d'.settled[i].execution == x;
      }
      assert d'.settled[|d.settled|] == s;
    }
  }

  lemma SettleKeepsConsistent(d: State, job: JobId, answer: Answer)
    requires Consistent(d) && job in d.pending
    ensures Consistent(Settle(d, job, answer))
  {
    var x := d.pending[job].execution;
    SettleLogs(d, Settle(d, job, answer), Settlement(x, answer));
    assert !Settled(d, x);
  }

  /** A timer still armed belongs to the entry of its job, so firing it settles that entry. */
  lemma ExpireIsSettle(d: State, x: Execution)
    requires Consistent(d) && x in d.timers
    ensures d.timers[x] in d.pending
    ensures Expire(d, x) == Settle(d, d.timers[x], Failure(QUERY_TIMEOUT))
  {
  }

  lemma ApplyKeepsConsistent(d: State, e: Event)
    requires Consistent(d)
    ensures Consistent(Apply(d, e))
  {
    match e
    case Start(ref) => if ref.job !in d.pending { RegisterKeepsConsistent(d, ref); }
    case Receive(ref, rows) => if Matches(d, ref) { SettleKeepsConsistent(d, ref.job, Rows(rows)); }
    case Fail(ref, code) => if Matches(d, ref) { SettleKeepsConsistent(d, ref.job, Failure(code)); }
    case Fire(x) => if x in d.timers { SettleKeepsConsistent(d, d.timers[x], Failure(QUERY_TIMEOUT)); }
  }

  /** Over every sequence of events: no execution is settled twice, armed timers are in
      bijection with pending entries, and no execution is lost. */
  lemma {:induction false} EveryRunIsConsistent(es: seq<Event>)
    ensures Consistent(Run(Fresh, es))
  {
    assert forall x :: !Settled(Fresh, x);
    RunKeepsConsistent(Fresh, es);
  }

  /** Once settled, an execution keeps the answer it was first given, whatever happens next. */
  lemma {:induction false} AnswersAreFinal(d: State, es: seq<Event>, i: nat)
    requires Consistent(d) && i < |d.settled|
    ensures i < |Run(d, es).settled| && Run(d, es).settled[i] == d.settled[i]
  {
    if es != [] {
      AnswersAreFinal(d, es[..|es| - 1], i);
    }
  }

  lemma {:induction false} RunKeepsConsistent(d: State, es: seq<Event>)
    requires Consistent(d)
    ensures Consistent(Run(d, es)) && Run(d, es).next >= d.next
  {
    if es != [] {
      RunKeepsConsistent(d, es[..|es| - 1]);
      ApplyKeepsConsistent(Run(d, es[..|es| - 1]), es[|es| - 1]);
    }
  }

  lemma SettledStaysSettled(d: State, es: seq<Event>, x: Execution)
    requires Consistent(d) && Settled(d, x)
    ensures Settled(Run(d, es), x)
  {
    var i :| 0 <= i < |d.settled| && d.settled[i].execution == x;
    AnswersAreFinal(d, es, i);
    assert Run(d, es).settled[i].execution == x;
  }

  /** The timer armed by one execution of a job can never settle a later execution of the same
      job, nor change anything else, at any time after that later execution starts. */
  lemma TimersDoNotCross(d: State, ref: Reference, between: seq<Event>, again: Reference, after: seq<Event>)
    requires Consistent(d) && ref.job !in d.pending && again.job == ref.job
    requires ref.job !in Run(Register(d, ref), between).pending
    ensures var d' := Run(Register(Run(Register(d, ref), between), again), after);
      d.next !in d'.timers && Apply(d', Fire(d.next)) == d'
  {
    hide Run;
    hide Consistent;
    var d1 := Register(d, ref);
    RegisterKeepsConsistent(d, ref);
    RunKeepsConsistent(d1, between);
    var d2 := Run(d1, between);
    TimerKeepsItsJob(d1, between, d.next, ref.job);
    SettledWithItsEntry(d2, d.next, ref.job);
    var d3 := Register(d2, again);
    RegisterKeepsConsistent(d2, again);
    var i :| 0 <= i < |d2.settled| && d2.settled[i].execution == d.next;
    assert d3.settled[i].execution == d.next;
    RunKeepsConsistent(d3, after);
    SettledStaysSettled(d3, after, d.next);
    SettledIsDisarmed(Run(d3, after), d.next);
  }

  lemma SettledWithItsEntry(d: State, x: Execution, job: JobId)
    requires Consistent(d) && x < d.next && job !in d.pending && (x in d.timers ==> d.timers[x] == job)
    ensures Settled(d, x)
  {
  }

  lemma SettledIsDisarmed(d: State, x: Execution)
    requires Consistent(d) && Settled(d, x)
    ensures x !in d.timers
  {
  }

  /** While a timer stays armed, the job its callback captured is the one it was armed for. */
  lemma {:induction false} TimerKeepsItsJob(d: State, es: seq<Event>, x: Execution, job: JobId)
    requires Consistent(d) && x in d.timers && d.timers[x] == job
    ensures x in Run(d, es).timers ==> Run(d, es).timers[x] == job
  {
    hide Consistent;
    if es != [] {
      TimerKeepsItsJob(d, es[..|es| - 1], x, job);
      RunKeepsConsistent(d, es[..|es| - 1]);
      AllArmedAreOld(d, x);
      NoTimerIsRearmed(Run(d, es[..|es| - 1]), es[|es| - 1], x, job);
    }
  }

  lemma AllArmedAreOld(d: State, x: Execution)
    requires Consistent(d) && x in d.timers
    ensures x < d.next
  {
  }

  lemma NoTimerIsRearmed(d: State, e: Event, x: Execution, job: JobId)
    requires x < d.next && (x in d.timers ==> d.timers[x] == job)
    ensures x in Apply(d, e).timers ==> Apply(d, e).timers[x] == job
  {
  }

  /** A reply that differs from the pending entry in any of the five fields changes nothing;
      a matching one settles that entry's promise and no other. */
  lemma ReplySettlesItsEntryOnly(d: State, ref: Reference, answer: Answer)
    requires Consistent(d)
    ensures var e := if answer.Rows? then Receive(ref, answer.rows) else Fail(ref, answer.code);
      var d' := Apply(d, e);
      if Matches(d, ref) then
        && d'.settled == d.settled + [Settlement(d.pending[ref.job].execution, answer)]
        && d'.pending.Keys == d.pending.Keys - {ref.job}
        && (forall j :: j in d'.pending ==> d'.pending[j] == d.pending[j])
        && (forall x :: x in d.timers && d.timers[x] != ref.job ==> x in d'.timers)
      else d' == d
  {
  }

  // ---------------------------------------------------------------- disconnection

  predicate BelongsTo(e: Entry, org: Organization, agent: AgentId) {
    e.org == org && e.agent == agent
  }

  /** `x` is a pending execution of that agent. */
  ghost predicate OwnExecution(d: State, org: Organization, agent: AgentId, x: Execution) {
    exists j :: j in d.pending && BelongsTo(d.pending[j], org, agent) && d.pending[j].execution == x
  }

  /** Part way through `disconnected`: the jobs of `todo` are still to be looked at. */
  ghost predicate Disconnecting(d: State, org: Organization, agent: AgentId, todo: set<JobId>, d': State) {
    && d'.pending == (map j | j in d.pending && (j in todo || !BelongsTo(d.pending[j], org, agent)) :: d.pending[j])
    && |d.settled| <= |d'.settled| && d'.settled[..|d.settled|] == d.settled
    && (forall i :: |d.settled| <= i < |d'.settled| ==> d'.settled[i].answer == Failure(AGENT_OFFLINE))
    && (forall i :: |d.settled| <= i < |d'.settled| ==> OwnExecution(d, org, agent, d'.settled[i].execution))
    && (forall j :: j in d.pending && j !in todo && BelongsTo(d.pending[j], org, agent) ==>
          Settled(d', d.pending[j].execution))
    && d'.next == d.next
  }

  /** What `disconnected` leaves behind: exactly the other agents' entries; the agent's own
      executions, and no others, have been rejected with AGENT_OFFLINE. */
  ghost predicate Disconnects(d: State, org: Organization, agent: AgentId, d': State) {
    Disconnecting(d, org, agent, {}, d')
  }

  /** Entry by entry: those of the agent in its organization are gone, all others as they were. */
  lemma DisconnectsOneAgent(d: State, org: Organization, agent: AgentId, d': State, job: JobId)
    requires Consistent(d) && Disconnects(d, org, agent, d')
    ensures job in d'.pending <==> job in d.pending && !(d.pending[job].org == org && d.pending[job].agent == agent)
    ensures job in d'.pending ==> d'.pending[job] == d.pending[job]
    ensures job in d.pending && job !in d'.pending ==>
      exists i :: |d.settled| <= i < |d'.settled|
                  && d'.settled[i] == Settlement(d.pending[job].execution, Failure(AGENT_OFFLINE))
  {
    if job in d.pending && job !in d'.pending {
      var x := d.pending[job].execution;
      assert x in d.timers && Settled(d', x);
      var i :| 0 <= i < |d'.settled| && d'.settled[i].execution == x;
      if i < |d.settled| {
        assert d'.settled[..|d.settled|][i] == d.settled[i];
        assert Settled(d, x);
      }
    }
  }

  lemma NothingDisconnected(d: State, org: Organization, agent: AgentId)
    ensures Disconnecting(d, org, agent, d.pending.Keys, d)
  {
  }

  lemma DisconnectOne(d: State, org: Organization, agent: AgentId, todo: set<JobId>, job: JobId, d': State)
    requires Disconnecting(d, org, agent, todo, d')
    requires todo <= d.pending.Keys && job in todo
    ensures job in d'.pending && d'.pending[job] == d.pending[job]
    ensures var own := BelongsTo(d.pending[job], org, agent);
      Disconnecting(d, org, agent, todo - {job}, if own then Settle(d', job, Failure(AGENT_OFFLINE)) else d')
  {
    if BelongsTo(d.pending[job], org, agent) {
      var d'' := Settle(d', job, Failure(AGENT_OFFLINE));
      SettleLogs(d', d'', Settlement(d.pending[job].execution, Failure(AGENT_OFFLINE)));
      assert d''.settled[..|d.settled|] == d.settled;
    }
  }

  /** Outcome of handing the payload to the transport. */
  datatype Sending = Sent | NotSent | Thrown

  /** What `execute` answers with: the simulator's own promise, or one kept here. */
  datatype Started = Simulated | Promised(execution: Execution)

  /** Registration, undone at once when the payload cannot be handed to the transport. */
  function Handed(d: State, ref: Reference, sent: bool): State {
    var registered := Apply(d, Start(ref));
    if sent then registered else Apply(registered, Fail(ref, AGENT_OFFLINE))
  }

  /** A payload that is handed over leaves one more entry with its timer; one that is not leaves neither, and
      its promise is rejected with AGENT_OFFLINE. */
  lemma HandedByField(d: State, ref: Reference, sent: bool)
    requires Consistent(d) && ref.job !in d.pending
    ensures var t, entry := Handed(d, ref, sent), Entry(ref.org, ref.agent, ref.queryId, ref.sequence, d.next);
      && t.next == d.next + 1
      && (sent ==> t.pending == d.pending[ref.job := entry] && t.timers == d.timers[d.next := ref.job]
                   && t.settled == d.settled)
      && (!sent ==> t.pending == d.pending && t.timers == d.timers
                    && t.settled == d.settled + [Settlement(d.next, Failure(AGENT_OFFLINE))])
  {
    assert d.next !in d.timers;
  }

  class DataJobV2Dispatcher {
    var simulator: bool
    var pending: map<JobId, Entry>
    var timers: map<Execution, JobId>
    ghost var settled: seq<Settlement>
    var next: Execution

    constructor ()
      ensures View() == Fresh && Valid() && !simulator
    {
      simulator := false;
      pending := map[];
      timers := map[];
      settled := [];
      next := 0;
      new;
      assert forall x :: !Settled(Fresh, x);
    }

    ghost function View(): State
      reads this
    {
      State(pending, timers, settled, next)
    }

    ghost predicate Valid()
      reads this
    {
      Consistent(View())
    }

    method SetSimulatorForTest(testing: bool) returns (r: Outcome<()>)
      modifies this`simulator
      ensures View() == old(View())
      ensures if testing then r.Ok? && simulator else r == Failed(PERMISSION_DENIED) && simulator == old(simulator)
    {
      if !testing { return Failed(PERMISSION_DENIED); }
      simulator := true;
      r := Ok(());
    }

    /** `execute`, up to the promise it returns. `agent` is the transport's answer to
        `agentFor`; `sending` is what became of the payload. */
    method Execute(org: Organization, agent: Option<AgentId>, queryId: QueryId, job: Option<JobId>, sequence: nat,
                   sending: Sending)
      returns (r: Outcome<Started>)
      requires Valid()
      modifies this
      ensures Valid() && simulator == old(simulator)
      ensures simulator ==> r == Ok(Simulated) && View() == old(View())
      ensures !simulator && (agent.None? || job.None?) ==> r == Failed(AGENT_OFFLINE) && View() == old(View())
      ensures !simulator && agent.Some? && job.Some? && job.value in old(pending) ==>
        r == Failed(INTERNAL_ERROR) && View() == old(View())
      ensures !simulator && agent.Some? && job.Some? && job.value !in old(pending) ==>
        r == Ok(Promised(old(next))) &&
        View() == Handed(old(View()), Reference(job.value, org, agent.value, queryId, sequence), sending.Sent?)
    {
      hide Consistent;
      if simulator { return Ok(Simulated); }
      if agent.None? || job.None? { return Failed(AGENT_OFFLINE); }
      if job.value in pending { return Failed(INTERNAL_ERROR); }
      ghost var ref := Reference(job.value, org, agent.value, queryId, sequence);
      ghost var before := View();
      ApplyKeepsConsistent(before, Start(ref));
      var execution := next;
      timers := timers[execution := job.value];
      next := next + 1;
      pending := pending[job.value := Entry(org, agent.value, queryId, sequence, execution)];
      assert View() == Apply(before, Start(ref));
      if !sending.Sent? {
        var _ := FailEntry(Reference(job.value, org, agent.value, queryId, sequence), AGENT_OFFLINE);
      }
      r := Ok(Promised(execution));
    }

    method IsPending(ref: Reference) returns (yes: bool)
      ensures yes == Matches(View(), ref)
    {
      if ref.job !in pending { return false; }
      var entry := pending[ref.job];
      yes := entry.org == ref.org && entry.agent == ref.agent &&
             entry.queryId == ref.queryId && entry.sequence == ref.sequence;
    }

    method ReceiveRows(ref: Reference, rows: string) returns (accepted: bool)
      requires Valid()
      modifies this
      ensures Valid() && simulator == old(simulator)
      ensures accepted == Matches(old(View()), ref)
      ensures View() == Apply(old(View()), Receive(ref, rows))
    {
      ApplyKeepsConsistent(View(), Receive(ref, rows));
      var matching := IsPending(ref);
      if !matching { return false; }
      var entry := pending[ref.job];
      timers := timers - {entry.execution};
      pending := pending - {ref.job};
      settled := settled + [Settlement(entry.execution, Rows(rows))];
      accepted := true;
    }

    method FailEntry(ref: Reference, code: ErrorCode) returns (accepted: bool)
      requires Valid()
      modifies this
      ensures Valid() && simulator == old(simulator)
      ensures accepted == Matches(old(View()), ref)
      ensures View() == Apply(old(View()), Fail(ref, code))
    {
      ApplyKeepsConsistent(View(), Fail(ref, code));
      var matching := IsPending(ref);
      if !matching { return false; }
      var entry := pending[ref.job];
      timers := timers - {entry.execution};
      pending := pending - {ref.job};
      settled := settled + [Settlement(entry.execution, Failure(code))];
      accepted := true;
    }

    /** The callback of an armed timer. */
    method TimerFires(execution: Execution)
      requires Valid() && execution in timers
      modifies this
      ensures Valid() && simulator == old(simulator)
      ensures View() == Apply(old(View()), Fire(execution))
    {
      ApplyKeepsConsistent(View(), Fire(execution));
      pending := pending - {timers[execution]};
      timers := timers - {execution};
      settled := settled + [Settlement(execution, Failure(QUERY_TIMEOUT))];
    }

    method Disconnected(org: Organization, agent: AgentId)
      requires Valid()
      modifies this
      ensures Valid() && simulator == old(simulator)
      ensures Disconnects(old(View()), org, agent, View())
    {
      hide Consistent;
      ghost var d := View();
      var todo := pending.Keys;
      NothingDisconnected(d, org, agent);
      while todo != {}
        invariant Valid() && simulator == old(simulator)
        invariant todo <= d.pending.Keys
        invariant Disconnecting(d, org, agent, todo, View())
        decreases todo
      {
        var job :| job in todo;
        DisconnectOne(d, org, agent, todo, job, View());
        hide Disconnecting;
        todo := todo - {job};
        var entry := pending[job];
        if BelongsTo(entry, org, agent) {
          var _ := FailEntry(Reference(job, org, agent, entry.queryId, entry.sequence), AGENT_OFFLINE);
        }
      }
    }
  }
}
