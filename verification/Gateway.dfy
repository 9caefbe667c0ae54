/** `AgentsGateway` and the presence set of `AgentsService`: which socket speaks for an organization. */
module Gateway {
  import opened Contracts
  import D = Dispatcher

  type SocketId = string

  /** A connected socket: still validating its token, or the agent the token named. */
  datatype Session = Validating | Authenticated(org: Organization, agent: AgentId, capable: bool)

  /** The gateway's map, the sockets connected, the service's presence set, and every socket ever opened. */
  datatype View = View(
    active: map<Organization, SocketId>,
    live: map<SocketId, Session>,
    presence: set<Organization>,
    born: set<SocketId>)

  const Nobody := View(map[], map[], {}, {})

  function Opened(v: View, id: SocketId): View {
    v.(live := v.live[id := Validating], born := v.born + {id})
  }

  /** The token named an agent. The entry and the presence are set whether or not the socket is still there. */
  function Admitted(v: View, id: SocketId, org: Organization, agent: AgentId): View {
    var live := if id in v.live then v.live[id := Authenticated(org, agent, false)] else v.live;
    v.(active := v.active[org := id], live := live, presence := v.presence + {org})
  }

  /** No token, or an unknown one: the socket is closed. */
  function Refused(v: View, id: SocketId): View {
    v.(live := v.live - {id})
  }

  function Gone(v: View, id: SocketId): View
    requires id in v.live
  {
    match v.live[id]
    case Validating => Refused(v, id)
    case Authenticated(org, _, _) =>
      v.(active := if org in v.active && v.active[org] == id then v.active - {org} else v.active,
         live := v.live - {id}, presence := v.presence - {org})
  }

  /** What an agent announces; None where the message holds no array. */
  datatype Hello = Hello(protocols: Option<seq<int>>, capabilities: Option<seq<string>>)

  predicate Speaks(h: Hello) {
    && h.protocols.Some? && 2 in h.protocols.value
    && h.capabilities.Some? && "query_parameters" in h.capabilities.value && "typed_schema" in h.capabilities.value
  }

  predicate Accepts(v: View, id: SocketId, h: Hello) {
    id in v.live && v.live[id].Authenticated? && Speaks(h)
  }

  function Greeted(v: View, id: SocketId, h: Hello): View {
    if Accepts(v, id, h) then v.(live := v.live[id := v.live[id].(capable := true)]) else v
  }

  // ---------------------------------------------------------------- the transport

  predicate Capable(v: View, id: SocketId, org: Organization, agent: AgentId) {
    id in v.live && v.live[id] == Authenticated(org, agent, true)
  }

  predicate Ready(s: Session) { s.Authenticated? && s.capable }

  /** The active socket of an organization, when it is connected and capable. */
  function CapableSocket(v: View, org: Organization): Option<SocketId> {
    if org in v.active && v.active[org] in v.live && Ready(v.live[v.active[org]]) then Some(v.active[org]) else None
  }

  function AgentFor(v: View, org: Organization): Option<AgentId> {
    var id := CapableSocket(v, org);
    if id.None? then None else Some(v.live[id.value].agent)
  }

  /** The socket a query for `agent` is emitted to; None when it is not sent. */
  function Recipient(v: View, org: Organization, agent: AgentId): Option<SocketId> {
    var id := CapableSocket(v, org);
    if id.Some? && v.live[id.value].agent == agent then id else None
  }

  /** An admission makes its socket the active one of its organization and marks it present, and the socket
      is not capable until it has greeted; nothing else changes. */
  lemma AdmissionByField(v: View, id: SocketId, org: Organization, agent: AgentId, other: Organization, x: SocketId)
    ensures var w := Admitted(v, id, org, agent);
      && (other in w.active <==> other == org || other in v.active)
      && (other in w.active ==> w.active[other] == if other == org then id else v.active[other])
      && (other in w.presence <==> other == org || other in v.presence)
      && w.live.Keys == v.live.Keys
      && (x in v.live ==> w.live[x] == if x == id then Authenticated(org, agent, false) else v.live[x])
  {
  }

  /** A greeting makes a socket capable exactly when it is admitted and announces protocol 2 with both
      capabilities; every other socket stays as it is. */
  lemma GreetingMakesCapable(v: View, id: SocketId, h: Hello, x: SocketId, org: Organization, agent: AgentId)
    ensures Capable(Greeted(v, id, h), x, org, agent) <==>
      || Capable(v, x, org, agent)
      || (x == id && id in v.live && v.live[id] == Authenticated(org, agent, false)
          && h.protocols.Some? && 2 in h.protocols.value && h.capabilities.Some?
          && "query_parameters" in h.capabilities.value && "typed_schema" in h.capabilities.value)
    ensures Greeted(v, id, h).active == v.active && Greeted(v, id, h).presence == v.presence
    ensures Greeted(v, id, h).live.Keys == v.live.Keys
  {
  }

  // ---------------------------------------------------------------- invariants

  /** What holds even of late admissions: an active entry whose socket is connected is of that socket's
      organization, and only organizations with an active entry are present. */
  ghost predicate Consistent(v: View) {
    && (forall org :: org in v.active && v.active[org] in v.live ==>
          v.live[v.active[org]].Authenticated? && v.live[v.active[org]].org == org)
    && (forall org :: org in v.active ==> v.active[org] in v.born)
    && v.live.Keys <= v.born
    && v.presence <= v.active.Keys
  }

  /** Every active entry names a connected socket, which is of that organization. */
  ghost predicate Sound(v: View) {
    Consistent(v) && forall org :: org in v.active ==> v.active[org] in v.live
  }

  /** The answer of a token lookup can only be about a socket that was opened and not yet admitted. */
  predicate Awaits(v: View, id: SocketId) {
    id in v.born && (id in v.live ==> v.live[id].Validating?)
  }

  /** An admission keeps every active entry on a connected socket if and only if its own socket is still
      connected: what the handler could ask before it sets the entry. */
  lemma AdmissionIsSoundExactlyWhenConnected(v: View, id: SocketId, org: Organization, agent: AgentId)
    requires Sound(v) && Awaits(v, id)
    ensures Sound(Admitted(v, id, org, agent)) <==> id in v.live
  {
    assert Admitted(v, id, org, agent).active[org] == id;
  }

  /** A query is emitted only to a connected, capable socket of the intended agent of the
      organization; and it is emitted whenever `AgentFor` named the agent. */
  lemma QueriesReachTheirAgent(v: View, org: Organization, agent: AgentId)
    requires Consistent(v)
    ensures Recipient(v, org, agent).Some? ==> Capable(v, Recipient(v, org, agent).value, org, agent)
    ensures AgentFor(v, org) == Some(agent) <==> Recipient(v, org, agent).Some?
  {
  }

  /** Presence is exact after a disconnection exactly when the socket that went was not a stale one. */
  lemma PresenceIsExactUnlessStale(v: View, id: SocketId)
    requires Consistent(v) && v.presence == v.active.Keys && id in v.live
    ensures var stale := v.live[id].Authenticated? && v.live[id].org in v.active && v.active[v.live[id].org] != id;
      Gone(v, id).presence == Gone(v, id).active.Keys <==> !stale
  {
    var w := Gone(v, id);
    if v.live[id].Authenticated? {
      var org := v.live[id].org;
      if org in v.active && v.active[org] != id { assert org in w.active && org !in w.presence; }
    }
  }

  // ---------------------------------------------------------------- the gateway with its dispatcher

  datatype State = State(view: View, dispatch: D.State)

  /** What an agent answers a query with. */
  datatype Reply = ErrorReply(code: Option<ErrorCode>) | RowsReply(rows: string, fits: bool)

  function ErrorOf(code: Option<ErrorCode>): ErrorCode {
    if code.Some? && code.value in {QUERY_TIMEOUT, RESULT_TOO_LARGE, SOURCE_SCHEMA_MISMATCH} then code.value
    else SOURCE_UNAVAILABLE
  }

  /** The dispatcher event a reply stands for. */
  function Told(ref: D.Reference, reply: Reply): D.Event {
    match reply
    case ErrorReply(code) => D.Fail(ref, ErrorOf(code))
    case RowsReply(rows, fits) => if fits then D.Receive(ref, rows) else D.Fail(ref, RESULT_TOO_LARGE)
  }

  datatype Event =
    | Open(id: SocketId)
    | Admit(id: SocketId, org: Organization, agent: AgentId)
    | Refuse(id: SocketId)
    | Leave(id: SocketId)
    | Greet(id: SocketId, hello: Hello)
    | Dispatch(org: Organization, queryId: QueryId, job: JobId, sequence: nat)
    | Answer(id: SocketId, job: JobId, queryId: QueryId, sequence: nat, reply: Reply)
    | Timer(execution: D.Execution)

  /** The reference a socket's message makes. */
  function Quoted(s: Session, job: JobId, queryId: QueryId, sequence: nat): D.Reference
    requires s.Authenticated?
  {
    D.Reference(job, s.org, s.agent, queryId, sequence)
  }

  /** A message of protocol version 2 from a capable socket about an execution pending on its agent. */
  predicate Heeded(s: State, id: SocketId, job: JobId, queryId: QueryId, sequence: nat) {
    && id in s.view.live && s.view.live[id].Authenticated? && s.view.live[id].capable
    && D.Matches(s.dispatch, Quoted(s.view.live[id], job, queryId, sequence))
  }

  /** One event. A socket may leave while its token is being looked up, and be admitted all the same. */
  ghost predicate Next(s: State, e: Event, t: State) {
    match e
    case Open(id) => id !in s.view.born && t == s.(view := Opened(s.view, id))
    case Admit(id, org, agent) => Awaits(s.view, id) && t == s.(view := Admitted(s.view, id, org, agent))
    case Refuse(id) => Awaits(s.view, id) && t == s.(view := Refused(s.view, id))
    case Leave(id) =>
      && id in s.view.live && t.view == Gone(s.view, id)
      && (match s.view.live[id]
          case Validating => t.dispatch == s.dispatch
          case Authenticated(org, agent, _) => D.Disconnects(s.dispatch, org, agent, t.dispatch))
    case Greet(id, hello) => t == s.(view := Greeted(s.view, id, hello))
    case Dispatch(org, queryId, job, sequence) =>
      var agent := AgentFor(s.view, org);
      t == if agent.None? then s
           else s.(dispatch := D.Apply(s.dispatch, D.Start(D.Reference(job, org, agent.value, queryId, sequence))))
    case Answer(id, job, queryId, sequence, reply) =>
      t == if Heeded(s, id, job, queryId, sequence)
           then s.(dispatch := D.Apply(s.dispatch, Told(Quoted(s.view.live[id], job, queryId, sequence), reply)))
           else s
    case Timer(x) => t == s.(dispatch := D.Apply(s.dispatch, D.Fire(x)))
  }

  /** Some connected, capable socket speaks for the agent. */
  ghost predicate Served(v: View, org: Organization, agent: AgentId) {
    exists id :: Capable(v, id, org, agent)
  }

  /** No execution waits for an agent that has no socket. */
  ghost predicate NobodyWaitsInVain(s: State) {
    forall j :: j in s.dispatch.pending ==> Served(s.view, s.dispatch.pending[j].org, s.dispatch.pending[j].agent)
  }

  ghost predicate Inv(s: State) { Consistent(s.view) && NobodyWaitsInVain(s) }

  lemma ServedStays(v: View, w: View, org: Organization, agent: AgentId)
    requires forall id :: Capable(v, id, org, agent) ==> Capable(w, id, org, agent)
    requires Served(v, org, agent)
    ensures Served(w, org, agent)
  {
    var id :| Capable(v, id, org, agent);
    assert Capable(w, id, org, agent);
  }

  lemma ViewEventKeepsWaiters(s: State, w: View)
    requires NobodyWaitsInVain(s)
    requires forall id, org, agent :: Capable(s.view, id, org, agent) ==> Capable(w, id, org, agent)
    ensures NobodyWaitsInVain(s.(view := w))
  {
    forall j | j in s.dispatch.pending ensures Served(w, s.dispatch.pending[j].org, s.dispatch.pending[j].agent) {
      ServedStays(s.view, w, s.dispatch.pending[j].org, s.dispatch.pending[j].agent);
    }
  }

  lemma LeavingKeepsWaiters(s: State, id: SocketId, t: State)
    requires NobodyWaitsInVain(s) && Next(s, Leave(id), t)
    ensures NobodyWaitsInVain(t)
  {
    var gone := s.view.live[id];
    forall j | j in t.dispatch.pending ensures Served(t.view, t.dispatch.pending[j].org, t.dispatch.pending[j].agent) {
      var e := s.dispatch.pending[j];
      assert j in s.dispatch.pending && t.dispatch.pending[j] == e;
      assert gone.Authenticated? ==> !D.BelongsTo(e, gone.org, gone.agent);
      var other :| Capable(s.view, other, e.org, e.agent);
      assert Capable(t.view, other, e.org, e.agent);
    }
  }

  lemma DispatchKeepsWaiters(s: State, e: Event, t: State)
    requires Inv(s) && e.Dispatch? && Next(s, e, t)
    ensures NobodyWaitsInVain(t)
  {
    if AgentFor(s.view, e.org).Some? {
      var agent := AgentFor(s.view, e.org).value;
      QueriesReachTheirAgent(s.view, e.org, agent);
      assert Capable(s.view, Recipient(s.view, e.org, agent).value, e.org, agent);
      assert Served(s.view, e.org, agent);
    }
  }

  lemma NextKeepsInv(s: State, e: Event, t: State)
    requires Inv(s) && Next(s, e, t)
    ensures Inv(t)
  {
    match e {
      case Open(id) => ViewEventKeepsWaiters(s, t.view);
      case Admit(id, org, agent) => ViewEventKeepsWaiters(s, t.view);
      case Refuse(id) => ViewEventKeepsWaiters(s, t.view);
      case Leave(id) => LeavingKeepsWaiters(s, id, t);
      case Greet(id, hello) => ViewEventKeepsWaiters(s, t.view);
      case Dispatch(_, _, _, _) => DispatchKeepsWaiters(s, e, t);
      case Answer(_, _, _, _, _) =>
      case Timer(_) =>
    }
  }

  /** A run from the moment the server starts. */
  ghost predicate Run(trace: seq<State>, events: seq<Event>) {
    && |trace| == |events| + 1 && trace[0] == State(Nobody, D.Fresh)
    && forall i :: 0 <= i < |events| ==> Next(trace[i], events[i], trace[i + 1])
  }

  /** Over every sequence of connections, departures, late admissions, greetings, queries and replies:
      a connected socket with an active entry is of its organization, presence never goes beyond the
      active organizations, and no execution is left waiting for an agent without a capable socket. */
  lemma {:induction false} EveryRunKeepsInv(trace: seq<State>, events: seq<Event>, i: nat)
    requires Run(trace, events) && i < |trace|
    ensures Inv(trace[i])
  {
    hide Next;
    hide Inv;
    if i == 0 {
      StartsSound();
    } else {
      EveryRunKeepsInv(trace, events, i - 1);
      NextKeepsInv(trace[i - 1], events[i - 1], trace[i]);
    }
  }

  /** The event admits no socket that has left. */
  predicate FindsItsSocket(s: State, e: Event) { e.Admit? ==> e.id in s.view.live }

  lemma NextKeepsSound(s: State, e: Event, t: State)
    requires Sound(s.view) && Next(s, e, t) && FindsItsSocket(s, e)
    ensures Sound(t.view)
  {
    if e.Admit? { AdmissionIsSoundExactlyWhenConnected(s.view, e.id, e.org, e.agent); }
  }

  /** Over every run whose admissions find their socket connected, each active entry names a connected
      socket of its organization. */
  lemma {:induction false} EntriesNameConnectedSockets(trace: seq<State>, events: seq<Event>, i: nat)
    requires Run(trace, events) && i < |trace|
    requires forall k :: 0 <= k < |events| ==> FindsItsSocket(trace[k], events[k])
    ensures Sound(trace[i].view)
  {
    hide Next;
    hide FindsItsSocket;
    hide Sound;
    if i == 0 {
      StartsSound();
    } else {
      EntriesNameConnectedSockets(trace, events, i - 1);
      NextKeepsSound(trace[i - 1], events[i - 1], trace[i]);
    }
  }

  /** The first admission that misses its socket leaves an active entry naming none. */
  lemma LateAdmissionNamesNobody(trace: seq<State>, events: seq<Event>, i: nat)
    requires Run(trace, events) && i < |events| && !FindsItsSocket(trace[i], events[i])
    requires forall k :: 0 <= k < i ==> FindsItsSocket(trace[k], events[k])
    ensures Sound(trace[i].view) && !Sound(trace[i + 1].view)
    ensures var e := events[i];
      e.org in trace[i + 1].view.active && trace[i + 1].view.active[e.org] !in trace[i + 1].view.live
  {
    assert Run(trace[..i + 1], events[..i]);
    EntriesNameConnectedSockets(trace[..i + 1], events[..i], i);
    assert Next(trace[i], events[i], trace[i + 1]);
    AdmissionIsSoundExactlyWhenConnected(trace[i].view, events[i].id, events[i].org, events[i].agent);
  }

  /** Such a run: a socket opens, leaves while its token is looked up, and is admitted. */
  lemma LateAdmissionHappens(id: SocketId, org: Organization, agent: AgentId)
    returns (trace: seq<State>, events: seq<Event>)
    ensures Run(trace, events) && |events| == 3
    ensures !FindsItsSocket(trace[2], events[2]) && events[2] == Admit(id, org, agent)
    ensures forall k :: 0 <= k < 2 ==> FindsItsSocket(trace[k], events[k])
  {
    var entered := Opened(Nobody, id);
    var left := Gone(entered, id);
    var admitted := Admitted(left, id, org, agent);
    trace := [State(Nobody, D.Fresh), State(entered, D.Fresh), State(left, D.Fresh), State(admitted, D.Fresh)];
    events := [Open(id), Leave(id), Admit(id, org, agent)];
    assert Next(trace[0], events[0], trace[1]) && Next(trace[1], events[1], trace[2]);
    assert Next(trace[2], events[2], trace[3]);
  }

  lemma StartsSound()
    ensures Inv(State(Nobody, D.Fresh)) && Sound(Nobody)
  {
  }

  /** Replies settle only executions of the agent whose capable socket sent them. */
  lemma OnlyTheAgentAnswers(s: State, id: SocketId, job: JobId, queryId: QueryId, sequence: nat, reply: Reply, t: State)
    requires Next(s, Answer(id, job, queryId, sequence, reply), t) && t != s
    ensures t.view == s.view && job in s.dispatch.pending
    ensures var e := s.dispatch.pending[job];
      Capable(s.view, id, e.org, e.agent) && t.dispatch.pending == s.dispatch.pending - {job}
  {
  }

  /** What an agent's reply means to the caller that waits for it: its rows when they fit, the three errors
      an agent may report, and an unavailable source for every other one. */
  predicate Means(reply: Reply, answer: D.Answer) {
    match answer
    case Rows(rows) => reply == RowsReply(rows, true)
    case Failure(RESULT_TOO_LARGE) => reply == ErrorReply(Some(RESULT_TOO_LARGE)) || (reply.RowsReply? && !reply.fits)
    case Failure(QUERY_TIMEOUT) => reply == ErrorReply(Some(QUERY_TIMEOUT))
    case Failure(SOURCE_SCHEMA_MISMATCH) => reply == ErrorReply(Some(SOURCE_SCHEMA_MISMATCH))
    case Failure(SOURCE_UNAVAILABLE) =>
      reply.ErrorReply? &&
      reply.code !in {Some(RESULT_TOO_LARGE), Some(QUERY_TIMEOUT), Some(SOURCE_SCHEMA_MISMATCH)}
    case _ => false
  }

  /** A reply is heeded exactly when it quotes the query and the sequence of an execution pending on the
      agent whose capable socket sends it; it then settles that execution, once, with what it means, and
      is otherwise without effect. */
  lemma RepliesSettleWithWhatTheyMean(s: State, id: SocketId, job: JobId, queryId: QueryId, sequence: nat,
                                      reply: Reply, t: State)
    requires Next(s, Answer(id, job, queryId, sequence, reply), t)
    ensures t.view == s.view
    ensures if job in s.dispatch.pending && s.dispatch.pending[job].queryId == queryId
               && s.dispatch.pending[job].sequence == sequence
               && Capable(s.view, id, s.dispatch.pending[job].org, s.dispatch.pending[job].agent)
            then
              && |t.dispatch.settled| == |s.dispatch.settled| + 1 && s.dispatch.settled <= t.dispatch.settled
              && var last := t.dispatch.settled[|s.dispatch.settled|];
                 last.execution == s.dispatch.pending[job].execution && Means(reply, last.answer)
            else t == s
  {
  }

  /** A stale socket's departure takes its organization off the presence set although a newer socket
      is connected and active. */
  lemma StaleSocketHidesItsOrganization(org: Organization, agent: AgentId, old_: SocketId, newer: SocketId)
    requires old_ != newer
    ensures var v := Admitted(Opened(Admitted(Opened(Nobody, old_), old_, org, agent), newer), newer, org, agent);
      var w := Gone(v, old_);
      Sound(v) && v.presence == {org} && w.active == map[org := newer] && newer in w.live && w.presence == {}
  {
  }

  /** A departure ends an execution although a capable socket of its agent stays connected exactly when
      the execution is of the agent that left and another capable socket speaks for that agent too. */
  lemma DepartureEndsServedExecutions(s: State, id: SocketId, t: State, job: JobId)
    requires Next(s, Leave(id), t) && s.view.live[id].Authenticated? && job in s.dispatch.pending
    ensures var e, gone := s.dispatch.pending[job], s.view.live[id];
      job !in t.dispatch.pending && Served(t.view, e.org, e.agent)
      <==> D.BelongsTo(e, gone.org, gone.agent) && exists other :: other != id && Capable(s.view, other, e.org, e.agent)
  {
    var e := s.dispatch.pending[job];
    forall other
      ensures Capable(t.view, other, e.org, e.agent) <==> other != id && Capable(s.view, other, e.org, e.agent)
    {
    }
  }

  // ---------------------------------------------------------------- the classes

  /** The presence set of the agents service. */
  class AgentsService {
    var connectedAgents: set<Organization>

    constructor ()
      ensures connectedAgents == {}
    {
      connectedAgents := {};
    }

    method SetAgentConnected(org: Organization)
      modifies this
      ensures connectedAgents == old(connectedAgents) + {org}
    {
      connectedAgents := connectedAgents + {org};
    }

    method SetAgentDisconnected(org: Organization)
      modifies this
      ensures connectedAgents == old(connectedAgents) - {org}
    {
      connectedAgents := connectedAgents - {org};
    }

    method IsAgentConnected(org: Organization) returns (yes: bool)
      ensures yes <==> org in connectedAgents
    {
      yes := org in connectedAgents;
    }
  }

  class AgentsGateway {
    const service: AgentsService
    const dispatcher: D.DataJobV2Dispatcher
    var activeAgents: map<Organization, SocketId>
    var sockets: map<SocketId, Session>
    ghost var born: set<SocketId>

    constructor (service: AgentsService, dispatcher: D.DataJobV2Dispatcher)
      requires dispatcher.Valid() && dispatcher.View() == D.Fresh && service.connectedAgents == {}
      ensures this.service == service && this.dispatcher == dispatcher
      ensures Valid() && Snapshot() == State(Nobody, D.Fresh)
    {
      this.service := service;
      this.dispatcher := dispatcher;
      activeAgents := map[];
      sockets := map[];
      born := {};
    }

    ghost function Snapshot(): State
      reads this, service, dispatcher
    {
      State(View(activeAgents, sockets, service.connectedAgents, born), dispatcher.View())
    }

    ghost predicate Valid()
      reads this, service, dispatcher
    {
      dispatcher.Valid()
    }

    method OpenSocket(id: SocketId)
      requires Valid() && id !in born
      modifies this
      ensures Valid() && Next(old(Snapshot()), Open(id), Snapshot())
    {
      sockets := sockets[id := Validating];
      born := born + {id};
    }

    /** `handleConnection`, once the token has been looked up; the socket may have left since. */
    method HandleConnection(id: SocketId, named: Option<(Organization, AgentId)>)
      requires Valid() && Awaits(Snapshot().view, id)
      modifies this, service
      ensures Valid()
      ensures var e := if named.Some? then Admit(id, named.value.0, named.value.1) else Refuse(id);
        Next(old(Snapshot()), e, Snapshot())
    {
      if named.None? {
        sockets := sockets - {id};
        return;
      }
      var (org, agent) := named.value;
      activeAgents := activeAgents[org := id];
      service.SetAgentConnected(org);
      if id in sockets { sockets := sockets[id := Authenticated(org, agent, false)]; }
    }

    method HandleDisconnect(id: SocketId)
      requires Valid() && id in sockets
      modifies this, service, dispatcher
      ensures Valid() && Next(old(Snapshot()), Leave(id), Snapshot())
    {
      var client := sockets[id];
      sockets := sockets - {id};
      if client.Validating? { return; }
      if client.org in activeAgents && activeAgents[client.org] == id {
        activeAgents := activeAgents - {client.org};
      }
      dispatcher.Disconnected(client.org, client.agent);
      service.SetAgentDisconnected(client.org);
    }

    method HandleAgentHello(id: SocketId, hello: Hello) returns (accepted: bool)
      requires Valid() && id in sockets
      modifies this
      ensures Valid() && Next(old(Snapshot()), Greet(id, hello), Snapshot())
      ensures accepted <==> Accepts(old(Snapshot()).view, id, hello)
    {
      if sockets[id].Validating? || !Speaks(hello) { return false; }
      sockets := sockets[id := sockets[id].(capable := true)];
      accepted := true;
    }

    /** The transport's `agentFor`. */
    method FindAgent(org: Organization) returns (agent: Option<AgentId>)
      ensures agent == AgentFor(Snapshot().view, org)
    {
      if org !in activeAgents || activeAgents[org] !in sockets { return None; }
      var socket := sockets[activeAgents[org]];
      if !socket.Authenticated? || !socket.capable { return None; }
      agent := Some(socket.agent);
    }

    /** The transport's `send`: the socket the payload is emitted to. */
    method Send(org: Organization, agent: AgentId) returns (to: Option<SocketId>)
      ensures to == Recipient(Snapshot().view, org, agent)
    {
      if org !in activeAgents || activeAgents[org] !in sockets { return None; }
      var socket := sockets[activeAgents[org]];
      if !socket.Authenticated? || !socket.capable || socket.agent != agent { return None; }
      to := Some(activeAgents[org]);
    }

    /** `execute` over this transport. */
    method Execute(org: Organization, queryId: QueryId, job: JobId, sequence: nat) returns (r: Outcome<D.Started>)
      requires Valid() && Consistent(Snapshot().view)
      modifies dispatcher
      ensures Valid() && dispatcher.simulator == old(dispatcher.simulator)
      ensures dispatcher.simulator ==> r == Ok(D.Simulated) && Snapshot() == old(Snapshot())
      ensures !dispatcher.simulator ==> Next(old(Snapshot()), Dispatch(org, queryId, job, sequence), Snapshot())
      ensures !dispatcher.simulator ==>
        (r.Ok? <==> AgentFor(old(Snapshot()).view, org).Some? && job !in old(dispatcher.pending))
    {
      var agent := FindAgent(org);
      var sending := D.Sent;
      if agent.Some? {
        QueriesReachTheirAgent(Snapshot().view, org, agent.value);
        var to := Send(org, agent.value);
        sending := if to.Some? then D.Sent else D.NotSent;
      }
      r := dispatcher.Execute(org, agent, queryId, Some(job), sequence, sending);
    }

    /** `query_acknowledged_v2`: whether the job may be moved to RUNNING for the returned agent. */
    method HandleQueryAcknowledged(id: SocketId, version: int, job: JobId, queryId: QueryId, sequence: nat)
      returns (sender: Option<AgentId>)
      requires Valid() && id in sockets
      ensures sender.Some? <==> version == 2 && Heeded(Snapshot(), id, job, queryId, sequence)
      ensures sender.Some? ==>
        sender.value == sockets[id].agent && job in dispatcher.pending && dispatcher.pending[job].agent == sender.value
    {
      var client := sockets[id];
      if client.Validating? || !client.capable || version != 2 { return None; }
      var pending := dispatcher.IsPending(Quoted(client, job, queryId, sequence));
      sender := if pending then Some(client.agent) else None;
    }

    /** `query_result_v2`. */
    method HandleQueryResult(id: SocketId, version: int, job: JobId, queryId: QueryId, sequence: nat, reply: Reply)
      returns (received: bool)
      requires Valid() && id in sockets
      modifies dispatcher
      ensures Valid()
      ensures received <==> version == 2 && Heeded(old(Snapshot()), id, job, queryId, sequence)
      ensures if version == 2 then Next(old(Snapshot()), Answer(id, job, queryId, sequence, reply), Snapshot())
              else Snapshot() == old(Snapshot())
    {
      var client := sockets[id];
      if client.Validating? || !client.capable || version != 2 { return false; }
      var ref := Quoted(client, job, queryId, sequence);
      var pending := dispatcher.IsPending(ref);
      if !pending { return false; }
      match reply {
        case ErrorReply(code) => received := dispatcher.FailEntry(ref, ErrorOf(code));
        case RowsReply(rows, fits) =>
          if fits {
            received := dispatcher.ReceiveRows(ref, rows);
          } else {
            received := dispatcher.FailEntry(ref, RESULT_TOO_LARGE);
          }
      }
    }
  }
}
